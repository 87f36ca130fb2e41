/**
 The contract over a sequence of `evolve_nft` calls. The host runs calls one
 at a time and keeps a call's storage writes only when the call succeeds.
 A call counts as successful here once the contract's checks pass; whether
 the host can then make the payout (it needs `amount` units where the balance
 check guarantees one) is not modelled, see `EvolvePayoutCoveredIffAmountAtMostOne`.
 */
module Lifecycle {
  import opened Esdt
  import opened NftEvolution

  /** One `evolve_nft` invocation: who calls, what they attach, what the contract account holds at that moment. */
  datatype Call = Call(caller: Address, bundle: Bundle, inventory: Inventory)

  /** The storage after a run, and the payouts of its successful calls in order. */
  datatype Trace = Trace(state: State, payouts: seq<Payout>)

  /**
   The storage the host commits after one call: the new storage when the
   contract's checks pass, the old one when a check fails.
   */
  function Commit(s: State, c: Call): (s': State)
    ensures EvolveNft(s, c.caller, c.bundle, c.inventory).Err? ==> s' == s
    ensures s'.amount == s.amount
    ensures s'.firstCollection == s.firstCollection
    ensures s'.secondCollection == s.secondCollection
    ensures s'.upgradedCollection == s.upgradedCollection
  {
    match EvolveNft(s, c.caller, c.bundle, c.inventory)
    case Ok(e) => e.state
    case Err(_) => s
  }

  /**
   The host applies the calls in order, committing each one and collecting
   the payouts of the successful ones: at most one payout per call, and only
   the counter of the storage ever changes.
   */
  function Run(s: State, calls: seq<Call>): (t: Trace)
    ensures |t.payouts| <= |calls|
    ensures t.state.(remainingUpgraded := s.remainingUpgraded) == s
    decreases |calls|
  {
    if |calls| == 0 then Trace(s, [])
    else
      var c := calls[0];
      var t := Run(Commit(s, c), calls[1..]);
      match EvolveNft(s, c.caller, c.bundle, c.inventory)
      case Ok(e) => Trace(t.state, [e.payout] + t.payouts)
      case Err(_) => t
  }

  /** Every inventory the calls see is well formed for the upgraded collection. */
  predicate AllWellFormed(calls: seq<Call>, upgraded: TokenId)
  {
    forall k :: 0 <= k < |calls| ==> WellFormedInventory(calls[k].inventory, upgraded)
  }

  /**
   Supply is conserved along any run over well-formed inventories: the
   payouts plus what remains equal the initial counter, the configuration
   never changes, and the k-th payout is the upgraded token at nonce
   (initial counter - k), so the nonces paid out are distinct and descend to 1.
   */
  lemma {:induction false} RunConservesSupply(s: State, calls: seq<Call>)
    requires AllWellFormed(calls, s.upgradedCollection)
    ensures var t := Run(s, calls);
              && |t.payouts| + t.state.remainingUpgraded == s.remainingUpgraded
              && t.state.(remainingUpgraded := s.remainingUpgraded) == s
              && forall k :: 0 <= k < |t.payouts| ==>
                   && t.payouts[k].tokenId == s.upgradedCollection
                   && t.payouts[k].nonce == s.remainingUpgraded - k
                   && t.payouts[k].amount == s.amount
                   && t.payouts[k].nonce >= 1
    decreases |calls|
  {
    if |calls| > 0 {
      assert AllWellFormed(calls[1..], s.upgradedCollection) by {
        forall k | 0 <= k < |calls[1..]|
          ensures WellFormedInventory(calls[1..][k].inventory, s.upgradedCollection)
        {
          assert calls[1..][k] == calls[k + 1];
        }
      }
      assert WellFormedInventory(calls[0].inventory, s.upgradedCollection);
      var c := calls[0];
      match EvolveNft(s, c.caller, c.bundle, c.inventory)
      case Ok(e) =>
        EvolveSuccessPayout(s, c.caller, c.bundle, c.inventory);
        assert s.remainingUpgraded > 0;
        assert Commit(s, c) == s.(remainingUpgraded := s.remainingUpgraded - 1);
        RunConservesSupply(Commit(s, c), calls[1..]);
      case Err(_) =>
        RunConservesSupply(s, calls[1..]);
    }
  }

  /** Once the counter is 0, no further call with a well-formed inventory succeeds or pays out. */
  lemma {:induction false} ExhaustedSupplyPaysNothing(s: State, calls: seq<Call>)
    requires s.remainingUpgraded == 0
    requires AllWellFormed(calls, s.upgradedCollection)
    ensures Run(s, calls) == Trace(s, [])
    decreases |calls|
  {
    if |calls| > 0 {
      assert WellFormedInventory(calls[0].inventory, s.upgradedCollection);
      EvolveAtZeroRejected(s, calls[0].caller, calls[0].bundle, calls[0].inventory);
      assert AllWellFormed(calls[1..], s.upgradedCollection) by {
        forall k | 0 <= k < |calls[1..]|
          ensures WellFormedInventory(calls[1..][k].inventory, s.upgradedCollection)
        {
          assert calls[1..][k] == calls[k + 1];
        }
      }
      ExhaustedSupplyPaysNothing(s, calls[1..]);
    }
  }

  // ---------------------------------------------------------------------
  // A concrete deployment
  // ---------------------------------------------------------------------

  const First: TokenId := TokenId("FIRST-abc")
  const Second: TokenId := TokenId("SECOND-def")
  const Upgraded: TokenId := TokenId("UPGRADED-ghi")

  /** The bundle of one token of each input collection. */
  function PairBundle(firstNonce: uint64, secondNonce: uint64): (b: Bundle)
    ensures |b| == 2 && Carries(b, First) && Carries(b, Second)
  {
    var b := [EsdtTransfer(First, firstNonce, 1), EsdtTransfer(Second, secondNonce, 1)];
    assert b[0].tokenId == First && b[1].tokenId == Second;
    b
  }

  /** The contract holds one upgraded token at each of the nonces 1..n. */
  function StockedInventory(n: nat): (inv: Inventory)
    ensures forall k: uint64 :: 1 <= k <= n ==> Balance(inv, Upgraded, k) == 1
    ensures WellFormedInventory(inv, Upgraded)
  {
    map k: uint64 | 1 <= k <= n && k < U64_MODULUS :: (Upgraded, k) := 1
  }

  /**
   Deploy with amount 1 (the payout is covered only for an amount of at most
   1, since the balance check pins the holding to one unit) and three
   upgraded tokens, then exchange a
   pair: the caller receives the upgraded token at nonce 3, which the
   contract holds, and the counter drops to 2.
   */
  lemma FirstExchangeScenario(caller: Address)
    ensures var s := Init(1, First, Second, Upgraded, 3);
              var r := EvolveNft(s, caller, PairBundle(1, 1), StockedInventory(3));
              && r.Ok?
              && r.value.payout == Payout(caller, Upgraded, 3, 1, "Success")
              && r.value.payout.amount <= Balance(StockedInventory(3), Upgraded, 3)
              && r.value.state.remainingUpgraded == 2
  {
    var s := Init(1, First, Second, Upgraded, 3);
    assert Balance(StockedInventory(3), Upgraded, 3) == 1;
  }

  /**
   In the same deployment three exchanges succeed and pay nonces 3, 2, 1;
   a fourth is rejected because nothing is held at nonce 0.
   */
  lemma FourthExchangeRejected(caller: Address)
    ensures var s0 := Init(1, First, Second, Upgraded, 3);
              var c := Call(caller, PairBundle(1, 1), StockedInventory(3));
              var t := Run(s0, [c, c, c]);
              && |t.payouts| == 3
              && (forall k :: 0 <= k < 3 ==> t.payouts[k].nonce == 3 - k)
              && t.state.remainingUpgraded == 0
              && EvolveNft(t.state, caller, PairBundle(1, 1), StockedInventory(3)) == Err(NftDoesNotExist)
  {
    var s0 := Init(1, First, Second, Upgraded, 3);
    var inv := StockedInventory(3);
    var c := Call(caller, PairBundle(1, 1), inv);
    assert Balance(inv, Upgraded, 3) == 1;
    assert Balance(inv, Upgraded, 2) == 1;
    assert Balance(inv, Upgraded, 1) == 1;
    var s1 := s0.(remainingUpgraded := 2);
    var s2 := s0.(remainingUpgraded := 1);
    var s3 := s0.(remainingUpgraded := 0);
    assert EvolveNft(s0, caller, c.bundle, inv).Ok?;
    assert EvolveNft(s0, caller, c.bundle, inv).value.state == s1;
    assert EvolveNft(s1, caller, c.bundle, inv).value.state == s2;
    assert EvolveNft(s2, caller, c.bundle, inv).value.state == s3;
    assert [c, c, c][1..] == [c, c];
    assert [c, c][1..] == [c];
    assert [c][1..] == [];
    assert Run(s3, []) == Trace(s3, []);
    assert |Run(s2, [c]).payouts| == 1 && Run(s2, [c]).state == s3;
    assert |Run(s1, [c, c]).payouts| == 2 && Run(s1, [c, c]).state == s3;
    assert |Run(s0, [c, c, c]).payouts| == 3 && Run(s0, [c, c, c]).state == s3;
    EvolveAtZeroRejected(s3, caller, c.bundle, inv);
  }
}
