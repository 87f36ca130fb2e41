/**
 The `NftEvolution` contract: a holder who attaches one token of each of two
 configured collections receives the token of the upgraded collection whose
 nonce is the current remaining-supply counter, and the counter goes down.

 Storage is an immutable `State` record, one field per storage key. Each
 endpoint is given twice: as a pure transition function (`EvolveNft`,
 `StoreNfts`) that says what the call decides, and as a method
 (`EvolveNftSteps`, `StoreNftsSteps`) that runs the endpoint's statements in
 source order, storage writes included, and is proved to agree with the
 function.
 */
module NftEvolution {
  import opened Esdt

  /** The five storage entries of the contract. */
  datatype State = State(
    amount: nat,
    firstCollection: TokenId,
    secondCollection: TokenId,
    upgradedCollection: TokenId,
    remainingUpgraded: uint64)

  /** The reasons a call is rejected; `Message` gives the text each carries. */
  datatype Error =
    | WrongBundleSize     // evolve: the bundle does not hold exactly two transfers
    | MissingCollection   // evolve: one of the two configured collections is absent
    | NftDoesNotExist     // evolve: the contract does not hold exactly one upgraded token at the counter's nonce
    | WrongCollection     // store: a transfer is not of the upgraded collection
    | NotOwner            // store: the framework's owner-only guard

  function Message(e: Error): string
  {
    match e
    case WrongBundleSize => "Transaction requires exactly 2 nfts!"
    case MissingCollection => "You need one nft from each of the 2 collections!"
    case NftDoesNotExist => "Nft does not exist!"
    case WrongCollection => "Wrong collection!"
    case NotOwner => "Endpoint can only be called by owner"
  }

  datatype Result<T> = Ok(value: T) | Err(error: Error)

  /** The one outgoing transfer `evolve_nft` asks the host to make. */
  datatype Payout = Payout(to: Address, tokenId: TokenId, nonce: uint64, amount: nat, data: string)

  /** What a successful `evolve_nft` leaves behind: the new storage and the payout. */
  datatype Evolved = Evolved(state: State, payout: Payout)

  // ---------------------------------------------------------------------
  // Storage accessors
  // ---------------------------------------------------------------------

  /** Each getter reads its own entry: writing the value read back into that entry changes nothing. */
  function GetAmount(s: State): (a: nat)
    ensures s.(amount := a) == s
  {
    s.amount
  }

  function GetFirstCollectionIdentifier(s: State): (id: TokenId)
    ensures s.(firstCollection := id) == s
  {
    s.firstCollection
  }

  function GetSecondCollectionIdentifier(s: State): (id: TokenId)
    ensures s.(secondCollection := id) == s
  {
    s.secondCollection
  }

  function GetUpgradedCollectionIdentifier(s: State): (id: TokenId)
    ensures s.(upgradedCollection := id) == s
  {
    s.upgradedCollection
  }

  function GetNumberOfRemainingUpgradedNfts(s: State): (n: uint64)
    ensures s.(remainingUpgraded := n) == s
  {
    s.remainingUpgraded
  }

  /** Each setter writes its own entry and leaves the other four as they were. */
  function SetAmount(s: State, amount: nat): (s': State)
    ensures GetAmount(s') == amount
    ensures s'.(amount := s.amount) == s
  {
    s.(amount := amount)
  }

  function SetFirstCollectionIdentifier(s: State, id: TokenId): (s': State)
    ensures GetFirstCollectionIdentifier(s') == id
    ensures s'.(firstCollection := s.firstCollection) == s
  {
    s.(firstCollection := id)
  }

  function SetSecondCollectionIdentifier(s: State, id: TokenId): (s': State)
    ensures GetSecondCollectionIdentifier(s') == id
    ensures s'.(secondCollection := s.secondCollection) == s
  {
    s.(secondCollection := id)
  }

  function SetUpgradedCollectionIdentifier(s: State, id: TokenId): (s': State)
    ensures GetUpgradedCollectionIdentifier(s') == id
    ensures s'.(upgradedCollection := s.upgradedCollection) == s
  {
    s.(upgradedCollection := id)
  }

  function SetNumberOfRemainingUpgradedNfts(s: State, n: uint64): (s': State)
    ensures GetNumberOfRemainingUpgradedNfts(s') == n
    ensures s'.(remainingUpgraded := s.remainingUpgraded) == s
  {
    s.(remainingUpgraded := n)
  }

  /** Storage of a freshly deployed account: every entry reads as its type's default. */
  const EmptyStorage: State := State(0, TokenId(""), TokenId(""), TokenId(""), 0)

  // ---------------------------------------------------------------------
  // init
  // ---------------------------------------------------------------------

  /**
   `init` performs the five storage writes in source order, with no
   validation; every getter then reads back exactly the value it was given.
   */
  function Init(amount: nat, first: TokenId, second: TokenId, upgraded: TokenId, remaining: uint64): (s: State)
    ensures GetAmount(s) == amount
    ensures GetFirstCollectionIdentifier(s) == first
    ensures GetSecondCollectionIdentifier(s) == second
    ensures GetUpgradedCollectionIdentifier(s) == upgraded
    ensures GetNumberOfRemainingUpgradedNfts(s) == remaining
  {
    var s1 := SetAmount(EmptyStorage, amount);
    var s2 := SetFirstCollectionIdentifier(s1, first);
    var s3 := SetSecondCollectionIdentifier(s2, second);
    var s4 := SetUpgradedCollectionIdentifier(s3, upgraded);
    SetNumberOfRemainingUpgradedNfts(s4, remaining)
  }

  // ---------------------------------------------------------------------
  // evolve_nft
  // ---------------------------------------------------------------------

  /** Rust's `u64` subtraction of one in a build without overflow checks: 0 wraps to the maximum. */
  function WrappingDecrement(n: uint64): (r: uint64)
    ensures (r + 1) % U64_MODULUS == n
    ensures n > 0 ==> r < n
  {
    if n == 0 then U64_MAX else n - 1
  }

  /** The two configured collections are each present in the bundle (presence only, not counts). */
  predicate HasBothCollections(s: State, bundle: Bundle)
  {
    Carries(bundle, s.firstCollection) && Carries(bundle, s.secondCollection)
  }

  /**
   The transition of `evolve_nft`, with the host facts (caller, bundle, own
   inventory) as inputs. It fails only with one of its three errors; on
   success it pays the caller a token the contract holds exactly once and
   writes the counter and nothing else.
   */
  function EvolveNft(s: State, caller: Address, bundle: Bundle, inv: Inventory): (r: Result<Evolved>)
    ensures r.Err? ==> r.error == WrongBundleSize || r.error == MissingCollection || r.error == NftDoesNotExist
    ensures r.Ok? ==> |bundle| == 2
    ensures r.Ok? ==> r.value.payout.to == caller
    ensures r.Ok? ==> Balance(inv, r.value.payout.tokenId, r.value.payout.nonce) == 1
    ensures r.Ok? ==> r.value.state.(remainingUpgraded := s.remainingUpgraded) == s
  {
    if |bundle| != 2 then Err(WrongBundleSize)
    else if !HasBothCollections(s, bundle) then Err(MissingCollection)
    else if Balance(inv, s.upgradedCollection, s.remainingUpgraded) != 1 then Err(NftDoesNotExist)
    else
      var payout := Payout(caller, s.upgradedCollection, s.remainingUpgraded, s.amount, "Success");
      Ok(Evolved(SetNumberOfRemainingUpgradedNfts(s, WrappingDecrement(s.remainingUpgraded)), payout))
  }

  /** A bundle whose length is not 2 is rejected for its size, whatever it carries. */
  lemma EvolveRejectsWrongSize(s: State, caller: Address, bundle: Bundle, inv: Inventory)
    requires |bundle| != 2
    ensures EvolveNft(s, caller, bundle, inv) == Err(WrongBundleSize)
    ensures Message(EvolveNft(s, caller, bundle, inv).error) == "Transaction requires exactly 2 nfts!"
  {
  }

  /** A two-transfer bundle is rejected, before inventory is consulted, unless both collections are present. */
  lemma EvolveRejectsMissingCollection(s: State, caller: Address, bundle: Bundle, inv: Inventory)
    requires |bundle| == 2
    requires !Carries(bundle, s.firstCollection) || !Carries(bundle, s.secondCollection)
    ensures EvolveNft(s, caller, bundle, inv) == Err(MissingCollection)
    ensures Message(EvolveNft(s, caller, bundle, inv).error) == "You need one nft from each of the 2 collections!"
  {
  }

  /**
   The presence test is enough when the collections differ: a 2-transfer
   bundle that passes holds exactly one transfer of each collection, so a
   duplicate of either is rejected.
   */
  lemma {:induction false} EvolveDistinctCollectionsOneOfEach(s: State, caller: Address, bundle: Bundle, inv: Inventory)
    requires s.firstCollection != s.secondCollection
    requires EvolveNft(s, caller, bundle, inv).Ok?
    ensures CountOf(bundle, s.firstCollection) == 1
    ensures CountOf(bundle, s.secondCollection) == 1
  {
    CountOfPositiveIffCarries(bundle, s.firstCollection);
    CountOfPositiveIffCarries(bundle, s.secondCollection);
    CountOfDisjoint(bundle, s.firstCollection, s.secondCollection);
  }

  /**
   When the two configured collections coincide, the presence test accepts
   two tokens of that one collection: nothing counts them.
   */
  lemma EvolveSameCollectionAcceptsTwoOfOne(s: State, caller: Address, t1: EsdtTransfer, t2: EsdtTransfer, inv: Inventory)
    requires s.firstCollection == s.secondCollection
    requires t1.tokenId == s.firstCollection && t2.tokenId == s.firstCollection
    requires Balance(inv, s.upgradedCollection, s.remainingUpgraded) == 1
    ensures EvolveNft(s, caller, [t1, t2], inv).Ok?
    ensures CountOf([t1, t2], s.firstCollection) == 2
  {
    assert [t1, t2][0].tokenId == s.firstCollection;
  }

  /**
   Worse, with coinciding collections one token of that collection plus any
   other transfer passes: the second transfer need not be of either collection.
   */
  lemma EvolveSameCollectionAcceptsOnePlusStray(s: State, caller: Address, t1: EsdtTransfer, t2: EsdtTransfer, inv: Inventory)
    requires s.firstCollection == s.secondCollection
    requires t1.tokenId == s.firstCollection && t2.tokenId != s.firstCollection
    requires Balance(inv, s.upgradedCollection, s.remainingUpgraded) == 1
    ensures EvolveNft(s, caller, [t1, t2], inv).Ok?
    ensures CountOf([t1, t2], s.firstCollection) == 1
  {
    assert [t1, t2][0].tokenId == s.firstCollection;
  }

  /** The bundle check looks only at identifiers: nonces and quantities of the incoming transfers never matter. */
  lemma EvolveIgnoresIncomingNoncesAndAmounts(s: State, caller: Address, b1: Bundle, b2: Bundle, inv: Inventory)
    requires |b1| == |b2|
    requires forall i :: 0 <= i < |b1| ==> b1[i].tokenId == b2[i].tokenId
    ensures EvolveNft(s, caller, b1, inv) == EvolveNft(s, caller, b2, inv)
  {
    assert Carries(b1, s.firstCollection) == Carries(b2, s.firstCollection);
    assert Carries(b1, s.secondCollection) == Carries(b2, s.secondCollection);
  }

  /** A valid bundle is still rejected unless the contract holds exactly one upgraded token at nonce = counter. */
  lemma EvolveRequiresSingleUnitAtCounter(s: State, caller: Address, bundle: Bundle, inv: Inventory)
    requires |bundle| == 2 && HasBothCollections(s, bundle)
    ensures EvolveNft(s, caller, bundle, inv).Ok? <==> Balance(inv, s.upgradedCollection, s.remainingUpgraded) == 1
    ensures Balance(inv, s.upgradedCollection, s.remainingUpgraded) != 1 ==>
              EvolveNft(s, caller, bundle, inv) == Err(NftDoesNotExist)
    ensures Balance(inv, s.upgradedCollection, s.remainingUpgraded) != 1 ==>
              Message(EvolveNft(s, caller, bundle, inv).error) == "Nft does not exist!"
  {
  }

  /**
   Success happens exactly when all three guards pass; the payout is then the
   upgraded token at the pre-call counter, in quantity `amount`, to the caller.
   */
  lemma EvolveSuccessPayout(s: State, caller: Address, bundle: Bundle, inv: Inventory)
    ensures EvolveNft(s, caller, bundle, inv).Ok? <==>
              |bundle| == 2 && Carries(bundle, s.firstCollection) && Carries(bundle, s.secondCollection)
              && Balance(inv, s.upgradedCollection, s.remainingUpgraded) == 1
    ensures EvolveNft(s, caller, bundle, inv).Ok? ==>
              var p := EvolveNft(s, caller, bundle, inv).value.payout;
              && p.to == caller
              && p.tokenId == GetUpgradedCollectionIdentifier(s)
              && p.nonce == GetNumberOfRemainingUpgradedNfts(s)
              && p.amount == GetAmount(s)
              && Balance(inv, p.tokenId, p.nonce) == 1
  {
  }

  /**
   The balance check and the payout disagree about quantity: the balance
   check lets a call through only when exactly one unit is held, while the payout asks
   for `amount` units of it. The requested payout is covered by the holding
   exactly when `amount` is at most 1; for any larger `amount` every call
   that passes the checks requests more than the contract holds, and the
   host's transfer would fail.
   */
  lemma EvolvePayoutCoveredIffAmountAtMostOne(s: State, caller: Address, bundle: Bundle, inv: Inventory)
    requires EvolveNft(s, caller, bundle, inv).Ok?
    ensures var p := EvolveNft(s, caller, bundle, inv).value.payout;
              p.amount <= Balance(inv, p.tokenId, p.nonce) <==> GetAmount(s) <= 1
    ensures var p := EvolveNft(s, caller, bundle, inv).value.payout;
              GetAmount(s) > 1 ==> p.amount > Balance(inv, p.tokenId, p.nonce)
  {
  }

  /**
   On success the counter goes down by one (modulo 2^64) and the four
   configuration entries are untouched.
   */
  lemma EvolveSuccessState(s: State, caller: Address, bundle: Bundle, inv: Inventory)
    requires EvolveNft(s, caller, bundle, inv).Ok?
    ensures var s' := EvolveNft(s, caller, bundle, inv).value.state;
              && (GetNumberOfRemainingUpgradedNfts(s') + 1) % U64_MODULUS == GetNumberOfRemainingUpgradedNfts(s)
              && (GetNumberOfRemainingUpgradedNfts(s) > 0 ==>
                    GetNumberOfRemainingUpgradedNfts(s') == GetNumberOfRemainingUpgradedNfts(s) - 1)
              && GetAmount(s') == GetAmount(s)
              && GetFirstCollectionIdentifier(s') == GetFirstCollectionIdentifier(s)
              && GetSecondCollectionIdentifier(s') == GetSecondCollectionIdentifier(s)
              && GetUpgradedCollectionIdentifier(s') == GetUpgradedCollectionIdentifier(s)
  {
  }

  /**
   The underflow as written: at counter 0, if the host did report one unit
   at nonce 0, the decrement would wrap the counter to 2^64 - 1.
   */
  lemma EvolveAtZeroWraps(s: State, caller: Address, bundle: Bundle, inv: Inventory)
    requires s.remainingUpgraded == 0
    requires |bundle| == 2 && HasBothCollections(s, bundle)
    requires Balance(inv, s.upgradedCollection, 0) == 1
    ensures EvolveNft(s, caller, bundle, inv).Ok?
    ensures EvolveNft(s, caller, bundle, inv).value.state.remainingUpgraded == U64_MAX
  {
  }

  /**
   A well-formed inventory of the upgraded collection has no unit at nonce 0:
   the host numbers the tokens of a collection from 1.
   */
  predicate WellFormedInventory(inv: Inventory, upgraded: TokenId)
  {
    Balance(inv, upgraded, 0) == 0
  }

  /** With a well-formed inventory the counter never underflows: at 0 every call fails and nothing is paid. */
  lemma EvolveAtZeroRejected(s: State, caller: Address, bundle: Bundle, inv: Inventory)
    requires s.remainingUpgraded == 0
    requires WellFormedInventory(inv, s.upgradedCollection)
    ensures EvolveNft(s, caller, bundle, inv).Err?
    ensures |bundle| == 2 && HasBothCollections(s, bundle) ==>
              EvolveNft(s, caller, bundle, inv) == Err(NftDoesNotExist)
  {
  }

  /**
   The endpoint's statements in source order. Storage is written once, at
   the very end; every `require!` returns before it, so a rejected call
   leaves storage as it found it even before the host rolls anything back.
   */
  method EvolveNftSteps(s: State, caller: Address, bundle: Bundle, inv: Inventory)
    returns (storage: State, r: Result<Payout>)
    ensures r.Err? ==> storage == s
    ensures r.Err? ==> EvolveNft(s, caller, bundle, inv) == Err(r.error)
    ensures r.Ok? ==> EvolveNft(s, caller, bundle, inv) == Ok(Evolved(storage, r.value))
  {
    storage := s;
    var expectedFirst := GetFirstCollectionIdentifier(storage);
    var expectedSecond := GetSecondCollectionIdentifier(storage);
    var hasFirst := false;
    var hasSecond := false;

    if |bundle| != 2 {
      return storage, Err(WrongBundleSize);
    }

    var i := 0;
    while i < |bundle|
      invariant 0 <= i <= |bundle|
      invariant hasFirst <==> exists j :: 0 <= j < i && bundle[j].tokenId == expectedFirst
      invariant hasSecond <==> exists j :: 0 <= j < i && bundle[j].tokenId == expectedSecond
    {
      if bundle[i].tokenId == expectedFirst {
        hasFirst := true;
      }
      if bundle[i].tokenId == expectedSecond {
        hasSecond := true;
      }
      i := i + 1;
    }

    if !(hasFirst && hasSecond) {
      return storage, Err(MissingCollection);
    }

    var balance := Balance(inv, GetUpgradedCollectionIdentifier(storage), GetNumberOfRemainingUpgradedNfts(storage));
    if balance != 1 {
      return storage, Err(NftDoesNotExist);
    }

    var payout := Payout(caller, GetUpgradedCollectionIdentifier(storage),
                         GetNumberOfRemainingUpgradedNfts(storage), GetAmount(storage), "Success");
    var remaining := WrappingDecrement(GetNumberOfRemainingUpgradedNfts(storage));
    storage := SetNumberOfRemainingUpgradedNfts(storage, remaining);
    r := Ok(payout);
  }

  // ---------------------------------------------------------------------
  // store_nfts
  // ---------------------------------------------------------------------

  /**
   The deposit gate: the owner-only guard first, then every transfer must be
   of the upgraded collection. It never writes storage.
   */
  function StoreNfts(s: State, owner: Address, caller: Address, bundle: Bundle): (r: Result<()>)
    ensures r.Ok? ==> caller == owner
    ensures r.Err? ==> r.error == NotOwner || r.error == WrongCollection
    ensures r.Ok? ==> forall i :: 0 <= i < |bundle| ==> bundle[i].tokenId == s.upgradedCollection
  {
    if caller != owner then Err(NotOwner)
    else if !AllOf(bundle, s.upgradedCollection) then Err(WrongCollection)
    else Ok(())
  }

  /** A deposit is accepted exactly when the owner sends only upgraded tokens; the empty bundle is accepted. */
  lemma {:induction false} StoreNftsAcceptsExactly(s: State, owner: Address, caller: Address, bundle: Bundle)
    ensures StoreNfts(s, owner, caller, bundle).Ok? <==>
              caller == owner && forall i :: 0 <= i < |bundle| ==> bundle[i].tokenId == s.upgradedCollection
    ensures caller != owner ==> StoreNfts(s, owner, caller, bundle) == Err(NotOwner)
    ensures caller == owner && (exists i :: 0 <= i < |bundle| && bundle[i].tokenId != s.upgradedCollection) ==>
              StoreNfts(s, owner, caller, bundle) == Err(WrongCollection)
    ensures caller == owner && (exists i :: 0 <= i < |bundle| && bundle[i].tokenId != s.upgradedCollection) ==>
              Message(StoreNfts(s, owner, caller, bundle).error) == "Wrong collection!"
    ensures StoreNfts(s, owner, caller, bundle).Ok? <==>
              caller == owner && CountOf(bundle, s.upgradedCollection) == |bundle|
    ensures caller == owner ==> StoreNfts(s, owner, caller, []).Ok?
  {
    CountOfFullIffAllOf(bundle, s.upgradedCollection);
    if caller == owner && !AllOf(bundle, s.upgradedCollection) {
      assert StoreNfts(s, owner, caller, bundle) == Err(WrongCollection);
    }
  }

  /** The endpoint's loop, returning at the first transfer of another collection. */
  method StoreNftsSteps(s: State, owner: Address, caller: Address, bundle: Bundle)
    returns (storage: State, r: Result<()>)
    ensures storage == s
    ensures r == StoreNfts(s, owner, caller, bundle)
  {
    storage := s;
    if caller != owner {
      return storage, Err(NotOwner);
    }
    var expected := GetUpgradedCollectionIdentifier(storage);
    var i := 0;
    while i < |bundle|
      invariant 0 <= i <= |bundle|
      invariant forall j :: 0 <= j < i ==> bundle[j].tokenId == expected
    {
      if bundle[i].tokenId != expected {
        return storage, Err(WrongCollection);
      }
      i := i + 1;
    }
    r := Ok(());
  }
}
