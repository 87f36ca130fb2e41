/**
 The host-side vocabulary the contract is written against: token
 identifiers, accounts, ESDT transfers (one element of the bundle attached
 to a call) and the contract account's token inventory. The host supplies
 all of these; the contract only reads them.
 */
module Esdt {

  /** Rust's `u64`: nonces and the remaining-supply counter. */
  const U64_MODULUS: int := 0x1_0000_0000_0000_0000
  const U64_MAX: int := U64_MODULUS - 1
  type uint64 = n: int | 0 <= n < U64_MODULUS

  /** An opaque collection identifier; only equality is ever used. */
  datatype TokenId = TokenId(ticker: string)

  /** An account address, as returned by the host for the caller. */
  datatype Address = Address(bytes: seq<bv8>)

  /** One transfer of the attached bundle: `amount` units of token `tokenId` at `nonce`. */
  datatype EsdtTransfer = EsdtTransfer(tokenId: TokenId, nonce: uint64, amount: nat)

  type Bundle = seq<EsdtTransfer>

  /** The contract account's holdings, keyed by (token, nonce); a missing key is a zero balance. */
  type Inventory = map<(TokenId, uint64), nat>

  /** What the host answers when the contract asks for its own balance of (token, nonce). */
  function Balance(inv: Inventory, tokenId: TokenId, nonce: uint64): nat
  {
    if (tokenId, nonce) in inv then inv[(tokenId, nonce)] else 0
  }

  /** Some transfer of the bundle is of collection `id`. */
  predicate Carries(bundle: Bundle, id: TokenId)
  {
    exists i :: 0 <= i < |bundle| && bundle[i].tokenId == id
  }

  /** Every transfer of the bundle is of collection `id` (vacuously true of the empty bundle). */
  predicate AllOf(bundle: Bundle, id: TokenId)
  {
    forall i :: 0 <= i < |bundle| ==> bundle[i].tokenId == id
  }

  /** The number of transfers of the bundle that are of collection `id`. */
  function CountOf(bundle: Bundle, id: TokenId): (n: nat)
    ensures n <= |bundle|
  {
    if |bundle| == 0 then 0
    else (if bundle[0].tokenId == id then 1 else 0) + CountOf(bundle[1..], id)
  }

  /** A collection is counted at least once exactly when the bundle carries it. */
  lemma {:induction false} CountOfPositiveIffCarries(bundle: Bundle, id: TokenId)
    ensures CountOf(bundle, id) > 0 <==> Carries(bundle, id)
  {
    if |bundle| > 0 {
      CountOfPositiveIffCarries(bundle[1..], id);
      if Carries(bundle[1..], id) {
        var i :| 0 <= i < |bundle[1..]| && bundle[1..][i].tokenId == id;
        assert bundle[i + 1].tokenId == id;
      }
      if Carries(bundle, id) && bundle[0].tokenId != id {
        var i :| 0 <= i < |bundle| && bundle[i].tokenId == id;
        assert bundle[1..][i - 1].tokenId == id;
      }
    }
  }

  /** Every transfer is counted exactly when the whole bundle is of one collection. */
  lemma {:induction false} CountOfFullIffAllOf(bundle: Bundle, id: TokenId)
    ensures CountOf(bundle, id) == |bundle| <==> AllOf(bundle, id)
  {
    if |bundle| > 0 {
      CountOfFullIffAllOf(bundle[1..], id);
      if AllOf(bundle, id) {
        forall i | 0 <= i < |bundle[1..]|
          ensures bundle[1..][i].tokenId == id
        {
          assert bundle[i + 1].tokenId == id;
        }
      }
      if CountOf(bundle, id) == |bundle| {
        assert bundle[0].tokenId == id;
        forall i | 0 <= i < |bundle|
          ensures bundle[i].tokenId == id
        {
          if i > 0 {
            assert bundle[1..][i - 1].tokenId == id;
          }
        }
      }
    }
  }

  /** Two different collections together can be counted no more often than the bundle is long. */
  lemma {:induction false} CountOfDisjoint(bundle: Bundle, a: TokenId, b: TokenId)
    requires a != b
    ensures CountOf(bundle, a) + CountOf(bundle, b) <= |bundle|
  {
    if |bundle| > 0 {
      CountOfDisjoint(bundle[1..], a, b);
    }
  }
}
