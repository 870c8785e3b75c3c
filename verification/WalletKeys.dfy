/**
 * The idempotency keys as the text stored in `wallet_entries`. The whole
 * exactly-once guarantee of fees and refunds rests on these texts never
 * colliding, so that is proved here and the other modules use the structured
 * key.
 */
module WalletKeys {
  import opened Common
  import opened Ledger

  const BID_FEE_PREFIX := "bid_fee:"
  const REFUND_PREFIX := "auction-refund:"

  /** The stored text of a key, given how identifiers are written. */
  function Render(key: EntryKey, text: nat -> string): string {
    match key
    case BidFeeKey(request) => BID_FEE_PREFIX + request
    case RefundKey(auction, user) => REFUND_PREFIX + text(auction) + ":" + text(user)
    case ClientKey(raw) => raw
  }

  /** Canonical uuid text: one text per identifier, and no colon in it. */
  ghost predicate CanonicalText(text: nat -> string) {
    && (forall i, j :: text(i) == text(j) ==> i == j)
    && (forall i :: ':' !in text(i))
  }

  /** Keys supplied by operators and payment callbacks keep out of the two reserved spaces. */
  predicate Permitted(key: EntryKey) {
    key.ClientKey? ==> !(BID_FEE_PREFIX <= key.text) && !(REFUND_PREFIX <= key.text)
  }

  /** Text up to the first colon is determined by the joined text. */
  lemma SplitAtColon(a: string, b: string, c: string, d: string)
    requires ':' !in a && ':' !in c
    ensures a + ":" + b == c + ":" + d ==> a == c && b == d
  {
    var left, right := a + ":" + b, c + ":" + d;
    if |a| < |c| {
      assert left[|a|] == ':' && right[|a|] == c[|a|];
    } else if |c| < |a| {
      assert right[|c|] == ':' && left[|c|] == a[|c|];
    } else {
      assert a == left[..|a|] && c == right[..|a|];
      assert b == left[|a| + 1..] && d == right[|a| + 1..];
    }
  }

  lemma SamePrefix(p: string, a: string, b: string)
    ensures p + a == p + b ==> a == b
  {
    assert a == (p + a)[|p|..] && b == (p + b)[|p|..];
  }

  /** Keys share a stored text only when they are the same key. */
  lemma RenderInjective(k1: EntryKey, k2: EntryKey, text: nat -> string)
    requires CanonicalText(text) && Permitted(k1) && Permitted(k2)
    ensures Render(k1, text) == Render(k2, text) <==> k1 == k2
  {
    var t1, t2 := Render(k1, text), Render(k2, text);
    match (k1, k2)
    case (BidFeeKey(a), BidFeeKey(b)) =>
      SamePrefix(BID_FEE_PREFIX, a, b);
    case (RefundKey(a, u), RefundKey(b, v)) =>
      assert t1 == REFUND_PREFIX + (text(a) + ":" + text(u));
      assert t2 == REFUND_PREFIX + (text(b) + ":" + text(v));
      SamePrefix(REFUND_PREFIX, text(a) + ":" + text(u), text(b) + ":" + text(v));
      SplitAtColon(text(a), text(u), text(b), text(v));
    case (BidFeeKey(_), RefundKey(_, _)) => assert t1[0] == 'b' && t2[0] == 'a';
    case (RefundKey(_, _), BidFeeKey(_)) => assert t1[0] == 'a' && t2[0] == 'b';
    case (ClientKey(_), ClientKey(_)) =>
    case (ClientKey(_), BidFeeKey(_)) => assert BID_FEE_PREFIX <= t2;
    case (BidFeeKey(_), ClientKey(_)) => assert BID_FEE_PREFIX <= t1;
    case (ClientKey(_), RefundKey(_, _)) => assert REFUND_PREFIX <= t2;
    case (RefundKey(_, _), ClientKey(_)) => assert REFUND_PREFIX <= t1;
  }
}
