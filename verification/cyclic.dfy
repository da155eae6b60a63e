/** Wrap-around navigation over a non-empty list of cards, as the carousel
    (cards.js) and the dashboard modal (dashboard.js) compute it. Every
    dividend below is non-negative, so JavaScript's truncating `%` and Dafny's
    Euclidean `%` agree on it. */
module Cyclic {

  /** `(i + 1) % len`: the next card, wrapping from the last to the first. */
  function WrapNext(i: nat, len: nat): (r: nat)
    requires len > 0
    ensures r < len
    ensures i < len ==> r == if i == len - 1 then 0 else i + 1
  {
    (i + 1) % len
  }

  /** `(i - 1 + len) % len`: the previous card, wrapping from the first to the last. */
  function WrapPrev(i: nat, len: nat): (r: nat)
    requires len > 0
    ensures r < len
    ensures i < len ==> r == if i == 0 then len - 1 else i - 1
  {
    (i - 1 + len) % len
  }

  /** `(i + direction + len) % len`, the carousel's `slide(direction)` for a
      direction of 1 or -1. */
  function Rotate(i: nat, direction: int, len: nat): (r: nat)
    requires len > 0
    requires direction == 1 || direction == -1
    ensures r < len
  {
    (i + direction + len) % len
  }

  /** From a card of the list, `slide(1)` is the next step and `slide(-1)`
      the previous one. */
  lemma RotateSteps(i: nat, len: nat)
    requires i < len
    ensures Rotate(i, 1, len) == WrapNext(i, len)
    ensures Rotate(i, -1, len) == WrapPrev(i, len)
  {
    ModOnce(i + 1 + len, len);
    ModOnce(i + 1, len);
    ModOnce(i - 1 + len, len);
  }

  /** Up to two turns, `%` subtracts the length at most twice. */
  lemma ModOnce(x: int, len: nat)
    requires len > 0 && 0 <= x <= 2 * len
    ensures x % len == if x < len then x else if x < 2 * len then x - len else 0
  {
    var q, m := x / len, x % len;
    assert x == q * len + m && 0 <= m < len;
    assert 0 <= q <= 2;
  }

  /** Moving forward and then back, or back and then forward, restores the index. */
  lemma NextPrevInverse(i: nat, len: nat)
    requires i < len
    ensures WrapPrev(WrapNext(i, len), len) == i
    ensures WrapNext(WrapPrev(i, len), len) == i
  {
  }

  /** The index reached from `i` after `k` forward steps. */
  function NextTimes(i: nat, k: nat, len: nat): (r: nat)
    requires len > 0
    ensures r < len
  {
    if k == 0 then i % len else WrapNext(NextTimes(i, k - 1, len), len)
  }

  /** Up to one full turn, `k` forward steps add `k` and wrap once past the end. */
  lemma {:induction false} NextTimesValue(i: nat, k: nat, len: nat)
    requires i < len && k <= len
    ensures NextTimes(i, k, len) == if i + k < len then i + k else i + k - len
  {
    if k > 0 {
      NextTimesValue(i, k - 1, len);
    }
  }

  /** `len` forward steps bring every index back to where it started. */
  lemma FullTurn(i: nat, len: nat)
    requires i < len
    ensures NextTimes(i, len, len) == i
  {
    NextTimesValue(i, len, len);
  }
}
