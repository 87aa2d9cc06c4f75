/**
 * The wrap-around index arithmetic shared by the two carousels on the
 * home page: `(i + 1) % n` for "next" and `(i - 1 + n) % n` for "previous".
 * Indices are never negative there, so JavaScript's `%` and Dafny's agree.
 */
module Carousel {

  /** "next": one step forward, from the last index back to the first. */
  function Forward(i: nat, n: nat): (r: nat)
    requires n > 0
    ensures r < n
    ensures i < n ==> r == if i + 1 < n then i + 1 else 0
  {
    (i + 1) % n
  }

  /** "previous": one step back, from the first index round to the last. */
  function Backward(i: nat, n: nat): (r: nat)
    requires n > 0
    ensures r < n
    ensures i < n ==> r == if i > 0 then i - 1 else n - 1
  {
    (i - 1 + n) % n
  }

  /** Within range, "previous" undoes "next" and "next" undoes "previous". */
  lemma ForwardBackwardInverse(i: nat, n: nat)
    requires i < n
    ensures Backward(Forward(i, n), n) == i
    ensures Forward(Backward(i, n), n) == i
  {
  }

  /** The index after pressing "next" `k` times. */
  function Advance(i: nat, n: nat, k: nat): (r: nat)
    requires n > 0
    ensures r < n || (k == 0 && r == i)
  {
    if k == 0 then i else Forward(Advance(i, n, k - 1), n)
  }

  /**
   * Pressing "next" `k <= n` times from a valid index moves `k` places
   * round the ring, past the last index back to the first.
   */
  lemma {:induction false} AdvanceWraps(i: nat, n: nat, k: nat)
    requires i < n && k <= n
    ensures Advance(i, n, k) == if i + k < n then i + k else i + k - n
  {
    if k > 0 {
      AdvanceWraps(i, n, k - 1);
    }
  }

  /** Every index is reached from the first by "next", and `n` presses come back round. */
  lemma AdvanceCycles(i: nat, n: nat)
    requires i < n
    ensures Advance(0, n, i) == i
    ensures Advance(i, n, n) == i
  {
    AdvanceWraps(0, n, i);
    AdvanceWraps(i, n, n);
  }
}
