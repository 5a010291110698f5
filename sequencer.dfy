/**
 * Index arithmetic of the slideshow: which slide comes after or before the
 * current one in a list of `n` slides, with wraparound at both ends.
 */
module Sequencer {

  /** The slide after `i`: `(i + 1) % n` (Slideshow.js, switchImage). */
  function Next(i: nat, n: nat): (r: nat)
    requires i < n
    ensures r < n
    ensures r == if i == n - 1 then 0 else i + 1
  {
    (i + 1) % n
  }

  /** The slide before `i`: the last slide when `i` is the first (Slideshow.js, handlePrev). */
  function Prev(i: nat, n: nat): (r: nat)
    requires i < n
    ensures r < n
    ensures Next(r, n) == i
  {
    if i == 0 then n - 1 else i - 1
  }

  /** `Prev` agrees with the modular definition `(i - 1 + n) mod n`. */
  lemma PrevIsModular(i: nat, n: nat)
    requires i < n
    ensures Prev(i, n) == (i - 1 + n) % n
  {
  }

  /** `Next` applied `k` times, starting from `i`. */
  function NextN(i: nat, n: nat, k: nat): (r: nat)
    requires i < n
    ensures r < n
  {
    if k == 0 then i else Next(NextN(i, n, k - 1), n)
  }

  /** `Prev` applied `k` times, starting from `i`. */
  function PrevN(i: nat, n: nat, k: nat): (r: nat)
    requires i < n
    ensures r < n
  {
    if k == 0 then i else Prev(PrevN(i, n, k - 1), n)
  }

  /** Going back undoes going forward, and going forward undoes going back. */
  lemma PrevNextInverse(i: nat, n: nat)
    requires i < n
    ensures Prev(Next(i, n), n) == i
    ensures Next(Prev(i, n), n) == i
  {
  }

  /** Up to one full round, `k` forward steps move `i` by `k` with one wrap. */
  lemma {:induction false} NextNOffset(i: nat, n: nat, k: nat)
    requires i < n && k <= n
    ensures NextN(i, n, k) == if i + k < n then i + k else i + k - n
  {
    if k > 0 {
      NextNOffset(i, n, k - 1);
    }
  }

  /** Up to one full round, `k` backward steps move `i` by `k` with one wrap. */
  lemma {:induction false} PrevNOffset(i: nat, n: nat, k: nat)
    requires i < n && k <= n
    ensures PrevN(i, n, k) == if k <= i then i - k else i - k + n
  {
    if k > 0 {
      PrevNOffset(i, n, k - 1);
    }
  }

  /** `n` forward steps in a list of `n` slides return to the starting slide. */
  lemma NextCycle(i: nat, n: nat)
    requires i < n
    ensures NextN(i, n, n) == i
  {
    NextNOffset(i, n, n);
  }

  /** `n` backward steps in a list of `n` slides return to the starting slide. */
  lemma PrevCycle(i: nat, n: nat)
    requires i < n
    ensures PrevN(i, n, n) == i
  {
    PrevNOffset(i, n, n);
  }

  /** Every `k` forward steps are undone by `k` backward steps. */
  lemma {:induction false} PrevNUndoesNextN(i: nat, n: nat, k: nat)
    requires i < n
    ensures PrevN(NextN(i, n, k), n, k) == i
  {
    if k > 0 {
      // PrevN(Next(x), k) == PrevN(x, k - 1) where x == NextN(i, n, k - 1)
      var x := NextN(i, n, k - 1);
      PrevNFirstStep(Next(x, n), n, k);
      PrevNextInverse(x, n);
      PrevNUndoesNextN(i, n, k - 1);
    }
  }

  /** `k` backward steps are one backward step followed by `k - 1` more. */
  lemma {:induction false} PrevNFirstStep(i: nat, n: nat, k: nat)
    requires i < n && k > 0
    ensures PrevN(i, n, k) == PrevN(Prev(i, n), n, k - 1)
  {
    if k > 1 {
      PrevNFirstStep(i, n, k - 1);
    }
  }
}
