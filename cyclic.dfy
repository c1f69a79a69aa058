/**
 * Wrap-around index arithmetic shared by the project carousel
 * (`(p + 1) % n` and `(p - 1 + n) % n`) and the rotating headline word
 * (`(i + 1) % words.length`). Operands are never negative here, so
 * JavaScript's truncating `%` agrees with Dafny's Euclidean `%`.
 */
module Cyclic {

  /** One step forward around a ring of n positions: `(i + 1) % n`. */
  function Succ(i: nat, n: nat): (r: nat)
    requires 0 < n
    ensures r < n
    ensures i < n - 1 ==> r == i + 1
    ensures i == n - 1 ==> r == 0
  {
    (i + 1) % n
  }

  /** One step backward around a ring of n positions: `(i - 1 + n) % n`. */
  function Pred(i: nat, n: nat): (r: nat)
    requires 0 < n
    ensures r < n
    ensures 0 < i <= n ==> r == i - 1
    ensures i == 0 ==> r == n - 1
  {
    (i - 1 + n) % n
  }

  /** Forward then backward, or backward then forward, is the identity. */
  lemma SuccThenPred(i: nat, n: nat)
    requires i < n
    ensures Pred(Succ(i, n), n) == i
    ensures Succ(Pred(i, n), n) == i
  {
  }

  /** k forward steps from i. */
  function Advance(i: nat, n: nat, k: nat): (r: nat)
    requires 0 < n && i < n
    ensures r < n
  {
    if k == 0 then i else Succ(Advance(i, n, k - 1), n)
  }

  /** k backward steps from i. */
  function Retreat(i: nat, n: nat, k: nat): (r: nat)
    requires 0 < n && i < n
    ensures r < n
  {
    if k == 0 then i else Pred(Retreat(i, n, k - 1), n)
  }

  /** Forward steps compose: a steps then b steps is a + b steps. */
  lemma {:induction false} AdvanceAdd(i: nat, n: nat, a: nat, b: nat)
    requires 0 < n && i < n
    ensures Advance(i, n, a + b) == Advance(Advance(i, n, a), n, b)
  {
    if b > 0 {
      AdvanceAdd(i, n, a, b - 1);
    }
  }

  /** Backward steps compose: a steps then b steps is a + b steps. */
  lemma {:induction false} RetreatAdd(i: nat, n: nat, a: nat, b: nat)
    requires 0 < n && i < n
    ensures Retreat(i, n, a + b) == Retreat(Retreat(i, n, a), n, b)
  {
    if b > 0 {
      RetreatAdd(i, n, a, b - 1);
    }
  }

  /** Until the end of the ring is reached, k forward steps from i land on i + k. */
  lemma {:induction false} AdvanceBelowEnd(i: nat, n: nat, k: nat)
    requires 0 < n && i + k < n
    ensures Advance(i, n, k) == i + k
  {
    if k > 0 {
      AdvanceBelowEnd(i, n, k - 1);
    }
  }

  /** Until position 0 is passed, k backward steps from i land on i - k. */
  lemma {:induction false} RetreatAboveStart(i: nat, n: nat, k: nat)
    requires 0 < n && i < n && k <= i
    ensures Retreat(i, n, k) == i - k
  {
    if k > 0 {
      RetreatAboveStart(i, n, k - 1);
    }
  }

  /** n forward steps around a ring of n positions return to the start. */
  lemma AdvanceFullCycle(i: nat, n: nat)
    requires 0 < n && i < n
    ensures Advance(i, n, n) == i
  {
    // n - i steps reach the wrap from n - 1 to 0, the remaining i steps climb back.
    AdvanceBelowEnd(i, n, n - i - 1);
    assert Advance(i, n, n - i) == 0;
    AdvanceAdd(i, n, n - i, i);
    AdvanceBelowEnd(0, n, i);
  }

  /** n backward steps around a ring of n positions return to the start. */
  lemma RetreatFullCycle(i: nat, n: nat)
    requires 0 < n && i < n
    ensures Retreat(i, n, n) == i
  {
    // i + 1 steps reach the wrap from 0 to n - 1, the remaining n - 1 - i steps descend back.
    RetreatAboveStart(i, n, i);
    assert Retreat(i, n, i + 1) == n - 1;
    RetreatAdd(i, n, i + 1, n - 1 - i);
    RetreatAboveStart(n - 1, n, n - 1 - i);
  }

  /** k forward steps are undone by k backward steps. */
  lemma {:induction false} RetreatUndoesAdvance(i: nat, n: nat, k: nat)
    requires 0 < n && i < n
    ensures Retreat(Advance(i, n, k), n, k) == i
  {
    if k > 0 {
      var j := Advance(i, n, k - 1);
      RetreatAdd(Advance(i, n, k), n, 1, k - 1);
      SuccThenPred(j, n);
      RetreatUndoesAdvance(i, n, k - 1);
    }
  }
}
