/**
 * Token-budgeted admission of rows into a batch, shared by the batching
 * loops of the scalar functions, the reduce fold and the first-generation
 * reranker. A pass starts from a base charge (header tokens, or the tokens
 * of the carried window) and admits rows from a stream while the budget is
 * not yet reached and the next row still fits.
 */
module Packing {
  import opened Wrappers

  /**
   * The constructors of the aggregate helpers: they throw when the fixed
   * prompt tokens exceed the context size, and otherwise leave the rest of
   * the context for rows.
   */
  function RowBudget(contextSize: int, fixed: nat): (r: Result<int, string>)
    ensures r.Err? <==> fixed > contextSize
    ensures r.Err? ==> r.error == "Fixed tokens exceed model context size"
    ensures r.Ok? ==> r.value >= 0 && r.value + fixed == contextSize
  {
    if fixed > contextSize then Err("Fixed tokens exceed model context size")
    else Ok(contextSize - fixed)
  }


  /**
   * Unsigned integer division, as C++ divides two token counts. It is
   * written by repeated subtraction so that proofs about the batching loops
   * do not have to reason about division of two unknowns;
   * `DivIsIntegerDivision` states that it rounds down.
   */
  function Div(a: nat, b: nat): nat
    requires b > 0
    decreases a
  {
    if a < b then 0 else 1 + Div(a - b, b)
  }

  /** `Div(a, b)` is the quotient rounded down: the largest `q` with `q * b <= a`. */
  lemma {:induction false} DivIsIntegerDivision(a: nat, b: nat)
    requires b > 0
    ensures Div(a, b) * b <= a < (Div(a, b) + 1) * b
    decreases a
  {
    if a >= b {
      DivIsIntegerDivision(a - b, b);
      var q := Div(a - b, b);
      assert (q + 1) * b == q * b + b;
      assert (q + 2) * b == (q + 1) * b + b;
    }
  }

  /** Total cost of `rows`, accumulated front to back. */
  function Sum<R>(cost: R -> nat, rows: seq<R>): nat
  {
    if |rows| == 0 then 0 else Sum(cost, rows[..|rows| - 1]) + cost(rows[|rows| - 1])
  }

  lemma SumSnoc<R>(cost: R -> nat, rows: seq<R>, x: R)
    ensures Sum(cost, rows + [x]) == Sum(cost, rows) + cost(x)
  {
    assert (rows + [x])[..|rows|] == rows;
  }

  /** Costs only grow as the prefix grows. */
  lemma {:induction false} SumPrefixMonotone<R>(cost: R -> nat, rows: seq<R>, k: nat)
    requires k <= |rows|
    ensures Sum(cost, rows[..k]) <= Sum(cost, rows)
    decreases |rows|
  {
    if k < |rows| {
      assert rows[..|rows| - 1][..k] == rows[..k];
      SumPrefixMonotone(cost, rows[..|rows| - 1], k);
    } else {
      assert rows[..k] == rows;
    }
  }

  /** Row `src[k]` could be admitted: the total before it was below the budget and it fits. */
  predicate WasAdmissible<R>(cost: R -> nat, base: nat, avail: int, src: seq<R>, k: nat)
    requires k < |src|
  {
    base + Sum(cost, src[..k]) < avail && base + Sum(cost, src[..k + 1]) <= avail
  }

  /**
   * Taking the first `m` rows of the stream `src` after a base charge of
   * `base` tokens is exactly what an admission loop does: at most `cap` rows;
   * each row was taken while the running total was still below `avail` and it
   * fitted in `avail`; and the loop stopped because the cap or the end of the
   * stream was reached, the budget was reached, or the next row did not fit.
   */
  predicate Admits<R>(cost: R -> nat, base: nat, avail: int, cap: nat, src: seq<R>, m: nat)
  {
    && m <= cap
    && m <= |src|
    && (forall k :: 0 <= k < m ==> WasAdmissible(cost, base, avail, src, k))
    && (m == cap || m == |src| || base + Sum(cost, src[..m]) >= avail
        || base + Sum(cost, src[..m + 1]) > avail)
  }

  /** Admission is deterministic: there is exactly one admissible batch length. */
  lemma AdmitsUnique<R>(cost: R -> nat, base: nat, avail: int, cap: nat, src: seq<R>, m1: nat, m2: nat)
    requires Admits(cost, base, avail, cap, src, m1)
    requires Admits(cost, base, avail, cap, src, m2)
    ensures m1 == m2
  {
    if m1 < m2 {
      AdmittedRowWasAdmissible(cost, base, avail, cap, src, m2, m1);
    } else if m2 < m1 {
      AdmittedRowWasAdmissible(cost, base, avail, cap, src, m1, m2);
    }
  }

  lemma AdmittedRowWasAdmissible<R>(cost: R -> nat, base: nat, avail: int, cap: nat, src: seq<R>, m: nat, k: nat)
    requires Admits(cost, base, avail, cap, src, m)
    requires k < m
    ensures base + Sum(cost, src[..k]) < avail && base + Sum(cost, src[..k + 1]) <= avail
  {
    assert WasAdmissible(cost, base, avail, src, k);
  }

  /** An admitted batch never overdraws the budget. */
  lemma AdmittedWithinBudget<R>(cost: R -> nat, base: nat, avail: int, cap: nat, src: seq<R>, m: nat)
    requires Admits(cost, base, avail, cap, src, m)
    requires m > 0
    ensures base + Sum(cost, src[..m]) <= avail
  {
    assert WasAdmissible(cost, base, avail, src, m - 1);
    assert src[..(m - 1) + 1] == src[..m];
  }

  /** A base charge that already reaches the budget admits nothing. */
  lemma ExhaustedBaseAdmitsNothing<R>(cost: R -> nat, base: nat, avail: int, cap: nat, src: seq<R>, m: nat)
    requires Admits(cost, base, avail, cap, src, m)
    requires base >= avail
    ensures m == 0
  {
    if m > 0 {
      AdmittedRowWasAdmissible(cost, base, avail, cap, src, m, 0);
    }
  }

  /** The rows `tuples[hi-1], tuples[hi-2], ..., tuples[0]`: a stream read from the back. */
  function Backward<R>(tuples: seq<R>, hi: nat): (r: seq<R>)
    requires hi <= |tuples|
    ensures |r| == hi
    // The element-wise clause repeats the body; it is kept because the loop proofs rely on it.
    ensures forall i :: 0 <= i < hi ==> r[i] == tuples[hi - 1 - i]
  {
    seq(hi, i requires 0 <= i < hi => tuples[hi - 1 - i])
  }

  /** Reading `[0, hi)` backwards is reading `[lo, hi)` backwards, then `[0, lo)` backwards. */
  lemma BackwardSplit<R>(tuples: seq<R>, lo: nat, hi: nat)
    requires lo <= hi <= |tuples|
    ensures Backward(tuples, hi) == Backward(tuples, hi)[..hi - lo] + Backward(tuples, lo)
  {
  }

  /** Rows admitted after the first `c` rows read backwards continue that backward reading. */
  lemma BackwardContinues<J>(tuples: seq<J>, c: nat, m: nat)
    requires c + m <= |tuples|
    ensures Backward(tuples, |tuples|)[..c] + Backward(tuples, |tuples| - c)[..m]
            == Backward(tuples, |tuples|)[..c + m]
  {
    BackwardSplit(tuples, |tuples| - c, |tuples|);
  }

  /**
   * The forward admission loop of the scalar batcher: rows `tuples[start..]`
   * are taken while the running total is below `avail`, the input is not
   * exhausted and fewer than `cap` rows were taken, and only if the row fits.
   */
  method TakeForward<R>(cost: R -> nat, tuples: seq<R>, start: nat, base: nat, cap: nat, avail: int)
    returns (batch: seq<R>, total: nat)
    requires start <= |tuples|
    ensures start + |batch| <= |tuples|
    ensures batch == tuples[start..start + |batch|]
    ensures Admits(cost, base, avail, cap, tuples[start..], |batch|)
    ensures total == base + Sum(cost, batch)
  {
    ghost var src := tuples[start..];
    var i := start;
    batch := [];
    total := base;
    while total < avail && i < |tuples| && |batch| < cap
      invariant start <= i <= |tuples|
      invariant |batch| == i - start <= cap
      invariant batch == src[..|batch|]
      invariant total == base + Sum(cost, batch)
      invariant forall k :: 0 <= k < |batch| ==> WasAdmissible(cost, base, avail, src, k)
    {
      var t := cost(tuples[i]);
      assert src[|batch|] == tuples[i];
      assert src[..|batch| + 1] == batch + [tuples[i]];
      SumSnoc(cost, batch, tuples[i]);
      if total + t > avail {
        assert base + Sum(cost, src[..|batch| + 1]) > avail;
        break;
      }
      assert WasAdmissible(cost, base, avail, src, |batch|);
      batch := batch + [tuples[i]];
      total := total + t;
      i := i + 1;
    }
  }

  /**
   * The backward admission loop of the reduce fold and the first-generation
   * reranker: rows `tuples[hi], tuples[hi-1], ...` are taken while the unsigned
   * difference `avail - total` is non-zero (so the loop goes on past an
   * overdrawn total, where the fit test then stops it) and rows remain, and
   * only if the row fits. `next` is the new (signed) cursor.
   */
  method TakeBackward<R>(cost: R -> nat, tuples: seq<R>, hi: int, base: nat, avail: int)
    returns (taken: seq<R>, next: int, total: nat)
    requires -1 <= hi < |tuples|
    ensures next == hi - |taken| && -1 <= next
    ensures taken == Backward(tuples, hi + 1)[..|taken|]
    ensures Admits(cost, base, avail, hi + 1, Backward(tuples, hi + 1), |taken|)
    ensures total == base + Sum(cost, taken)
  {
    ghost var src := Backward(tuples, hi + 1);
    next := hi;
    taken := [];
    total := base;
    while total != avail && next >= 0
      invariant -1 <= next <= hi
      invariant |taken| == hi - next
      invariant taken == src[..|taken|]
      invariant total == base + Sum(cost, taken)
      invariant forall k :: 0 <= k < |taken| ==> WasAdmissible(cost, base, avail, src, k)
    {
      var t := cost(tuples[next]);
      assert src[|taken|] == tuples[next];
      assert src[..|taken| + 1] == taken + [tuples[next]];
      SumSnoc(cost, taken, tuples[next]);
      if total + t > avail {
        assert base + Sum(cost, src[..|taken| + 1]) > avail;
        break;
      }
      assert WasAdmissible(cost, base, avail, src, |taken|);
      taken := taken + [tuples[next]];
      total := total + t;
      next := next - 1;
    }
  }
}
