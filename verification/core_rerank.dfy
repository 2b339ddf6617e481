/**
 * The second-generation reranker: a window of fixed size slides from the
 * end of the rows towards the start. For every window the model returns a
 * ranking of global row positions; the lower-ranked half goes to the output,
 * the better half stays in the window, and the next half-window of fresh
 * rows joins it. Only the rows sent to the output are returned.
 */
module CoreRerank {
  import opened Wrappers
  import opened Tiktoken
  import opened Packing

  /** A window element: `{"id": position of the row, "content": the row}`. */
  datatype Candidate<J> = Candidate(id: int, content: J)

  datatype CtorError = FixedTokensExceedContext | DivisionByZero

  datatype CoreReranker = CoreReranker(contextSize: int, userPrompt: string, template: string, batchSize: int)

  /**
   * The constructor: it throws when the prompt and template alone exceed the
   * context, and otherwise sizes the window as the number of longest rows
   * that fit in what is left, but no more than there are rows. A longest row
   * of no tokens divides by zero.
   */
  function NewCoreReranker(numTuples: nat, contextSize: int, userPrompt: string, template: string,
                           longestRow: string): (r: Result<CoreReranker, CtorError>)
    ensures r == Err(FixedTokensExceedContext) <==> CountTokens(userPrompt) + CountTokens(template) > contextSize
    ensures r == Err(DivisionByZero) <==>
      CountTokens(userPrompt) + CountTokens(template) <= contextSize && CountTokens(longestRow) == 0
    ensures r.Ok? ==> 0 <= r.value.batchSize <= numTuples
    ensures r.Ok? ==> (r.value.batchSize == numTuples ||
      r.value.batchSize * CountTokens(longestRow) <= contextSize - (CountTokens(userPrompt) + CountTokens(template))
        < (r.value.batchSize + 1) * CountTokens(longestRow))
  {
    var fixed := CountTokens(userPrompt) + CountTokens(template);
    if fixed > contextSize then Err(FixedTokensExceedContext)
    else
      var perRow := CountTokens(longestRow);
      if perRow == 0 then Err(DivisionByZero)
      else
        var maxBatchSize := Div(contextSize - fixed, perRow);
        DivIsIntegerDivision(contextSize - fixed, perRow);
        var b := if maxBatchSize < numTuples then maxBatchSize else numTuples;
        Ok(CoreReranker(contextSize, userPrompt, template, b))
  }

  /** Rows `[lo, lo + len)` tagged with their positions; nothing when `lo` is negative. */
  function Tagged<J>(tuples: seq<J>, lo: int, len: nat): (r: seq<Candidate<J>>)
    requires lo < 0 || lo + len <= |tuples|
    ensures lo < 0 ==> r == []
    // The element-wise clause repeats the body; it is kept because the loop proofs rely on it.
    ensures lo >= 0 ==> |r| == len && forall i :: 0 <= i < len ==> r[i] == Candidate(lo + i, tuples[lo + i])
  {
    if lo < 0 then [] else seq(len, i requires 0 <= i < len => Candidate(lo + i, tuples[lo + i]))
  }

  /** The tagging loop of the first window and of the fresh rows, which stops at a negative position. */
  method TagRows<J>(tuples: seq<J>, lo: int, len: nat) returns (r: seq<Candidate<J>>)
    requires lo < 0 || lo + len <= |tuples|
    ensures r == Tagged(tuples, lo, len)
  {
    r := [];
    var i := lo;
    while i < lo + len && i >= 0
      invariant lo >= 0 ==> lo <= i <= lo + len
      invariant lo < 0 ==> i == lo
      invariant lo >= 0 ==> r == Tagged(tuples, lo, i - lo)
      invariant lo < 0 ==> r == []
    {
      r := r + [Candidate(i, tuples[i])];
      i := i + 1;
    }
  }

  /**
   * A ranking the pass can use: it has at least `b` entries, and the entries
   * the pass reads (the first `half` and the last `half` of the first `b`)
   * are positions of rows. Reading past its end is a null that cannot be
   * read as an integer, and a position outside the rows is undefined
   * behaviour; both are errors here.
   */
  predicate Usable(ranking: seq<int>, b: nat, half: nat, n: nat)
  {
    && half <= b <= |ranking|
    && (forall i :: 0 <= i < half ==> 0 <= ranking[i] < n)
    && (forall i :: b - half <= i < b ==> 0 <= ranking[i] < n)
  }

  /** The lower-ranked half: the rows at ranking entries `[b - half, b)`, in ranking order. */
  function Bottom<J>(tuples: seq<J>, ranking: seq<int>, b: nat, half: nat): (r: seq<J>)
    requires Usable(ranking, b, half, |tuples|)
    ensures |r| == half
    // The element-wise clause repeats the body; it is kept because the loop proofs rely on it.
    ensures forall i :: 0 <= i < half ==> r[i] == tuples[ranking[b - half + i]]
  {
    seq(half, i requires 0 <= i < half => tuples[ranking[b - half + i]])
  }

  /** The better half: the rows at ranking entries `[0, half)`, tagged with those positions. */
  function Top<J>(tuples: seq<J>, ranking: seq<int>, b: nat, half: nat): (r: seq<Candidate<J>>)
    requires Usable(ranking, b, half, |tuples|)
    ensures |r| == half
    // The element-wise clause repeats the body; it is kept because the loop proofs rely on it.
    ensures forall i :: 0 <= i < half ==> r[i] == Candidate(ranking[i], tuples[ranking[i]])
  {
    seq(half, i requires 0 <= i < half => Candidate(ranking[i], tuples[ranking[i]]))
  }

  datatype RerankError = InvalidRanking

  /** Step 2's loop: the lower-ranked half, read from the ranking entry by entry. */
  method BottomRows<J>(tuples: seq<J>, ranking: seq<int>, b: nat, half: nat) returns (r: Result<seq<J>, RerankError>)
    requires 1 <= half <= b
    ensures r.Ok? <==> b <= |ranking| && forall i :: b - half <= i < b ==> 0 <= ranking[i] < |tuples|
    ensures r.Ok? ==> |r.value| == half
    ensures r.Ok? ==> forall i :: 0 <= i < half ==> r.value[i] == tuples[ranking[b - half + i]]
  {
    var rows: seq<J> := [];
    var i := b - half;
    while i < b
      invariant b - half <= i <= b
      invariant |rows| == i - (b - half)
      invariant i > b - half ==> i - 1 < |ranking|
      invariant forall k :: b - half <= k < i ==>
        k < |ranking| && 0 <= ranking[k] < |tuples| && rows[k - (b - half)] == tuples[ranking[k]]
    {
      if i >= |ranking| || ranking[i] < 0 || ranking[i] >= |tuples| {
        return Err(InvalidRanking);
      }
      rows := rows + [tuples[ranking[i]]];
      i := i + 1;
    }
    return Ok(rows);
  }

  /** Step 3's loop: the better half, tagged with the positions the model named. */
  method TopRows<J>(tuples: seq<J>, ranking: seq<int>, half: nat) returns (r: Result<seq<Candidate<J>>, RerankError>)
    requires half <= |ranking|
    ensures r.Ok? <==> forall i :: 0 <= i < half ==> 0 <= ranking[i] < |tuples|
    ensures r.Ok? ==> |r.value| == half
    ensures r.Ok? ==> forall i :: 0 <= i < half ==> r.value[i] == Candidate(ranking[i], tuples[ranking[i]])
  {
    var top: seq<Candidate<J>> := [];
    var i := 0;
    while i < half
      invariant 0 <= i <= half
      invariant |top| == i
      invariant forall k :: 0 <= k < i ==> 0 <= ranking[k] < |tuples| && top[k] == Candidate(ranking[k], tuples[ranking[k]])
    {
      if ranking[i] < 0 || ranking[i] >= |tuples| {
        return Err(InvalidRanking);
      }
      top := top + [Candidate(ranking[i], tuples[ranking[i]])];
      i := i + 1;
    }
    return Ok(top);
  }

  /** One window: where it starts among the rows, what it holds, and the model's ranking of it. */
  datatype Pass<J> = Pass(start: int, window: seq<Candidate<J>>, ranking: seq<int>)

  /**
   * Pass `cur` follows pass `prev`: the previous ranking was usable, the
   * window moved down by `half` rows and still starts at a row, and it holds
   * the previous better half followed by the `half` rows just below the
   * previous window's fresh rows.
   */
  ghost predicate Follows<J>(tuples: seq<J>, b: nat, prev: Pass<J>, cur: Pass<J>)
    requires 2 <= b <= |tuples|
  {
    var half := b / 2;
    && Usable(prev.ranking, b, half, |tuples|)
    && cur.start == prev.start - half
    && 0 <= cur.start
    && cur.start + half <= |tuples|
    && cur.window == Top(tuples, prev.ranking, b, half) + Tagged(tuples, cur.start, half)
  }

  /** Every pass is the first window or follows the one before, and ranks its own window. */
  ghost predicate Trace<J>(rank: seq<Candidate<J>> -> seq<int>, tuples: seq<J>, b: nat, ps: seq<Pass<J>>)
    requires 2 <= b <= |tuples|
  {
    if |ps| == 0 then true
    else
      var p := ps[|ps| - 1];
      && p.ranking == rank(p.window)
      && if |ps| == 1 then p.start == |tuples| - b && p.window == Tagged(tuples, |tuples| - b, b)
         else Trace(rank, tuples, b, ps[..|ps| - 1]) && Follows(tuples, b, ps[|ps| - 2], p)
  }

  /** Every pass's ranking was usable. */
  ghost predicate AllUsable<J>(tuples: seq<J>, b: nat, ps: seq<Pass<J>>)
  {
    forall k :: 0 <= k < |ps| ==> Usable(ps[k].ranking, b, b / 2, |tuples|)
  }

  /** The output: each pass's lower-ranked half, pass after pass. */
  ghost function Output<J>(tuples: seq<J>, b: nat, ps: seq<Pass<J>>): seq<J>
    requires AllUsable(tuples, b, ps)
  {
    if |ps| == 0 then [] else Output(tuples, b, ps[..|ps| - 1]) + Bottom(tuples, ps[|ps| - 1].ranking, b, b / 2)
  }

  lemma {:induction false} OutputLength<J>(tuples: seq<J>, b: nat, ps: seq<Pass<J>>)
    requires AllUsable(tuples, b, ps)
    ensures |Output(tuples, b, ps)| == |ps| * (b / 2)
  {
    if |ps| > 0 {
      OutputLength(tuples, b, ps[..|ps| - 1]);
    }
  }

  /**
   * At the head of the loop: `window` is the window of the next pass, which
   * starts at `startIndex`, and `reranked` is the output of the passes so far.
   */
  ghost predicate Between<J>(rank: seq<Candidate<J>> -> seq<int>, tuples: seq<J>, b: nat, ps: seq<Pass<J>>,
                             window: seq<Candidate<J>>, startIndex: int, reranked: seq<J>)
    requires 2 <= b <= |tuples|
  {
    var half := b / 2;
    && startIndex + half <= |tuples|
    && AllUsable(tuples, b, ps)
    && reranked == Output(tuples, b, ps)
    && (|ps| == 0 ==> startIndex == |tuples| - b && window == Tagged(tuples, |tuples| - b, b))
    && (|ps| > 0 ==>
         && Trace(rank, tuples, b, ps)
         && startIndex == ps[|ps| - 1].start - half
         && startIndex + half >= 0
         && window == Top(tuples, ps[|ps| - 1].ranking, b, half) + Tagged(tuples, startIndex, half))
  }

  /** A pass whose ranking is usable keeps `Between`, moving the window down by half a window. */
  lemma PassStep<J>(rank: seq<Candidate<J>> -> seq<int>, tuples: seq<J>, b: nat, ps: seq<Pass<J>>,
                    window: seq<Candidate<J>>, startIndex: int, reranked: seq<J>, p: Pass<J>)
    requires 2 <= b <= |tuples|
    requires Between(rank, tuples, b, ps, window, startIndex, reranked)
    requires startIndex >= 0
    requires p == Pass(startIndex, window, rank(window))
    requires Usable(p.ranking, b, b / 2, |tuples|)
    ensures Trace(rank, tuples, b, ps + [p])
    ensures Between(rank, tuples, b, ps + [p],
                    Top(tuples, p.ranking, b, b / 2) + Tagged(tuples, startIndex - b / 2, b / 2),
                    startIndex - b / 2, reranked + Bottom(tuples, p.ranking, b, b / 2))
  {
    TraceSnoc(rank, tuples, b, ps, p);
    OutputSnoc(tuples, b, ps, p);
  }

  /** A pass whose ranking is not usable still extends the trace. */
  lemma FailedPass<J>(rank: seq<Candidate<J>> -> seq<int>, tuples: seq<J>, b: nat, ps: seq<Pass<J>>,
                      window: seq<Candidate<J>>, startIndex: int, reranked: seq<J>, p: Pass<J>)
    requires 2 <= b <= |tuples|
    requires Between(rank, tuples, b, ps, window, startIndex, reranked)
    requires startIndex >= 0
    requires p == Pass(startIndex, window, rank(window))
    ensures Trace(rank, tuples, b, ps + [p])
  {
    TraceSnoc(rank, tuples, b, ps, p);
  }

  /**
   * The sliding-window rerank. The window size `b` comes from the
   * constructor (at most the number of rows); with fewer than two rows per
   * window the half-window is empty and the source loops forever, so `b` is
   * at least 2 here.
   */
  method SlidingWindowRerank<J>(rank: seq<Candidate<J>> -> seq<int>, tuples: seq<J>, b: nat)
    returns (res: Result<seq<J>, RerankError>, ghost passes: seq<Pass<J>>)
    requires 2 <= b <= |tuples|
    ensures Trace(rank, tuples, b, passes)
    ensures |passes| >= 1
    ensures res.Ok? ==> AllUsable(tuples, b, passes)
    ensures res.Ok? ==> passes[|passes| - 1].start < b / 2
    ensures res.Ok? ==> res.value == Output(tuples, b, passes)
    ensures res.Err? ==> !Usable(passes[|passes| - 1].ranking, b, b / 2, |tuples|)
  {
    var n := |tuples|;
    var half := b / 2;
    var startIndex := n - b;
    var reranked: seq<J> := [];
    var window := TagRows(tuples, startIndex, b);
    passes := [];
    while startIndex >= 0
      invariant Between(rank, tuples, b, passes, window, startIndex, reranked)
      invariant startIndex < 0 ==> |passes| > 0
      decreases startIndex + half
    {
      var ranking := rank(window);
      ghost var pass := Pass(startIndex, window, ranking);
      var bottom := BottomRows(tuples, ranking, b, half);
      if bottom.Err? {
        FailedPass(rank, tuples, b, passes, window, startIndex, reranked, pass);
        passes := passes + [pass];
        return Err(bottom.error), passes;
      }
      var top := TopRows(tuples, ranking, half);
      if top.Err? {
        FailedPass(rank, tuples, b, passes, window, startIndex, reranked, pass);
        passes := passes + [pass];
        return Err(top.error), passes;
      }
      assert Usable(ranking, b, half, n);
      assert bottom.value == Bottom(tuples, ranking, b, half);
      assert top.value == Top(tuples, ranking, b, half);
      reranked := reranked + bottom.value;
      var nextStart := startIndex - half;
      var freshRows := TagRows(tuples, nextStart, half);
      window := top.value + freshRows;
      PassStep(rank, tuples, b, passes, pass.window, startIndex, Output(tuples, b, passes), pass);
      passes := passes + [pass];
      startIndex := startIndex - half;
    }
    res := Ok(reranked);
  }

  lemma TraceSnoc<J>(rank: seq<Candidate<J>> -> seq<int>, tuples: seq<J>, b: nat, ps: seq<Pass<J>>, p: Pass<J>)
    requires 2 <= b <= |tuples|
    requires |ps| == 0 ==> p.start == |tuples| - b && p.window == Tagged(tuples, |tuples| - b, b)
    requires |ps| > 0 ==> Trace(rank, tuples, b, ps) && Follows(tuples, b, ps[|ps| - 1], p)
    requires p.ranking == rank(p.window)
    ensures Trace(rank, tuples, b, ps + [p])
  {
    assert (ps + [p])[..|ps|] == ps;
  }

  lemma OutputSnoc<J>(tuples: seq<J>, b: nat, ps: seq<Pass<J>>, p: Pass<J>)
    requires AllUsable(tuples, b, ps)
    requires Usable(p.ranking, b, b / 2, |tuples|)
    ensures AllUsable(tuples, b, ps + [p])
    ensures Output(tuples, b, ps + [p]) == Output(tuples, b, ps) + Bottom(tuples, p.ranking, b, b / 2)
  {
    assert (ps + [p])[..|ps|] == ps;
  }

  lemma {:induction false} TraceAt<J>(rank: seq<Candidate<J>> -> seq<int>, tuples: seq<J>, b: nat, ps: seq<Pass<J>>, k: nat)
    requires 2 <= b <= |tuples|
    requires Trace(rank, tuples, b, ps)
    requires k < |ps|
    ensures Trace(rank, tuples, b, ps[..k + 1])
    decreases |ps|
  {
    if k + 1 < |ps| {
      assert ps[..|ps| - 1][..k + 1] == ps[..k + 1];
      TraceAt(rank, tuples, b, ps[..|ps| - 1], k);
    } else {
      assert ps[..k + 1] == ps;
    }
  }

  /**
   * Pass `k` starts `k` half-windows below the first window, which starts
   * `b` rows from the end; every pass starts at a row.
   */
  lemma {:induction false} PassStart<J>(rank: seq<Candidate<J>> -> seq<int>, tuples: seq<J>, b: nat, ps: seq<Pass<J>>)
    requires 2 <= b <= |tuples|
    requires Trace(rank, tuples, b, ps)
    requires |ps| > 0
    ensures ps[|ps| - 1].start + (|ps| - 1) * (b / 2) == |tuples| - b
    ensures ps[|ps| - 1].start >= 0
    decreases |ps|
  {
    if |ps| > 1 {
      PassStart(rank, tuples, b, ps[..|ps| - 1]);
      assert (|ps| - 1) * (b / 2) == (|ps| - 2) * (b / 2) + b / 2;
    }
  }

  /** Every candidate of `w` is the row at the position it is tagged with. */
  ghost predicate TaggedRows<J>(tuples: seq<J>, w: seq<Candidate<J>>)
  {
    forall i :: 0 <= i < |w| ==> 0 <= w[i].id < |tuples| && w[i].content == tuples[w[i].id]
  }

  lemma LastWindowShape<J>(rank: seq<Candidate<J>> -> seq<int>, tuples: seq<J>, b: nat, ps: seq<Pass<J>>)
    requires 2 <= b <= |tuples|
    requires Trace(rank, tuples, b, ps)
    requires |ps| > 0
    ensures |ps[|ps| - 1].window| == if |ps| == 1 then b else 2 * (b / 2)
    ensures TaggedRows(tuples, ps[|ps| - 1].window)
  {
    var w := ps[|ps| - 1].window;
    if |ps| > 1 {
      var prev := ps[|ps| - 2];
      var top := Top(tuples, prev.ranking, b, b / 2);
      var low := Tagged(tuples, ps[|ps| - 1].start, b / 2);
      assert w == top + low;
      forall i | 0 <= i < |w|
        ensures 0 <= w[i].id < |tuples| && w[i].content == tuples[w[i].id]
      {
        if i < |top| {
          assert w[i] == top[i];
        } else {
          assert w[i] == low[i - |top|];
        }
      }
    }
  }

  /**
   * Every window holds rows tagged with their own positions. The first
   * window holds `b` rows; every later one holds two half-windows, one row
   * fewer than `b` when `b` is odd.
   */
  lemma WindowShape<J>(rank: seq<Candidate<J>> -> seq<int>, tuples: seq<J>, b: nat, ps: seq<Pass<J>>, k: nat)
    requires 2 <= b <= |tuples|
    requires Trace(rank, tuples, b, ps)
    requires k < |ps|
    ensures |ps[k].window| == if k == 0 then b else 2 * (b / 2)
    ensures TaggedRows(tuples, ps[k].window)
  {
    TraceAt(rank, tuples, b, ps, k);
    LastWindowShape(rank, tuples, b, ps[..k + 1]);
    assert ps[..k + 1][k] == ps[k];
  }

  /** Every returned row is one of the input rows. */
  lemma {:induction false} OutputFromRows<J>(tuples: seq<J>, b: nat, ps: seq<Pass<J>>)
    requires AllUsable(tuples, b, ps)
    ensures forall x :: x in Output(tuples, b, ps) ==> x in tuples
  {
    if |ps| > 0 {
      OutputFromRows(tuples, b, ps[..|ps| - 1]);
      var bottom := Bottom(tuples, ps[|ps| - 1].ranking, b, b / 2);
      forall x | x in bottom
        ensures x in tuples
      {
        var i :| 0 <= i < |bottom| && bottom[i] == x;
        assert x == tuples[ps[|ps| - 1].ranking[b - b / 2 + i]];
      }
    }
  }

  /**
   * A completed rerank returns fewer rows than it was given: the better half
   * of the last window and the rows below the last window never reach the
   * output, so the result misses `b - b/2` rows plus the last start.
   */
  lemma CompletedRerankDropsRows<J>(rank: seq<Candidate<J>> -> seq<int>, tuples: seq<J>, b: nat, ps: seq<Pass<J>>)
    requires 2 <= b <= |tuples|
    requires Trace(rank, tuples, b, ps)
    requires |ps| > 0
    requires AllUsable(tuples, b, ps)
    ensures |Output(tuples, b, ps)| + (b - b / 2) + ps[|ps| - 1].start == |tuples|
    ensures |Output(tuples, b, ps)| < |tuples|
  {
    PassStart(rank, tuples, b, ps);
    OutputLength(tuples, b, ps);
    assert |ps| * (b / 2) == (|ps| - 1) * (b / 2) + b / 2;
  }
}
