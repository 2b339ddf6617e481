/**
 * Adaptive batching of the scalar LLM functions: rows are packed into
 * batches that fit the model's context window, each batch is sent to the
 * model, and the size of the next batch is derived from how many output
 * tokens the previous answer used per row. When the model reports that its
 * output limit was exceeded, the run starts over from the first row with a
 * smaller batch size.
 */
module ScalarBatching {
  import opened Wrappers
  import opened Tiktoken
  import opened Packing

  /** The model's answer to one batch: its rows, or the output-limit exception. */
  datatype Completion<T> = Completed(tuples: seq<T>) | ExceededMaxOutputTokens

  /**
   * Everything a batching run depends on besides the rows: the model's
   * limits, the user prompt and the function's template, how a row and its
   * header are rendered, the model itself, and how an answer is serialized.
   */
  datatype Setting<!R, !T> = Setting(
    contextWindow: int,
    maxOutputTokens: nat,
    userPrompt: string,
    template: string,
    header: R -> string,
    row: R -> string,
    complete: seq<R> -> Completion<T>,
    dump: seq<T> -> string)

  datatype ScalarError =
    | PromptExceedsLimit   // the prompt alone does not fit the context window
    | DivisionByZero       // an empty batch, or an answer of zero tokens per row, was divided by
    | OutOfFuel            // the bound on model calls was reached

  /** Tokens left for rows once the user prompt and the template are charged. */
  function Available<R, T>(s: Setting<R, T>): int
  {
    s.contextWindow - (CountTokens(s.userPrompt) + CountTokens(s.template))
  }

  function RowCost<R, T>(s: Setting<R, T>): R -> nat
  {
    x => CountTokens(s.row(x))
  }

  /** One model call: where the batch starts, the batch-size cap in force, the batch and the answer. */
  datatype Pass<R, T> = Pass(start: nat, cap: nat, batch: seq<R>, outcome: Completion<T>)

  /**
   * The batch size after an output overflow. The source writes the condition
   * and the first branch of the conditional the wrong way round, so the size
   * becomes 1 when a tenth of the old size is 0, and 0 otherwise.
   */
  function ShrunkCap(cap: nat): (c: nat)
    ensures c <= 1
    ensures c == 0 <==> cap >= 10
  {
    var tenth := cap / 10;
    if tenth == 0 then 1 else 0
  }

  /** A pass whose answer can be divided by: some rows went in and some tokens came back per row. */
  predicate Productive<R, T>(s: Setting<R, T>, p: Pass<R, T>)
  {
    p.outcome.Completed? && |p.batch| > 0 && TokensPerTuple(s, p.outcome.tuples, |p.batch|) > 0
  }

  /** Pass `p` answered a non-empty batch that reached the last row, which ends a run. */
  predicate Finishes<R, T>(s: Setting<R, T>, tuples: seq<R>, p: Pass<R, T>)
  {
    Productive(s, p) && p.start + |p.batch| >= |tuples|
  }

  /** No pass of the run so far reached the last row. */
  ghost predicate NoneFinishes<R, T>(s: Setting<R, T>, tuples: seq<R>, passes: seq<Pass<R, T>>)
  {
    forall i :: 0 <= i < |passes| ==> !Finishes(s, tuples, passes[i])
  }

  lemma NoneFinishesSnoc<R, T>(s: Setting<R, T>, tuples: seq<R>, passes: seq<Pass<R, T>>, p: Pass<R, T>)
    requires NoneFinishes(s, tuples, passes) && !Finishes(s, tuples, p)
    ensures NoneFinishes(s, tuples, passes + [p])
  {
  }

  /** Output tokens per input row of an answer to a batch of `rows` rows. */
  function TokensPerTuple<R, T>(s: Setting<R, T>, response: seq<T>, rows: nat): nat
    requires rows > 0
  {
    Div(CountTokens(s.dump(response)), rows)
  }

  function PerTuple<R, T>(s: Setting<R, T>, p: Pass<R, T>): nat
    requires Productive(s, p)
  {
    TokensPerTuple(s, p.outcome.tuples, |p.batch|)
  }

  /** A pass is one admission from `start` under its cap, answered by the model. */
  ghost predicate WellFormedPass<R, T>(s: Setting<R, T>, tuples: seq<R>, p: Pass<R, T>)
  {
    && p.start < |tuples|
    && p.start + |p.batch| <= |tuples|
    && p.batch == tuples[p.start..p.start + |p.batch|]
    && Admits(RowCost(s), CountTokens(s.header(tuples[p.start])), Available(s), p.cap, tuples[p.start..], |p.batch|)
    && p.outcome == s.complete(p.batch)
  }

  /** The cursor and cap that pass `p` leaves for the next one. */
  ghost predicate Follows<R, T>(s: Setting<R, T>, p: Pass<R, T>, start: nat, cap: nat)
  {
    if p.outcome.ExceededMaxOutputTokens? then start == 0 && cap == ShrunkCap(p.cap)
    else Productive(s, p) && start == p.start + |p.batch| && cap == Div(s.maxOutputTokens, PerTuple(s, p))
  }

  /**
   * The passes of a run, from the last backwards: every pass is well formed,
   * the first starts at row 0 with every row allowed, and each later one
   * starts where its predecessor left the cursor and the cap.
   */
  ghost predicate Trace<R, T>(s: Setting<R, T>, tuples: seq<R>, passes: seq<Pass<R, T>>)
    decreases |passes|
  {
    if |passes| == 0 then true
    else
      var p := passes[|passes| - 1];
      && WellFormedPass(s, tuples, p)
      && (if |passes| == 1 then p.start == 0 && p.cap == |tuples|
          else Trace(s, tuples, passes[..|passes| - 1]) && Follows(s, passes[|passes| - 2], p.start, p.cap))
  }

  /** The answers of the successful passes, in call order. */
  ghost function Responses<R, T>(passes: seq<Pass<R, T>>): seq<T>
  {
    if |passes| == 0 then []
    else
      var last := passes[|passes| - 1];
      Responses(passes[..|passes| - 1]) + (if last.outcome.Completed? then last.outcome.tuples else [])
  }

  /** The loop is about to make a call at `start` under `cap`, after the passes so far. */
  ghost predicate Resumes<R, T>(s: Setting<R, T>, tuples: seq<R>, passes: seq<Pass<R, T>>, start: nat, cap: nat)
  {
    && start < |tuples|
    && Trace(s, tuples, passes)
    && (if |passes| == 0 then start == 0 && cap == |tuples| else Follows(s, passes[|passes| - 1], start, cap))
  }

  lemma TraceSnoc<R, T>(s: Setting<R, T>, tuples: seq<R>, passes: seq<Pass<R, T>>, p: Pass<R, T>)
    requires Resumes(s, tuples, passes, p.start, p.cap)
    requires WellFormedPass(s, tuples, p)
    ensures Trace(s, tuples, passes + [p])
    ensures (passes + [p])[..|passes|] == passes
    ensures Responses(passes + [p]) == Responses(passes) + (if p.outcome.Completed? then p.outcome.tuples else [])
  {
    assert (passes + [p])[..|passes|] == passes;
  }

  /** One pass: charge the header of the first row, admit rows, call the model. */
  method RunPass<R, T>(s: Setting<R, T>, tuples: seq<R>, start: nat, batchSize: nat, available: int)
    returns (batch: seq<R>, outcome: Completion<T>)
    requires start < |tuples| && available == Available(s)
    ensures WellFormedPass(s, tuples, Pass(start, batchSize, batch, outcome))
  {
    var accumulated: nat := 0;
    accumulated := accumulated + CountTokens(s.header(tuples[start]));
    var total;
    batch, total := TakeForward(RowCost(s), tuples, start, accumulated, batchSize, available);
    outcome := s.complete(batch);
  }

  /**
   * The batching loop. Fails before any model call when the prompt leaves a
   * negative budget; otherwise every model call is one well-formed pass of the
   * trace, and a successful run returns the answers of all successful passes
   * (including those made before a restart) once a pass reaches the last row.
   * `fuel` bounds the number of model calls.
   */
  method BatchAndComplete<R, T>(s: Setting<R, T>, tuples: seq<R>, fuel: nat)
    returns (r: Result<seq<T>, ScalarError>, ghost passes: seq<Pass<R, T>>)
    requires |tuples| > 0
    ensures r == Err(PromptExceedsLimit) <==> Available(s) < 0
    ensures Available(s) < 0 ==> passes == []
    ensures Trace(s, tuples, passes)
    ensures |passes| <= fuel
    ensures Available(s) >= 0 && fuel > 0 ==> |passes| > 0
    ensures r.Ok? ==>
      && |passes| > 0
      && Productive(s, passes[|passes| - 1])
      && passes[|passes| - 1].start + |passes[|passes| - 1].batch| == |tuples|
      && r.value == Responses(passes)
    ensures r == Err(DivisionByZero) ==>
      |passes| > 0 && passes[|passes| - 1].outcome.Completed? && !Productive(s, passes[|passes| - 1])
    ensures r == Err(OutOfFuel) ==> |passes| == fuel
    ensures r.Ok? <==> |passes| > 0 && Finishes(s, tuples, passes[|passes| - 1])
    ensures r.Err? ==> NoneFinishes(s, tuples, passes)
  {
    passes := [];
    var available := s.contextWindow - (CountTokens(s.userPrompt) + CountTokens(s.template));
    if available < 0 {
      return Err(PromptExceedsLimit), passes;
    }
    var responses: seq<T> := [];
    var batchSize: nat := |tuples|;
    var start: nat := 0;
    var calls: nat := 0;
    while true
      invariant calls == |passes|
      invariant Resumes(s, tuples, passes, start, batchSize)
      invariant responses == Responses(passes)
      invariant |passes| <= fuel
      invariant NoneFinishes(s, tuples, passes)
      decreases fuel - |passes|
    {
      if calls == fuel {
        return Err(OutOfFuel), passes;
      }
      var batch, outcome := RunPass(s, tuples, start, batchSize, available);
      calls := calls + 1;
      ghost var pass := Pass(start, batchSize, batch, outcome);
      TraceSnoc(s, tuples, passes, pass);
      ghost var before := passes;
      passes := passes + [pass];
      match outcome
      case ExceededMaxOutputTokens =>
        var newBatchSize := batchSize / 10;
        batchSize := if newBatchSize == 0 then 1 else 0;
        start := 0;
        NoneFinishesSnoc(s, tuples, before, pass);
      case Completed(response) =>
        if |batch| == 0 {
          NoneFinishesSnoc(s, tuples, before, pass);
          return Err(DivisionByZero), passes;
        }
        var perTuple := TokensPerTuple(s, response, |batch|);
        if perTuple == 0 {
          NoneFinishesSnoc(s, tuples, before, pass);
          return Err(DivisionByZero), passes;
        }
        assert perTuple > 0;
        assert PerTuple(s, pass) == perTuple;
        batchSize := Div(s.maxOutputTokens, perTuple);
        responses := responses + response;
        start := start + |batch|;
        if start >= |tuples| {
          return Ok(responses), passes;
        }
        NoneFinishesSnoc(s, tuples, before, pass);
    }
  }

  /** Every pass of a trace is well formed. */
  lemma {:induction false} TraceWellFormed<R, T>(s: Setting<R, T>, tuples: seq<R>, passes: seq<Pass<R, T>>, i: nat)
    requires Trace(s, tuples, passes)
    requires i < |passes|
    ensures WellFormedPass(s, tuples, passes[i])
    decreases |passes|
  {
    var n := |passes|;
    if i < n - 1 {
      var init := passes[..n - 1];
      assert init[i] == passes[i];
      TraceWellFormed(s, tuples, init, i);
    }
  }

  /** Each pass of a trace starts where its predecessor left the cursor and the cap. */
  lemma {:induction false} TraceLinked<R, T>(s: Setting<R, T>, tuples: seq<R>, passes: seq<Pass<R, T>>, i: nat)
    requires Trace(s, tuples, passes)
    requires i + 1 < |passes|
    ensures Follows(s, passes[i], passes[i + 1].start, passes[i + 1].cap)
    decreases |passes|
  {
    var n := |passes|;
    if i + 1 < n - 1 {
      var init := passes[..n - 1];
      assert init[i] == passes[i] && init[i + 1] == passes[i + 1];
      TraceLinked(s, tuples, init, i);
    }
  }

  /**
   * An output overflow on a batch allowed 10 rows or more leaves a cap of 0:
   * the next pass sends an empty batch, so it either overflows again or
   * ends the run with a division by zero.
   */
  lemma OverflowOfLargeBatchStalls<R, T>(s: Setting<R, T>, tuples: seq<R>, passes: seq<Pass<R, T>>, i: nat)
    requires Trace(s, tuples, passes)
    requires i + 1 < |passes|
    requires passes[i].outcome.ExceededMaxOutputTokens?
    requires passes[i].cap >= 10
    ensures passes[i + 1].start == 0 && passes[i + 1].batch == []
    ensures !Productive(s, passes[i + 1])
  {
    TraceLinked(s, tuples, passes, i);
    TraceWellFormed(s, tuples, passes, i + 1);
  }

  /** Where the passes after the last output overflow begin. */
  function LastRestart<R, T>(passes: seq<Pass<R, T>>): (k: nat)
    ensures k <= |passes|
    ensures forall i :: k <= i < |passes| ==> passes[i].outcome.Completed?
  {
    if |passes| == 0 then 0
    else if passes[|passes| - 1].outcome.ExceededMaxOutputTokens? then |passes|
    else LastRestart(passes[..|passes| - 1])
  }

  /** The rows of the batches, in call order. */
  function Flatten<R, T>(passes: seq<Pass<R, T>>): seq<R>
  {
    if |passes| == 0 then [] else Flatten(passes[..|passes| - 1]) + passes[|passes| - 1].batch
  }

  lemma FlattenSnoc<R, T>(passes: seq<Pass<R, T>>, p: Pass<R, T>)
    ensures Flatten(passes + [p]) == Flatten(passes) + p.batch
  {
    assert (passes + [p])[..|passes|] == passes;
  }

  /** Pass `p` takes a contiguous run of rows starting at its cursor. */
  ghost predicate Sliced<R, T>(tuples: seq<R>, p: Pass<R, T>)
  {
    p.start + |p.batch| <= |tuples| && p.batch == tuples[p.start..p.start + |p.batch|]
  }

  /**
   * The cursor discipline of a trace alone: each pass is a contiguous slice,
   * starting at row 0 first and after an overflow, and right after the
   * previous batch otherwise.
   */
  ghost predicate Chained<R, T>(tuples: seq<R>, passes: seq<Pass<R, T>>)
    decreases |passes|
  {
    if |passes| == 0 then true
    else
      var p := passes[|passes| - 1];
      && Sliced(tuples, p)
      && (if |passes| == 1 then p.start == 0
          else
            var prev := passes[|passes| - 2];
            && Chained(tuples, passes[..|passes| - 1])
            && p.start == (if prev.outcome.ExceededMaxOutputTokens? then 0 else prev.start + |prev.batch|))
  }

  lemma {:induction false} TraceIsChained<R, T>(s: Setting<R, T>, tuples: seq<R>, passes: seq<Pass<R, T>>)
    requires Trace(s, tuples, passes)
    ensures Chained(tuples, passes)
    decreases |passes|
  {
    if |passes| > 1 {
      TraceIsChained(s, tuples, passes[..|passes| - 1]);
    }
  }

  lemma {:induction false} CoveredSinceRestart<R, T>(tuples: seq<R>, passes: seq<Pass<R, T>>)
    requires Chained(tuples, passes)
    requires |passes| > 0 && passes[|passes| - 1].outcome.Completed?
    ensures var last := passes[|passes| - 1];
      Flatten(passes[LastRestart(passes)..]) == tuples[..last.start + |last.batch|]
    decreases |passes|
  {
    var n := |passes|;
    var last := passes[n - 1];
    var init := passes[..n - 1];
    var k := LastRestart(passes);
    assert k == LastRestart(init);
    if n == 1 || passes[n - 2].outcome.ExceededMaxOutputTokens? {
      assert passes[k..] == [] + [last];
      FlattenSnoc([], last);
    } else {
      assert init[n - 2] == passes[n - 2];
      CoveredSinceRestart(tuples, init);
      assert passes[k..] == init[k..] + [last];
      FlattenSnoc(init[k..], last);
      assert tuples[..last.start + |last.batch|] == tuples[..last.start] + last.batch;
    }
  }

  /**
   * A successful run has consumed every row exactly once, in arrival order,
   * in the passes since its last restart.
   */
  lemma RowsCoveredOnceInOrder<R, T>(s: Setting<R, T>, tuples: seq<R>, passes: seq<Pass<R, T>>)
    requires Trace(s, tuples, passes)
    requires |passes| > 0 && Productive(s, passes[|passes| - 1])
    requires passes[|passes| - 1].start + |passes[|passes| - 1].batch| == |tuples|
    ensures Flatten(passes[LastRestart(passes)..]) == tuples
  {
    TraceIsChained(s, tuples, passes);
    CoveredSinceRestart(tuples, passes);
    assert tuples[..|tuples|] == tuples;
  }
}
