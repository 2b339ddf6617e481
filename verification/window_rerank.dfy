/**
 * The first-generation reranker: a window slides from the last row towards
 * the first. Each window is the better half of the previous window (as the
 * model ranked it) followed by as many fresh rows, read backwards, as the
 * token budget admits. The result is the better half of the last window.
 */
module WindowRerank {
  import opened Wrappers
  import opened Tiktoken
  import opened Packing
  import opened JsonText

  /** An element of a window: a row, or the null that a read past the window's end leaves. */
  datatype Cell<J> = Null | Row(row: J)

  /** A window element as shown to the model, with its position in the window as "flockmtl_tuple_id". */
  datatype Indexed<J> = Indexed(tupleId: int, cell: Cell<J>)

  /** The renderings charged against the budget: JSON, markdown header, markdown row. */
  datatype Renderers<!J> = Renderers(json: J -> string, header: J -> string, single: J -> string)

  datatype Reranker = Reranker(contextWindow: int, searchQuery: string, template: string, available: int)

  /** The constructor: the reranker keeps what the query and template leave of the context. */
  function NewReranker(contextWindow: int, searchQuery: string, template: string): (r: Result<Reranker, string>)
    ensures r.Err? <==> CountTokens(searchQuery) + CountTokens(template) > contextWindow
    ensures r.Err? ==> r.error == "Fixed tokens exceed model context size"
    ensures r.Ok? ==> r.value.available == contextWindow - (CountTokens(searchQuery) + CountTokens(template)) >= 0
  {
    var available :- RowBudget(contextWindow, CountTokens(searchQuery) + CountTokens(template));
    Ok(Reranker(contextWindow, searchQuery, template, available))
  }

  function CellText<J>(rd: Renderers<J>, c: Cell<J>): string
  {
    match c
    case Null => "null"
    case Row(x) => rd.json(x)
  }

  function CellRender<J>(rd: Renderers<J>): Cell<J> -> string
  {
    x => CellText(rd, x)
  }

  /** What a pass is charged before any fresh row: the serialised carry and the next row's header. */
  function PassBase<J>(rd: Renderers<J>, carry: seq<Cell<J>>, next: J): nat
  {
    CountTokens(ArrayDump(CellRender(rd), carry)) + CountTokens(rd.header(next))
  }

  function RowCost<J>(rd: Renderers<J>): J -> nat
  {
    x => CountTokens(rd.single(x))
  }

  function Rows<J>(xs: seq<J>): (r: seq<Cell<J>>)
    ensures |r| == |xs|
    ensures forall i :: 0 <= i < |xs| ==> r[i] == Row(xs[i])
  {
    seq(|xs|, i requires 0 <= i < |xs| => Row(xs[i]))
  }

  /** Position `j` of a window, where a read past the end yields null. */
  function Read<J>(window: seq<Cell<J>>, j: nat): Cell<J>
  {
    if j < |window| then window[j] else Null
  }

  /** The window as shown to the model: element `i` tagged with id `i`. */
  function IndexedWindow<J>(window: seq<Cell<J>>): (r: seq<Indexed<J>>)
    ensures |r| == |window|
    ensures forall i :: 0 <= i < |window| ==> r[i] == Indexed(i, window[i])
  {
    seq(|window|, i requires 0 <= i < |window| => Indexed(i, window[i]))
  }

  /**
   * `InvalidRanking` stands for both ways a ranking cannot be used: reading
   * past its end (undefined behaviour) and a negative position (an
   * allocation failure when the window is padded).
   */
  datatype RerankError = InvalidRanking | OutOfFuel

  /**
   * The next carry: the first `|window| / 2` entries of the ranking, each
   * used as a position in the window; a position past the window's end
   * reads null.
   */
  function RankedHalf<J>(window: seq<Cell<J>>, ranking: seq<int>): (r: Result<seq<Cell<J>>, RerankError>)
    ensures r.Ok? <==> |ranking| >= |window| / 2 && forall i :: 0 <= i < |window| / 2 ==> ranking[i] >= 0
    ensures r.Ok? ==> |r.value| == |window| / 2
    ensures r.Ok? ==> forall i :: 0 <= i < |window| / 2 ==> r.value[i] == Read(window, ranking[i])
  {
    var half := |window| / 2;
    if |ranking| < half || exists i | 0 <= i < half :: ranking[i] < 0 then Err(InvalidRanking)
    else Ok(seq(half, i requires 0 <= i < half => Read(window, ranking[i])))
  }

  /** The indexed copy loop: each window element gets its position as its id. */
  method IndexWindow<J>(window: seq<Cell<J>>) returns (indexed: seq<Indexed<J>>)
    ensures indexed == IndexedWindow(window)
  {
    indexed := [];
    var i := 0;
    while i < |window|
      invariant 0 <= i <= |window|
      invariant indexed == IndexedWindow(window[..i])
    {
      indexed := indexed + [Indexed(i, window[i])];
      i := i + 1;
      assert window[..i] == window[..i - 1] + [window[i - 1]];
    }
    assert window[..|window|] == window;
  }

  /** The carry-selection loop, proved against `RankedHalf`. */
  method SelectRanked<J>(window: seq<Cell<J>>, ranking: seq<int>, half: nat)
    returns (r: Result<seq<Cell<J>>, RerankError>)
    requires half == |window| / 2
    ensures r == RankedHalf(window, ranking)
  {
    var next: seq<Cell<J>> := [];
    var i := 0;
    while i < half
      invariant 0 <= i <= half
      invariant i <= |ranking|
      invariant |next| == i
      invariant forall k :: 0 <= k < i ==> ranking[k] >= 0 && next[k] == Read(window, ranking[k])
    {
      if i >= |ranking| || ranking[i] < 0 {
        return Err(InvalidRanking);
      }
      next := next + [Read(window, ranking[i])];
      i := i + 1;
    }
    r := Ok(next);
    assert r.value == RankedHalf(window, ranking).value;
  }

  /**
   * One window: the carried half of the previous window, the fresh rows
   * admitted (read backwards), and the ranking the model returned for it.
   */
  datatype Pass<J> = Pass(carry: seq<Cell<J>>, taken: seq<J>, ranking: seq<int>)

  function Window<J>(p: Pass<J>): seq<Cell<J>>
  {
    p.carry + Rows(p.taken)
  }

  /** The fresh rows of all windows, in the order they were admitted. */
  function TakenRows<J>(ps: seq<Pass<J>>): seq<J>
  {
    if |ps| == 0 then [] else TakenRows(ps[..|ps| - 1]) + ps[|ps| - 1].taken
  }

  /** What a window starts with: nothing at first, then the ranked half of the previous window. */
  function CarryAfter<J>(ps: seq<Pass<J>>): seq<Cell<J>>
  {
    if |ps| == 0 then []
    else var h := RankedHalf(Window(ps[|ps| - 1]), ps[|ps| - 1].ranking);
      if h.Ok? then h.value else []
  }

  /**
   * Pass `p`, after `c` rows were taken: it is charged the serialised carry
   * plus the header of the next row, and admits rows backwards from there as
   * the admission loop does.
   */
  ghost predicate Admitted<J>(rr: Reranker, rd: Renderers<J>, tuples: seq<J>, c: nat, p: Pass<J>)
  {
    && c < |tuples|
    && c + |p.taken| <= |tuples|
    && p.taken == Backward(tuples, |tuples| - c)[..|p.taken|]
    && Admits(RowCost(rd), PassBase(rd, p.carry, tuples[|tuples| - 1 - c]),
              rr.available, |tuples| - c, Backward(tuples, |tuples| - c), |p.taken|)
  }

  /**
   * Pass `p` after the passes `done`: the previous ranking was usable, the
   * carry is its ranked half, and the ranking is the model's answer for the
   * indexed window.
   */
  ghost predicate Linked<J>(rank: seq<Indexed<J>> -> seq<int>, done: seq<Pass<J>>, p: Pass<J>)
  {
    && (|done| == 0 || RankedHalf(Window(done[|done| - 1]), done[|done| - 1].ranking).Ok?)
    && p.carry == CarryAfter(done)
    && p.ranking == rank(IndexedWindow(Window(p)))
  }

  ghost predicate PassOk<J>(rr: Reranker, rd: Renderers<J>, rank: seq<Indexed<J>> -> seq<int>, tuples: seq<J>,
                            done: seq<Pass<J>>, p: Pass<J>)
  {
    Linked(rank, done, p) && Admitted(rr, rd, tuples, |TakenRows(done)|, p)
  }

  ghost predicate Trace<J>(rr: Reranker, rd: Renderers<J>, rank: seq<Indexed<J>> -> seq<int>, tuples: seq<J>, ps: seq<Pass<J>>)
  {
    |ps| == 0
    || (Trace(rr, rd, rank, tuples, ps[..|ps| - 1])
        && PassOk(rr, rd, rank, tuples, ps[..|ps| - 1], ps[|ps| - 1]))
  }

  lemma TraceSnoc<J>(rr: Reranker, rd: Renderers<J>, rank: seq<Indexed<J>> -> seq<int>, tuples: seq<J>,
                     ps: seq<Pass<J>>, p: Pass<J>)
    requires Trace(rr, rd, rank, tuples, ps)
    requires PassOk(rr, rd, rank, tuples, ps, p)
    ensures Trace(rr, rd, rank, tuples, ps + [p])
    ensures TakenRows(ps + [p]) == TakenRows(ps) + p.taken
  {
    assert (ps + [p])[..|ps|] == ps;
  }

  /** Between passes: the carry, the cursor and the rows taken so far agree with the trace. */
  ghost predicate Between<J>(rr: Reranker, rd: Renderers<J>, rank: seq<Indexed<J>> -> seq<int>, tuples: seq<J>,
                             ps: seq<Pass<J>>, carry: seq<Cell<J>>, startIndex: int)
  {
    && Trace(rr, rd, rank, tuples, ps)
    && (|ps| == 0 || RankedHalf(Window(ps[|ps| - 1]), ps[|ps| - 1].ranking).Ok?)
    && carry == CarryAfter(ps)
    && startIndex == |tuples| - 1 - |TakenRows(ps)| >= 0
    && TakenRows(ps) == Backward(tuples, |tuples|)[..|TakenRows(ps)|]
  }

  lemma AdmittedOfTake<J>(rr: Reranker, rd: Renderers<J>, tuples: seq<J>, c: nat, hi: nat, carry: seq<Cell<J>>,
                          taken: seq<J>, ranking: seq<int>)
    requires 0 < hi && hi + c == |tuples| && |taken| <= hi
    requires taken == Backward(tuples, hi)[..|taken|]
    requires Admits(RowCost(rd), PassBase(rd, carry, tuples[hi - 1]),
                    rr.available, hi, Backward(tuples, hi), |taken|)
    ensures Admitted(rr, rd, tuples, c, Pass(carry, taken, ranking))
  {
  }

  lemma PassStep<J>(rr: Reranker, rd: Renderers<J>, rank: seq<Indexed<J>> -> seq<int>, tuples: seq<J>,
                    ps: seq<Pass<J>>, startIndex: int, p: Pass<J>, next: int)
    requires Between(rr, rd, rank, tuples, ps, p.carry, startIndex)
    requires next == startIndex - |p.taken| && -1 <= next
    requires p.taken == Backward(tuples, startIndex + 1)[..|p.taken|]
    requires Admits(RowCost(rd), PassBase(rd, p.carry, tuples[startIndex]),
                    rr.available, startIndex + 1, Backward(tuples, startIndex + 1), |p.taken|)
    requires p.ranking == rank(IndexedWindow(Window(p)))
    ensures Trace(rr, rd, rank, tuples, ps + [p])
    ensures next == |tuples| - 1 - |TakenRows(ps + [p])|
    ensures TakenRows(ps + [p]) == Backward(tuples, |tuples|)[..|TakenRows(ps + [p])|]
    ensures RankedHalf(Window(p), p.ranking).Ok? ==>
      CarryAfter(ps + [p]) == RankedHalf(Window(p), p.ranking).value
  {
    var c := |TakenRows(ps)|;
    var hi := startIndex + 1;
    assert Linked(rank, ps, p);
    assert 0 < hi && hi + c == |tuples| && |p.taken| <= hi;
    assert tuples[hi - 1] == tuples[startIndex];
    assert Admits(RowCost(rd), PassBase(rd, p.carry, tuples[hi - 1]), rr.available, hi, Backward(tuples, hi), |p.taken|);
    AdmittedOfTake(rr, rd, tuples, c, hi, p.carry, p.taken, p.ranking);
    TraceSnoc(rr, rd, rank, tuples, ps, p);
    BackwardContinues(tuples, c, |p.taken|);
  }

  /**
   * One window of the sliding rerank: the carry, the header of the row at
   * `startIndex` and as many rows read backwards from it as fit, ranked and
   * halved. `half` is the size of the half kept.
   */
  method WindowPass<J>(rr: Reranker, rd: Renderers<J>, rank: seq<Indexed<J>> -> seq<int>, tuples: seq<J>,
                       ghost ps: seq<Pass<J>>, carry: seq<Cell<J>>, halfBatch: nat, startIndex: int)
    returns (selected: Result<seq<Cell<J>>, RerankError>, half: nat, next: int, ghost pass: Pass<J>)
    requires Between(rr, rd, rank, tuples, ps, carry, startIndex)
    requires halfBatch == |carry|
    ensures pass.carry == carry
    ensures Trace(rr, rd, rank, tuples, ps + [pass])
    ensures next == |tuples| - 1 - |TakenRows(ps + [pass])| && -1 <= next
    ensures TakenRows(ps + [pass]) == Backward(tuples, |tuples|)[..|TakenRows(ps + [pass])|]
    ensures selected == RankedHalf(Window(pass), pass.ranking)
    ensures selected.Ok? ==> CarryAfter(ps + [pass]) == selected.value && |selected.value| == half
  {
    var window := carry;
    var batchSize := halfBatch;
    var base := PassBase(rd, window, tuples[startIndex]);
    var taken, total;
    taken, next, total := TakeBackward(RowCost(rd), tuples, startIndex, base, rr.available);
    window := window + Rows(taken);
    batchSize := batchSize + |taken|;
    var indexed := IndexWindow(window);
    var ranking := rank(indexed);
    half := batchSize / 2;
    selected := SelectRanked(window, ranking, half);
    pass := Pass(carry, taken, ranking);
    PassStep(rr, rd, rank, tuples, ps, startIndex, pass, next);
  }

  /**
   * The sliding-window rerank. Every group has at least one row (the first
   * pass reads the header of the last row). A row that never fits beside the
   * carry makes the source loop forever; `fuel` bounds the number of windows.
   */
  method SlidingWindowRerank<J>(rr: Reranker, rd: Renderers<J>, rank: seq<Indexed<J>> -> seq<int>,
                                tuples: seq<J>, fuel: nat)
    returns (res: Result<seq<Cell<J>>, RerankError>, ghost passes: seq<Pass<J>>)
    requires |tuples| > 0
    ensures Trace(rr, rd, rank, tuples, passes)
    ensures |passes| >= 1
    ensures TakenRows(passes) == Backward(tuples, |tuples|)[..|TakenRows(passes)|]
    ensures res.Ok? ==> TakenRows(passes) == Backward(tuples, |tuples|)
    ensures res.Ok? ==> RankedHalf(Window(passes[|passes| - 1]), passes[|passes| - 1].ranking) == res
    ensures res.Ok? ==> |res.value| <= |tuples| / 2
    ensures res.Err? && res.error != OutOfFuel ==>
      RankedHalf(Window(passes[|passes| - 1]), passes[|passes| - 1].ranking) == res
    ensures res == Err(OutOfFuel) ==> |passes| >= fuel && |TakenRows(passes)| < |tuples|
  {
    var carry: seq<Cell<J>> := [];
    var startIndex: int := |tuples| - 1;
    var halfBatch := 0;
    passes := [];
    var calls := 0;
    while true
      invariant calls == |passes|
      invariant Between(rr, rd, rank, tuples, passes, carry, startIndex)
      invariant halfBatch == |carry|
      decreases if calls == 0 then fuel + 1 else fuel - calls
    {
      var selected, next;
      ghost var pass;
      selected, halfBatch, next, pass := WindowPass(rr, rd, rank, tuples, passes, carry, halfBatch, startIndex);
      passes := passes + [pass];
      calls := calls + 1;
      if selected.Err? {
        return selected, passes;
      }
      carry := selected.value;
      startIndex := next;
      if startIndex < 0 {
        AtMostHalfReturned(rr, rd, rank, tuples, passes, carry);
        return Ok(carry), passes;
      }
      if calls >= fuel {
        return Err(OutOfFuel), passes;
      }
    }
  }

  lemma {:induction false} TraceAt<J>(rr: Reranker, rd: Renderers<J>, rank: seq<Indexed<J>> -> seq<int>, tuples: seq<J>,
                                      ps: seq<Pass<J>>, k: nat)
    requires Trace(rr, rd, rank, tuples, ps)
    requires k < |ps|
    ensures PassOk(rr, rd, rank, tuples, ps[..k], ps[k])
  {
    if k < |ps| - 1 {
      var init := ps[..|ps| - 1];
      assert init[..k] == ps[..k] && init[k] == ps[k];
      TraceAt(rr, rd, rank, tuples, init, k);
    }
  }

  /**
   * A window is never larger than the number of rows taken up to it: the
   * carry is half of the previous window, and every other element is a
   * fresh row.
   */
  lemma {:induction false} WindowBoundedByRowsTaken<J>(rr: Reranker, rd: Renderers<J>, rank: seq<Indexed<J>> -> seq<int>,
                                                       tuples: seq<J>, ps: seq<Pass<J>>)
    requires Trace(rr, rd, rank, tuples, ps)
    requires |ps| > 0
    ensures |Window(ps[|ps| - 1])| <= |TakenRows(ps)|
  {
    var init := ps[..|ps| - 1];
    var p := ps[|ps| - 1];
    if |init| > 0 {
      WindowBoundedByRowsTaken(rr, rd, rank, tuples, init);
      assert |p.carry| == |Window(init[|init| - 1])| / 2;
    }
  }

  /**
   * The result is the ranked half of the last window only: at most half of
   * the group's rows are returned, and the rows ranked into lower halves
   * along the way are dropped.
   */
  lemma AtMostHalfReturned<J>(rr: Reranker, rd: Renderers<J>, rank: seq<Indexed<J>> -> seq<int>,
                              tuples: seq<J>, ps: seq<Pass<J>>, result: seq<Cell<J>>)
    requires Trace(rr, rd, rank, tuples, ps)
    requires |ps| > 0 && TakenRows(ps) == Backward(tuples, |tuples|)
    requires RankedHalf(Window(ps[|ps| - 1]), ps[|ps| - 1].ranking) == Ok(result)
    ensures |result| <= |tuples| / 2
  {
    WindowBoundedByRowsTaken(rr, rd, rank, tuples, ps);
  }

  /** A window admits fresh rows only while the carry, the header and the rows fit the budget. */
  lemma PassWithinBudget<J>(rr: Reranker, rd: Renderers<J>, tuples: seq<J>, c: nat, p: Pass<J>)
    requires Admitted(rr, rd, tuples, c, p)
    requires |p.taken| > 0
    ensures c < |tuples|
    ensures PassBase(rd, p.carry, tuples[|tuples| - 1 - c]) + Sum(RowCost(rd), p.taken) <= rr.available
  {
    AdmittedWithinBudget(RowCost(rd), PassBase(rd, p.carry, tuples[|tuples| - 1 - c]), rr.available,
                         |tuples| - c, Backward(tuples, |tuples| - c), |p.taken|);
  }
}
