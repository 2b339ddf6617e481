/**
 * The reduce aggregate's fold: rows are read from the last to the first and
 * packed into windows that fit the token budget; each window is sent to the
 * model, and its answer is carried as the first element of the next window.
 * The answer to the last window is the aggregate's result.
 */
module Reduce {
  import opened Wrappers
  import opened Tiktoken
  import opened Packing
  import opened JsonText

  /** The reducer once constructed: its query, template and row budget. */
  datatype Reducer = Reducer(contextSize: int, reduceQuery: string, template: string, available: int)

  /** The constructor: the reducer keeps what the query and template leave of the context. */
  function NewReducer(contextSize: int, reduceQuery: string, template: string): (r: Result<Reducer, string>)
    ensures r.Err? <==> CountTokens(reduceQuery) + CountTokens(template) > contextSize
    ensures r.Err? ==> r.error == "Fixed tokens exceed model context size"
    ensures r.Ok? ==> r.value.available == contextSize - (CountTokens(reduceQuery) + CountTokens(template)) >= 0
  {
    var available :- RowBudget(contextSize, CountTokens(reduceQuery) + CountTokens(template));
    Ok(Reducer(contextSize, reduceQuery, template, available))
  }

  /** One window sent to the model: the carried answer (if any), then the rows admitted. */
  datatype Window<J> = Window(carry: seq<J>, taken: seq<J>)

  function Sent<J>(w: Window<J>): seq<J>
  {
    w.carry + w.taken
  }

  /** The rows of all windows, in the order they were admitted. */
  function TakenRows<J>(ws: seq<Window<J>>): seq<J>
  {
    if |ws| == 0 then [] else TakenRows(ws[..|ws| - 1]) + ws[|ws| - 1].taken
  }

  /** What a window starts with: nothing at first, the previous window's answer afterwards. */
  function CarryAfter<J>(reduce: seq<J> -> J, ws: seq<Window<J>>): (c: seq<J>)
    ensures |c| <= 1
  {
    if |ws| == 0 then [] else [reduce(Sent(ws[|ws| - 1]))]
  }

  function RowCost<J>(rowText: J -> string): J -> nat
  {
    x => CountTokens(rowText(x))
  }

  /**
   * Window `w`, after the windows `done`: only the first window is sent
   * whatever the rows, a later one only while rows remain; it carries the
   * previous answer, is charged the tokens of the serialised carry, and
   * admits rows backwards from the last row not yet taken, as the admission
   * loop does.
   */
  ghost predicate WindowOk<J>(r: Reducer, rowText: J -> string, reduce: seq<J> -> J, tuples: seq<J>,
                              done: seq<Window<J>>, w: Window<J>)
  {
    var c := |TakenRows(done)|;
    && c + |w.taken| <= |tuples|
    && (|done| == 0 || c < |tuples|)
    && w.carry == CarryAfter(reduce, done)
    && w.taken == Backward(tuples, |tuples| - c)[..|w.taken|]
    && Admits(RowCost(rowText), CountTokens(ArrayDump(rowText, w.carry)), r.available,
              |tuples| - c, Backward(tuples, |tuples| - c), |w.taken|)
  }

  /** Every window of the run is well formed with respect to the ones before it. */
  ghost predicate Trace<J>(r: Reducer, rowText: J -> string, reduce: seq<J> -> J, tuples: seq<J>, ws: seq<Window<J>>)
  {
    |ws| == 0
    || (Trace(r, rowText, reduce, tuples, ws[..|ws| - 1])
        && WindowOk(r, rowText, reduce, tuples, ws[..|ws| - 1], ws[|ws| - 1]))
  }

  lemma TraceSnoc<J>(r: Reducer, rowText: J -> string, reduce: seq<J> -> J, tuples: seq<J>,
                     ws: seq<Window<J>>, w: Window<J>)
    requires Trace(r, rowText, reduce, tuples, ws)
    requires WindowOk(r, rowText, reduce, tuples, ws, w)
    ensures Trace(r, rowText, reduce, tuples, ws + [w])
    ensures TakenRows(ws + [w]) == TakenRows(ws) + w.taken
    ensures CarryAfter(reduce, ws + [w]) == [reduce(Sent(w))]
  {
    assert (ws + [w])[..|ws|] == ws;
  }

  /**
   * Between windows: the carry is the last answer, the cursor sits just
   * before the rows already taken, and those rows are the input read
   * backwards, from the last row on.
   */
  ghost predicate Between<J>(r: Reducer, rowText: J -> string, reduce: seq<J> -> J, tuples: seq<J>,
                             ws: seq<Window<J>>, carry: seq<J>, startIndex: int)
  {
    && Trace(r, rowText, reduce, tuples, ws)
    && carry == CarryAfter(reduce, ws)
    && startIndex == |tuples| - 1 - |TakenRows(ws)| >= -1
    && TakenRows(ws) == Backward(tuples, |tuples|)[..|TakenRows(ws)|]
  }

  /** One run of the backward admission loop followed by a model call keeps `Between`. */
  lemma WindowStep<J>(r: Reducer, rowText: J -> string, reduce: seq<J> -> J, tuples: seq<J>,
                      ws: seq<Window<J>>, carry: seq<J>, startIndex: int, taken: seq<J>, next: int)
    requires Between(r, rowText, reduce, tuples, ws, carry, startIndex)
    requires |ws| == 0 || startIndex >= 0
    requires next == startIndex - |taken| && -1 <= next
    requires taken == Backward(tuples, startIndex + 1)[..|taken|]
    requires Admits(RowCost(rowText), CountTokens(ArrayDump(rowText, carry)), r.available,
                    startIndex + 1, Backward(tuples, startIndex + 1), |taken|)
    ensures Between(r, rowText, reduce, tuples, ws + [Window(carry, taken)], [reduce(carry + taken)], next)
  {
    var w := Window(carry, taken);
    assert WindowOk(r, rowText, reduce, tuples, ws, w);
    BackwardContinues(tuples, |TakenRows(ws)|, |taken|);
    TraceSnoc(r, rowText, reduce, tuples, ws, w);
  }

  datatype ReduceError = OutOfFuel

  /**
   * The fold. The first window is always sent, even for no rows at all;
   * further windows are sent while rows remain. A row that never fits beside
   * the carried answer makes the source loop forever; `fuel` bounds the
   * number of windows and turns that into `OutOfFuel`.
   */
  method ReduceLoop<J>(r: Reducer, rowText: J -> string, reduce: seq<J> -> J, tuples: seq<J>, fuel: nat)
    returns (res: Result<J, ReduceError>, ghost windows: seq<Window<J>>)
    ensures Trace(r, rowText, reduce, tuples, windows)
    ensures |windows| >= 1
    ensures TakenRows(windows) == Backward(tuples, |tuples|)[..|TakenRows(windows)|]
    ensures res.Ok? ==> TakenRows(windows) == Backward(tuples, |tuples|)
    ensures res.Ok? ==> res.value == reduce(Sent(windows[|windows| - 1]))
    ensures res.Err? ==> |windows| >= fuel && |TakenRows(windows)| < |tuples|
  {
    var window: seq<J> := [];
    var startIndex: int := |tuples| - 1;
    windows := [];
    var calls := 0;
    while true
      invariant calls == |windows|
      invariant Between(r, rowText, reduce, tuples, windows, window, startIndex)
      invariant calls > 0 ==> startIndex >= 0
      decreases if calls == 0 then fuel + 1 else fuel - calls
    {
      var base := CountTokens(ArrayDump(rowText, window));
      var taken, next, total := TakeBackward(RowCost(rowText), tuples, startIndex, base, r.available);
      WindowStep(r, rowText, reduce, tuples, windows, window, startIndex, taken, next);
      windows := windows + [Window(window, taken)];
      calls := calls + 1;
      var response := reduce(window + taken);
      window := [response];
      startIndex := next;
      if startIndex < 0 {
        assert |TakenRows(windows)| == |tuples|;
        return Ok(window[0]), windows;
      }
      if calls >= fuel {
        return Err(OutOfFuel), windows;
      }
    }
  }

  /**
   * Only the first window may be sent with no row left: every later one
   * starts while some row is still untaken, so the run stops with the
   * window that takes the first row.
   */
  lemma NoWindowAfterLastRow<J>(r: Reducer, rowText: J -> string, reduce: seq<J> -> J, tuples: seq<J>,
                                ws: seq<Window<J>>, k: nat)
    requires Trace(r, rowText, reduce, tuples, ws)
    requires 0 < k < |ws|
    ensures |TakenRows(ws[..k])| < |tuples|
  {
    TraceAt(r, rowText, reduce, tuples, ws, k);
  }

  /** The first window carries nothing, so it is charged exactly the 2 tokens of "[]". */
  lemma FirstWindowChargesEmptyArray<J>(r: Reducer, rowText: J -> string, reduce: seq<J> -> J, tuples: seq<J>,
                                        ws: seq<Window<J>>)
    requires Trace(r, rowText, reduce, tuples, ws)
    requires |ws| > 0
    ensures ws[0].carry == []
    ensures CountTokens(ArrayDump(rowText, ws[0].carry)) == 2
  {
    if |ws| > 1 {
      assert ws[..|ws| - 1][0] == ws[0];
      FirstWindowChargesEmptyArray(r, rowText, reduce, tuples, ws[..|ws| - 1]);
    } else {
      EmptyArrayIsTwoTokens();
    }
  }

  /** Every later window is exactly the previous answer followed by the rows it admitted. */
  lemma LaterWindowCarriesAnswer<J>(r: Reducer, rowText: J -> string, reduce: seq<J> -> J, tuples: seq<J>,
                                    ws: seq<Window<J>>, k: nat)
    requires Trace(r, rowText, reduce, tuples, ws)
    requires 0 < k < |ws|
    ensures Sent(ws[k]) == [reduce(Sent(ws[k - 1]))] + ws[k].taken
  {
    var init := ws[..|ws| - 1];
    if k < |ws| - 1 {
      assert init[k] == ws[k] && init[k - 1] == ws[k - 1];
      LaterWindowCarriesAnswer(r, rowText, reduce, tuples, init, k);
    }
  }

  lemma {:induction false} TraceAt<J>(r: Reducer, rowText: J -> string, reduce: seq<J> -> J, tuples: seq<J>,
                                      ws: seq<Window<J>>, k: nat)
    requires Trace(r, rowText, reduce, tuples, ws)
    requires k < |ws|
    ensures WindowOk(r, rowText, reduce, tuples, ws[..k], ws[k])
  {
    if k < |ws| - 1 {
      var init := ws[..|ws| - 1];
      assert init[..k] == ws[..k] && init[k] == ws[k];
      TraceAt(r, rowText, reduce, tuples, init, k);
    }
  }

  lemma WindowOkWithinBudget<J>(r: Reducer, rowText: J -> string, reduce: seq<J> -> J, tuples: seq<J>,
                                done: seq<Window<J>>, w: Window<J>)
    requires WindowOk(r, rowText, reduce, tuples, done, w)
    requires |w.taken| > 0
    ensures CountTokens(ArrayDump(rowText, w.carry)) + Sum(RowCost(rowText), w.taken) <= r.available
  {
    var hi := |tuples| - |TakenRows(done)|;
    var src := Backward(tuples, hi);
    AdmittedWithinBudget(RowCost(rowText), CountTokens(ArrayDump(rowText, w.carry)), r.available,
                         hi, src, |w.taken|);
  }

  /** No window overdraws the budget: the carry's tokens plus its rows' tokens fit. */
  lemma WindowWithinBudget<J>(r: Reducer, rowText: J -> string, reduce: seq<J> -> J, tuples: seq<J>,
                              ws: seq<Window<J>>, k: nat)
    requires Trace(r, rowText, reduce, tuples, ws)
    requires k < |ws| && |ws[k].taken| > 0
    ensures CountTokens(ArrayDump(rowText, ws[k].carry)) + Sum(RowCost(rowText), ws[k].taken) <= r.available
  {
    TraceAt(r, rowText, reduce, tuples, ws, k);
    WindowOkWithinBudget(r, rowText, reduce, tuples, ws[..k], ws[k]);
  }
}
