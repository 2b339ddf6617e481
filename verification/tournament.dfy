/**
 * The tournament behind the MIN and MAX aggregates: candidates are split
 * into batches by a token budget, the model picks one element of each batch,
 * and the winners play the next round until a single candidate is left.
 *
 * Candidates are JSON objects `{"id": i, "content": row}`. Reading a JSON
 * array past its end through a non-const reference appends nulls, so a read
 * outside the candidates yields `Null`, and a null's "content" is null.
 */
module Tournament {
  import opened Wrappers
  import opened Tiktoken
  import opened Packing

  datatype Item<R> = Null | Tuple(id: int, content: R)

  /** The "content" member of a candidate: `None` stands for JSON null. */
  function Content<R>(item: Item<R>): Option<R>
  {
    match item
    case Null => None
    case Tuple(_, c) => Some(c)
  }

  /** The selector's configuration once constructed: its prompt, template and row budget. */
  datatype Selector<R> = Selector(
    contextSize: int,
    userPrompt: string,
    template: string,
    available: int)

  /** Tokens charged for the prompt and the template, whatever the rows. */
  function FixedTokens(userPrompt: string, template: string): nat
  {
    CountTokens(userPrompt) + CountTokens(template)
  }

  /** The constructor: the selector keeps what the prompt and template leave of the context. */
  function NewSelector<R>(contextSize: int, userPrompt: string, template: string): (r: Result<Selector<R>, string>)
    ensures r.Err? <==> FixedTokens(userPrompt, template) > contextSize
    ensures r.Err? ==> r.error == "Fixed tokens exceed model context size"
    ensures r.Ok? ==> r.value.available == contextSize - FixedTokens(userPrompt, template) >= 0
    ensures r.Ok? ==> r.value.userPrompt == userPrompt && r.value.template == template
  {
    var available :- RowBudget(contextSize, FixedTokens(userPrompt, template));
    Ok(Selector(contextSize, userPrompt, template, available))
  }

  /** Sum of the entries of a batch-size list. */
  function Total(plan: seq<nat>): nat
  {
    if |plan| == 0 then 0 else Total(plan[..|plan| - 1]) + plan[|plan| - 1]
  }

  /**
   * A batch of `len` rows starting at `lo`: at least one row; every row but
   * the last left the running total below the budget; and the batch was
   * closed because the total reached the budget or the rows ran out.
   */
  ghost predicate SegmentOk<R>(cost: Item<R> -> nat, tuples: seq<Item<R>>, avail: int, lo: nat, len: nat)
  {
    && len >= 1
    && lo + len <= |tuples|
    && (len == 1 || Sum(cost, tuples[lo..lo + len - 1]) < avail)
    && (Sum(cost, tuples[lo..lo + len]) >= avail || lo + len == |tuples|)
  }

  /** Every entry of the plan is a well-closed batch, the batches laid end to end from row 0. */
  ghost predicate PlanOk<R>(cost: Item<R> -> nat, tuples: seq<Item<R>>, avail: int, plan: seq<nat>)
  {
    |plan| == 0
    || (PlanOk(cost, tuples, avail, plan[..|plan| - 1])
        && SegmentOk(cost, tuples, avail, Total(plan[..|plan| - 1]), plan[|plan| - 1]))
  }

  lemma PlanSnoc<R>(cost: Item<R> -> nat, tuples: seq<Item<R>>, avail: int, plan: seq<nat>, len: nat)
    requires PlanOk(cost, tuples, avail, plan)
    requires SegmentOk(cost, tuples, avail, Total(plan), len)
    ensures PlanOk(cost, tuples, avail, plan + [len])
    ensures Total(plan + [len]) == Total(plan) + len
  {
    assert (plan + [len])[..|plan|] == plan;
  }

  /** Every entry of a well-formed plan is at least 1, and the plan never runs past the rows. */
  lemma {:induction false} PlanEntriesPositive<R>(cost: Item<R> -> nat, tuples: seq<Item<R>>, avail: int, plan: seq<nat>, k: nat)
    requires PlanOk(cost, tuples, avail, plan)
    requires k < |plan|
    ensures plan[k] >= 1
    ensures Total(plan) <= |tuples|
  {
    var init := plan[..|plan| - 1];
    if k < |plan| - 1 {
      assert init[k] == plan[k];
      PlanEntriesPositive(cost, tuples, avail, init, k);
    }
  }

  /**
   * The batch being filled covers rows `[lo, i)`, `used` tokens so far; it
   * is still open, so the total is below the budget, and it was below the
   * budget before its last row too.
   */
  ghost predicate OpenSegment<R>(cost: Item<R> -> nat, tuples: seq<Item<R>>, avail: int, lo: nat, i: nat, used: nat)
  {
    && lo <= i <= |tuples|
    && used == Sum(cost, tuples[lo..i])
    && (lo < i ==> used < avail)
    && (lo + 1 < i ==> Sum(cost, tuples[lo..i - 1]) < avail)
  }

  lemma OpenSegmentGrows<R>(cost: Item<R> -> nat, tuples: seq<Item<R>>, lo: nat, i: nat)
    requires lo <= i < |tuples|
    ensures Sum(cost, tuples[lo..i + 1]) == Sum(cost, tuples[lo..i]) + cost(tuples[i])
  {
    assert tuples[lo..i + 1] == tuples[lo..i] + [tuples[i]];
    SumSnoc(cost, tuples[lo..i], tuples[i]);
  }

  lemma ClosedSegmentOk<R>(cost: Item<R> -> nat, tuples: seq<Item<R>>, avail: int, lo: nat, i: nat, used: nat)
    requires OpenSegment(cost, tuples, avail, lo, i, used)
    requires i < |tuples|
    requires used + cost(tuples[i]) >= avail || i == |tuples| - 1
    ensures SegmentOk(cost, tuples, avail, lo, i + 1 - lo)
  {
    OpenSegmentGrows(cost, tuples, lo, i);
    assert lo + (i + 1 - lo) - 1 == i;
    assert lo + (i + 1 - lo) == i + 1;
  }

  /**
   * What planning promises once every row is charged: the batches cover all
   * rows, and the counter's final value is 0 exactly when the last batch was
   * closed on the budget (or there was none), its size otherwise.
   */
  ghost predicate Finished<R>(cost: Item<R> -> nat, tuples: seq<Item<R>>, avail: int, plan: seq<nat>, last: nat)
  {
    && Total(plan) == |tuples|
    && (last == 0 <==> (|plan| == 0 || Sum(cost, tuples[|tuples| - plan[|plan| - 1]..]) >= avail))
    && (last != 0 ==> |plan| > 0 && last == plan[|plan| - 1])
  }

  /** Planning has charged rows `[0, i)`; the open batch holds the last `last` of them. */
  ghost predicate Running<R>(cost: Item<R> -> nat, tuples: seq<Item<R>>, avail: int, plan: seq<nat>, last: nat, used: nat, i: nat)
  {
    && i < |tuples|
    && Total(plan) + last == i
    && OpenSegment(cost, tuples, avail, i - last, i, used)
  }

  lemma GrowSegment<R>(cost: Item<R> -> nat, tuples: seq<Item<R>>, avail: int, plan: seq<nat>, last: nat, used: nat, i: nat)
    requires Running(cost, tuples, avail, plan, last, used, i)
    requires used + cost(tuples[i]) < avail && i + 1 < |tuples|
    ensures Running(cost, tuples, avail, plan, last + 1, used + cost(tuples[i]), i + 1)
  {
    OpenSegmentGrows(cost, tuples, i - last, i);
    assert i + 1 - (last + 1) == i - last;
  }

  lemma CloseSegment<R>(cost: Item<R> -> nat, tuples: seq<Item<R>>, avail: int, plan: seq<nat>, last: nat, used: nat, i: nat)
    requires PlanOk(cost, tuples, avail, plan)
    requires Running(cost, tuples, avail, plan, last, used, i)
    requires used + cost(tuples[i]) >= avail || i == |tuples| - 1
    ensures PlanOk(cost, tuples, avail, plan + [last + 1])
    ensures i + 1 < |tuples| ==> Running(cost, tuples, avail, plan + [last + 1], 0, 0, i + 1)
    ensures i + 1 == |tuples| ==> Finished(cost, tuples, avail, plan + [last + 1],
      if used + cost(tuples[i]) >= avail then 0 else last + 1)
  {
    var lo := i - last;
    ClosedSegmentOk(cost, tuples, avail, lo, i, used);
    PlanSnoc(cost, tuples, avail, plan, last + 1);
    if i + 1 == |tuples| {
      OpenSegmentGrows(cost, tuples, lo, i);
      assert tuples[|tuples| - (last + 1)..] == tuples[lo..i + 1];
    } else {
      assert tuples[i + 1..i + 1] == [];
    }
  }

  /**
   * One step of the batch-planning loop: row `i` is charged to the open
   * batch of `last` rows costing `used`; the batch is closed right after the
   * row that brings the total to the budget (that row included), and the
   * last partial batch is closed at the last row. The result is the new
   * running total, counter and list of closed batches.
   */
  function Next<R>(cost: Item<R> -> nat, tuples: seq<Item<R>>, avail: int,
                   i: nat, used: nat, last: nat, plan: seq<nat>): (nat, nat, seq<nat>)
    requires i < |tuples|
  {
    var used' := used + cost(tuples[i]);
    if used' >= avail then (0, 0, plan + [last + 1])
    else if i == |tuples| - 1 then (used', last + 1, plan + [last + 1])
    else (used', last + 1, plan)
  }

  /** The batch-planning loop from row `i` on: the final plan and the counter's final value. */
  function PlanFrom<R>(cost: Item<R> -> nat, tuples: seq<Item<R>>, avail: int,
                       i: nat, used: nat, last: nat, plan: seq<nat>): (seq<nat>, nat)
    decreases |tuples| - i
  {
    if i >= |tuples| then (plan, last)
    else
      var (used', last', plan') := Next(cost, tuples, avail, i, used, last, plan);
      PlanFrom(cost, tuples, avail, i + 1, used', last', plan')
  }

  /** The plan and final counter of a whole planning run, from row 0 with nothing charged. */
  function Plan<R>(cost: Item<R> -> nat, tuples: seq<Item<R>>, avail: int): (seq<nat>, nat)
  {
    PlanFrom(cost, tuples, avail, 0, 0, 0, [])
  }

  /** A finished plan whose batches are all well closed. */
  ghost predicate PlanDone<R>(cost: Item<R> -> nat, tuples: seq<Item<R>>, avail: int, result: (seq<nat>, nat))
  {
    PlanOk(cost, tuples, avail, result.0) && Finished(cost, tuples, avail, result.0, result.1)
  }

  /** A state of the planning loop before row `i`: closed batches well formed, the open one running or finished. */
  ghost predicate Reached<R>(cost: Item<R> -> nat, tuples: seq<Item<R>>, avail: int,
                             i: nat, used: nat, last: nat, plan: seq<nat>)
  {
    && i <= |tuples|
    && PlanOk(cost, tuples, avail, plan)
    && (i < |tuples| ==> Running(cost, tuples, avail, plan, last, used, i))
    && (i == |tuples| ==> Finished(cost, tuples, avail, plan, last))
  }

  lemma NextReached<R>(cost: Item<R> -> nat, tuples: seq<Item<R>>, avail: int,
                       i: nat, used: nat, last: nat, plan: seq<nat>)
    requires i < |tuples|
    requires Reached(cost, tuples, avail, i, used, last, plan)
    ensures var (used', last', plan') := Next(cost, tuples, avail, i, used, last, plan);
      Reached(cost, tuples, avail, i + 1, used', last', plan')
  {
    if used + cost(tuples[i]) >= avail || i == |tuples| - 1 {
      CloseSegment(cost, tuples, avail, plan, last, used, i);
    } else {
      GrowSegment(cost, tuples, avail, plan, last, used, i);
    }
  }

  /** From any state the loop can reach, planning ends with well-closed batches covering every row. */
  lemma {:induction false} PlanFromOk<R>(cost: Item<R> -> nat, tuples: seq<Item<R>>, avail: int,
                                         i: nat, used: nat, last: nat, plan: seq<nat>)
    requires Reached(cost, tuples, avail, i, used, last, plan)
    ensures PlanDone(cost, tuples, avail, PlanFrom(cost, tuples, avail, i, used, last, plan))
    decreases |tuples| - i
  {
    if i < |tuples| {
      NextReached(cost, tuples, avail, i, used, last, plan);
      var (used', last', plan') := Next(cost, tuples, avail, i, used, last, plan);
      PlanFromOk(cost, tuples, avail, i + 1, used', last', plan');
    }
  }

  /**
   * The plan of a whole run: every batch is well closed, the batches cover
   * every row, and the counter ends at 0 exactly when the last batch closed
   * on the budget (or there were no rows), at that batch's size otherwise.
   */
  lemma PlanIsWellFormed<R>(cost: Item<R> -> nat, tuples: seq<Item<R>>, avail: int)
    ensures PlanOk(cost, tuples, avail, Plan(cost, tuples, avail).0)
    ensures Finished(cost, tuples, avail, Plan(cost, tuples, avail).0, Plan(cost, tuples, avail).1)
  {
    assert tuples[0..0] == [];
    PlanFromOk(cost, tuples, avail, 0, 0, 0, []);
  }

  /** The batch-planning loop of the selector, proved to compute `Plan`. */
  method PlanBatches<R>(cost: Item<R> -> nat, tuples: seq<Item<R>>, avail: int)
    returns (plan: seq<nat>, last: nat)
    ensures (plan, last) == Plan(cost, tuples, avail)
    ensures PlanOk(cost, tuples, avail, plan)
    ensures Finished(cost, tuples, avail, plan, last)
  {
    plan := [];
    last := 0;
    var used: nat := 0;
    var i := 0;
    while i < |tuples|
      invariant 0 <= i <= |tuples|
      invariant PlanFrom(cost, tuples, avail, i, used, last, plan) == Plan(cost, tuples, avail)
    {
      used := used + cost(tuples[i]);
      last := last + 1;
      if used >= avail {
        plan := plan + [last];
        used := 0;
        last := 0;
      } else if i == |tuples| - 1 {
        plan := plan + [last];
      }
      i := i + 1;
    }
    PlanIsWellFormed(cost, tuples, avail);
  }

  /** Position `j` of the candidate array, where a read past the end yields null. */
  function Read<R>(tuples: seq<Item<R>>, j: nat): Item<R>
  {
    if j < |tuples| then tuples[j] else Null
  }

  /** The `len` positions of the candidate array from `lo` on. */
  function Slice<R>(tuples: seq<Item<R>>, lo: nat, len: nat): (b: seq<Item<R>>)
    ensures |b| == len
  {
    seq(len, j requires 0 <= j < len => Read(tuples, lo + j))
  }

  datatype SelectError = NegativeSelection | OutOfFuel

  /** The element the model selected: a position in the batch, null past its end. */
  function Pick<R>(batch: seq<Item<R>>, k: int): Result<Item<R>, SelectError>
  {
    if k < 0 then Err(NegativeSelection) else Ok(Read(batch, k))
  }

  /**
   * The winners of one round of `m` batches of `b` positions each: an error
   * when the model selects a negative position in any batch, otherwise the
   * element at the selected position of every batch, in batch order.
   */
  function Winners<R>(tuples: seq<Item<R>>, m: nat, b: nat, getElement: seq<Item<R>> -> int)
    : Result<seq<Item<R>>, SelectError>
  {
    if forall i :: 0 <= i < m ==> getElement(Slice(tuples, i * b, b)) >= 0
    then Ok(seq(m, i requires 0 <= i < m => Read(Slice(tuples, i * b, b), getElement(Slice(tuples, i * b, b)))))
    else Err(NegativeSelection)
  }

  /**
   * One round's model calls. Batch `i` is positions `[i * b, i * b + b)` of
   * the candidates, where `b` is the planning counter's final value, whatever
   * the plan's own entries say; there is one batch per plan entry, and the
   * winner of each batch is the element at the position the model selected.
   */
  method CollectWinners<R>(tuples: seq<Item<R>>, plan: seq<nat>, b: nat, getElement: seq<Item<R>> -> int)
    returns (r: Result<seq<Item<R>>, SelectError>)
    ensures r == Winners(tuples, |plan|, b, getElement)
    ensures r.Ok? <==> forall i :: 0 <= i < |plan| ==> getElement(Slice(tuples, i * b, b)) >= 0
    ensures r.Ok? ==> |r.value| == |plan|
    ensures r.Ok? ==> forall i :: 0 <= i < |plan| ==>
      r.value[i] == Read(Slice(tuples, i * b, b), getElement(Slice(tuples, i * b, b)))
    ensures r.Ok? ==> forall w :: w in r.value ==> w == Null || w in tuples
  {
    var responses: seq<Item<R>> := [];
    var i := 0;
    while i < |plan|
      invariant 0 <= i <= |plan|
      invariant |responses| == i
      invariant forall k :: 0 <= k < i ==> getElement(Slice(tuples, k * b, b)) >= 0
      invariant forall k :: 0 <= k < i ==>
        responses[k] == Read(Slice(tuples, k * b, b), getElement(Slice(tuples, k * b, b)))
      invariant forall w :: w in responses ==> w == Null || w in tuples
    {
      var startIndex := i * b;
      var endIndex := startIndex + b;
      var batch: seq<Item<R>> := [];
      var j := startIndex;
      while j < endIndex
        invariant startIndex <= j <= endIndex
        invariant batch == Slice(tuples, startIndex, j - startIndex)
      {
        batch := batch + [Read(tuples, j)];
        j := j + 1;
      }
      var selected := getElement(batch);
      var winner := Pick(batch, selected);
      if winner.Err? {
        assert winner.error == NegativeSelection;
        return Err(winner.error);
      }
      responses := responses + [winner.value];
      i := i + 1;
    }
    r := Ok(responses);
    assert responses == Winners(tuples, |plan|, b, getElement).value;
  }

  /** The `m` batches of `b` positions each that one round shows the model. */
  function Batches<R>(tuples: seq<Item<R>>, b: nat, m: nat): (bs: seq<seq<Item<R>>>)
    ensures |bs| == m
  {
    seq(m, i requires 0 <= i < m => Slice(tuples, i * b, b))
  }

  function Concat<T>(ss: seq<seq<T>>): seq<T>
  {
    if |ss| == 0 then [] else Concat(ss[..|ss| - 1]) + ss[|ss| - 1]
  }

  /**
   * Laid end to end, one round's batches are exactly positions
   * `[0, m * b)` of the candidates: every row from `m * b` on is never shown
   * to the model, and positions past the end are shown as nulls.
   */
  lemma {:induction false} BatchesAreOnePrefix<R>(tuples: seq<Item<R>>, b: nat, m: nat)
    ensures Concat(Batches(tuples, b, m)) == Slice(tuples, 0, m * b)
  {
    if m > 0 {
      var bs := Batches(tuples, b, m);
      assert bs[..m - 1] == Batches(tuples, b, m - 1);
      BatchesAreOnePrefix(tuples, b, m - 1);
      assert m * b == (m - 1) * b + b;
      var lo := (m - 1) * b;
      assert Slice(tuples, 0, lo) + Slice(tuples, lo, b) == Slice(tuples, 0, lo + b);
    }
  }

  /**
   * When the last row closes a batch on the budget the counter ends at 0, so
   * every batch of a non-empty round is empty and no row reaches the model.
   */
  lemma ClosingOnLastRowShowsNothing<R>(cost: Item<R> -> nat, tuples: seq<Item<R>>, avail: int, plan: seq<nat>)
    requires Finished(cost, tuples, avail, plan, 0)
    requires |tuples| > 0
    ensures |plan| > 0
    ensures Concat(Batches(tuples, 0, |plan|)) == []
  {
    BatchesAreOnePrefix(tuples, 0, |plan|);
  }

  /**
   * Every batch of a plan, wherever it sits, ends with the row that brought
   * its total to the budget (that row included), or at the last row; the
   * rows before that one stayed below the budget.
   */
  lemma {:induction false} BatchEndsAtBudgetRow<R>(cost: Item<R> -> nat, tuples: seq<Item<R>>, avail: int,
                                                   plan: seq<nat>, k: nat)
    requires PlanOk(cost, tuples, avail, plan)
    requires k < |plan|
    ensures var lo := Total(plan[..k]);
      && plan[k] >= 1
      && lo + plan[k] <= |tuples|
      && (plan[k] == 1 || Sum(cost, tuples[lo..lo + plan[k] - 1]) < avail)
      && (Sum(cost, tuples[lo..lo + plan[k]]) >= avail || lo + plan[k] == |tuples|)
  {
    var init := plan[..|plan| - 1];
    if k < |plan| - 1 {
      assert init[k] == plan[k] && init[..k] == plan[..k];
      BatchEndsAtBudgetRow(cost, tuples, avail, init, k);
    } else {
      assert plan[..k] == init;
    }
  }

  /** `v` is null or the content of one of the candidates. */
  ghost predicate ContentOfSome<R>(tuples: seq<Item<R>>, v: Option<R>)
  {
    v.None? || exists j :: 0 <= j < |tuples| && tuples[j].Tuple? && tuples[j].content == v.value
  }

  /** The token count of a candidate's dump, the cost planning charges per row. */
  function DumpCost<R>(dump: Item<R> -> string): Item<R> -> nat
  {
    x => CountTokens(dump(x))
  }

  /**
   * The tournament, round by round: a single candidate is answered with its
   * content; otherwise, while rounds remain, the candidates are planned into
   * batches, the model picks one element of each batch, and the winners
   * play the next round. `fuel` bounds the number of rounds.
   */
  function Play<R>(sel: Selector<R>, dump: Item<R> -> string, getElement: seq<Item<R>> -> int,
                   tuples: seq<Item<R>>, fuel: nat): Result<Option<R>, SelectError>
    decreases fuel
  {
    if |tuples| == 1 then Ok(Content(tuples[0]))
    else if fuel == 0 then Err(OutOfFuel)
    else
      var (plan, b) := Plan(DumpCost(dump), tuples, sel.available);
      match Winners(tuples, |plan|, b, getElement)
      case Err(e) => Err(e)
      case Ok(ws) => Play(sel, dump, getElement, ws, fuel - 1)
  }

  /** Every winner of a round is null or one of the round's candidates. */
  lemma WinnersFromCandidates<R>(tuples: seq<Item<R>>, m: nat, b: nat, getElement: seq<Item<R>> -> int)
    requires Winners(tuples, m, b, getElement).Ok?
    ensures forall w :: w in Winners(tuples, m, b, getElement).value ==> w == Null || w in tuples
  {
    var ws := Winners(tuples, m, b, getElement).value;
    forall i | 0 <= i < m
      ensures ws[i] == Null || ws[i] in tuples
    {
      ReadOfSlice(tuples, i * b, b, getElement(Slice(tuples, i * b, b)));
    }
  }

  /** A read of a slice is null or one of the candidates. */
  lemma ReadOfSlice<R>(tuples: seq<Item<R>>, lo: nat, len: nat, k: int)
    requires k >= 0
    ensures Read(Slice(tuples, lo, len), k) == Null || Read(Slice(tuples, lo, len), k) in tuples
  {
    if k < len {
      assert Slice(tuples, lo, len)[k] == Read(tuples, lo + k);
    }
  }

  /**
   * A tournament that ends with an answer answers null or the content of one
   * of its first round's candidates: every round keeps only candidates of the
   * previous one, or nulls.
   */
  lemma {:induction false} PlayAnswersSomeCandidate<R>(sel: Selector<R>, dump: Item<R> -> string,
                                                       getElement: seq<Item<R>> -> int, tuples: seq<Item<R>>, fuel: nat)
    requires Play(sel, dump, getElement, tuples, fuel).Ok?
    ensures ContentOfSome(tuples, Play(sel, dump, getElement, tuples, fuel).value)
    decreases fuel
  {
    if |tuples| != 1 {
      var (plan, b) := Plan(DumpCost(dump), tuples, sel.available);
      var ws := Winners(tuples, |plan|, b, getElement).value;
      PlayAnswersSomeCandidate(sel, dump, getElement, ws, fuel - 1);
      WinnersFromCandidates(tuples, |plan|, b, getElement);
      var v := Play(sel, dump, getElement, tuples, fuel).value;
      if v.Some? {
        var j :| 0 <= j < |ws| && ws[j].Tuple? && ws[j].content == v.value;
        assert ws[j] in ws;
        var k :| 0 <= k < |tuples| && tuples[k] == ws[j];
      }
    }
  }

  /**
   * An empty candidate list plans no batch, so every round passes on an
   * empty list again and the rounds run out: the source recurses forever.
   */
  lemma {:induction false} PlayOfNothingRunsOut<R>(sel: Selector<R>, dump: Item<R> -> string,
                                                   getElement: seq<Item<R>> -> int, fuel: nat)
    ensures Play(sel, dump, getElement, [], fuel) == Err(OutOfFuel)
    decreases fuel
  {
    if fuel > 0 {
      PlanIsWellFormed(DumpCost(dump), [], sel.available);
      var (plan, b) := Plan(DumpCost(dump), [], sel.available);
      assert |plan| == 0;
      assert Winners([], |plan|, b, getElement) == Ok([]);
      PlayOfNothingRunsOut(sel, dump, getElement, fuel - 1);
    }
  }

  /**
   * The tournament. A single candidate is answered with its content and no
   * model call; otherwise the winners of one round play the next. An empty
   * candidate list recurses forever in the source, which `fuel` (the number
   * of rounds allowed) turns into `OutOfFuel`.
   */
  method SelectorCall<R>(sel: Selector<R>, dump: Item<R> -> string, getElement: seq<Item<R>> -> int,
                         tuples: seq<Item<R>>, fuel: nat)
    returns (r: Result<Option<R>, SelectError>, ghost rounds: nat)
    ensures r == Play(sel, dump, getElement, tuples, fuel)
    ensures |tuples| == 1 ==> r == Ok(Content(tuples[0])) && rounds == 0
    ensures |tuples| == 0 ==> r == Err(OutOfFuel)
    ensures r.Ok? ==> ContentOfSome(tuples, r.value)
    ensures rounds <= fuel
    decreases fuel
  {
    if |tuples| == 1 {
      return Ok(Content(tuples[0])), 0;
    }
    if fuel == 0 {
      return Err(OutOfFuel), 0;
    }
    var plan, b := PlanBatches(DumpCost(dump), tuples, sel.available);
    var winners := CollectWinners(tuples, plan, b, getElement);
    if winners.Err? {
      return Err(winners.error), 1;
    }
    var inner, innerRounds := SelectorCall(sel, dump, getElement, winners.value, fuel - 1);
    rounds := innerRounds + 1;
    r := inner;
    if |tuples| == 0 {
      PlayOfNothingRunsOut(sel, dump, getElement, fuel);
    }
    if r.Ok? {
      PlayAnswersSomeCandidate(sel, dump, getElement, tuples, fuel);
    }
  }

  /**
   * The id-wrapping loop of the MAX aggregate's finalizer: row `i` becomes
   * the candidate `{"id": i, "content": row}`, in arrival order.
   */
  method WrapWithIds<R>(rows: seq<R>) returns (tuples: seq<Item<R>>)
    ensures |tuples| == |rows|
    ensures forall i :: 0 <= i < |rows| ==> tuples[i] == Tuple(i, rows[i])
  {
    tuples := [];
    var i := 0;
    while i < |rows|
      invariant 0 <= i <= |rows|
      invariant |tuples| == i
      invariant forall k :: 0 <= k < i ==> tuples[k] == Tuple(k, rows[k])
    {
      tuples := tuples + [Tuple(i, rows[i])];
      i := i + 1;
    }
  }

  /** A group of one row yields that row without asking the model. */
  method MaxOfOneRow<R>(sel: Selector<R>, dump: Item<R> -> string, getElement: seq<Item<R>> -> int, row: R, fuel: nat)
    returns (r: Result<Option<R>, SelectError>)
    ensures r == Ok(Some(row))
  {
    var tuples := WrapWithIds([row]);
    ghost var rounds;
    r, rounds := SelectorCall(sel, dump, getElement, tuples, fuel);
  }
}
