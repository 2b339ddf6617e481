/**
 * The per-group state of the MIN/MAX, reduce and rerank aggregates: the
 * group's rows, in arrival order.
 */
module AggregateState {
  class RowListState<J> {
    var value: seq<J>

    /** A fresh state holds no rows. */
    constructor ()
      ensures value == []
    {
      value := [];
    }

    /** Update appends the incoming row. */
    method Update(input: J)
      modifies this
      ensures value == old(value) + [input]
    {
      value := value + [input];
    }

    /**
     * Combine replaces this state's rows with a copy of the source's: the
     * rows gathered here are discarded and the source keeps its own.
     */
    method Combine(source: RowListState<J>)
      modifies this
      ensures value == old(source.value)
      ensures source.value == old(source.value)
    {
      value := source.value;
    }
  }

  /** Updating row by row yields the rows in arrival order. */
  method UpdateAll<J>(state: RowListState<J>, rows: seq<J>)
    modifies state
    ensures state.value == old(state.value) + rows
  {
    var i := 0;
    while i < |rows|
      invariant 0 <= i <= |rows|
      invariant state.value == old(state.value) + rows[..i]
    {
      state.Update(rows[i]);
      assert rows[..i + 1] == rows[..i] + [rows[i]];
      i := i + 1;
    }
  }
}
