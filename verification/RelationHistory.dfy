/** Runs of the whole tables: every (channel, viewer) cell goes through the run of its own row events. */
module RelationHistory {
  import opened Facts
  import opened RelationEvents
  import opened JoinedRuns
  import opened RelationStore

  datatype TimedOperation = TimedOperation(at: Time, op: Operation)

  ghost predicate TablesMove(tables: seq<Tables>, ops: seq<TimedOperation>, i: nat)
    requires i < |ops| < |tables|
  {
    Advances(tables[i], ops[i].op, ops[i].at, tables[i + 1])
  }

  /** The tables between the operations of a run, `tables[i]` before operation `i`. */
  ghost predicate IsTableRun(tables: seq<Tables>, ops: seq<TimedOperation>) {
    && |tables| == |ops| + 1
    && forall i | 0 <= i < |ops| :: TablesMove(tables, ops, i)
  }

  predicate OperationsInOrder(ops: seq<TimedOperation>) {
    forall i, j | 0 <= i < j < |ops| :: ops[i].at <= ops[j].at
  }

  // ------------------------------------------------------------- the history of one cell

  function Stamped(at: Time, es: seq<RowEvent>): (steps: seq<Timed>)
    ensures |steps| == |es| && forall i | 0 <= i < |es| :: steps[i] == Timed(at, es[i])
  {
    if es == [] then [] else Stamped(at, es[..|es| - 1]) + [Timed(at, es[|es| - 1])]
  }

  lemma {:induction false} AfterStamped(c: Cell, at: Time, es: seq<RowEvent>, n: nat)
    requires n <= |es|
    ensures AfterSteps(c, Stamped(at, es), n) == After(c, es, at, n)
  {
    if n > 0 {
      AfterStamped(c, at, es, n - 1);
    }
  }

  function EventsOf(o: TimedOperation, key: Key): seq<Timed> {
    Stamped(o.at, RowEvents(o.op, key))
  }

  /** What each operation means for one cell, with its time. */
  function Parts(ops: seq<TimedOperation>, key: Key): seq<seq<Timed>> {
    seq(|ops|, i requires 0 <= i < |ops| => EventsOf(ops[i], key))
  }

  /** What the first `k` operations meant for one cell, in order. */
  function History(ops: seq<TimedOperation>, key: Key, k: nat): seq<Timed>
    requires k <= |ops|
  {
    Flat(Parts(ops, key), k)
  }

  function StatesOf(tables: seq<Tables>, key: Key): seq<Cell> {
    seq(|tables|, i requires 0 <= i < |tables| => CellOf(tables[i], key))
  }

  lemma OperationLeads(tables: seq<Tables>, ops: seq<TimedOperation>, key: Key, i: nat)
    requires i < |ops| < |tables| && TablesMove(tables, ops, i)
    ensures Leads(StatesOf(tables, key), Parts(ops, key), i)
  {
    var es := RowEvents(ops[i].op, key);
    assert CellOf(tables[i + 1], key) == AfterAll(CellOf(tables[i], key), es, ops[i].at);
    AfterStamped(CellOf(tables[i], key), ops[i].at, es, |es|);
  }

  lemma TablesAreJoined(tables: seq<Tables>, ops: seq<TimedOperation>, key: Key)
    requires IsTableRun(tables, ops)
    ensures AreJoined(StatesOf(tables, key), Parts(ops, key))
  {
    forall i | 0 <= i < |ops| ensures Leads(StatesOf(tables, key), Parts(ops, key), i) {
      assert TablesMove(tables, ops, i);
      OperationLeads(tables, ops, key, i);
    }
  }

  /** The history stands where the tables stand, between any two operations. */
  predicate Matches(tables: seq<Tables>, ops: seq<TimedOperation>, key: Key, cells: seq<Cell>, i: nat)
    requires i <= |ops| < |tables|
  {
    |History(ops, key, i)| < |cells| && cells[|History(ops, key, i)|] == CellOf(tables[i], key)
  }

  /** In every run of the tables, every cell goes through exactly the run of its own row events. */
  lemma CellHistory(tables: seq<Tables>, ops: seq<TimedOperation>, key: Key, k: nat) returns (cells: seq<Cell>)
    requires IsTableRun(tables, ops) && k <= |ops|
    ensures IsRun(cells, History(ops, key, k))
    ensures forall i | 0 <= i <= k :: Matches(tables, ops, key, cells, i)
  {
    TablesAreJoined(tables, ops, key);
    cells := Joined(StatesOf(tables, key), Parts(ops, key), k);
    forall i | 0 <= i <= k ensures Matches(tables, ops, key, cells, i) {
      assert Meets(StatesOf(tables, key), Parts(ops, key), cells, i);
    }
  }

  lemma HistoryIsInOrder(ops: seq<TimedOperation>, key: Key, k: nat)
    requires OperationsInOrder(ops) && k <= |ops|
    ensures InOrder(History(ops, key, k))
  {
    var times := seq(|ops|, i requires 0 <= i < |ops| => ops[i].at);
    FlatIsInOrder(Parts(ops, key), times, k);
  }
}
