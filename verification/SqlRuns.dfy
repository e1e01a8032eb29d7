/**
 * Every run of the Postgres queue of storage/psql.go: inserts, and transactions that delete the lowest rows and then
 * commit or roll back. Whatever order its rows are returned in, it simulates the in-memory queue.
 */
module SqlRuns {
  import opened Basics
  import opened Outbox
  import opened SqlOutbox
  import Memory = OutboxRuns

  /** An open transaction: the rows it has deleted, for itself only until it commits, and what they held. */
  datatype Flight = Flight(txn: TxnId, rows: set<RowId>, edus: seq<Payload>, accepted: bool)

  datatype Lane = Lane(
    table: Table, flight: Option<Flight>, accepted: seq<Memory.Batch>, committed: seq<Memory.Batch>)

  /** Row ids and transaction ids are drawn from sequences that all destinations share. */
  datatype World = World(lanes: map<Destination, Lane>, nextRow: RowId, nextTxn: TxnId)

  /** `returned` is the order in which the database hands out the deleted rows. */
  datatype Step =
    | Insert(dest: Destination, edu: Payload)
    | Begin(dest: Destination, returned: seq<RowId>)
    | Send(dest: Destination, ok: bool)
    | Commit(dest: Destination)
    | Rollback(dest: Destination)

  const EMPTY_LANE := Lane(map[], None, [], [])
  const START := World(map[], 0, 0)

  function LaneOf(w: World, d: Destination): Lane {
    if d in w.lanes then w.lanes[d] else EMPTY_LANE
  }

  /** The rows are those of `DELETE ... ORDER BY id ASC LIMIT 100`, each returned once. */
  ghost predicate Deletes(table: Table, returned: seq<RowId>) {
    Distinct(returned) && Lowest(Elements(returned), table, MAX_EDUS)
  }

  ghost function NextLane(l: Lane, s: Step, row: RowId, txn: TxnId): Lane {
    match s
    case Insert(_, p) => l.(table := l.table[row := p])
    case Begin(_, returned) =>
      if l.flight.Some? || l.table == map[] || !Deletes(l.table, returned) then l
      else l.(flight := Some(Flight(txn, Elements(returned), Rows(l.table, returned), false)))
    case Send(_, ok) =>
      if l.flight.None? || !ok then l
      else
        var f := l.flight.value;
        l.(flight := Some(f.(accepted := true)), accepted := l.accepted + [Memory.Batch(f.txn, f.edus)])
    case Commit(_) =>
      if l.flight.None? || !l.flight.value.accepted then l
      else
        var f := l.flight.value;
        l.(table := l.table - f.rows, flight := None, committed := l.committed + [Memory.Batch(f.txn, f.edus)])
    case Rollback(_) => l.(flight := None)
  }

  ghost function Next(w: World, s: Step): World {
    World(
      if s.Insert? || s.dest in w.lanes then
        w.lanes[s.dest := NextLane(LaneOf(w, s.dest), s, w.nextRow, w.nextTxn)] else w.lanes,
      if s.Insert? then w.nextRow + 1 else w.nextRow,
      if s.Begin? then w.nextTxn + 1 else w.nextTxn)
  }

  ghost function Run(steps: seq<Step>): World {
    if steps == [] then START else Next(Run(steps[..|steps| - 1]), steps[|steps| - 1])
  }

  /** The database returns exactly the rows it deletes. */
  ghost predicate Possible(w: World, s: Step) {
    s.Begin? ==> Deletes(LaneOf(w, s.dest).table, s.returned)
  }

  ghost predicate PossibleRun(steps: seq<Step>) {
    steps != [] ==> PossibleRun(steps[..|steps| - 1]) && Possible(Run(steps[..|steps| - 1]), steps[|steps| - 1])
  }

  /** The same step of the in-memory queue. */
  function InMemory(s: Step): Memory.Step {
    match s
    case Insert(d, p) => Memory.Insert(d, p)
    case Begin(d, _) => Memory.Begin(d)
    case Send(d, ok) => Memory.Send(d, ok)
    case Commit(d) => Memory.Commit(d)
    case Rollback(d) => Memory.Rollback(d)
  }

  function AllInMemory(steps: seq<Step>): seq<Memory.Step> {
    seq(|steps|, i requires 0 <= i < |steps| => InMemory(steps[i]))
  }

  // ---------- The simulation ----------

  ghost predicate SameBatch(a: Memory.Batch, b: Memory.Batch) {
    a.txn == b.txn && multiset(a.edus) == multiset(b.edus)
  }

  /** The same batches, each perhaps in another order. */
  ghost predicate SameBatches(a: seq<Memory.Batch>, b: seq<Memory.Batch>) {
    |a| == |b| && forall i :: 0 <= i < |a| ==> SameBatch(a[i], b[i])
  }

  ghost predicate SameFlight(l: Lane, m: Memory.Lane, ids: seq<RowId>) {
    match l.flight
    case None => m.flight.None?
    case Some(f) =>
      && m.flight.Some? && f.txn == m.flight.value.txn && f.accepted == m.flight.value.accepted
      && |m.flight.value.batch| <= |ids| && f.rows == Elements(ids[..|m.flight.value.batch|])
      && multiset(f.edus) == multiset(m.flight.value.batch)
  }

  /** In id order, the table is the queue. */
  ghost predicate SameQueue(l: Lane, m: Memory.Lane, ids: seq<RowId>) {
    && Orders(ids, l.table)
    && (forall id :: id in ids ==> id in l.table)
    && Rows(l.table, ids) == Payloads(m.queue.rows)
    && SameFlight(l, m, ids)
  }

  ghost predicate Simulates(l: Lane, m: Memory.Lane, nextRow: RowId) {
    && (exists ids :: SameQueue(l, m, ids))
    && (forall id :: id in l.table ==> id < nextRow)
    && SameBatches(l.accepted, m.accepted) && SameBatches(l.committed, m.committed)
  }

  ghost predicate SimulatesAll(w: World, m: Memory.World) {
    w.nextTxn == m.nextTxn && w.lanes.Keys == m.lanes.Keys
    && forall d :: Simulates(LaneOf(w, d), Memory.LaneOf(m, d), w.nextRow)
  }

  lemma FlightStays(l: Lane, m: Memory.Lane, ids: seq<RowId>, l': Lane, m': Memory.Lane, ids': seq<RowId>)
    requires SameFlight(l, m, ids) && l'.flight == l.flight && m'.flight == m.flight && ids <= ids'
    ensures SameFlight(l', m', ids')
  {
    if m.flight.Some? {
      var k := |m.flight.value.batch|;
      assert ids'[..k] == ids[..k];
    }
  }

  lemma InsertSimulates(l: Lane, m: Memory.Lane, p: Payload, d: Destination, row: RowId, txn: TxnId)
    requires Simulates(l, m, row)
    ensures Simulates(NextLane(l, Insert(d, p), row, txn), Memory.NextLane(m, Memory.Insert(d, p), txn), row + 1)
  {
    hide SameFlight, SameBatches;
    var ids :| SameQueue(l, m, ids);
    InsertAppends(l.table, ids, row, p);
    var l', m' := NextLane(l, Insert(d, p), row, txn), Memory.NextLane(m, Memory.Insert(d, p), txn);
    FlightStays(l, m, ids, l', m', ids + [row]);
    OrderedRows(ids + [row], l'.table);
    hide Orders;
    assert Payloads(m'.queue.rows) == Payloads(m.queue.rows) + [p];
    assert SameQueue(l', m', ids + [row]);
  }

  lemma RowsPermuted(table: Table, a: seq<RowId>, b: seq<RowId>)
    requires multiset(a) == multiset(b) && forall id :: id in a ==> id in table
    ensures forall id :: id in b ==> id in table
    ensures multiset(Rows(table, a)) == multiset(Rows(table, b))
  {
    forall id | id in b ensures id in a {
      assert id in multiset(b);
    }
    var f := id => if id in table then table[id] else "";
    Permuted(f, a, b);
    assert Rows(table, a) == Mapped(f, a) && Rows(table, b) == Mapped(f, b);
  }

  lemma BeginSimulates(l: Lane, m: Memory.Lane, returned: seq<RowId>, d: Destination, row: RowId, txn: TxnId)
    requires Simulates(l, m, row) && Memory.LaneInv(m, txn) && Deletes(l.table, returned)
    ensures Simulates(NextLane(l, Begin(d, returned), row, txn), Memory.NextLane(m, Memory.Begin(d), txn), row)
  {
    var ids :| SameQueue(l, m, ids);
    SqlBatchRefinesQueue(l.table, ids, Elements(returned), returned);
    LowestIsPrefix(l.table, ids, Elements(returned), MAX_EDUS);
    var l', m' := NextLane(l, Begin(d, returned), row, txn), Memory.NextLane(m, Memory.Begin(d), txn);
    assert l.table == map[] <==> ids == [] by { OrderedRows(ids, l.table); }
    if l.flight.None? && ids != [] {
      var k := |Elements(returned)|;
      RowsPermuted(l.table, returned, ids[..k]);
      assert |m'.flight.value.batch| == |Rows(l.table, ids[..k])| == k;
      assert Payloads(m'.queue.rows) == Payloads(m.queue.rows);
    }
    assert SameQueue(l', m', ids);
  }

  lemma SameBatchesNext(l: Lane, m: Memory.Lane, ids: seq<RowId>, a: seq<Memory.Batch>, b: seq<Memory.Batch>)
    requires SameFlight(l, m, ids) && l.flight.Some? && SameBatches(a, b)
    ensures SameBatches(a + [Memory.Batch(l.flight.value.txn, l.flight.value.edus)],
                        b + [Memory.Batch(m.flight.value.txn, m.flight.value.batch)])
  {
  }

  lemma CommitSimulates(l: Lane, m: Memory.Lane, d: Destination, row: RowId, txn: TxnId)
    requires Simulates(l, m, row) && Memory.LaneInv(m, txn)
    ensures Simulates(NextLane(l, Commit(d), row, txn), Memory.NextLane(m, Memory.Commit(d), txn), row)
  {
    var ids :| SameQueue(l, m, ids);
    var l', m' := NextLane(l, Commit(d), row, txn), Memory.NextLane(m, Memory.Commit(d), txn);
    if l.flight.Some? && l.flight.value.accepted {
      var k := |m.flight.value.batch|;
      Memory.FlightEnds(m, txn);
      DeletePrefix(l.table, ids, k);
      SameBatchesNext(l, m, ids, l.committed, m.committed);
      hide SameBatches, Memory.LaneInv, Orders, Unassigned;
      assert Payloads(m'.queue.rows) == Payloads(m.queue.rows)[k..];
      assert SameQueue(l', m', ids[k..]);
      assert Simulates(l', m', row);
    } else {
      assert SameQueue(l', m', ids);
    }
  }

  lemma SendSimulates(l: Lane, m: Memory.Lane, s: Step, row: RowId, txn: TxnId)
    requires Simulates(l, m, row) && s.Send?
    ensures Simulates(NextLane(l, s, row, txn), Memory.NextLane(m, InMemory(s), txn), row)
  {
    var ids :| SameQueue(l, m, ids);
    if l.flight.Some? {
      SameBatchesNext(l, m, ids, l.accepted, m.accepted);
    }
    hide SameBatches, Orders;
    assert SameQueue(NextLane(l, s, row, txn), Memory.NextLane(m, InMemory(s), txn), ids);
  }

  lemma RollbackSimulates(l: Lane, m: Memory.Lane, s: Step, row: RowId, txn: TxnId)
    requires Simulates(l, m, row) && Memory.LaneInv(m, txn) && s.Rollback?
    ensures Simulates(NextLane(l, s, row, txn), Memory.NextLane(m, InMemory(s), txn), row)
  {
    var ids :| SameQueue(l, m, ids);
    if m.flight.Some? {
      Memory.FlightEnds(m, txn);
    }
    hide SameBatches, Orders, Memory.LaneInv, Released;
    assert SameQueue(NextLane(l, s, row, txn), Memory.NextLane(m, InMemory(s), txn), ids);
  }

  lemma LaneSimulates(l: Lane, m: Memory.Lane, s: Step, row: RowId, txn: TxnId)
    requires Simulates(l, m, row) && Memory.LaneInv(m, txn) && (s.Begin? ==> Deletes(l.table, s.returned))
    ensures Simulates(
      NextLane(l, s, row, txn), Memory.NextLane(m, InMemory(s), txn), if s.Insert? then row + 1 else row)
  {
    hide Simulates, Memory.LaneInv, NextLane, Memory.NextLane, Deletes;
    match s {
      case Insert(d, p) => InsertSimulates(l, m, p, d, row, txn);
      case Begin(d, returned) => BeginSimulates(l, m, returned, d, row, txn);
      case Send(_, _) => SendSimulates(l, m, s, row, txn);
      case Commit(d) => CommitSimulates(l, m, d, row, txn);
      case Rollback(_) => RollbackSimulates(l, m, s, row, txn);
    }
  }

  lemma SimulatesLater(l: Lane, m: Memory.Lane, a: RowId, b: RowId)
    requires Simulates(l, m, a) && a <= b
    ensures Simulates(l, m, b)
  {
    hide SameQueue, SameBatches;
  }

  lemma StepSimulates(w: World, m: Memory.World, s: Step)
    requires SimulatesAll(w, m) && Memory.Inv(m) && Possible(w, s)
    ensures SimulatesAll(Next(w, s), Memory.Next(m, InMemory(s)))
  {
    var w', m' := Next(w, s), Memory.Next(m, InMemory(s));
    hide Simulates, NextLane, Memory.NextLane, Deletes, Memory.LaneInv;
    forall d ensures Simulates(LaneOf(w', d), Memory.LaneOf(m', d), w'.nextRow) {
      assert Memory.LaneInv(Memory.LaneOf(m, d), m.nextTxn);
      if d == s.dest && (s.Insert? || d in w.lanes) {
        LaneSimulates(LaneOf(w, d), Memory.LaneOf(m, d), s, w.nextRow, w.nextTxn);
      } else {
        SimulatesLater(LaneOf(w, d), Memory.LaneOf(m, d), w.nextRow, w'.nextRow);
      }
    }
  }

  lemma StartSimulates()
    ensures SimulatesAll(START, Memory.START)
  {
    assert SameQueue(EMPTY_LANE, Memory.EMPTY_LANE, []);
  }

  /** Every run of the SQL form simulates the run of the in-memory queue over the same steps. */
  lemma {:induction false} EveryRunSimulates(steps: seq<Step>)
    requires PossibleRun(steps)
    ensures SimulatesAll(Run(steps), Memory.Run(Memory.START, AllInMemory(steps)))
    ensures Memory.Inv(Memory.Run(Memory.START, AllInMemory(steps)))
  {
    Memory.EveryRunConserves(AllInMemory(steps));
    hide SimulatesAll, Memory.Inv, Next, Memory.Next, Possible;
    if steps == [] {
      StartSimulates();
    } else {
      var front, s := steps[..|steps| - 1], steps[|steps| - 1];
      EveryRunSimulates(front);
      StepSimulates(Run(front), Memory.Run(Memory.START, AllInMemory(front)), s);
      assert AllInMemory(steps)[..|steps| - 1] == AllInMemory(front);
    }
  }

  /** The insertions are some batches followed by the table in id order; the commits are those batches, reordered. */
  ghost predicate Accounts(inserted: seq<Payload>, l: Lane, batches: seq<Memory.Batch>, ids: seq<RowId>) {
    && SameBatches(l.committed, batches)
    && Orders(ids, l.table) && (forall id :: id in ids ==> id in l.table)
    && inserted == Memory.Flatten(batches) + Rows(l.table, ids)
  }

  /** In every run, committed batches and the table account for exactly the insertions of each destination, in order. */
  lemma EveryRunConserves(steps: seq<Step>, d: Destination)
    requires PossibleRun(steps)
    ensures exists batches, ids :: Accounts(Memory.Inserted(AllInMemory(steps), d), LaneOf(Run(steps), d), batches, ids)
  {
    EveryRunSimulates(steps);
    Memory.EveryRunConserves(AllInMemory(steps));
    var l, m := LaneOf(Run(steps), d), Memory.LaneOf(Memory.Run(Memory.START, AllInMemory(steps)), d);
    assert Simulates(l, m, Run(steps).nextRow);
    var ids :| SameQueue(l, m, ids);
    assert Memory.Content(m) == Memory.Inserted(AllInMemory(steps), d);
    assert Accounts(Memory.Inserted(AllInMemory(steps), d), l, m.committed, ids);
  }
}
