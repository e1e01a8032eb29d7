/** Every run of the EDU outbox: any interleaving of inserts, begins, sends, commits and rollbacks. */
module OutboxRuns {
  import opened Basics
  import opened Outbox

  /** An open transaction, and whether the remote server has accepted it. */
  datatype Flight = Flight(txn: TxnId, batch: seq<Payload>, accepted: bool)

  datatype Batch = Batch(txn: TxnId, edus: seq<Payload>)

  /** One destination's queue, with the history of what the server accepted and what was committed. */
  datatype Lane = Lane(queue: Queue, flight: Option<Flight>, accepted: seq<Batch>, committed: seq<Batch>)

  datatype World = World(lanes: map<Destination, Lane>, nextTxn: TxnId)

  datatype Step =
    | Insert(dest: Destination, edu: Payload)
    | Begin(dest: Destination)
    | Send(dest: Destination, ok: bool)
    | Commit(dest: Destination)
    | Rollback(dest: Destination)

  const EMPTY_LANE := Lane(Queue([], None), None, [], [])
  const START := World(map[], 0)

  function LaneOf(w: World, d: Destination): Lane {
    if d in w.lanes then w.lanes[d] else EMPTY_LANE
  }

  /** A step that is blocked (a locked destination) or has no open transaction to act on changes nothing. */
  function NextLane(l: Lane, s: Step, next: TxnId): Lane {
    match s
    case Insert(_, p) => l.(queue := l.queue.Insert(p))
    case Begin(_) =>
      if l.queue.holder.Some? || l.queue.rows == [] then l
      else l.(queue := l.queue.Begin(next), flight := Some(Flight(next, FirstBatch(Payloads(l.queue.rows)), false)))
    case Send(_, ok) =>
      if l.flight.None? || !ok then l
      else
        var f := l.flight.value;
        l.(flight := Some(f.(accepted := true)), accepted := l.accepted + [Batch(f.txn, f.batch)])
    case Commit(_) =>
      if l.flight.None? || !l.flight.value.accepted then l
      else
        var f := l.flight.value;
        l.(queue := l.queue.Commit(f.txn), flight := None, committed := l.committed + [Batch(f.txn, f.batch)])
    case Rollback(_) =>
      if l.flight.None? then l
      else l.(queue := l.queue.Rollback(l.flight.value.txn), flight := None)
  }

  function Next(w: World, s: Step): World {
    World(
      if s.Insert? || s.dest in w.lanes then w.lanes[s.dest := NextLane(LaneOf(w, s.dest), s, w.nextTxn)] else w.lanes,
      if s.Begin? then w.nextTxn + 1 else w.nextTxn)
  }

  function Run(w: World, steps: seq<Step>): World {
    if steps == [] then w else Next(Run(w, steps[..|steps| - 1]), steps[|steps| - 1])
  }

  /** What a run inserts for a destination, in order. */
  function Inserted(steps: seq<Step>, d: Destination): seq<Payload> {
    if steps == [] then []
    else
      var s := steps[|steps| - 1];
      Inserted(steps[..|steps| - 1], d) + if s.Insert? && s.dest == d then [s.edu] else []
  }

  function Flatten(bs: seq<Batch>): seq<Payload> {
    if bs == [] then [] else Flatten(bs[..|bs| - 1]) + bs[|bs| - 1].edus
  }

  lemma FlattenNext(bs: seq<Batch>, b: Batch)
    ensures Flatten(bs + [b]) == Flatten(bs) + b.edus
  {
    assert (bs + [b])[..|bs|] == bs;
  }

  /** Everything a lane has been given: what it has committed, then what it still holds. */
  function Content(l: Lane): seq<Payload> {
    Flatten(l.committed) + Payloads(l.queue.rows)
  }

  ghost predicate FlightInv(l: Lane, next: TxnId) {
    match l.flight
    case None => l.queue.holder.None? && l.queue.Unmarked()
    case Some(f) =>
      && l.queue.holder == Some(f.txn) && f.txn < next
      && 1 <= |f.batch| <= MAX_EDUS
      && l.queue.Marks(f.txn, |f.batch|) && f.batch == Payloads(l.queue.rows)[..|f.batch|]
      && (f.accepted ==> Batch(f.txn, f.batch) in l.accepted)
      && (forall b :: b in l.committed ==> b.txn < f.txn)
  }

  ghost predicate CommittedInv(l: Lane, next: TxnId) {
    && (forall b :: b in l.committed ==> b in l.accepted && b.txn < next && 1 <= |b.edus| <= MAX_EDUS)
    && (forall i, j :: 0 <= i < j < |l.committed| ==> l.committed[i].txn < l.committed[j].txn)
  }

  ghost predicate LaneInv(l: Lane, next: TxnId) {
    FlightInv(l, next) && CommittedInv(l, next)
  }

  lemma FlightEnds(l: Lane, next: TxnId)
    requires FlightInv(l, next) && l.flight.Some?
    ensures var f := l.flight.value;
      && Payloads(l.queue.rows) == f.batch + Payloads(l.queue.Commit(f.txn).rows)
      && Payloads(l.queue.rows) == Payloads(l.queue.Rollback(f.txn).rows)
      && l.queue.Commit(f.txn).Unmarked() && l.queue.Rollback(f.txn).Unmarked()
  {
    UnassignedDropsMarks(l.queue.rows, l.flight.value.txn, |l.flight.value.batch|);
  }

  lemma AssignedPayloads(rows: seq<Row>, t: TxnId)
    ensures Payloads(Assigned(rows, t)) == Payloads(rows)
  {
  }

  lemma InsertStep(l: Lane, s: Step, next: TxnId)
    requires LaneInv(l, next) && s.Insert?
    ensures LaneInv(NextLane(l, s, next), next)
    ensures Content(NextLane(l, s, next)) == Content(l) + [s.edu]
  {
  }

  lemma BeginStep(l: Lane, s: Step, next: TxnId)
    requires LaneInv(l, next) && s.Begin?
    ensures LaneInv(NextLane(l, s, next), next + 1)
    ensures Content(NextLane(l, s, next)) == Content(l)
  {
  }

  lemma CommitStep(l: Lane, s: Step, next: TxnId)
    requires LaneInv(l, next) && s.Commit?
    ensures LaneInv(NextLane(l, s, next), next)
    ensures Content(NextLane(l, s, next)) == Content(l)
  {
    hide Unassigned, Flatten, Payloads;
    if l.flight.Some? {
      FlightEnds(l, next);
      FlattenNext(l.committed, Batch(l.flight.value.txn, l.flight.value.batch));
    }
  }

  lemma LaneStep(l: Lane, s: Step, next: TxnId)
    requires LaneInv(l, next)
    ensures LaneInv(NextLane(l, s, next), if s.Begin? then next + 1 else next)
    ensures Content(NextLane(l, s, next)) == Content(l) + if s.Insert? then [s.edu] else []
  {
    match s {
      case Insert(_, _) => InsertStep(l, s, next);
      case Begin(_) => BeginStep(l, s, next);
      case Send(_, _) =>
      case Commit(_) => CommitStep(l, s, next);
      case Rollback(_) =>
        if l.flight.Some? {
          FlightEnds(l, next);
          hide Released;
        }
    }
  }

  ghost predicate Inv(w: World) {
    forall d :: LaneInv(LaneOf(w, d), w.nextTxn)
  }

  lemma LaneMonotone(l: Lane, a: TxnId, b: TxnId)
    requires LaneInv(l, a) && a <= b
    ensures LaneInv(l, b)
  {
  }

  lemma {:induction false} StepKeepsInv(w: World, s: Step)
    requires Inv(w)
    ensures Inv(Next(w, s))
    ensures forall d ::
      Content(LaneOf(Next(w, s), d)) == Content(LaneOf(w, d)) + if s.Insert? && s.dest == d then [s.edu] else []
  {
    forall d ensures LaneInv(LaneOf(Next(w, s), d), Next(w, s).nextTxn)
      && Content(LaneOf(Next(w, s), d)) == Content(LaneOf(w, d)) + if s.Insert? && s.dest == d then [s.edu] else []
    {
      LaneStep(LaneOf(w, d), s, w.nextTxn);
      LaneMonotone(LaneOf(w, d), w.nextTxn, Next(w, s).nextTxn);
    }
  }

  /** In every run: the invariant holds, and committed batches followed by the queue are the insertion sequence. */
  lemma {:induction false} EveryRunConserves(steps: seq<Step>)
    ensures Inv(Run(START, steps))
    ensures forall d :: Content(LaneOf(Run(START, steps), d)) == Inserted(steps, d)
  {
    if steps != [] {
      EveryRunConserves(steps[..|steps| - 1]);
      StepKeepsInv(Run(START, steps[..|steps| - 1]), steps[|steps| - 1]);
    }
  }

  /** An EDU leaves its queue only in a commit of the batch it heads, after the server accepted that batch. */
  lemma EduLeavesOnlyAfterAcceptance(w: World, s: Step, d: Destination)
    requires Inv(w)
    ensures var l, l' := LaneOf(w, d), LaneOf(Next(w, s), d);
      || Payloads(l.queue.rows) <= Payloads(l'.queue.rows)
      || (&& s == Commit(d) && l.flight.Some? && l.flight.value.accepted
          && Payloads(l.queue.rows) == l.flight.value.batch + Payloads(l'.queue.rows))
  {
    var l := LaneOf(w, d);
    if l.flight.Some? {
      FlightEnds(l, w.nextTxn);
    }
    AssignedPayloads(l.queue.rows, w.nextTxn);
  }

  /** A step concerns only the queue of its destination. */
  lemma OthersAreUntouched(w: World, s: Step, d: Destination)
    requires d != s.dest
    ensures LaneOf(Next(w, s), d) == LaneOf(w, d)
  {
  }

  /**
   * SendNextTransactionTo as a run of its steps, on a destination that is not locked: the first batch is committed and
   * gone exactly if the server accepted it, and otherwise everything is as it was.
   */
  lemma SendIsARun(w: World, d: Destination, ok: bool)
    requires Inv(w) && LaneOf(w, d).flight.None?
    ensures var l, l' := LaneOf(w, d), LaneOf(Run(w, [Begin(d), Send(d, ok), Commit(d), Rollback(d)]), d);
      if ok && l.queue.rows != [] then
        var batch := Batch(w.nextTxn, FirstBatch(Payloads(l.queue.rows)));
        l' == Lane(Queue(l.queue.rows[|batch.edus|..], None), None, l.accepted + [batch], l.committed + [batch])
      else l' == l
  {
    LaneSend(LaneOf(w, d), d, ok, w.nextTxn, w.nextTxn + 1);
    hide Inv, Next, NextLane, LaneOf;
    RunFour(w, Begin(d), Send(d, ok), Commit(d), Rollback(d));
    var begun := Next(w, Begin(d));
    var sent := Next(begun, Send(d, ok));
    LaneNext(w, Begin(d));
    LaneNext(begun, Send(d, ok));
    LaneNext(sent, Commit(d));
    LaneNext(Next(sent, Commit(d)), Rollback(d));
  }

  lemma LaneNext(w: World, s: Step)
    ensures LaneOf(Next(w, s), s.dest) == NextLane(LaneOf(w, s.dest), s, w.nextTxn)
  {
  }

  lemma LaneSend(l: Lane, d: Destination, ok: bool, next: TxnId, after: TxnId)
    requires FlightInv(l, next) && l.flight.None?
    ensures var sent := NextLane(NextLane(l, Begin(d), next), Send(d, ok), after);
      NextLane(NextLane(sent, Commit(d), after), Rollback(d), after)
        == if ok && l.queue.rows != [] then
          var batch := Batch(next, FirstBatch(Payloads(l.queue.rows)));
          Lane(Queue(l.queue.rows[|batch.edus|..], None), None, l.accepted + [batch], l.committed + [batch])
        else l
  {
    AssignedEnds(l.queue.rows, next);
    hide Assigned, Released, Unassigned, FirstBatch, Payloads;
    if l.queue.rows != [] {
      var begun := NextLane(l, Begin(d), next);
      var ended := NextLane(NextLane(begun, Send(d, ok), after), Commit(d), after);
      var batch := Batch(next, FirstBatch(Payloads(l.queue.rows)));
      assert begun.queue == Queue(Assigned(l.queue.rows, next), Some(next));
      if ok {
        assert ended.queue == Queue(l.queue.rows[|batch.edus|..], None);
        assert ended.accepted == l.accepted + [batch] && ended.committed == l.committed + [batch];
      } else {
        assert NextLane(ended, Rollback(d), after).queue == l.queue;
      }
    }
  }

  lemma RunFour(w: World, a: Step, b: Step, c: Step, e: Step)
    ensures Run(w, [a, b, c, e]) == Next(Next(Next(Next(w, a), b), c), e)
  {
    hide Next;
    assert [a, b, c, e][..3] == [a, b, c] && [a, b, c][..2] == [a, b] && [a, b][..1] == [a] && [a][..0] == [];
    assert Run(w, [a]) == Next(w, a);
    assert Run(w, [a, b]) == Next(Next(w, a), b);
    assert Run(w, [a, b, c]) == Next(Next(Next(w, a), b), c);
  }

  lemma {:induction false} QueueOnlyGrows(w: World, mid: seq<Step>, d: Destination)
    requires Inv(w) && LaneOf(w, d).flight.None?
    requires Begin(d) !in mid
    ensures Inv(Run(w, mid)) && LaneOf(Run(w, mid), d).flight.None?
    ensures Payloads(LaneOf(w, d).queue.rows) <= Payloads(LaneOf(Run(w, mid), d).queue.rows)
  {
    if mid != [] {
      var front, s := mid[..|mid| - 1], mid[|mid| - 1];
      QueueOnlyGrows(w, front, d);
      StepKeepsInv(Run(w, front), s);
      EduLeavesOnlyAfterAcceptance(Run(w, front), s, d);
    }
  }

  /** After a rollback, whatever happens meanwhile, the destination's next batch starts with the one rolled back. */
  lemma RetryExtendsBatch(w: World, mid: seq<Step>, d: Destination)
    requires Inv(w) && LaneOf(w, d).flight.Some?
    requires Begin(d) !in mid
    ensures var later := LaneOf(Next(Run(Next(w, Rollback(d)), mid), Begin(d)), d);
      later.flight.Some? && LaneOf(w, d).flight.value.batch <= later.flight.value.batch
  {
    var l, w1 := LaneOf(w, d), Next(w, Rollback(d));
    FlightEnds(l, w.nextTxn);
    StepKeepsInv(w, Rollback(d));
    QueueOnlyGrows(w1, mid, d);
    var w2 := Run(w1, mid);
    var queue, queue' := Payloads(l.queue.rows), Payloads(LaneOf(w2, d).queue.rows);
    assert l.flight.value.batch <= queue <= queue';
  }
}
