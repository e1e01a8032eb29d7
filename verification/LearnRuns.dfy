/** Every run of the state-learning queue: any interleaving of pushes and of transactions on popped items. */
module LearnRuns {
  import opened Basics
  import LearnQueue

  /** Items are numbered in the order they are pushed. */
  type ItemId = nat

  /** A transaction on a popped item, numbered by its position in `txns`. */
  datatype Txn = Txn(row: ItemId, ended: bool, learned: bool)

  datatype World = World(queue: seq<ItemId>, pending: seq<ItemId>, txns: seq<Txn>, completed: seq<ItemId>, pushed: nat)

  datatype Step =
    | Push
    | Pop
    | Learn(t: nat, ok: bool)
    | Commit(t: nat)
    | Rollback(t: nat)

  const START := World([], [], [], [], 0)

  function Stock(w: World): LearnQueue.Stock<ItemId> {
    LearnQueue.Stock(w.queue, w.pending)
  }

  function With(w: World, s: LearnQueue.Stock<ItemId>): World {
    w.(queue := s.queue, pending := s.pending)
  }

  /** Ends a transaction, leaving its item neither queued nor pending. */
  function End(w: World, t: nat): World
    requires t < |w.txns|
  {
    With(w, Stock(w).Complete(w.txns[t].row)).(txns := w.txns[t := w.txns[t].(ended := true)])
  }

  /** The task commits only what it has learned; it may roll back at any time, also after committing. */
  function Next(w: World, s: Step): World {
    match s
    case Push => With(w, Stock(w).Push(w.pushed)).(pushed := w.pushed + 1)
    case Pop =>
      if w.queue == [] then w else With(w, Stock(w).Pop()).(txns := w.txns + [Txn(w.queue[0], false, false)])
    case Learn(t, ok) =>
      if t >= |w.txns| || !ok || w.txns[t].ended then w else w.(txns := w.txns[t := w.txns[t].(learned := true)])
    case Commit(t) =>
      if t >= |w.txns| || w.txns[t].ended || !w.txns[t].learned then w
      else End(w, t).(completed := w.completed + [w.txns[t].row])
    case Rollback(t) =>
      if t >= |w.txns| || w.txns[t].ended then w
      else With(End(w, t), Stock(w).Return(w.txns[t].row))
  }

  function Run(steps: seq<Step>): World {
    if steps == [] then START else Next(Run(steps[..|steps| - 1]), steps[|steps| - 1])
  }

  /** The items that join the back of the queue, in order: pushed, or returned by a rollback. */
  function Joining(w: World, s: Step): seq<ItemId> {
    match s
    case Push => [w.pushed]
    case Rollback(t) => if t < |w.txns| && !w.txns[t].ended then [w.txns[t].row] else []
    case _ => []
  }

  function Arrivals(steps: seq<Step>): seq<ItemId> {
    if steps == [] then []
    else Arrivals(steps[..|steps| - 1]) + Joining(Run(steps[..|steps| - 1]), steps[|steps| - 1])
  }

  function Rows(txns: seq<Txn>): (r: seq<ItemId>)
    ensures |r| == |txns| && forall t :: 0 <= t < |txns| ==> r[t] == txns[t].row
  {
    seq(|txns|, t requires 0 <= t < |txns| => txns[t].row)
  }

  /** First in, first out: the k-th item popped is the k-th to join the queue, and the others wait in that order. */
  lemma {:induction false} FirstInFirstOut(steps: seq<Step>)
    ensures Rows(Run(steps).txns) + Run(steps).queue == Arrivals(steps)
  {
    if steps != [] {
      var w, s := Run(steps[..|steps| - 1]), steps[|steps| - 1];
      FirstInFirstOut(steps[..|steps| - 1]);
      OrderNext(w, s);
    }
  }

  lemma OrderNext(w: World, s: Step)
    ensures Rows(Next(w, s).txns) + Next(w, s).queue == Rows(w.txns) + w.queue + Joining(w, s)
  {
    hide Without;
    if s.Pop? && w.queue != [] {
      assert Rows(Next(w, s).txns) == Rows(w.txns) + [w.queue[0]];
      assert w.queue == [w.queue[0]] + w.queue[1..];
    } else {
      assert Rows(Next(w, s).txns) == Rows(w.txns);
      assert Next(w, s).queue == w.queue + Joining(w, s);
    }
  }

  /** Until a rollback returns an item, items join the queue in the order of their numbers. */
  lemma {:induction false} PushedInOrder(steps: seq<Step>)
    requires forall s :: s in steps ==> !s.Rollback?
    ensures |Arrivals(steps)| == Run(steps).pushed && forall k :: 0 <= k < |Arrivals(steps)| ==> Arrivals(steps)[k] == k
  {
    hide Next, Joining;
    if steps != [] {
      var front, s := steps[..|steps| - 1], steps[|steps| - 1];
      PushedInOrder(front);
      assert s in steps;
      OnlyPushesJoin(Run(front), s);
    }
  }

  lemma OnlyPushesJoin(w: World, s: Step)
    requires !s.Rollback?
    ensures Joining(w, s) == (if s.Push? then [w.pushed] else [])
    ensures Next(w, s).pushed == w.pushed + if s.Push? then 1 else 0
  {
  }

  function Pushes(steps: seq<Step>): nat {
    if steps == [] then 0 else Pushes(steps[..|steps| - 1]) + if steps[|steps| - 1].Push? then 1 else 0
  }

  /** Each of the first n items once. */
  function Each(n: nat): multiset<ItemId> {
    if n == 0 then multiset{} else Each(n - 1) + multiset{n - 1}
  }

  lemma {:induction false} EachOnce(n: nat, x: ItemId)
    ensures Each(n)[x] == if x < n then 1 else 0
  {
    if n > 0 {
      EachOnce(n - 1, x);
    }
  }

  /** Queued, pending and completed items are together exactly the pushed ones, each once. */
  ghost predicate Conserved(w: World) {
    multiset(w.queue) + multiset(w.pending) + multiset(w.completed) == Each(w.pushed)
  }

  /** The pending items are those of the open transactions, and no two transactions hold the same item. */
  ghost predicate Held(w: World) {
    && (forall t :: 0 <= t < |w.txns| && !w.txns[t].ended ==> w.txns[t].row in w.pending)
    && (forall t, u :: 0 <= t < u < |w.txns| && !w.txns[t].ended && !w.txns[u].ended ==> w.txns[t].row != w.txns[u].row)
    && (forall x :: x in w.pending ==> exists t :: 0 <= t < |w.txns| && !w.txns[t].ended && w.txns[t].row == x)
  }

  /** LearnState has succeeded on every completed item, in a transaction on that item. */
  ghost predicate CompletedAreLearned(w: World) {
    forall x :: x in w.completed ==> exists t :: 0 <= t < |w.txns| && w.txns[t].row == x && w.txns[t].learned
  }

  ghost predicate Inv(w: World) {
    Conserved(w) && Held(w) && CompletedAreLearned(w)
  }

  /** Ending a transaction takes exactly one copy of its item out of the pending ones. */
  lemma EndTakesOne(w: World, t: nat)
    requires Inv(w) && t < |w.txns| && !w.txns[t].ended
    ensures var row := w.txns[t].row;
      && multiset(w.pending) == multiset(End(w, t).pending) + multiset{row}
      && (forall x :: x in End(w, t).pending <==> x in w.pending && x != row)
  {
    var row, rest := w.txns[t].row, Without(w.pending, w.txns[t].row);
    WithoutCount(w.pending, row);
    EachOnce(w.pushed, row);
    assert multiset(w.pending)[row] <= Each(w.pushed)[row];
    assert row in multiset(w.pending);
    forall x ensures x in rest <==> x in w.pending && x != row {
      assert x in rest <==> multiset(rest)[x] > 0;
      assert x in w.pending <==> multiset(w.pending)[x] > 0;
    }
  }

  lemma EndKeepsHeld(w: World, t: nat)
    requires Inv(w) && t < |w.txns| && !w.txns[t].ended
    ensures Held(End(w, t))
  {
    EndTakesOne(w, t);
    var w' := End(w, t);
    forall x | x in w'.pending ensures exists u :: 0 <= u < |w'.txns| && !w'.txns[u].ended && w'.txns[u].row == x {
      var u :| 0 <= u < |w.txns| && !w.txns[u].ended && w.txns[u].row == x;
      assert !w'.txns[u].ended && w'.txns[u].row == x;
    }
  }

  /** Transactions are never forgotten, and keep their item and what they have learned. */
  ghost predicate Extends(a: seq<Txn>, b: seq<Txn>) {
    |a| <= |b| && forall t :: 0 <= t < |a| ==> b[t].row == a[t].row && (a[t].learned ==> b[t].learned)
  }

  lemma CompletedStay(w: World, w': World)
    requires CompletedAreLearned(w) && Extends(w.txns, w'.txns) && w'.completed == w.completed
    ensures CompletedAreLearned(w')
  {
  }

  lemma PushKeepsInv(w: World)
    requires Inv(w)
    ensures Inv(Next(w, Push))
  {
  }

  lemma PopKeepsHeld(w: World)
    requires Inv(w) && w.queue != []
    ensures Held(Next(w, Pop))
  {
    var w', x := Next(w, Pop), w.queue[0];
    EachOnce(w.pushed, x);
    assert x !in w.pending by {
      assert w.queue == [x] + w.queue[1..];
      assert Each(w.pushed)[x] >= multiset(w.queue)[x] + multiset(w.pending)[x];
      assert multiset(w.queue)[x] >= 1;
    }
    forall y | y in w'.pending ensures exists t :: 0 <= t < |w'.txns| && !w'.txns[t].ended && w'.txns[t].row == y {
      if y == x {
        assert w'.txns[|w.txns|].row == y;
      } else {
        var t :| 0 <= t < |w.txns| && !w.txns[t].ended && w.txns[t].row == y;
        assert w'.txns[t] == w.txns[t];
      }
    }
  }

  lemma PopKeepsInv(w: World)
    requires Inv(w)
    ensures Inv(Next(w, Pop))
  {
    if w.queue != [] {
      PopKeepsHeld(w);
      hide Held;
      assert w.queue == [w.queue[0]] + w.queue[1..];
      CompletedStay(w, Next(w, Pop));
    }
  }

  lemma LearnKeepsInv(w: World, s: Step)
    requires Inv(w) && s.Learn?
    ensures Inv(Next(w, s))
  {
    var w' := Next(w, s);
    if w' != w {
      CompletedStay(w, w');
      hide CompletedAreLearned, Conserved;
      forall x | x in w'.pending ensures exists u :: 0 <= u < |w'.txns| && !w'.txns[u].ended && w'.txns[u].row == x {
        var u :| 0 <= u < |w.txns| && !w.txns[u].ended && w.txns[u].row == x;
        assert !w'.txns[u].ended && w'.txns[u].row == x;
      }
    }
  }

  lemma RollbackKeepsInv(w: World, t: nat)
    requires Inv(w)
    ensures Inv(Next(w, Rollback(t)))
  {
    if t < |w.txns| && !w.txns[t].ended {
      EndTakesOne(w, t);
      EndKeepsHeld(w, t);
      hide Without;
      CompletedStay(w, Next(w, Rollback(t)));
    }
  }

  lemma CommitKeepsInv(w: World, t: nat)
    requires Inv(w)
    ensures Inv(Next(w, Commit(t)))
  {
    var w' := Next(w, Commit(t));
    if w' != w {
      EndTakesOne(w, t);
      EndKeepsHeld(w, t);
      CompletedStay(w, End(w, t));
      hide Without, Held;
      forall x | x in w'.completed ensures exists u :: 0 <= u < |w'.txns| && w'.txns[u].row == x && w'.txns[u].learned {
        if x !in w.completed {
          assert w'.txns[t].row == x && w'.txns[t].learned;
        }
      }
    }
  }

  lemma StepKeepsInv(w: World, s: Step)
    requires Inv(w)
    ensures Inv(Next(w, s))
  {
    hide Inv, Next;
    match s {
      case Push => PushKeepsInv(w);
      case Pop => PopKeepsInv(w);
      case Learn(_, _) => LearnKeepsInv(w, s);
      case Commit(t) => CommitKeepsInv(w, t);
      case Rollback(t) => RollbackKeepsInv(w, t);
    }
  }

  /** In every run no item is lost, duplicated or held twice, and only learned items are completed. */
  lemma {:induction false} EveryRunKeepsItems(steps: seq<Step>)
    ensures Inv(Run(steps)) && Run(steps).pushed == Pushes(steps)
  {
    if steps != [] {
      EveryRunKeepsItems(steps[..|steps| - 1]);
      StepKeepsInv(Run(steps[..|steps| - 1]), steps[|steps| - 1]);
      hide Inv;
    }
  }

  /** Rolling back after a commit, as the task's deferred call does, changes nothing. */
  lemma RollbackAfterCommit(w: World, t: nat)
    requires t < |w.txns| && !w.txns[t].ended && w.txns[t].learned
    ensures Next(Next(w, Commit(t)), Rollback(t)) == Next(w, Commit(t))
    ensures Next(w, Commit(t)).completed == w.completed + [w.txns[t].row]
  {
  }

  /** One round of the draining task is a run: a pop, the attempt to learn, the commit, and the deferred rollback. */
  lemma RoundIsARun(w: World, learned: bool)
    requires w.queue != []
    ensures var t, x := |w.txns|, w.queue[0];
      var w' := Next(Next(Next(Next(w, Pop), Learn(t, learned)), Commit(t)), Rollback(t));
      && Stock(w') == Stock(w).Round(learned)
      && w'.completed == w.completed + (if learned then [x] else [])
      && w'.txns == w.txns + [Txn(x, true, learned)]
  {
    var t, popped := |w.txns|, Next(w, Pop);
    hide Without;
    assert popped.txns[t] == Txn(w.queue[0], false, false);
  }
}
