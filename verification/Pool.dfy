/**
 * queue/pool.go: event checks deduplicated by a singleflight group over a persistent store of results, in one process.
 * A store is described by how a stored verdict reads; the in-memory store reads back what was stored.
 */
module Pool {
  import opened Basics
  import opened Harms

  type EventId = string
  type CallerId = nat

  datatype Stored = Stored(isProbablySpam: bool, info: BuiltInfo)

  /** sfResult */
  datatype Checked = Checked(firstTimeSeen: bool, info: BuiltInfo)

  /** How the outside world answers one doFilter; a failed write may still have reached the database. */
  datatype Surroundings = Surroundings(
    readOk: bool, hasSet: bool, verdict: Result<BuiltInfo>, writeOk: bool, written: bool)

  class EventStore {
    const read: BuiltInfo -> BuiltInfo
    var results: map<EventId, Stored>

    constructor (read: BuiltInfo -> BuiltInfo)
      ensures this.read == read && results == map[]
    {
      this.read, results := read, map[];
    }
  }

  /** The answer to a check: the verdict itself the first time, and what the store makes of it afterwards. */
  function Reported(read: BuiltInfo -> BuiltInfo, firstTimeSeen: bool, stored: Stored): BuiltInfo {
    if firstTimeSeen then stored.info else read(stored.info)
  }

  /** What one check does to the store: it answers from the store, or stores what it answers. */
  ghost predicate Answers(
    read: BuiltInfo -> BuiltInfo, before: map<EventId, Stored>, after: map<EventId, Stored>, id: EventId,
    w: Surroundings, r: Result<Checked>)
  {
    && (r.Ok? ==> id in after && r.value.info == Reported(read, r.value.firstTimeSeen, after[id]))
    && (r.Ok? ==> (r.value.firstTimeSeen <==> id !in before))
    && (r.Ok? <==> w.readOk && (id in before || (w.hasSet && w.verdict.Ok? && w.writeOk)))
    && after == if id !in before && w.readOk && w.hasSet && w.verdict.Ok? && w.written
                then before[id := Stored(w.verdict.value.cls == Prohibited, w.verdict.value)] else before
  }

  /** doFilter, run without interference. */
  method DoFilter(store: EventStore, id: EventId, w: Surroundings) returns (r: Result<Checked>)
    requires w.writeOk ==> w.written
    modifies store
    ensures Answers(store.read, old(store.results), store.results, id, w, r)
  {
    if !w.readOk {
      return Err;
    }
    if id in store.results {
      return Ok(Checked(false, store.read(store.results[id].info)));
    }
    if !w.hasSet || w.verdict.Err? {
      return Err;
    }
    var info := w.verdict.value;
    var isSpam := info.cls == Prohibited;
    if w.written {
      store.results := store.results[id := Stored(isSpam, info)];
    }
    if !w.writeOk {
      return Err;
    }
    return Ok(Checked(true, info));
  }

  // ---------- Any interleaving of submissions ----------

  /** Where an execution of doFilter has got to. */
  datatype Phase =
    | Looking
    | Filtering
    | Storing(info: BuiltInfo)
    | Returning(result: Result<Checked>)
    | Returned(result: Result<Checked>)

  datatype Exec = Exec(id: EventId, phase: Phase)

  /**
   * `calls` is the singleflight group: the execution in progress for an event ID. `joined` says which execution a
   * caller waits for, and `filtered` records every time the filters are run.
   */
  datatype World = World(
    read: BuiltInfo -> BuiltInfo, results: map<EventId, Stored>, execs: seq<Exec>, calls: map<EventId, nat>,
    joined: map<CallerId, nat>, filtered: seq<EventId>)

  datatype Step =
    | Submit(id: EventId, caller: CallerId, cancelled: bool)
    | Look(e: nat, readOk: bool)
    | Filter(e: nat, hasSet: bool, verdict: Result<BuiltInfo>)
    | Store(e: nat, writeOk: bool, written: bool)
    | Return(e: nat)

  function Start(read: BuiltInfo -> BuiltInfo): World {
    World(read, map[], [], map[], map[], [])
  }

  function To(w: World, e: nat, phase: Phase): World
    requires e < |w.execs|
  {
    w.(execs := w.execs[e := w.execs[e].(phase := phase)])
  }

  function At(w: World, e: nat): Phase {
    if e < |w.execs| then w.execs[e].phase else Returned(Err)
  }

  /** A cancelled submission never reaches the singleflight; a step an execution is not ready for changes nothing. */
  function Next(w: World, s: Step): World {
    match s
    case Submit(id, caller, cancelled) =>
      if cancelled || caller in w.joined then w
      else if id in w.calls then w.(joined := w.joined[caller := w.calls[id]])
      else
        var e := |w.execs|;
        w.(execs := w.execs + [Exec(id, Looking)], calls := w.calls[id := e], joined := w.joined[caller := e])
    case Look(e, readOk) =>
      if !At(w, e).Looking? then w
      else
        var id := w.execs[e].id;
        To(w, e, if !readOk then Returning(Err)
                 else if id in w.results then Returning(Ok(Checked(false, w.read(w.results[id].info))))
                 else Filtering)
    case Filter(e, hasSet, verdict) =>
      if !At(w, e).Filtering? then w
      else if !hasSet then To(w, e, Returning(Err))
      else To(w, e, if verdict.Ok? then Storing(verdict.value) else Returning(Err))
           .(filtered := w.filtered + [w.execs[e].id])
    case Store(e, writeOk, written) =>
      if !At(w, e).Storing? then w
      else
        var id, info := w.execs[e].id, w.execs[e].phase.info;
        To(w, e, Returning(if writeOk then Ok(Checked(true, info)) else Err))
        .(results := if writeOk || written then w.results[id := Stored(info.cls == Prohibited, info)] else w.results)
    case Return(e) =>
      if !At(w, e).Returning? then w
      else To(w, e, Returned(w.execs[e].phase.result)).(calls := w.calls - {w.execs[e].id})
  }

  function Run(w: World, steps: seq<Step>): World {
    if steps == [] then w else Next(Run(w, steps[..|steps| - 1]), steps[|steps| - 1])
  }

  /** The steps of an execution that nothing else interrupts do what doFilter does. */
  lemma {:induction false} UndisturbedStepsAnswer(w: World, e: nat, s: Surroundings)
    requires e < |w.execs| && w.execs[e].phase.Looking? && (s.writeOk ==> s.written)
    ensures var w' := Run(w, [Look(e, s.readOk), Filter(e, s.hasSet, s.verdict), Store(e, s.writeOk, s.written)]);
      && |w'.execs| == |w.execs| && w'.execs[e].phase.Returning?
      && Answers(w.read, w.results, w'.results, w.execs[e].id, s, w'.execs[e].phase.result)
  {
    var look, filter, store := Look(e, s.readOk), Filter(e, s.hasSet, s.verdict), Store(e, s.writeOk, s.written);
    hide Run;
    var steps := [look, filter, store];
    RunNext(w, [], look);
    RunNext(w, [look], filter);
    RunNext(w, [look, filter], store);
    assert [] + [look] == [look] && [look] + [filter] == [look, filter] && [look, filter] + [store] == steps;
    var looked := Next(w, look);
    if looked.execs[e].phase.Filtering? {
      var filtered := Next(looked, filter);
      assert filtered.execs[e].id == w.execs[e].id && filtered.results == w.results;
    } else {
      assert Next(looked, filter) == looked && Next(looked, store) == looked;
    }
  }

  lemma RunNext(w: World, steps: seq<Step>, s: Step)
    ensures Run(w, steps + [s]) == Next(Run(w, steps), s)
    ensures Run(w, []) == w
  {
    assert (steps + [s])[..|steps|] == steps;
  }

  /** The result of an execution, once it has one. */
  function Outcome(p: Phase): Result<Checked> {
    if p.Returning? || p.Returned? then p.result else Err
  }

  /** The singleflight group lists exactly the executions in progress, so there is at most one per event ID. */
  ghost predicate OneFlight(w: World) {
    && (forall id :: id in w.calls ==>
         w.calls[id] < |w.execs| && w.execs[w.calls[id]].id == id && !w.execs[w.calls[id]].phase.Returned?)
    && (forall e :: 0 <= e < |w.execs| && !w.execs[e].phase.Returned? ==>
         w.execs[e].id in w.calls && w.calls[w.execs[e].id] == e)
  }

  /** Executions that have not found a result are right about it, and those that report one report what is stored. */
  ghost predicate ExecOk(read: BuiltInfo -> BuiltInfo, results: map<EventId, Stored>, x: Exec) {
    && (x.phase.Filtering? || x.phase.Storing? ==> x.id !in results)
    && (Outcome(x.phase).Ok? ==> x.id in results && Reports(read, results[x.id], Outcome(x.phase).value))
  }

  predicate Reports(read: BuiltInfo -> BuiltInfo, stored: Stored, answer: Checked) {
    answer.info == Reported(read, answer.firstTimeSeen, stored)
  }

  predicate IsFirst(x: Exec) {
    Outcome(x.phase).Ok? && Outcome(x.phase).value.firstTimeSeen
  }

  /** No event is reported as seen for the first time by two executions. */
  ghost predicate FirstOnce(w: World) {
    forall d, e ::
      0 <= d < e < |w.execs| && IsFirst(w.execs[d]) && IsFirst(w.execs[e]) ==> w.execs[d].id != w.execs[e].id
  }

  ghost predicate Inv(w: World) {
    && OneFlight(w) && FirstOnce(w)
    && (forall e :: 0 <= e < |w.execs| ==> ExecOk(w.read, w.results, w.execs[e]))
    && (forall id :: id in w.results ==> (w.results[id].isProbablySpam <==> w.results[id].info.cls == Prohibited))
    && (forall c :: c in w.joined ==> w.joined[c] < |w.execs|)
  }

  /** Moving one execution forward, without finishing it or touching the store. */
  lemma MoveKeepsInv(w: World, e: nat, p: Phase, filtered: seq<EventId>)
    requires Inv(w) && e < |w.execs| && !w.execs[e].phase.Returned? && !p.Returned?
    requires ExecOk(w.read, w.results, Exec(w.execs[e].id, p)) && !IsFirst(Exec(w.execs[e].id, p))
    ensures Inv(To(w, e, p).(filtered := filtered))
  {
  }

  lemma SubmitKeepsFlight(w: World, s: Step)
    requires OneFlight(w) && s.Submit?
    ensures OneFlight(Next(w, s))
  {
  }

  lemma SubmitKeepsInv(w: World, s: Step)
    requires Inv(w) && s.Submit?
    ensures Inv(Next(w, s))
  {
    SubmitKeepsFlight(w, s);
    assert forall id :: id in w.calls ==> w.calls[id] < |w.execs|;
    hide OneFlight;
  }

  lemma StoreKeepsExecs(w: World, s: Step, d: nat)
    requires Inv(w) && s.Store? && d < |w.execs|
    ensures ExecOk(w.read, Next(w, s).results, Next(w, s).execs[d])
    ensures IsFirst(Next(w, s).execs[d]) ==> IsFirst(w.execs[d]) || d == s.e
    ensures d != s.e && At(w, s.e).Storing? && w.execs[d].id == w.execs[s.e].id ==> !IsFirst(w.execs[d])
  {
  }

  lemma StoreKeepsInv(w: World, s: Step)
    requires Inv(w) && s.Store?
    ensures Inv(Next(w, s))
  {
    forall d: nat | d < |w.execs|
      ensures ExecOk(w.read, Next(w, s).results, Next(w, s).execs[d])
      ensures IsFirst(Next(w, s).execs[d]) ==> IsFirst(w.execs[d]) || d == s.e
      ensures d != s.e && At(w, s.e).Storing? && w.execs[d].id == w.execs[s.e].id ==> !IsFirst(w.execs[d])
    {
      StoreKeepsExecs(w, s, d);
    }
    hide ExecOk, IsFirst;
  }

  lemma ReturnKeepsInv(w: World, s: Step)
    requires Inv(w) && s.Return?
    ensures Inv(Next(w, s))
  {
  }

  lemma {:induction false} StepKeepsInv(w: World, s: Step)
    requires Inv(w)
    ensures Inv(Next(w, s))
  {
    hide Inv;
    match s {
      case Submit(_, _, _) => SubmitKeepsInv(w, s);
      case Look(e, readOk) =>
        if At(w, e).Looking? {
          MoveKeepsInv(w, e, Next(w, s).execs[e].phase, w.filtered);
        }
      case Filter(e, _, _) =>
        if At(w, e).Filtering? {
          FilteringIsNew(w, e);
          MoveKeepsInv(w, e, Next(w, s).execs[e].phase, Next(w, s).filtered);
        }
      case Store(_, _, _) => StoreKeepsInv(w, s);
      case Return(_) => ReturnKeepsInv(w, s);
    }
  }

  /** The filters run, and results are stored, only for events with no stored result. */
  lemma FilteringIsNew(w: World, e: nat)
    requires Inv(w) && e < |w.execs| && (w.execs[e].phase.Filtering? || w.execs[e].phase.Storing?)
    ensures w.execs[e].id !in w.results
  {
  }

  lemma {:induction false} EveryRunKeepsInv(w: World, steps: seq<Step>)
    requires Inv(w)
    ensures Inv(Run(w, steps))
  {
    hide Inv, Next;
    if steps != [] {
      EveryRunKeepsInv(w, steps[..|steps| - 1]);
      StepKeepsInv(Run(w, steps[..|steps| - 1]), steps[|steps| - 1]);
    }
  }

  lemma StartKeepsInv(read: BuiltInfo -> BuiltInfo)
    ensures Inv(Start(read))
  {
  }

  /** At most one doFilter per event ID is in progress. */
  lemma AtMostOneInFlight(read: BuiltInfo -> BuiltInfo, steps: seq<Step>, d: nat, e: nat)
    requires d < e < |Run(Start(read), steps).execs|
    requires var x, y := Run(Start(read), steps).execs[d], Run(Start(read), steps).execs[e];
      x.id == y.id && !y.phase.Returned?
    ensures Run(Start(read), steps).execs[d].phase.Returned?
  {
    StartKeepsInv(read);
    EveryRunKeepsInv(Start(read), steps);
  }

  /** A new caller waits for an execution of its own event, which is not over; a cancelled caller starts nothing. */
  lemma SubmitJoinsOwnEvent(w: World, id: EventId, caller: CallerId)
    requires Inv(w) && caller !in w.joined
    ensures var w' := Next(w, Submit(id, caller, false));
      && caller in w'.joined && w'.joined[caller] < |w'.execs|
      && w'.execs[w'.joined[caller]].id == id && !w'.execs[w'.joined[caller]].phase.Returned?
    ensures Next(w, Submit(id, caller, true)) == w
  {
  }

  /** Once joined, a caller keeps waiting for the same execution, of the same event. */
  lemma {:induction false} CallerKeepsEvent(w: World, steps: seq<Step>, caller: CallerId)
    requires Inv(w) && caller in w.joined
    ensures var w' := Run(w, steps);
      && Inv(w') && w'.read == w.read
      && caller in w'.joined && w'.joined[caller] == w.joined[caller]
      && w'.joined[caller] < |w'.execs| && w'.execs[w'.joined[caller]].id == w.execs[w.joined[caller]].id
  {
    hide Next, Inv;
    if steps == [] {
      JoinedInRange(w, caller);
    } else {
      var front, s := steps[..|steps| - 1], steps[|steps| - 1];
      CallerKeepsEvent(w, front, caller);
      StepKeepsInv(Run(w, front), s);
      StepsAddExecs(Run(w, front), s);
      StepKeepsCaller(Run(w, front), s, caller);
      JoinedInRange(Run(w, steps), caller);
    }
  }

  lemma JoinedInRange(w: World, caller: CallerId)
    requires Inv(w) && caller in w.joined
    ensures w.joined[caller] < |w.execs|
  {
  }

  lemma StepKeepsCaller(w: World, s: Step, caller: CallerId)
    requires caller in w.joined && w.joined[caller] < |w.execs|
    ensures caller in Next(w, s).joined && Next(w, s).joined[caller] == w.joined[caller]
    ensures |w.execs| <= |Next(w, s).execs| && Next(w, s).execs[w.joined[caller]].id == w.execs[w.joined[caller]].id
  {
  }

  /** Whatever else is submitted, a caller's successful answer reports what is stored for the event it submitted. */
  lemma CallersGetTheirOwnEvent(
    read: BuiltInfo -> BuiltInfo, before: seq<Step>, id: EventId, caller: CallerId, after: seq<Step>)
    requires caller !in Run(Start(read), before).joined
    ensures var w := Run(Next(Run(Start(read), before), Submit(id, caller, false)), after);
      && caller in w.joined && w.joined[caller] < |w.execs|
      && var x := w.execs[w.joined[caller]];
      && x.id == id
      && (Outcome(x.phase).Ok? ==> id in w.results && Reports(read, w.results[id], Outcome(x.phase).value))
  {
    StartKeepsInv(read);
    EveryRunKeepsInv(Start(read), before);
    ReadStays(Start(read), before);
    var w := Run(Start(read), before);
    SubmitJoinsOwnEvent(w, id, caller);
    StepKeepsInv(w, Submit(id, caller, false));
    StepsAddExecs(w, Submit(id, caller, false));
    CallerKeepsEvent(Next(w, Submit(id, caller, false)), after, caller);
    hide Next, Run;
    var w' := Run(Next(w, Submit(id, caller, false)), after);
    assert ExecOk(w'.read, w'.results, w'.execs[w'.joined[caller]]);
  }

  /** Once an execution returns, the next submission of its event starts a new one. */
  lemma ReturnEndsFlight(w: World, e: nat, caller: CallerId)
    requires Inv(w) && e < |w.execs| && w.execs[e].phase.Returning? && caller !in w.joined
    ensures var id, w' := w.execs[e].id, Next(w, Return(e));
      && w'.execs[e] == Exec(id, Returned(w.execs[e].phase.result)) && id !in w'.calls
      && var w'' := Next(w', Submit(id, caller, false));
      && |w''.execs| == |w.execs| + 1 && w''.execs[|w.execs|] == Exec(id, Looking) && w''.joined[caller] == |w.execs|
  {
  }

  lemma StoredStays(w: World, s: Step, id: EventId)
    requires Inv(w) && id in w.results
    ensures id in Next(w, s).results && Next(w, s).results[id] == w.results[id]
    ensures multiset(Next(w, s).filtered)[id] == multiset(w.filtered)[id]
  {
    if (s.Filter? && At(w, s.e).Filtering?) || (s.Store? && At(w, s.e).Storing?) {
      FilteringIsNew(w, s.e);
    }
  }

  lemma AnswersAreStored(w: World, id: EventId)
    requires Inv(w) && id in w.results
    ensures forall e :: 0 <= e < |w.execs| && w.execs[e].id == id && Outcome(w.execs[e].phase).Ok? ==>
      Reports(w.read, w.results[id], Outcome(w.execs[e].phase).value)
  {
  }

  lemma NoNewFirst(w: World, s: Step, id: EventId, e: nat)
    requires Inv(w) && id in w.results && e < |Next(w, s).execs| && Next(w, s).execs[e].id == id
    ensures |w.execs| <= |Next(w, s).execs|
    ensures IsFirst(Next(w, s).execs[e]) ==> e < |w.execs| && w.execs[e].id == id && IsFirst(w.execs[e])
  {
    if s.Store? && At(w, s.e).Storing? {
      FilteringIsNew(w, s.e);
    }
  }

  /**
   * Once a result is stored, whatever is submitted afterwards: the stored result never changes, the filters never run
   * for that event again, every successful answer reports the stored result, and no new execution claims the first
   * sight.
   */
  lemma {:induction false} StoredResultIsFinal(w: World, steps: seq<Step>, id: EventId)
    requires Inv(w) && id in w.results
    ensures var w' := Run(w, steps);
      && Inv(w') && w'.read == w.read
      && id in w'.results && w'.results[id] == w.results[id]
      && multiset(w'.filtered)[id] == multiset(w.filtered)[id]
      && |w.execs| <= |w'.execs|
      && (forall e :: 0 <= e < |w'.execs| && w'.execs[e].id == id && Outcome(w'.execs[e].phase).Ok? ==>
           Reports(w.read, w.results[id], Outcome(w'.execs[e].phase).value))
      && (forall e :: |w.execs| <= e < |w'.execs| && w'.execs[e].id == id ==> !IsFirst(w'.execs[e]))
  {
    hide Next, Inv, Outcome, IsFirst;
    if steps == [] {
      AnswersAreStored(w, id);
    } else {
      var front, s := steps[..|steps| - 1], steps[|steps| - 1];
      StoredResultIsFinal(w, front, id);
      var before, after := Run(w, front), Run(w, steps);
      assert after == Next(before, s);
      StoredStays(before, s, id);
      StepKeepsInv(before, s);
      AnswersAreStored(after, id);
      StepsAddExecs(before, s);
      forall e: nat | |w.execs| <= e < |after.execs| && after.execs[e].id == id ensures !IsFirst(after.execs[e]) {
        NoNewFirst(before, s, id, e);
      }
    }
  }

  lemma StepsAddExecs(w: World, s: Step)
    ensures |w.execs| <= |Next(w, s).execs| && Next(w, s).read == w.read
  {
  }

  /** `firstTimeSeen` is true at most once per event. */
  lemma FirstTimeSeenOnce(read: BuiltInfo -> BuiltInfo, steps: seq<Step>, d: nat, e: nat)
    requires d < |Run(Start(read), steps).execs| && e < |Run(Start(read), steps).execs|
    requires IsFirst(Run(Start(read), steps).execs[d]) && IsFirst(Run(Start(read), steps).execs[e])
    requires Run(Start(read), steps).execs[d].id == Run(Start(read), steps).execs[e].id
    ensures d == e
  {
    StartKeepsInv(read);
    EveryRunKeepsInv(Start(read), steps);
  }

  lemma {:induction false} ReadStays(w: World, steps: seq<Step>)
    ensures Run(w, steps).read == w.read
  {
    hide Next;
    if steps != [] {
      ReadStays(w, steps[..|steps| - 1]);
      StepsAddExecs(Run(w, steps[..|steps| - 1]), steps[|steps| - 1]);
    }
  }

  /** Two executions for one event: the first to see it, and another that found it stored. */
  ghost predicate FirstAndLater(w: World, d: nat, e: nat) {
    && d < |w.execs| && e < |w.execs| && w.execs[d].id == w.execs[e].id
    && IsFirst(w.execs[d]) && Outcome(w.execs[e].phase).Ok? && !IsFirst(w.execs[e])
  }

  /** A later answer is what the store makes of the first one. */
  lemma LaterAnswerIsRead(read: BuiltInfo -> BuiltInfo, steps: seq<Step>, d: nat, e: nat)
    requires FirstAndLater(Run(Start(read), steps), d, e)
    ensures var w := Run(Start(read), steps);
      Outcome(w.execs[e].phase).value.info == read(Outcome(w.execs[d].phase).value.info)
  {
    StartKeepsInv(read);
    EveryRunKeepsInv(Start(read), steps);
    ReadStays(Start(read), steps);
    var w := Run(Start(read), steps);
    hide Run;
    assert ExecOk(w.read, w.results, w.execs[d]) && ExecOk(w.read, w.results, w.execs[e]);
  }
}
