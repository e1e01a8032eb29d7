/**
 * Every run of a rate limiter: checks that publish increments and read the counter, interleaved with deliveries in any
 * order, cleanups and the clock. A check of weight one is the frequency filter's, which publishes before it reads; a
 * check that publishes one increment per mention after reading is the mention-frequency filter's. The steps allow
 * either order.
 */
module LimiterRuns {
  import opened Basics
  import opened Harms
  import opened Counter
  import opened Limiters

  /**
   * What a check read, and what it answered; `prompt` is whether every earlier increment of its sender had been
   * delivered by then.
   */
  datatype Reading = Reading(at: Time, seen: nat, prompt: bool, answer: Info)

  /** A check of one event: it publishes `weight` increments, of which those in `stamps` are out, unless it fails. */
  datatype Check = Check(sender: Entity, weight: nat, stamps: seq<Time>, reading: Option<Reading>, failed: bool) {
    /** The check will publish nothing more. */
    predicate Done() {
      failed || |stamps| == weight
    }
  }

  /** The k-th increment of the i-th check. */
  type Mark = (nat, nat)

  datatype World = World(now: Time, log: seq<Check>, delivered: seq<Mark>, values: map<Entity, seq<Time>>)

  datatype Step =
    | Tick(now: Time)
    | Open(sender: Entity, weight: nat)
    | Publish(i: nat)
    | Fail(i: nat)
    | Deliver(mark: Mark)
    | Clean(values: map<Entity, seq<Time>>)
    | Read(i: nat, seen: nat, answer: Info)

  function Start(now: Time): World {
    World(now, [], [], map[])
  }

  predicate Published(log: seq<Check>, p: Mark) {
    p.0 < |log| && p.1 < |log[p.0].stamps|
  }

  function Stamp(log: seq<Check>, p: Mark): Time
    requires Published(log, p)
  {
    log[p.0].stamps[p.1]
  }

  predicate AllOut(log: seq<Check>, i: nat)
    requires i < |log|
  {
    forall j :: 0 <= j < i && log[j].sender == log[i].sender ==> log[j].Done()
  }

  /** The sender's earlier checks publish nothing more, and all their increments have been delivered. */
  predicate Prompt(w: World, i: nat)
    requires i < |w.log|
  {
    AllOut(w.log, i) &&
    forall j, k ::
      0 <= j < i && w.log[j].sender == w.log[i].sender && 0 <= k < |w.log[j].stamps| ==> (j, k) in w.delivered
  }

  /** Counter.Cleanup and Counter.Get appear through what their contracts promise. A disabled step changes nothing. */
  ghost function Next(w: World, s: Step): World {
    match s
    case Tick(now) => if now < w.now then w else w.(now := now)
    case Open(sender, weight) => w.(log := w.log + [Check(sender, weight, [], None, false)])
    case Publish(i) =>
      if i >= |w.log| || w.log[i].failed || |w.log[i].stamps| >= w.log[i].weight then w
      else w.(log := w.log[i := w.log[i].(stamps := w.log[i].stamps + [w.now])])
    case Fail(i) =>
      if i >= |w.log| then w else w.(log := w.log[i := w.log[i].(failed := true)])
    case Deliver(p) =>
      if !Published(w.log, p) || p in w.delivered then w
      else
        var e := w.log[p.0].sender;
        w.(delivered := w.delivered + [p], values := w.values[e := Of(w.values, e) + [Stamp(w.log, p)]])
    case Clean(values) =>
      if forall e :: SameLive(Of(values, e), Of(w.values, e), w.now, WINDOW) then w.(values := values) else w
    case Read(i, seen, answer) =>
      if i >= |w.log| || w.log[i].reading.Some? || seen < |Live(Of(w.values, w.log[i].sender), w.now, WINDOW)| then w
      else w.(log := w.log[i := w.log[i].(reading := Some(Reading(w.now, seen, Prompt(w, i), answer)))])
  }

  ghost function Run(start: Time, steps: seq<Step>): World {
    if steps == [] then Start(start) else Next(Run(start, steps[..|steps| - 1]), steps[|steps| - 1])
  }

  lemma RunNext(start: Time, steps: seq<Step>, s: Step)
    ensures Run(start, steps + [s]) == Next(Run(start, steps), s)
  {
    assert (steps + [s])[..|steps|] == steps;
  }

  /** The delivered timestamps of an entity, in order of delivery. */
  function HistoryOf(log: seq<Check>, delivered: seq<Mark>, e: Entity): seq<Time> {
    if delivered == [] then []
    else
      var p := delivered[|delivered| - 1];
      HistoryOf(log, delivered[..|delivered| - 1], e)
      + if Published(log, p) && log[p.0].sender == e then [Stamp(log, p)] else []
  }

  function LiveMarks(log: seq<Check>, delivered: seq<Mark>, e: Entity, now: Time): set<Mark> {
    set p | p in delivered && Published(log, p) && log[p.0].sender == e && now - Stamp(log, p) < WINDOW
  }

  predicate Counts(log: seq<Check>, p: Mark, e: Entity) {
    Published(log, p) && log[p.0].sender == e
  }

  lemma HistoryNext(log: seq<Check>, delivered: seq<Mark>, p: Mark, e: Entity)
    ensures HistoryOf(log, delivered + [p], e)
      == if Counts(log, p, e) then HistoryOf(log, delivered, e) + [Stamp(log, p)] else HistoryOf(log, delivered, e)
  {
  }

  lemma LiveMarksNext(log: seq<Check>, delivered: seq<Mark>, p: Mark, e: Entity, now: Time)
    requires p !in delivered
    ensures |LiveMarks(log, delivered + [p], e, now)|
      == |LiveMarks(log, delivered, e, now)| + if Counts(log, p, e) && now - Stamp(log, p) < WINDOW then 1 else 0
  {
    var before, after := LiveMarks(log, delivered, e, now), LiveMarks(log, delivered + [p], e, now);
    if Counts(log, p, e) && now - Stamp(log, p) < WINDOW {
      assert after == before + {p};
    } else {
      assert after == before;
    }
  }

  lemma {:induction false} LiveCountsMarks(log: seq<Check>, delivered: seq<Mark>, e: Entity, now: Time)
    requires Distinct(delivered)
    ensures |Live(HistoryOf(log, delivered, e), now, WINDOW)| == |LiveMarks(log, delivered, e, now)|
  {
    if delivered != [] {
      var front, p := delivered[..|delivered| - 1], delivered[|delivered| - 1];
      assert delivered == front + [p] && p !in front;
      LiveCountsMarks(log, front, e, now);
      HistoryNext(log, front, p, e);
      LiveMarksNext(log, front, p, e, now);
      if Counts(log, p, e) {
        LiveNext(HistoryOf(log, front, e), Stamp(log, p), now, WINDOW);
      }
    }
  }

  /** The increments of the sender's earlier checks that are still in the window. */
  function Earlier(log: seq<Check>, i: nat, at: Time): set<Mark>
    requires i < |log|
  {
    set j: nat, k: nat |
      j < i && k < |log[j].stamps| && log[j].sender == log[i].sender && at - log[j].stamps[k] < WINDOW :: (j, k)
  }

  ghost predicate Delivery(w: World) {
    && Distinct(w.delivered)
    && forall p :: p in w.delivered ==> Published(w.log, p)
  }

  ghost predicate Faithful(w: World) {
    forall e :: SameLive(Of(w.values, e), HistoryOf(w.log, w.delivered, e), w.now, WINDOW)
  }

  /** A prompt reading has seen every earlier increment that was still in the window. */
  ghost predicate ReadingOk(log: seq<Check>, i: nat)
    requires i < |log|
  {
    log[i].reading.Some? && log[i].reading.value.prompt ==>
      AllOut(log, i) && log[i].reading.value.seen >= |Earlier(log, i, log[i].reading.value.at)|
  }

  ghost predicate Readings(w: World) {
    forall i :: 0 <= i < |w.log| ==> ReadingOk(w.log, i)
  }

  ghost predicate Inv(w: World) {
    Delivery(w) && Faithful(w) && Readings(w)
  }

  /** The log only grows: checks stay, published increments stay, and checks that are done publish no more. */
  ghost predicate LogGrows(a: seq<Check>, b: seq<Check>) {
    && |a| <= |b|
    && forall i :: 0 <= i < |a| ==>
      && b[i].sender == a[i].sender && b[i].weight == a[i].weight && a[i].stamps <= b[i].stamps
      && (a[i].Done() ==> b[i].Done() && b[i].stamps == a[i].stamps)
  }

  lemma {:induction false} HistoryStays(a: seq<Check>, b: seq<Check>, delivered: seq<Mark>, e: Entity)
    requires LogGrows(a, b) && forall p :: p in delivered ==> Published(a, p)
    ensures HistoryOf(a, delivered, e) == HistoryOf(b, delivered, e)
  {
    if delivered != [] {
      assert delivered[|delivered| - 1] in delivered;
      HistoryStays(a, b, delivered[..|delivered| - 1], e);
    }
  }

  lemma ReadingStays(a: seq<Check>, b: seq<Check>, i: nat)
    requires LogGrows(a, b) && i < |a| && ReadingOk(a, i) && b[i].reading == a[i].reading
    ensures ReadingOk(b, i)
  {
    if a[i].reading.Some? && a[i].reading.value.prompt {
      assert Earlier(a, i, a[i].reading.value.at) == Earlier(b, i, a[i].reading.value.at);
    }
  }

  lemma LogStepKeeps(w: World, w': World)
    requires Inv(w) && LogGrows(w.log, w'.log)
    requires w'.now == w.now && w'.delivered == w.delivered && w'.values == w.values
    ensures Delivery(w') && Faithful(w')
  {
    forall e ensures SameLive(Of(w'.values, e), HistoryOf(w'.log, w'.delivered, e), w'.now, WINDOW) {
      HistoryStays(w.log, w'.log, w.delivered, e);
    }
  }

  lemma CheckStepKeepsInv(w: World, s: Step)
    requires Inv(w) && (s.Open? || s.Publish? || s.Fail?)
    ensures Inv(Next(w, s))
  {
    var w' := Next(w, s);
    assert LogGrows(w.log, w'.log);
    LogStepKeeps(w, w');
    forall i | 0 <= i < |w'.log| ensures ReadingOk(w'.log, i) {
      if i < |w.log| {
        ReadingStays(w.log, w'.log, i);
      }
    }
  }

  lemma PromptSeesEarlier(w: World, i: nat)
    requires Inv(w) && i < |w.log| && Prompt(w, i)
    ensures |Earlier(w.log, i, w.now)| <= |Live(Of(w.values, w.log[i].sender), w.now, WINDOW)|
  {
    var e := w.log[i].sender;
    assert SameLive(Of(w.values, e), HistoryOf(w.log, w.delivered, e), w.now, WINDOW);
    LiveCountsMarks(w.log, w.delivered, e, w.now);
    SubsetSize(Earlier(w.log, i, w.now), LiveMarks(w.log, w.delivered, e, w.now));
  }

  lemma {:induction false} ReadKeepsInv(w: World, i: nat, seen: nat, answer: Info)
    requires Inv(w)
    ensures Inv(Next(w, Read(i, seen, answer)))
  {
    var w' := Next(w, Read(i, seen, answer));
    if w' != w {
      assert LogGrows(w.log, w'.log);
      LogStepKeeps(w, w');
      forall j | 0 <= j < |w'.log| ensures ReadingOk(w'.log, j) {
        if j != i {
          ReadingStays(w.log, w'.log, j);
        } else if Prompt(w, i) {
          PromptSeesEarlier(w, i);
          assert Earlier(w.log, i, w.now) == Earlier(w'.log, i, w.now);
        }
      }
    }
  }

  lemma {:induction false} DeliverKeepsInv(w: World, p: Mark)
    requires Inv(w)
    ensures Inv(Next(w, Deliver(p)))
  {
    hide Live, HistoryOf, SameLive, ReadingOk;
    var w' := Next(w, Deliver(p));
    if w' != w {
      DistinctConcat(w.delivered, [p]);
      forall e ensures SameLive(Of(w'.values, e), HistoryOf(w'.log, w'.delivered, e), w'.now, WINDOW) {
        HistoryNext(w.log, w.delivered, p, e);
        assert SameLive(Of(w.values, e), HistoryOf(w.log, w.delivered, e), w.now, WINDOW);
        if e == w.log[p.0].sender {
          SameLiveNext(Of(w.values, e), HistoryOf(w.log, w.delivered, e), Stamp(w.log, p), w.now, WINDOW);
        }
      }
    }
  }

  lemma CleanKeepsInv(w: World, s: Step)
    requires Inv(w) && (s.Clean? || s.Tick?)
    ensures Inv(Next(w, s))
  {
  }

  lemma {:induction false} EveryRunKeepsInv(start: Time, steps: seq<Step>)
    ensures Inv(Run(start, steps))
  {
    if steps != [] {
      EveryRunKeepsInv(start, steps[..|steps| - 1]);
      var w, s := Run(start, steps[..|steps| - 1]), steps[|steps| - 1];
      hide Inv, Next;
      match s {
        case Tick(_) => CleanKeepsInv(w, s);
        case Clean(_) => CleanKeepsInv(w, s);
        case Open(_, _) => CheckStepKeepsInv(w, s);
        case Publish(_) => CheckStepKeepsInv(w, s);
        case Fail(_) => CheckStepKeepsInv(w, s);
        case Deliver(p) => DeliverKeepsInv(w, p);
        case Read(i, seen, answer) => ReadKeepsInv(w, i, seen, answer);
      }
    } else {
      assert Live([], start, WINDOW) == [];
    }
  }

  /** A check of the frequency filter is a run: it publishes, later reads, and answers. */
  lemma FrequencyCheckRuns(w: World, sender: Entity, at: Time, readAt: Time, seen: nat, answer: Info)
    requires w.now <= at <= readAt && |Live(Of(w.values, sender), readAt, WINDOW)| <= seen
    ensures var i := |w.log|;
      var published := Next(Next(Next(w, Open(sender, 1)), Tick(at)), Publish(i));
      var w' := Next(Next(published, Tick(readAt)), Read(i, seen, answer));
      && w'.log == w.log + [Check(sender, 1, [at], Some(Reading(readAt, seen, Prompt(published, i), answer)), false)]
      && w'.now == readAt && w'.delivered == w.delivered && w'.values == w.values
  {
    hide Live, Prompt;
    var i, c := |w.log|, Check(sender, 1, [], None, false);
    var ticked := Next(Next(w, Open(sender, 1)), Tick(at));
    assert ticked.log == w.log + [c] && ticked.log[i] == c && c.stamps + [at] == [at];
    var published := Next(ticked, Publish(i));
    assert published.log == w.log + [c.(stamps := [at])];
    PromptIgnoresClock(published, published.(now := readAt), i);
  }

  lemma PromptIgnoresClock(w: World, w': World, i: nat)
    requires i < |w.log| && w'.log == w.log && w'.delivered == w.delivered
    ensures Prompt(w', i) == Prompt(w, i)
  {
  }

  // ---------- The limit ----------

  /** All increments of the given checks. */
  function Marks(log: seq<Check>, checks: set<nat>): set<Mark>
    requires forall i :: i in checks ==> i < |log|
  {
    set i, k: nat | i in checks && k < log[i].weight :: (i, k)
  }

  /**
   * The check did not fail, and answered Neutral as the filters do at this rate, on a reading that had seen all of its
   * sender's earlier increments.
   */
  ghost predicate Passed(log: seq<Check>, i: nat, sender: Entity, rate: Rate) {
    && i < |log| && log[i].sender == sender && !log[i].failed && log[i].reading.Some? && log[i].reading.value.prompt
    && log[i].reading.value.answer == NEUTRAL
    && Judges(Ok(log[i].reading.value.answer), rate.Exceeds(log[i].reading.value.seen + log[i].weight))
  }

  /** The checks lie within less than a minute: from each increment to each later reading. */
  predicate WithinWindow(log: seq<Check>, checks: set<nat>) {
    forall i, j, k: nat ::
      i in checks && j in checks && j < i < |log| && k < |log[j].stamps| && log[i].reading.Some? ==>
      log[i].reading.value.at - log[j].stamps[k] < 60 * SECOND
  }

  /** Checks of one sender that passed within less than a minute. */
  ghost predicate PassedTogether(log: seq<Check>, checks: set<nat>, sender: Entity, rate: Rate) {
    && checks != {}
    && (forall i :: i in checks ==> Passed(log, i, sender, rate))
    && WithinWindow(log, checks)
  }

  lemma {:induction false} MarksOfOne(log: seq<Check>, m: nat, n: nat)
    requires m < |log| && n <= log[m].weight
    ensures |set k: nat | k < n :: (m, k)| == n
  {
    if n > 0 {
      MarksOfOne(log, m, n - 1);
      assert (set k: nat | k < n :: (m, k)) == (set k: nat | k < n - 1 :: (m, k)) + {(m, n - 1)};
    }
  }

  lemma {:induction false} LatestExists(checks: set<nat>) returns (m: nat)
    requires checks != {}
    ensures m in checks && forall i :: i in checks ==> i <= m
  {
    m :| m in checks;
    var rest := checks - {m};
    assert forall i :: i in checks ==> i == m || i in rest;
    if rest != {} {
      var n := LatestExists(rest);
      m := if m < n then n else m;
    }
  }

  /** What earlier checks published, the latest one has seen. */
  lemma EarlierMarksAreSeen(log: seq<Check>, checks: set<nat>, sender: Entity, rate: Rate, m: nat)
    requires PassedTogether(log, checks, sender, rate)
    requires m in checks && forall i :: i in checks ==> i <= m
    requires ReadingOk(log, m)
    ensures forall i :: i in checks ==> i < |log|
    ensures Marks(log, checks) <= Earlier(log, m, log[m].reading.value.at) + set k: nat | k < log[m].weight :: (m, k)
  {
  }

  /**
   * The limit holds in every stretch shorter than the window: the checks of one sender that pass add up to a count
   * within the rate, whether or not a check's own increments were visible to it.
   */
  lemma PassedChecksObeyLimit(start: Time, steps: seq<Step>, checks: set<nat>, sender: Entity, rate: Rate)
    requires rate.Monotone() && PassedTogether(Run(start, steps).log, checks, sender, rate)
    ensures forall i :: i in checks ==> i < |Run(start, steps).log|
    ensures !rate.Exceeds(|Marks(Run(start, steps).log, checks)|)
  {
    EveryRunKeepsInv(start, steps);
    var log := Run(start, steps).log;
    var m := LatestExists(checks);
    assert Passed(log, m, sender, rate);
    assert ReadingOk(log, m);
    EarlierMarksAreSeen(log, checks, sender, rate, m);
    MarksOfOne(log, m, log[m].weight);
    var earlier, own := Earlier(log, m, log[m].reading.value.at), set k: nat | k < log[m].weight :: (m, k);
    SubsetSize(Marks(log, checks), earlier + own);
    var counted := log[m].reading.value.seen + log[m].weight;
    if rate.Exceeds(|Marks(log, checks)|) {
      LargerCountsExceed(rate, |Marks(log, checks)|, counted);
    }
  }

  lemma {:induction false} MarksOfUnitChecks(log: seq<Check>, checks: set<nat>)
    requires forall i :: i in checks ==> i < |log| && log[i].weight == 1
    ensures |Marks(log, checks)| == |checks|
  {
    if i :| i in checks {
      var rest := checks - {i};
      MarksOfUnitChecks(log, rest);
      assert Marks(log, checks) == Marks(log, rest) + {(i, 0)};
    } else {
      assert Marks(log, checks) == {};
    }
  }

  /** For the frequency filter: a sender's Neutral verdicts are at most the largest count within the rate. */
  lemma NeutralVerdictsObeyLimit(
    start: Time, steps: seq<Step>, checks: set<nat>, sender: Entity, rate: Rate, most: int)
    requires rate.Monotone() && rate.IsMost(most)
    requires PassedTogether(Run(start, steps).log, checks, sender, rate)
    requires forall i :: i in checks && i < |Run(start, steps).log| ==> Run(start, steps).log[i].weight == 1
    ensures |checks| <= most
  {
    PassedChecksObeyLimit(start, steps, checks, sender, rate);
    MarksOfUnitChecks(Run(start, steps).log, checks);
    PassesUpToMost(rate, most, |checks|);
  }
}
