/**
 * filter/filter_hellban.go in a community's filter set: a hellbanned sender's events come out Prohibited, so the
 * postfilter publishes a hellban for each of them, which the listener hears in turn. This module says when such an
 * echo keeps a ban alive.
 */
module HellbanRuns {
  import opened Basics
  import opened Harms
  import opened Hellban
  import Manager
  import Pipeline

  /** A published hellban; an offence is one that no hellban had a part in. */
  datatype Publication = Publication(user: UserId, offence: bool, at: Time)

  /** A publication that the listener has handled, and when. */
  datatype Entry = Entry(publication: Publication, at: Stamp)

  datatype World = World(communityId: string, forTime: Time, now: Time, log: seq<Entry>, bus: seq<Publication>)

  /**
   * Event: an event is checked; `first` is what the first filter group makes of it, and `bulk` whether the third would
   * prohibit it. Handle: the listener handles a message, not necessarily the oldest.
   */
  datatype Step =
    | Tick(now: Time)
    | Event(user: UserId, first: ContentClass, bulk: bool, publishOk: bool)
    | Handle(k: nat, at: Stamp)

  function Start(communityId: string, forTime: Time, now: Time): World {
    World(communityId, forTime, now, [], [])
  }

  function Messages(log: seq<Entry>, communityId: string): seq<Message> {
    seq(|log|, i requires 0 <= i < |log| => Ban(communityId, log[i].publication.user, log[i].at))
  }

  function PeriodsOf(w: World, u: UserId): seq<Period> {
    Periods(About(Messages(w.log, w.communityId), w.communityId, u), w.forTime)
  }

  /** What the prefilter finds in the cache. */
  predicate Banned(w: World, u: UserId) {
    Cached(Heard(map[], Messages(w.log, w.communityId), w.communityId, w.forTime), u, w.now)
  }

  /** The verdict is Prohibited, so that the postfilter runs. */
  predicate Flagged(w: World, s: Step)
    requires s.Event?
  {
    s.first == Prohibited || (s.first == Neutral && (Banned(w, s.user) || s.bulk))
  }

  /**
   * In a community's filter set, that is when the postfilter's group runs: the prefilter is the second group, and
   * `bulk` says what the third would answer.
   */
  lemma FlaggedIsGating(w: World, s: Step, groups: seq<Pipeline.Group>)
    requires s.Event? && Manager.ManagerGates(groups) && Pipeline.Verdict(groups, Pipeline.Event, 4).Ok?
    requires Pipeline.GroupInfo(groups[0], Pipeline.Event).cls == s.first
    requires Pipeline.GroupInfo(groups[1], Pipeline.Event).cls == if Banned(w, s.user) then Prohibited else Neutral
    requires Pipeline.GroupInfo(groups[2], Pipeline.Event).cls == Prohibited <==> s.bulk
    ensures Pipeline.Runs(groups, Pipeline.Event, 3) <==> Flagged(w, s)
  {
    Manager.LastGroupRunsExactly(groups, Pipeline.Event);
    hide Banned, Pipeline.GroupInfo, Pipeline.Verdict, Pipeline.Runs, Manager.ManagerGates;
  }

  predicate Offends(w: World, s: Step)
    requires s.Event?
  {
    s.first == Prohibited || !Banned(w, s.user)
  }

  /** A step that cannot be taken changes nothing. */
  function Next(w: World, s: Step): World {
    match s
    case Tick(now) => if now < w.now then w else w.(now := now)
    case Event(user, _, _, publishOk) =>
      if !Flagged(w, s) || !publishOk then w else w.(bus := w.bus + [Publication(user, Offends(w, s), w.now)])
    case Handle(k, at) =>
      if k >= |w.bus| || !(w.now <= at.readAt <= at.writtenAt) then w
      else w.(now := at.writtenAt, log := w.log + [Entry(w.bus[k], at)], bus := Remove(w.bus, k))
  }

  function Run(w: World, steps: seq<Step>): World {
    if steps == [] then w else Next(Run(w, steps[..|steps| - 1]), steps[|steps| - 1])
  }

  lemma RunNext(w: World, steps: seq<Step>, s: Step)
    ensures Run(w, steps + [s]) == Next(Run(w, steps), s)
  {
    assert (steps + [s])[..|steps|] == steps;
  }

  // ---------- What every run keeps ----------

  predicate CoversAny(ps: seq<Period>, t: Time) {
    exists i :: 0 <= i < |ps| && ps[i].Covers(t)
  }

  /** An echo was published during one of its user's bans. */
  predicate EchoOk(w: World, p: Publication) {
    p.offence || CoversAny(PeriodsOf(w, p.user), p.at)
  }

  /** The world before the k-th message was handled. */
  function Before(w: World, k: nat): World
    requires k <= |w.log|
  {
    w.(log := w.log[..k])
  }

  ghost predicate EntryOk(w: World, k: nat)
    requires k < |w.log|
  {
    var e := w.log[k];
    e.publication.at <= e.at.readAt && e.at.writtenAt <= w.now && EchoOk(Before(w, k), e.publication)
  }

  ghost predicate Inv(w: World) {
    && w.forTime >= 0
    && InOrder(Handled(Messages(w.log, w.communityId)))
    && (forall k :: 0 <= k < |w.log| ==> EntryOk(w, k))
    && (forall p :: p in w.bus ==> p.at <= w.now && EchoOk(w, p))
  }

  lemma MessagesNext(log: seq<Entry>, e: Entry, communityId: string)
    ensures Messages(log + [e], communityId)
      == Messages(log, communityId) + [Ban(communityId, e.publication.user, e.at)]
  {
  }

  lemma PeriodsGrow(w: World, e: Entry, u: UserId)
    ensures PeriodsOf(w, u) <= PeriodsOf(w.(log := w.log + [e]), u)
    ensures PeriodsOf(w.(log := w.log + [e]), u) == if e.publication.user != u then PeriodsOf(w, u)
      else NextPeriods(PeriodsOf(w, u), e.at, w.forTime)
  {
    MessagesNext(w.log, e, w.communityId);
    var ms := Messages(w.log, w.communityId);
    AboutNext(ms, Ban(w.communityId, e.publication.user, e.at), w.communityId, u);
    PeriodsNext(About(ms, w.communityId, u), e.at, w.forTime);
    hide About, Periods, Messages;
  }

  lemma {:induction false} HandledAreLogged(log: seq<Entry>, communityId: string)
    ensures forall s :: s in Handled(Messages(log, communityId)) ==> exists e :: e in log && e.at == s
  {
    if log != [] {
      var front, e := log[..|log| - 1], log[|log| - 1];
      assert log == front + [e];
      HandledAreLogged(front, communityId);
      MessagesNext(front, e, communityId);
      HandledNext(Messages(front, communityId), Ban(communityId, e.publication.user, e.at));
      hide Handled, Messages;
    }
  }

  lemma InOrderNext(ss: seq<Stamp>, s: Stamp, now: Time)
    requires InOrder(ss) && forall x :: x in ss ==> x.writtenAt <= now
    requires now <= s.readAt <= s.writtenAt
    ensures InOrder(ss + [s])
  {
  }

  lemma HandledByNow(w: World)
    requires Inv(w)
    ensures forall s :: s in Handled(Messages(w.log, w.communityId)) ==> s.writtenAt <= w.now
  {
    HandledAreLogged(w.log, w.communityId);
    hide Handled, Messages, PeriodsOf, InOrder;
    forall e | e in w.log ensures e.at.writtenAt <= w.now {
      var k :| 0 <= k < |w.log| && w.log[k] == e;
      assert EntryOk(w, k);
    }
  }

  /** During a ban, the moment is inside one of the user's periods. */
  lemma BannedInPeriod(w: World, u: UserId)
    requires Inv(w) && Banned(w, u)
    ensures CoversAny(PeriodsOf(w, u), w.now)
  {
    HandledByNow(w);
    hide Inv, EntryOk;
    BannedIffInPeriod(Messages(w.log, w.communityId), w.communityId, w.forTime, u, w.now);
  }

  lemma EchoStays(w: World, w': World, p: Publication)
    requires EchoOk(w, p) && PeriodsOf(w, p.user) <= PeriodsOf(w', p.user)
    ensures EchoOk(w', p)
  {
    hide PeriodsOf;
    if !p.offence {
      var i :| 0 <= i < |PeriodsOf(w, p.user)| && PeriodsOf(w, p.user)[i].Covers(p.at);
      assert PeriodsOf(w', p.user)[i] == PeriodsOf(w, p.user)[i];
    }
  }

  lemma EntryStays(w: World, w': World, k: nat)
    requires k < |w.log| && EntryOk(w, k) && w.log <= w'.log && w.now <= w'.now
    requires w'.communityId == w.communityId && w'.forTime == w.forTime
    ensures EntryOk(w', k)
  {
    hide PeriodsOf;
    assert w'.log[..k] == w.log[..k];
    SamePeriods(Before(w, k), Before(w', k), w.log[k].publication.user);
  }

  lemma EventKeepsInv(w: World, s: Step)
    requires Inv(w) && s.Event?
    ensures Inv(Next(w, s))
  {
    if Banned(w, s.user) {
      BannedInPeriod(w, s.user);
    }
    hide Banned, PeriodsOf, Messages, Handled, InOrder;
    var w' := Next(w, s);
    forall k | 0 <= k < |w.log| ensures EntryOk(w', k) {
      EntryStays(w, w', k);
    }
    forall p | p in w'.bus ensures p.at <= w.now && EchoOk(w', p) {
      SamePeriods(w, w', p.user);
    }
  }

  lemma HandleKeepsOrder(w: World, e: Entry)
    requires Inv(w) && w.now <= e.at.readAt <= e.at.writtenAt
    ensures InOrder(Handled(Messages(w.log + [e], w.communityId)))
  {
    MessagesNext(w.log, e, w.communityId);
    HandledNext(Messages(w.log, w.communityId), Ban(w.communityId, e.publication.user, e.at));
    HandledByNow(w);
    InOrderNext(Handled(Messages(w.log, w.communityId)), e.at, w.now);
    hide Handled, InOrder, Messages, EntryOk, EchoOk;
  }

  lemma HandleKeepsEntries(w: World, k: nat, at: Stamp)
    requires Inv(w) && k < |w.bus| && w.now <= at.readAt <= at.writtenAt
    ensures var w' := Next(w, Handle(k, at));
      forall i :: 0 <= i < |w'.log| ==> EntryOk(w', i)
  {
    hide Handled, InOrder, Messages, PeriodsOf, EchoOk;
    var w' := Next(w, Handle(k, at));
    forall i | 0 <= i < |w'.log| ensures EntryOk(w', i) {
      if i < |w.log| {
        EntryStays(w, w', i);
      } else {
        assert w'.log[..i] == w.log;
        SameEchoes(w, Before(w', i), w.bus[k]);
      }
    }
  }

  lemma HandleKeepsBus(w: World, k: nat, at: Stamp)
    requires Inv(w) && k < |w.bus| && w.now <= at.readAt <= at.writtenAt
    ensures var w' := Next(w, Handle(k, at));
      forall p :: p in w'.bus ==> p.at <= w'.now && EchoOk(w', p)
  {
    hide Handled, InOrder, Messages, PeriodsOf, EntryOk;
    var e, w' := Entry(w.bus[k], at), Next(w, Handle(k, at));
    forall p | p in w'.bus ensures p.at <= w'.now && EchoOk(w', p) {
      assert p in w.bus;
      PeriodsGrow(w, e, p.user);
      SamePeriods(w.(log := w.log + [e]), w', p.user);
      EchoStays(w, w', p);
    }
  }

  lemma HandleKeepsInv(w: World, k: nat, at: Stamp)
    requires Inv(w) && k < |w.bus| && w.now <= at.readAt <= at.writtenAt
    ensures Inv(Next(w, Handle(k, at)))
  {
    HandleKeepsOrder(w, Entry(w.bus[k], at));
    HandleKeepsEntries(w, k, at);
    HandleKeepsBus(w, k, at);
    hide Handled, InOrder, Messages, EntryOk, EchoOk, Remove;
  }

  lemma SameEchoes(a: World, b: World, p: Publication)
    requires a.log == b.log && a.communityId == b.communityId && a.forTime == b.forTime
    ensures EchoOk(a, p) == EchoOk(b, p)
  {
    SamePeriods(a, b, p.user);
    hide PeriodsOf;
  }

  lemma SamePeriods(a: World, b: World, u: UserId)
    requires a.log == b.log && a.communityId == b.communityId && a.forTime == b.forTime
    ensures PeriodsOf(a, u) == PeriodsOf(b, u)
  {
  }

  lemma {:induction false} EveryRunKeepsInv(w: World, steps: seq<Step>)
    requires Inv(w)
    ensures Inv(Run(w, steps))
  {
    hide Inv, Next;
    if steps != [] {
      var front, s := steps[..|steps| - 1], steps[|steps| - 1];
      EveryRunKeepsInv(w, front);
      StepKeepsInv(Run(w, front), s);
    }
  }

  lemma StepKeepsInv(w: World, s: Step)
    requires Inv(w)
    ensures Inv(Next(w, s))
  {
    match s {
      case Tick(now) =>
        if now >= w.now {
          TickKeepsInv(w, now);
        }
      case Event(_, _, _, _) => EventKeepsInv(w, s);
      case Handle(k, at) =>
        if k < |w.bus| && w.now <= at.readAt <= at.writtenAt {
          HandleKeepsInv(w, k, at);
        }
    }
  }

  lemma TickKeepsInv(w: World, now: Time)
    requires Inv(w) && now >= w.now
    ensures Inv(w.(now := now))
  {
    hide PeriodsOf;
    var w' := w.(now := now);
    forall k | 0 <= k < |w.log| ensures EntryOk(w', k) {
      EntryStays(w, w', k);
    }
    forall p | p in w.bus ensures EchoOk(w', p) {
      SamePeriods(w, w', p.user);
    }
  }

  // ---------- When a ban ends ----------

  /** A message about the user was handled later than a given time. */
  ghost predicate HandledAfter(w: World, u: UserId, t: Time) {
    exists e :: e in w.log && e.publication.user == u && e.at.readAt > t
  }

  lemma {:induction false} AboutAreEntries(log: seq<Entry>, communityId: string, u: UserId)
    ensures forall s ::
      (s in About(Messages(log, communityId), communityId, u)
       <==> exists e :: e in log && e.publication.user == u && e.at == s)
  {
    if log != [] {
      var front, e := log[..|log| - 1], log[|log| - 1];
      assert log == front + [e];
      AboutAreEntries(front, communityId, u);
      MessagesNext(front, e, communityId);
      AboutNext(Messages(front, communityId), Ban(communityId, e.publication.user, e.at), communityId, u);
      hide About, Messages;
    }
  }

  /** A period is the last exactly if no message was received after its end. */
  lemma LastPeriodExactly(ss: seq<Stamp>, forTime: Time, i: nat)
    requires InOrder(ss) && forTime >= 0 && i < |Periods(ss, forTime)|
    ensures var ps := Periods(ss, forTime);
      i == |ps| - 1 <==> forall s :: s in ss ==> s.readAt <= ps[i].to
  {
    var ps := Periods(ss, forTime);
    PeriodsAreDisjoint(ss, forTime);
    hide Periods;
    if i == |ps| - 1 {
      forall s | s in ss ensures s.readAt <= ps[i].to {
        var k :| 0 <= k < |ss| && ss[k] == s;
        MessagesAreAccounted(ss, forTime, k);
        var m :| 0 <= m < |ps| && (ps[m].from == s.writtenAt || ps[m].Covers(s.readAt));
        assert s.readAt <= ps[m].to;
        assert m < i ==> ps[m].to < ps[i].from;
      }
    } else {
      PeriodsStartAtMessages(ss, forTime, i + 1);
    }
  }

  /**
   * A ban ends when its time is up exactly if no message about its user is handled after that: then it is the last,
   * and the user is let through. Otherwise another ban follows.
   */
  lemma BanEndsExactly(w: World, u: UserId, i: nat)
    requires Inv(w) && i < |PeriodsOf(w, u)|
    ensures var ps := PeriodsOf(w, u);
      && (i == |ps| - 1 <==> !HandledAfter(w, u, ps[i].to))
      && (!HandledAfter(w, u, ps[i].to) && w.now > ps[i].to ==> !Banned(w, u))
      && (HandledAfter(w, u, ps[i].to) ==> i + 1 < |ps| && ps[i].to < ps[i + 1].from)
  {
    var ms := Messages(w.log, w.communityId);
    var ss := About(ms, w.communityId, u);
    AboutAreHandled(ms, w.communityId, u);
    AboutAreEntries(w.log, w.communityId, u);
    LastPeriodExactly(ss, w.forTime, i);
    PeriodsAreDisjoint(ss, w.forTime);
    CacheHoldsLastPeriod(ms, w.communityId, w.forTime, u);
    hide About, Messages, Periods, Heard, Handled, InOrder;
  }

  // ---------- What keeps a ban alive ----------

  lemma NoPeriodsAtFirst(w: World, u: UserId)
    ensures w.log == [] ==> PeriodsOf(w, u) == []
  {
  }

  lemma FrontInOrder(w: World, k: nat)
    requires |w.log| == k + 1 && InOrder(Handled(Messages(w.log, w.communityId)))
    ensures InOrder(Handled(Messages(w.log[..k], w.communityId)))
    ensures forall s :: s in Handled(Messages(w.log[..k], w.communityId)) ==> s.writtenAt <= w.log[k].at.readAt
  {
    var e := w.log[k];
    assert w.log == w.log[..k] + [e];
    MessagesNext(w.log[..k], e, w.communityId);
    HandledNext(Messages(w.log[..k], w.communityId), Ban(w.communityId, e.publication.user, e.at));
    OrderedNext(Handled(Messages(w.log[..k], w.communityId)), e.at);
  }

  lemma LatestEnd(w: World, u: UserId)
    requires w.forTime >= 0 && InOrder(Handled(Messages(w.log, w.communityId)))
    ensures var ps := PeriodsOf(w, u);
      forall i :: 0 <= i < |ps| ==> ps[i].to <= ps[|ps| - 1].to
  {
    var ms := Messages(w.log, w.communityId);
    AboutAreHandled(ms, w.communityId, u);
    PeriodsAreDisjoint(About(ms, w.communityId, u), w.forTime);
    hide Messages, Handled, InOrder, About, Periods;
  }

  /** The newest message begins a ban only if it was received after all the others. */
  ghost predicate Begins(w: World, u: UserId, e: Entry, ps: seq<Period>) {
    && e.publication.user == u && PeriodsOf(w, u) == ps + [Period(e.at.writtenAt, e.at.writtenAt + w.forTime)]
    && forall i :: 0 <= i < |ps| ==> ps[i].to < e.at.readAt
  }

  lemma NextPeriodsCases(ps: seq<Period>, s: Stamp, forTime: Time)
    requires forall i :: 0 <= i < |ps| ==> ps[i].to <= ps[|ps| - 1].to
    ensures NextPeriods(ps, s, forTime) == ps
      || (&& NextPeriods(ps, s, forTime) == ps + [Period(s.writtenAt, s.writtenAt + forTime)]
          && forall i :: 0 <= i < |ps| ==> ps[i].to < s.readAt)
  {
  }

  lemma EntryBegins(w: World, e: Entry, u: UserId)
    requires w.forTime >= 0 && InOrder(Handled(Messages(w.log, w.communityId)))
    ensures var w', ps := w.(log := w.log + [e]), PeriodsOf(w, u);
      PeriodsOf(w', u) == ps || Begins(w', u, e, ps)
  {
    hide PeriodsOf, Messages, Handled, InOrder, NextPeriods;
    PeriodsGrow(w, e, u);
    LatestEnd(w, u);
    NextPeriodsCases(PeriodsOf(w, u), e.at, w.forTime);
  }

  lemma NewestEntry(w: World, u: UserId)
    requires w.forTime >= 0 && w.log != [] && InOrder(Handled(Messages(w.log, w.communityId)))
    ensures var k := |w.log| - 1;
      var ps := PeriodsOf(Before(w, k), u);
      PeriodsOf(w, u) == ps || Begins(w, u, w.log[k], ps)
  {
    var k := |w.log| - 1;
    FrontInOrder(w, k);
    hide PeriodsOf, Messages, Handled, InOrder, Begins;
    assert w == Before(w, k).(log := Before(w, k).log + [w.log[k]]);
    EntryBegins(Before(w, k), w.log[k], u);
  }

  /** The k-th message began the j-th ban of the user, after every earlier one. */
  ghost predicate StartedBy(w: World, u: UserId, j: nat, k: nat) {
    && k < |w.log| && w.log[k].publication.user == u
    && j < |PeriodsOf(w, u)| && w.log[k].at.writtenAt == PeriodsOf(w, u)[j].from
    && PeriodsOf(Before(w, k), u) == PeriodsOf(w, u)[..j]
    && forall i :: 0 <= i < j ==> PeriodsOf(w, u)[i].to < w.log[k].at.readAt
  }

  lemma StartedEarlier(w: World, n: nat, u: UserId, j: nat, k: nat)
    requires n <= |w.log| && StartedBy(Before(w, n), u, j, k) && PeriodsOf(Before(w, n), u) <= PeriodsOf(w, u)
    ensures StartedBy(w, u, j, k)
  {
    hide PeriodsOf;
    assert w.log[..n][..k] == w.log[..k];
    assert PeriodsOf(w, u)[..j] == PeriodsOf(Before(w, n), u)[..j];
  }

  lemma StartedLast(w: World, u: UserId, ps: seq<Period>)
    requires w.log != [] && ps == PeriodsOf(Before(w, |w.log| - 1), u) && Begins(w, u, w.log[|w.log| - 1], ps)
    ensures StartedBy(w, u, |ps|, |w.log| - 1)
  {
    hide PeriodsOf;
    assert PeriodsOf(w, u)[..|ps|] == ps;
  }

  lemma {:induction false} StartOf(w: World, u: UserId, j: nat) returns (k: nat)
    requires w.forTime >= 0 && InOrder(Handled(Messages(w.log, w.communityId))) && j < |PeriodsOf(w, u)|
    ensures StartedBy(w, u, j, k)
    decreases |w.log|
  {
    hide StartedBy;
    NoPeriodsAtFirst(w, u);
    NewestEntry(w, u);
    k := |w.log| - 1;
    FrontInOrder(w, k);
    hide Messages, Handled, InOrder, PeriodsOf;
    var front, n := Before(w, k), k;
    if j < |PeriodsOf(front, u)| {
      k := StartOf(front, u, j);
      StartedEarlier(w, n, u, j, k);
    } else {
      StartedLast(w, u, PeriodsOf(front, u));
    }
  }

  /** A ban begins with an offence, or with the late echo of an earlier ban. */
  ghost predicate Cause(w: World, u: UserId, j: nat, e: Entry)
    requires j < |PeriodsOf(w, u)|
  {
    var ps := PeriodsOf(w, u);
    && e in w.log && e.publication.user == u && e.at.writtenAt == ps[j].from
    && (e.publication.offence
        || exists i :: 0 <= i < j && ps[i].Covers(e.publication.at) && ps[i].to < e.at.readAt)
  }

  lemma EveryBanHasACause(w: World, u: UserId, j: nat)
    requires Inv(w) && j < |PeriodsOf(w, u)|
    ensures exists e :: Cause(w, u, j, e)
  {
    var k := StartOf(w, u, j);
    var ps, e := PeriodsOf(w, u), w.log[k];
    assert EntryOk(w, k);
    hide PeriodsOf;
    if !e.publication.offence {
      var i :| 0 <= i < j && ps[..j][i].Covers(e.publication.at);
      assert ps[i].Covers(e.publication.at);
    }
    assert Cause(w, u, j, e);
  }

  lemma {:induction false} PrefixInOrder(w: World, n: nat)
    requires n <= |w.log| && InOrder(Handled(Messages(w.log, w.communityId)))
    ensures InOrder(Handled(Messages(w.log[..n], w.communityId)))
    decreases |w.log|
  {
    hide Messages, Handled, InOrder;
    if n == |w.log| {
      assert w.log[..n] == w.log;
    } else {
      var k := |w.log| - 1;
      FrontInOrder(w, k);
      PrefixInOrder(Before(w, k), n);
      assert w.log[..k][..n] == w.log[..n];
    }
  }

  /** Bans are never taken back. */
  lemma {:induction false} PeriodsStay(w: World, n: nat, u: UserId)
    requires n <= |w.log|
    ensures PeriodsOf(Before(w, n), u) <= PeriodsOf(w, u)
    decreases |w.log|
  {
    hide PeriodsOf;
    if n == |w.log| {
      assert Before(w, n) == w;
    } else {
      var k := |w.log| - 1;
      PeriodsStay(Before(w, k), n, u);
      assert Before(Before(w, k), n) == Before(w, n);
      assert Before(w, k).(log := Before(w, k).log + [w.log[k]]) == w;
      PeriodsGrow(Before(w, k), w.log[k], u);
    }
  }

  lemma LastBegan(w: World, u: UserId, t: Time)
    requires w.forTime >= 0 && InOrder(Handled(Messages(w.log, w.communityId)))
    requires forall s :: s in Handled(Messages(w.log, w.communityId)) ==> s.writtenAt <= t
    ensures PeriodsOf(w, u) != [] ==> PeriodsOf(w, u)[|PeriodsOf(w, u)| - 1].from <= t
  {
    var ms := Messages(w.log, w.communityId);
    var ss := About(ms, w.communityId, u);
    AboutAreHandled(ms, w.communityId, u);
    PeriodsAreDisjoint(ss, w.forTime);
    hide Messages, Handled, InOrder, About, Periods;
    assert ss != [] ==> ss[|ss| - 1] in ss;
  }

  /** The newest message, if it is received outside every ban, begins one. */
  lemma NewestBegins(w: World, u: UserId)
    requires w.forTime >= 0 && w.log != [] && InOrder(Handled(Messages(w.log, w.communityId)))
    requires w.log[|w.log| - 1].publication.user == u
    requires !CoversAny(PeriodsOf(Before(w, |w.log| - 1), u), w.log[|w.log| - 1].at.readAt)
    ensures StartedBy(w, u, |PeriodsOf(Before(w, |w.log| - 1), u)|, |w.log| - 1)
  {
    hide PeriodsOf, Messages, Handled, InOrder, StartedBy;
    var k := |w.log| - 1;
    var front, e := Before(w, k), w.log[k];
    var ps := PeriodsOf(front, u);
    FrontInOrder(w, k);
    LastBegan(front, u, e.at.readAt);
    assert ps != [] ==> !ps[|ps| - 1].Covers(e.at.readAt);
    assert w == front.(log := front.log + [e]);
    PeriodsGrow(front, e, u);
    NewestEntry(w, u);
    StartedLast(w, u, ps);
  }

  /** A message begins a ban exactly if it is received while its user is not banned. */
  lemma BeginsExactly(w: World, u: UserId, k: nat)
    requires Inv(w) && k < |w.log| && w.log[k].publication.user == u
    ensures (exists j :: StartedBy(w, u, j, k)) <==> !CoversAny(PeriodsOf(Before(w, k), u), w.log[k].at.readAt)
  {
    hide PeriodsOf, Messages, Handled, InOrder, EntryOk, EchoOk;
    var ps, e := PeriodsOf(Before(w, k), u), w.log[k];
    if !CoversAny(ps, e.at.readAt) {
      var upTo := Before(w, k + 1);
      PrefixInOrder(w, k + 1);
      assert Before(upTo, k) == Before(w, k);
      NewestBegins(upTo, u);
      PeriodsStay(w, k + 1, u);
      StartedEarlier(w, k + 1, u, |ps|, k);
    }
  }

  /** Resending has caused no ban: each was begun by the message of an offence. */
  ghost predicate OnlyOffencesBan(w: World, u: UserId) {
    forall j: nat, k: nat :: StartedBy(w, u, j, k) ==> w.log[k].publication.offence
  }

  /** Each echo was received while its user was banned, so that the listener ignored it. */
  ghost predicate EchoesFindBan(w: World, u: UserId) {
    forall k: nat :: k < |w.log| && w.log[k].publication.user == u && !w.log[k].publication.offence ==>
      CoversAny(PeriodsOf(Before(w, k), u), w.log[k].at.readAt)
  }

  /** Resending during a ban causes no further ban exactly if each echo is received while its user is banned. */
  lemma ResendingIsHarmlessExactly(w: World, u: UserId)
    requires Inv(w)
    ensures OnlyOffencesBan(w, u) <==> EchoesFindBan(w, u)
  {
    forall k: nat | k < |w.log| && w.log[k].publication.user == u
      ensures (exists j :: StartedBy(w, u, j, k)) <==> !CoversAny(PeriodsOf(Before(w, k), u), w.log[k].at.readAt)
    {
      BeginsExactly(w, u, k);
    }
    hide Inv, PeriodsOf, CoversAny;
    forall j: nat, k: nat | StartedBy(w, u, j, k) ensures k < |w.log| && w.log[k].publication.user == u {
    }
    hide StartedBy;
  }

  /** Every echo of the user's bans is handled before the ban it was published in ends. */
  ghost predicate EchoesArePrompt(w: World, u: UserId) {
    forall e, i :: e in w.log && e.publication.user == u && !e.publication.offence
      && 0 <= i < |PeriodsOf(w, u)| && PeriodsOf(w, u)[i].Covers(e.publication.at)
      ==> e.at.readAt <= PeriodsOf(w, u)[i].to
  }

  /** In particular, prompt echoes do no harm: every ban takes an offence of its own. */
  lemma PromptEchoesCauseNoBans(w: World, u: UserId)
    requires Inv(w) && EchoesArePrompt(w, u)
    ensures OnlyOffencesBan(w, u)
  {
    ResendingIsHarmlessExactly(w, u);
    hide PeriodsOf, Messages, Handled, InOrder, OnlyOffencesBan;
    forall k: nat | k < |w.log| && w.log[k].publication.user == u && !w.log[k].publication.offence
      ensures CoversAny(PeriodsOf(Before(w, k), u), w.log[k].at.readAt)
    {
      assert EntryOk(w, k);
      var e, ps := w.log[k], PeriodsOf(Before(w, k), u);
      var i :| 0 <= i < |ps| && ps[i].Covers(e.publication.at);
      PeriodsStay(w, k, u);
      assert ps[i] == PeriodsOf(w, u)[i];
      assert ps[i].Covers(e.at.readAt);
    }
  }

  // ---------- A ban that never ends ----------

  /** The end of the n-th ban, when each begins a moment after the one before. */
  function EndOf(forTime: nat, n: nat): nat {
    if n == 0 then forTime else EndOf(forTime, n - 1) + 1 + forTime
  }

  /** One offence; then an innocent event in the last moment of each ban, whose echo is handled a moment later. */
  function Resending(u: UserId, forTime: nat, n: nat): seq<Step> {
    if n == 0 then [Event(u, Neutral, true, true), Handle(0, Stamp(0, 0))]
    else
      var end := EndOf(forTime, n - 1);
      Resending(u, forTime, n - 1)
      + [Tick(end), Event(u, Neutral, false, true), Handle(0, Stamp(end + 1, end + 1))]
  }

  /** The user is in ban number n, and only the first was for an offence. */
  ghost predicate BannedAgain(w: World, u: UserId, n: nat) {
    && w.forTime >= 0 && w.bus == [] && |w.log| == n + 1
    && (forall k :: 0 <= k <= n ==> w.log[k].publication.user == u && (w.log[k].publication.offence <==> k == 0))
    && |PeriodsOf(w, u)| == n + 1 && PeriodsOf(w, u)[n].to == EndOf(w.forTime, n)
    && w.now <= EndOf(w.forTime, n)
  }

  /** Handling the only message on the bus. */
  lemma HandleOnly(w: World, p: Publication, at: Stamp)
    requires w.bus == [p] && w.now <= at.readAt <= at.writtenAt
    ensures var w' := Next(w, Handle(0, at));
      && w' == w.(now := at.writtenAt, log := w.log + [Entry(p, at)], bus := [])
      && PeriodsOf(w', p.user) == NextPeriods(PeriodsOf(w, p.user), at, w.forTime)
  {
    PeriodsGrow(w, Entry(p, at), p.user);
    SamePeriods(w.(log := w.log + [Entry(p, at)]), Next(w, Handle(0, at)), p.user);
    hide PeriodsOf;
    assert Remove(w.bus, 0) == [];
  }

  lemma FirstBan(communityId: string, u: UserId, forTime: nat)
    ensures var w := Start(communityId, forTime, 0);
      BannedAgain(Next(Next(w, Event(u, Neutral, true, true)), Handle(0, Stamp(0, 0))), u, 0)
  {
    var w := Start(communityId, forTime, 0);
    NoPeriodsAtFirst(w, u);
    FirstOffence(w, u);
    hide PeriodsOf, Next;
    var w1 := w.(bus := [Publication(u, true, 0)]);
    SamePeriods(w, w1, u);
    HandleOnly(w1, Publication(u, true, 0), Stamp(0, 0));
  }

  lemma FirstOffence(w: World, u: UserId)
    requires w.log == [] && w.bus == []
    ensures Next(w, Event(u, Neutral, true, true)) == w.(bus := [Publication(u, true, w.now)])
  {
    assert !Banned(w, u) by {
      assert Messages(w.log, w.communityId) == [];
    }
    hide Banned;
  }

  /** At the end of the ban, an innocent event is flagged, and echoed. */
  lemma LastMoment(w: World, u: UserId, n: nat)
    requires BannedAgain(w, u, n)
    ensures var end := EndOf(w.forTime, n);
      Next(Next(w, Tick(end)), Event(u, Neutral, false, true))
      == w.(now := end, bus := [Publication(u, false, end)])
  {
    hide Banned, PeriodsOf, Messages;
    var end := EndOf(w.forTime, n);
    BannedToTheEnd(w, u, end);
  }

  lemma BannedToTheEnd(w: World, u: UserId, end: Time)
    requires var ps := PeriodsOf(w, u); ps != [] && ps[|ps| - 1].to == end
    ensures Banned(w.(now := end), u)
  {
    hide Heard, About, Periods, Messages;
    CacheHoldsLastPeriod(Messages(w.log, w.communityId), w.communityId, w.forTime, u);
  }

  lemma NextBan(w: World, u: UserId, n: nat)
    requires BannedAgain(w, u, n)
    ensures var end := EndOf(w.forTime, n);
      BannedAgain(
        Next(Next(Next(w, Tick(end)), Event(u, Neutral, false, true)), Handle(0, Stamp(end + 1, end + 1))), u, n + 1)
  {
    hide PeriodsOf, Banned;
    LastMoment(w, u, n);
    var end := EndOf(w.forTime, n);
    var w' := w.(now := end, bus := [Publication(u, false, end)]);
    SamePeriods(w, w', u);
    HandleOnly(w', Publication(u, false, end), Stamp(end + 1, end + 1));
    hide Next;
  }

  /** So a user can be banned any number of times for one offence. */
  lemma {:induction false} OneOffenceManyBans(communityId: string, u: UserId, forTime: nat, n: nat)
    ensures BannedAgain(Run(Start(communityId, forTime, 0), Resending(u, forTime, n)), u, n)
    ensures Run(Start(communityId, forTime, 0), Resending(u, forTime, n)).forTime == forTime
  {
    hide Next, BannedAgain;
    var w := Start(communityId, forTime, 0);
    if n == 0 {
      FirstBan(communityId, u, forTime);
      var s := Resending(u, forTime, 0);
      assert s[..1] == [s[0]] && s[..1][..0] == [];
      assert Run(w, s[..1]) == Next(Run(w, []), s[0]);
    } else {
      OneOffenceManyBans(communityId, u, forTime, n - 1);
      var before, end := Run(w, Resending(u, forTime, n - 1)), EndOf(forTime, n - 1);
      NextBan(before, u, n - 1);
      var handle := Handle(0, Stamp(end + 1, end + 1));
      var past := Resending(u, forTime, n - 1);
      RunNext(w, past, Tick(end));
      RunNext(w, past + [Tick(end)], Event(u, Neutral, false, true));
      RunNext(w, past + [Tick(end)] + [Event(u, Neutral, false, true)], handle);
      assert Resending(u, forTime, n) == past + [Tick(end)] + [Event(u, Neutral, false, true)] + [handle];
      hide Run, Resending;
    }
    ForTimeStays(w, Resending(u, forTime, n));
  }

  lemma {:induction false} ForTimeStays(w: World, steps: seq<Step>)
    ensures Run(w, steps).forTime == w.forTime
  {
    if steps != [] {
      ForTimeStays(w, steps[..|steps| - 1]);
    }
  }
}
