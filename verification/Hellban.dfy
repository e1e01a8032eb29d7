/**
 * filter/filter_hellban.go: the prefilter's listener, its cache of hellbanned users, and the check in both modes.
 * The TTL cache is a map from user to expiry time; an entry is gone once the clock is past its expiry.
 */
module Hellban {
  import opened Basics
  import opened Harms

  type UserId = string

  /** When the listener handled a message: it read the cache, and then perhaps wrote it. */
  datatype Stamp = Stamp(readAt: Time, writtenAt: Time)

  /** What the listener takes off its channel; a hellban is decoded to its community and user. */
  datatype Message =
    | Closing
    | Empty(stillOpen: bool)
    | Ban(communityId: string, userId: UserId, at: Stamp)

  /** A stretch of time during which a user is hellbanned, both ends included. */
  datatype Period = Period(from: Time, to: Time) {
    predicate Covers(t: Time) {
      from <= t <= to
    }
  }

  predicate Cached(cache: map<UserId, Time>, u: UserId, now: Time) {
    u in cache && now <= cache[u]
  }

  // ---------- The code ----------

  class HellbanFilter {
    const communityId: string
    const forTime: Time
    const isPrefilter: bool
    var userIdsCache: map<UserId, Time>
    /** Messages this filter has published on the hellban topic. */
    var published: seq<(string, UserId)>

    constructor (communityId: string, forTime: Time, isPrefilter: bool)
      ensures this.communityId == communityId && this.forTime == forTime && this.isPrefilter == isPrefilter
      ensures userIdsCache == map[] && published == []
    {
      this.communityId, this.forTime, this.isPrefilter := communityId, forTime, isPrefilter;
      userIdsCache, published := map[], [];
    }

    /** The listener loop, until the channel closes. */
    method Listen(channel: seq<Message>)
      modifies `userIdsCache
      ensures userIdsCache == Heard(old(userIdsCache), Received(channel), communityId, forTime)
    {
      var keepLoop, i := true, 0;
      ghost var open := Received(channel);
      while keepLoop && i < |channel|
        invariant 0 <= i <= |channel|
        invariant keepLoop ==> i <= |open| && channel[..i] == open[..i]
        invariant keepLoop ==> userIdsCache == Heard(old(userIdsCache), channel[..i], communityId, forTime)
        invariant !keepLoop ==> userIdsCache == Heard(old(userIdsCache), open, communityId, forTime)
      {
        var message := channel[i];
        ReceivedNext(channel, i);
        assert channel[..i + 1][..i] == channel[..i];
        i := i + 1;
        match message {
          case Closing =>
            keepLoop := false;
          case Empty(stillOpen) =>
            keepLoop := stillOpen;
          case Ban(community, user, at) =>
            if community == communityId {
              if !Cached(userIdsCache, user, at.readAt) {
                userIdsCache := userIdsCache[user := at.writtenAt + forTime];
              }
            }
        }
      }
      if keepLoop {
        assert |Received(channel)| <= |channel|;
        assert channel[..i] == channel;
      }
    }

    /** CheckEvent; as a prefilter it looks the sender up, as a postfilter it publishes a hellban for it. */
    method CheckEvent(sender: UserId, now: Time, publishOk: bool) returns (r: Result<Info>)
      modifies `published
      ensures isPrefilter ==>
        && published == old(published)
        && r == Ok(if Cached(userIdsCache, sender, now) then ProhibitedInfo([SPAM_FLOODING]) else NEUTRAL)
      ensures !isPrefilter ==>
        && (r.Ok? <==> publishOk) && (r.Ok? ==> r.value == ProhibitedInfo([SPAM_FLOODING]))
        && published == old(published)
           + if publishOk then [(if communityId == "" then "default" else communityId, sender)] else []
    {
      if isPrefilter {
        if Cached(userIdsCache, sender, now) {
          return Ok(ProhibitedInfo([SPAM_FLOODING]));
        }
        return Ok(NEUTRAL);
      }
      if !publishOk {
        return Err;
      }
      published := published + [(if communityId == "" then "default" else communityId, sender)];
      r := Ok(ProhibitedInfo([SPAM_FLOODING]));
    }
  }

  /** The messages before the channel closes. */
  function Received(channel: seq<Message>): (r: seq<Message>)
    ensures |r| <= |channel| && r == channel[..|r|]
  {
    if channel == [] || channel[0].Closing? || channel[0] == Empty(false) then []
    else
      var rest := Received(channel[1..]);
      [channel[0]] + rest
  }

  lemma {:induction false} ReceivedNext(channel: seq<Message>, i: nat)
    requires i < |channel| && i <= |Received(channel)|
    ensures |Received(channel)| == i <==> channel[i].Closing? || channel[i] == Empty(false)
  {
    if i > 0 && |Received(channel)| > 0 {
      ReceivedNext(channel[1..], i - 1);
    }
  }

  /** The cache after the listener has handled some messages. */
  function Heard(cache: map<UserId, Time>, ms: seq<Message>, communityId: string, forTime: Time): map<UserId, Time> {
    if ms == [] then cache
    else
      var c, m := Heard(cache, ms[..|ms| - 1], communityId, forTime), ms[|ms| - 1];
      if m.Ban? && m.communityId == communityId && !Cached(c, m.userId, m.at.readAt)
      then c[m.userId := m.at.writtenAt + forTime] else c
  }

  // ---------- What it means ----------

  /** When the messages that concern a user of this community were handled. */
  function About(ms: seq<Message>, communityId: string, u: UserId): seq<Stamp> {
    if ms == [] then []
    else
      var m := ms[|ms| - 1];
      About(ms[..|ms| - 1], communityId, u)
      + if m.Ban? && m.communityId == communityId && m.userId == u then [m.at] else []
  }

  function NextPeriods(ps: seq<Period>, s: Stamp, forTime: Time): seq<Period> {
    if ps != [] && s.readAt <= ps[|ps| - 1].to then ps else ps + [Period(s.writtenAt, s.writtenAt + forTime)]
  }

  /** A user's ban periods: a message starts one exactly when it arrives outside the last one. */
  function Periods(ss: seq<Stamp>, forTime: Time): seq<Period> {
    if ss == [] then [] else NextPeriods(Periods(ss[..|ss| - 1], forTime), ss[|ss| - 1], forTime)
  }

  lemma AtStart(communityId: string, u: UserId, forTime: Time)
    ensures Periods([], forTime) == [] && About([], communityId, u) == []
    ensures Heard(map[], [], communityId, forTime) == map[]
  {
  }

  lemma HeardNext(ms: seq<Message>, m: Message, communityId: string, forTime: Time)
    ensures Heard(map[], ms + [m], communityId, forTime)
      == var c := Heard(map[], ms, communityId, forTime);
         if m.Ban? && m.communityId == communityId && !Cached(c, m.userId, m.at.readAt)
         then c[m.userId := m.at.writtenAt + forTime] else c
  {
  }

  lemma PeriodsNext(ss: seq<Stamp>, s: Stamp, forTime: Time)
    ensures Periods(ss + [s], forTime) == NextPeriods(Periods(ss, forTime), s, forTime)
  {
  }

  /** One goroutine handles the messages, so its clock readings are in order. */
  ghost predicate InOrder(ss: seq<Stamp>) {
    && (forall i :: 0 <= i < |ss| ==> ss[i].readAt <= ss[i].writtenAt)
    && (forall i, j :: 0 <= i < j < |ss| ==> ss[i].writtenAt <= ss[j].readAt)
  }

  lemma AboutNext(ms: seq<Message>, m: Message, communityId: string, u: UserId)
    ensures About(ms + [m], communityId, u)
      == if m.Ban? && m.communityId == communityId && m.userId == u then About(ms, communityId, u) + [m.at]
         else About(ms, communityId, u)
  {
  }

  /** All hellbans the listener handled, whomever they concern. */
  function Handled(ms: seq<Message>): seq<Stamp> {
    if ms == [] then []
    else Handled(ms[..|ms| - 1]) + if ms[|ms| - 1].Ban? then [ms[|ms| - 1].at] else []
  }

  lemma HandledNext(ms: seq<Message>, m: Message)
    ensures Handled(ms + [m]) == if m.Ban? then Handled(ms) + [m.at] else Handled(ms)
  {
  }

  lemma {:induction false} AboutAreHandled(ms: seq<Message>, communityId: string, u: UserId)
    ensures forall s :: s in About(ms, communityId, u) ==> s in Handled(ms)
    ensures InOrder(Handled(ms)) ==> InOrder(About(ms, communityId, u))
  {
    if ms != [] {
      var front, m := ms[..|ms| - 1], ms[|ms| - 1];
      assert ms == front + [m];
      AboutAreHandled(front, communityId, u);
      AboutNext(front, m, communityId, u);
      HandledNext(front, m);
      hide About, Handled;
      if m.Ban? && InOrder(Handled(ms)) {
        OrderedNext(Handled(front), m.at);
      }
    }
  }

  lemma OrderedNext(ss: seq<Stamp>, s: Stamp)
    requires InOrder(ss + [s])
    ensures InOrder(ss) && s.readAt <= s.writtenAt
    ensures forall x :: x in ss ==> x.writtenAt <= s.readAt
  {
    var all := ss + [s];
    assert all[|ss|] == s;
    forall i | 0 <= i < |ss| ensures all[i] == ss[i] && ss[i].writtenAt <= s.readAt {
    }
  }

  /** Ban periods last exactly forTime and never overlap: repeats inside a period do not extend it. */
  lemma {:induction false} PeriodsAreDisjoint(ss: seq<Stamp>, forTime: Time)
    requires InOrder(ss) && forTime >= 0
    ensures var ps := Periods(ss, forTime);
      && (forall i :: 0 <= i < |ps| ==> ps[i].to == ps[i].from + forTime)
      && (forall i, j :: 0 <= i < j < |ps| ==> ps[i].to < ps[j].from)
      && (ps != [] ==> ss != [] && ps[|ps| - 1].from <= ss[|ss| - 1].writtenAt)
  {
    hide Periods, InOrder;
    if ss == [] {
      AtStart("", "", forTime);
    } else {
      var front, s := ss[..|ss| - 1], ss[|ss| - 1];
      assert ss == front + [s];
      OrderedNext(front, s);
      assert front != [] ==> front[|front| - 1] in front;
      PeriodsAreDisjoint(front, forTime);
      PeriodsNext(front, s, forTime);
    }
  }

  /** The j-th period begins at a message that was received outside every earlier period. */
  ghost predicate Started(ss: seq<Stamp>, ps: seq<Period>, j: nat) {
    j < |ps| && exists s :: s in ss && s.writtenAt == ps[j].from && forall i :: 0 <= i < j ==> ps[i].to < s.readAt
  }

  lemma {:induction false} PeriodsStartAtMessages(ss: seq<Stamp>, forTime: Time, j: nat)
    requires InOrder(ss) && forTime >= 0 && j < |Periods(ss, forTime)|
    ensures Started(ss, Periods(ss, forTime), j)
  {
    hide Periods, InOrder;
    AtStart("", "", forTime);
    var front, s := ss[..|ss| - 1], ss[|ss| - 1];
    assert ss == front + [s];
    OrderedNext(front, s);
    PeriodsAreDisjoint(front, forTime);
    PeriodsNext(front, s, forTime);
    var before := Periods(front, forTime);
    if j < |before| {
      PeriodsStartAtMessages(front, forTime, j);
    } else {
      assert s in ss;
      assert forall i :: 0 <= i < |before| - 1 ==> before[i].to < before[|before| - 1].from;
    }
  }

  /** A message either starts a period or was read inside one. */
  ghost predicate Accounted(s: Stamp, ps: seq<Period>) {
    exists i :: 0 <= i < |ps| && (ps[i].from == s.writtenAt || ps[i].Covers(s.readAt))
  }

  lemma {:induction false} MessagesAreAccounted(ss: seq<Stamp>, forTime: Time, k: nat)
    requires InOrder(ss) && forTime >= 0 && k < |ss|
    ensures Accounted(ss[k], Periods(ss, forTime))
  {
    hide Periods, InOrder;
    var front, s := ss[..|ss| - 1], ss[|ss| - 1];
    assert ss == front + [s];
    OrderedNext(front, s);
    PeriodsAreDisjoint(front, forTime);
    PeriodsNext(front, s, forTime);
    assert front != [] ==> front[|front| - 1] in front;
    var before, ps := Periods(front, forTime), Periods(ss, forTime);
    if k < |front| {
      MessagesAreAccounted(front, forTime, k);
      var i :| 0 <= i < |before| && (before[i].from == front[k].writtenAt || before[i].Covers(front[k].readAt));
      assert ps[i] == before[i];
    } else {
      assert ps[|ps| - 1].from == s.writtenAt || ps[|ps| - 1].Covers(s.readAt);
    }
  }

  /** The cached expiry is the end of the user's last period; other users and communities have no say. */
  lemma {:induction false} CacheHoldsLastPeriod(ms: seq<Message>, communityId: string, forTime: Time, u: UserId)
    ensures var cache, ps := Heard(map[], ms, communityId, forTime), Periods(About(ms, communityId, u), forTime);
      && (u in cache <==> ps != [])
      && (ps != [] ==> cache[u] == ps[|ps| - 1].to)
  {
    hide Heard, About, Periods;
    if ms == [] {
      AtStart(communityId, u, forTime);
    } else {
      var front, m := ms[..|ms| - 1], ms[|ms| - 1];
      assert ms == front + [m];
      CacheHoldsLastPeriod(front, communityId, forTime, u);
      AboutNext(front, m, communityId, u);
      if m.Ban? {
        PeriodsNext(About(front, communityId, u), m.at, forTime);
      }
      HeardNext(front, m, communityId, forTime);
    }
  }

  /** At any later moment, the prefilter flags a sender exactly when the moment is in one of its ban periods. */
  lemma BannedIffInPeriod(ms: seq<Message>, communityId: string, forTime: Time, u: UserId, now: Time)
    requires InOrder(Handled(ms)) && forTime >= 0
    requires forall s :: s in Handled(ms) ==> s.writtenAt <= now
    ensures var ps := Periods(About(ms, communityId, u), forTime);
      Cached(Heard(map[], ms, communityId, forTime), u, now) <==> exists i :: 0 <= i < |ps| && ps[i].Covers(now)
  {
    hide About, Periods, Handled, Heard, InOrder;
    CacheHoldsLastPeriod(ms, communityId, forTime, u);
    AboutAreHandled(ms, communityId, u);
    var a := About(ms, communityId, u);
    PeriodsAreDisjoint(a, forTime);
    var ps := Periods(a, forTime);
    if ps != [] {
      var n := |ps| - 1;
      assert a[|a| - 1] in a;
      assert ps[n].from <= now;
      assert now <= ps[n].to ==> ps[n].Covers(now);
      forall i | 0 <= i < |ps| && ps[i].Covers(now) ensures now <= ps[n].to {
        assert i < n ==> ps[i].to < ps[n].from;
      }
    }
  }
}
