/** filter/filter_frequency.go and filter/filter_mentions_frequency.go: rate limits over a one-minute window. */
module Limiters {
  import opened Basics
  import opened Harms
  import opened Counter
  import opened Mentions

  /** time.Second, in nanoseconds */
  const SECOND := 1_000_000_000

  /** The counters' window. */
  const WINDOW := 60 * SECOND

  /** A rate limit per second, with the rounding of floating-point results. */
  datatype Rate = Rate(limit: real, round: real -> real) {
    /** Rounding keeps the order of its arguments. */
    ghost predicate Monotone() {
      forall x, y :: x <= y ==> round(x) <= round(y)
    }

    /** `float64(n) / float64(60) > rateLimit` */
    predicate Exceeds(n: int) {
      round(round(n as real) / 60.0) > limit
    }

    /** The largest count that passes. */
    predicate IsMost(most: int) {
      !Exceeds(most) && Exceeds(most + 1)
    }
  }

  /** A filter's answer: flooding if the count exceeds the rate, and no opinion otherwise. */
  ghost predicate Judges(r: Result<Info>, exceeds: bool) {
    && r.Ok?
    && (exceeds ==> r.value.cls == Prohibited && Elements(r.value.harms) == {SPAM_FLOODING})
    && (!exceeds ==> r.value == NEUTRAL)
  }

  lemma LargerCountsExceed(rate: Rate, m: int, n: int)
    requires rate.Monotone() && m <= n && rate.Exceeds(m)
    ensures rate.Exceeds(n)
  {
    assert rate.round(m as real) / 60.0 <= rate.round(n as real) / 60.0;
  }

  /** A count passes exactly up to the largest that does. */
  lemma PassesUpToMost(rate: Rate, most: int, n: int)
    requires rate.Monotone() && rate.IsMost(most)
    ensures rate.Exceeds(n) <==> n > most
  {
    if n > most {
      LargerCountsExceed(rate, most + 1, n);
    } else if rate.Exceeds(n) {
      LargerCountsExceed(rate, n, most);
    }
  }

  /** So the answer is Neutral exactly up to the largest count that passes. */
  lemma NeutralUpToMost(rate: Rate, most: int, n: int, r: Result<Info>)
    requires rate.Monotone() && rate.IsMost(most) && Judges(r, rate.Exceeds(n))
    ensures r == Ok(NEUTRAL) <==> n <= most
  {
    PassesUpToMost(rate, most, n);
  }

  /** Without rounding, that is sixty times the limit, rounded down. */
  lemma NeutralWithoutRounding(limit: real, n: int, r: Result<Info>)
    requires Judges(r, Rate(limit, x => x).Exceeds(n))
    ensures r == Ok(NEUTRAL) <==> n <= (60.0 * limit).Floor
  {
    MostWithoutRounding(limit);
    NeutralUpToMost(Rate(limit, x => x), (60.0 * limit).Floor, n, r);
  }

  /** Without rounding, the largest count that passes is sixty times the limit, rounded down. */
  lemma MostWithoutRounding(limit: real)
    ensures Rate(limit, x => x).Monotone() && Rate(limit, x => x).IsMost((60.0 * limit).Floor)
  {
  }

  /**
   * With rounding, a limit configured as d lets sixty times d through, rounded down. That is the largest count that
   * passes exactly if the quotient of the next one does not round to the limit.
   */
  lemma MostWithRounding(d: real, rate: Rate)
    requires rate.Monotone() && rate.limit == rate.round(d)
    requires var most := (60.0 * d).Floor;
      rate.round(most as real) == most as real && rate.round((most + 1) as real) == (most + 1) as real
    ensures !rate.Exceeds((60.0 * d).Floor)
    ensures rate.IsMost((60.0 * d).Floor) <==> rate.round(((60.0 * d).Floor + 1) as real / 60.0) != rate.limit
  {
    var most := (60.0 * d).Floor;
    assert most as real / 60.0 <= d <= (most + 1) as real / 60.0;
  }

  /** Results are off by at most one part in 2^53, and by very little near zero. */
  ghost predicate Accurate(round: real -> real) {
    forall x :: -Slack(x) <= round(x) - x <= Slack(x)
  }

  function Slack(x: real): real {
    ((if x < 0.0 then -x else x) + 1.0) / 9007199254740992.0
  }

  /** In double precision, a limit that is not too close below a whole number a minute lets sixty times it through. */
  lemma MostInDoublePrecision(d: real, rate: Rate)
    requires rate.Monotone() && Accurate(rate.round) && rate.limit == rate.round(d)
    requires var most := (60.0 * d).Floor;
      rate.round(most as real) == most as real && rate.round((most + 1) as real) == (most + 1) as real
    requires var next := ((60.0 * d).Floor + 1) as real / 60.0;
      next - d > Slack(next) + Slack(d)
    ensures rate.IsMost((60.0 * d).Floor)
  {
    MostWithRounding(d, rate);
  }

  /** How both filters end: the count over the window, per second, against the limit. */
  method Judge(rate: Rate, n: int) returns (r: Result<Info>)
    ensures r.Ok? && Judges(r, rate.Exceeds(n))
  {
    var perSecond := rate.round(rate.round(n as real) / 60.0);
    if perSecond > rate.limit {
      ProhibitedElements([SPAM_FLOODING]);
      return Ok(ProhibitedInfo([SPAM_FLOODING]));
    }
    return Ok(NEUTRAL);
  }

  /**
   * InstancedFrequencyFilter.CheckEvent. Echoes and cleanups may happen between the increment and the read; `counted`
   * is what the read returned, and `at` when the increment was published.
   */
  method CheckFrequency(counter: Counter, eventTypes: seq<string>, rate: Rate, eventType: string, sender: Entity,
                        published: bool, rounds: nat)
    returns (r: Result<Info>, counted: nat, ghost at: Time)
    requires counter.Valid()
    modifies counter
    ensures counter.Valid() && old(counter.now) <= at <= counter.now
    ensures counter.Published() == old(counter.Published())
      + if eventType in eventTypes && published then multiset{Record(sender, at)} else multiset{}
    ensures eventType !in eventTypes ==> r == Ok(NEUTRAL) && counter.history == old(counter.history)
    ensures eventType in eventTypes ==> (r.Err? <==> !published)
    ensures eventType in eventTypes && published ==>
      && Judges(r, rate.Exceeds(counted + 1))
      && |Live(Of(counter.history, sender), counter.now, counter.window)| <= counted
      && counted <= |Live(Of(counter.history, sender), at, counter.window)|
  {
    hide Live, Rate.Exceeds;
    counted, at := 0, counter.now;
    var doProcess := false;
    for i := 0 to |eventTypes|
      invariant !doProcess && eventType !in eventTypes[..i]
    {
      if eventTypes[i] == eventType {
        doProcess := true;
        break;
      }
    }
    if !doProcess {
      return Ok(NEUTRAL), counted, at;
    }
    var ok := counter.Increment(sender, published);
    at := counter.now;
    if !ok {
      return Err, counted, at;
    }
    counter.Background(rounds);
    ghost var readFrom := counter.now;
    counted := counter.Get(sender);
    LiveShrinks(Of(counter.history, sender), at, readFrom, counter.window);
    r := Judge(rate, counted + 1);
  }

  function Ceil(x: real): int {
    -((-x).Floor)
  }

  /** The cap on mention counting: `int(math.Ceil((rateLimit * 60) + 1))`. */
  function MentionCap(rate: Rate): int {
    Ceil(rate.round(rate.round(rate.limit * 60.0) + 1.0))
  }

  /** Counting mentions only up to the cap gives the verdict of the full count. */
  predicate SameVerdict(rate: Rate, seen: nat, full: nat, capped: nat) {
    Truncates(capped, full, MentionCap(rate)) ==> rate.Exceeds(seen + capped) == rate.Exceeds(seen + full)
  }

  ghost predicate CapExceeds(rate: Rate) {
    rate.Monotone() && rate.Exceeds(MentionCap(rate))
  }

  lemma CapIsInvisible(rate: Rate, seen: nat, full: nat, capped: nat)
    requires CapExceeds(rate)
    ensures SameVerdict(rate, seen, full, capped)
  {
    if Truncates(capped, full, MentionCap(rate)) && full >= MentionCap(rate) {
      LargerCountsExceed(rate, MentionCap(rate), seen + capped);
      LargerCountsExceed(rate, MentionCap(rate), seen + full);
    }
  }

  /** The cap never changes a verdict exactly if a count at the cap exceeds the rate, or no count does. */
  lemma CapIsInvisibleExactly(rate: Rate)
    requires rate.Monotone()
    ensures var cap := if MentionCap(rate) < 0 then 0 else MentionCap(rate);
      (forall seen: nat, full: nat, capped: nat :: SameVerdict(rate, seen, full, capped))
      <==> rate.Exceeds(cap) || forall n: nat :: !rate.Exceeds(n)
  {
    var cap := if MentionCap(rate) < 0 then 0 else MentionCap(rate);
    if rate.Exceeds(cap) {
      forall seen: nat, full: nat, capped: nat ensures SameVerdict(rate, seen, full, capped) {
        if Truncates(capped, full, MentionCap(rate)) && full >= cap {
          LargerCountsExceed(rate, cap, seen + capped);
          LargerCountsExceed(rate, cap, seen + full);
        }
      }
    } else if n: nat :| rate.Exceeds(n) {
      if n <= cap {
        LargerCountsExceed(rate, n, cap);
      }
      assert Truncates(cap, n, MentionCap(rate));
      assert !SameVerdict(rate, 0, n, cap);
    }
  }

  /** Without rounding, the cap is the first whole number that is at least one above sixty times the limit. */
  lemma CapWithoutRounding(limit: real)
    ensures var cap := MentionCap(Rate(limit, x => x));
      (cap - 1) as real < 60.0 * limit + 1.0 <= cap as real
  {
  }

  /** At any sensible rate, double precision is accurate enough for the cap. */
  lemma CapExceedsRate(rate: Rate)
    requires Accurate(rate.round) && 0.0 <= rate.limit <= 1000000000000.0
    ensures rate.Exceeds(MentionCap(rate))
  {
    var sixty := rate.round(rate.limit * 60.0);
    assert -0.01 <= sixty - rate.limit * 60.0 <= 0.01;
    var next := rate.round(sixty + 1.0);
    assert -0.01 <= next - (sixty + 1.0) <= 0.01;
    var cap := MentionCap(rate);
    assert next <= cap as real < next + 1.0;
    var n := rate.round(cap as real);
    assert -0.01 <= n - cap as real <= 0.01;
    assert -0.01 <= rate.round(n / 60.0) - n / 60.0 <= 0.01;
  }

  function RecordsOf(sender: Entity, times: seq<Time>): multiset<Record> {
    if times == [] then multiset{}
    else RecordsOf(sender, times[..|times| - 1]) + multiset{Record(sender, times[|times| - 1])}
  }

  method PublishOne(counter: Counter, sender: Entity, published: bool, rounds: nat) returns (ok: bool)
    requires counter.Valid()
    modifies counter
    ensures counter.Valid() && old(counter.now) <= counter.now && ok == published
    ensures counter.Published()
      == if ok then old(counter.Published()) + multiset{Record(sender, counter.now)} else old(counter.Published())
  {
    counter.Background(rounds);
    ok := counter.Increment(sender, published);
  }

  /** One increment per mention, until one cannot be published; echoes may arrive meanwhile. */
  method PublishMentions(counter: Counter, sender: Entity, n: nat, failAt: int, rounds: nat)
    returns (ok: bool, ghost sent: seq<Time>)
    requires counter.Valid()
    modifies counter
    ensures counter.Valid() && old(counter.now) <= counter.now
    ensures counter.Published() == old(counter.Published()) + RecordsOf(sender, sent)
    ensures Within(sent, old(counter.now), counter.now)
    ensures ok <==> !(0 <= failAt < n)
    ensures |sent| == if ok then n else failAt
  {
    assert RecordsOf(sender, []) == multiset{};
    hide RecordsOf, Within, Counter.Valid, Counter.Published;
    sent := [];
    for i := 0 to n
      invariant counter.Valid() && old(counter.now) <= counter.now
      invariant |sent| == i && !(0 <= failAt < i)
      invariant counter.Published() == old(counter.Published()) + RecordsOf(sender, sent)
      invariant Within(sent, old(counter.now), counter.now)
    {
      ghost var latest := counter.now;
      ok := PublishOne(counter, sender, i != failAt, rounds);
      RecordsNext(old(counter.Published()), sender, sent, old(counter.now), latest, counter.now);
      if !ok {
        return;
      }
      sent := sent + [counter.now];
    }
    ok := true;
  }

  predicate Within(times: seq<Time>, from: Time, to: Time) {
    forall t :: t in times ==> from <= t <= to
  }

  /** One more record, published after the others. */
  lemma RecordsNext(
    all: multiset<Record>, sender: Entity, times: seq<Time>, from: Time, latest: Time, t: Time)
    requires from <= latest <= t && Within(times, from, latest)
    ensures Within(times, from, t) && Within(times + [t], from, t)
    ensures all + RecordsOf(sender, times + [t]) == all + RecordsOf(sender, times) + multiset{Record(sender, t)}
  {
    assert (times + [t])[..|times|] == times;
  }

  /**
   * The part after the mentions are counted: reads the window, publishes the mentions, and judges their sum. `seen` is
   * what had been delivered for the sender when the window was read.
   */
  method JudgeMentions(counter: Counter, rate: Rate, sender: Entity, mentions: nat, failAt: int, rounds: nat)
    returns (r: Result<Info>, counted: nat, ghost sent: seq<Time>, ghost seen: seq<Time>)
    requires counter.Valid()
    modifies counter
    ensures counter.Valid() && old(counter.now) <= counter.now
    ensures counter.Published() == old(counter.Published()) + RecordsOf(sender, sent)
    ensures Within(sent, old(counter.now), counter.now)
    ensures r.Err? <==> 0 <= failAt < mentions
    ensures r.Ok? ==> Judges(r, rate.Exceeds(counted + mentions)) && |sent| == mentions
    ensures Of(old(counter.history), sender) <= seen
    ensures |Live(seen, counter.now, counter.window)| <= counted <= |Live(seen, old(counter.now), counter.window)|
  {
    hide Live, Rate.Exceeds, Judges, RecordsOf, Counter.Valid;
    counter.Background(rounds);
    seen := Of(counter.history, sender);
    ghost var readFrom := counter.now;
    counted := counter.Get(sender);
    ghost var readAt := counter.now;
    LiveShrinks(seen, old(counter.now), readFrom, counter.window);
    var ok: bool;
    ok, sent := PublishMentions(counter, sender, mentions, failAt, rounds);
    LiveShrinks(seen, readAt, counter.now, counter.window);
    if !ok {
      return Err, counted, sent, seen;
    }
    r := Judge(rate, counted + mentions);
  }

  /**
   * InstancedMentionsFrequencyFilter.CheckEvent; `failAt` is the increment whose publication fails, if it is reached.
   * The verdict is that of the full mention count, although only the capped count is published, as long as the cap
   * exceeds the rate.
   */
  method CheckMentionFrequency(counter: Counter, rate: Rate, eventType: string, content: Option<Message>,
                               members: Option<Members>, minLength: int, sender: Entity, failAt: int, rounds: nat)
    returns (r: Result<Info>, counted: nat, ghost sent: seq<Time>, ghost seen: seq<Time>)
    requires counter.Valid()
    modifies counter
    ensures counter.Valid() && old(counter.now) <= counter.now
    ensures counter.Published() == old(counter.Published()) + RecordsOf(sender, sent)
    ensures Within(sent, old(counter.now), counter.now)
    ensures eventType == "m.room.message" && (content.None? || members.None?) ==> r.Err?
    ensures eventType == "m.room.message" && r.Ok? ==>
      && (CapExceeds(rate) ==>
           Judges(r, rate.Exceeds(counted + FullCount(content.value, members.value, minLength))))
      && Judges(r, rate.Exceeds(counted + |sent|))
      && Truncates(|sent|, FullCount(content.value, members.value, minLength), MentionCap(rate))
    ensures eventType != "m.room.message" ==> Judges(r, rate.Exceeds(counted)) && sent == []
    ensures r.Ok? ==>
      && Of(old(counter.history), sender) <= seen
      && |Live(seen, counter.now, counter.window)| <= counted <= |Live(seen, old(counter.now), counter.window)|
  {
    hide Rate.Exceeds, Judges, CapExceeds, Truncates, MentionCap, FullCount, Live;
    counted, sent, seen := 0, [], [];
    var mentions := CountMentionsToLimit(eventType, content, members, minLength, MentionCap(rate));
    if mentions.Err? {
      return Err, counted, sent, seen;
    }
    r, counted, sent, seen := JudgeMentions(counter, rate, sender, mentions.value, failAt, rounds);
    if eventType == "m.room.message" && CapExceeds(rate) {
      CapIsInvisible(rate, counted, FullCount(content.value, members.value, minLength), mentions.value);
    }
  }
}
