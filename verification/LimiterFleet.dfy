/**
 * frequency/counter.go, in several processes: each process makes a counter of the same name, under a topic with a
 * fresh id of its own. A record reaches every counter that is subscribed to its topic.
 */
module LimiterFleet {
  import opened Basics
  import opened Harms
  import opened Counter
  import opened Limiters
  import opened LimiterRuns

  /** `fmt.Sprintf("ctr.%s.%s", name, id)` */
  function Topic(name: string, id: string): string {
    "ctr." + name + "." + id
  }

  /** Two processes listen to the same topic exactly if their counters drew the same id. */
  lemma TopicsFollowIds(name: string, a: string, b: string)
    ensures Topic(name, a) == Topic(name, b) <==> a == b
  {
    var prefix := "ctr." + name + ".";
    assert Topic(name, a)[|prefix|..] == a && Topic(name, b)[|prefix|..] == b;
  }

  /** A step of one process, or the delivery of one process's record to another process. */
  datatype FleetStep =
    | At(p: nat, step: Step)
    | Echo(from: nat, mark: Mark, to: nat)

  ghost predicate Reaches(name: string, ids: seq<string>, ws: seq<World>, s: FleetStep) {
    && s.Echo? && s.from < |ids| && s.to < |ids| && s.from != s.to && |ws| == |ids|
    && Published(ws[s.from].log, s.mark)
    && Topic(name, ids[s.from]) == Topic(name, ids[s.to])
  }

  ghost function NextAll(name: string, ids: seq<string>, ws: seq<World>, s: FleetStep): (r: seq<World>)
    ensures |r| == |ws|
  {
    match s
    case At(p, step) => if p < |ws| then ws[p := Next(ws[p], step)] else ws
    case Echo(from, mark, to) =>
      if !Reaches(name, ids, ws, s) then ws
      else
        var e, w := ws[from].log[mark.0].sender, ws[to];
        ws[to := w.(values := w.values[e := Of(w.values, e) + [Stamp(ws[from].log, mark)]])]
  }

  /** A record crosses to another process exactly if that process listens to its topic. */
  lemma EchoCrossesExactly(name: string, ids: seq<string>, ws: seq<World>, from: nat, mark: Mark, to: nat)
    requires |ws| == |ids| && from < |ids| && to < |ids| && from != to && Published(ws[from].log, mark)
    ensures var ws', e := NextAll(name, ids, ws, Echo(from, mark, to)), ws[from].log[mark.0].sender;
      Of(ws'[to].values, e)
      == Of(ws[to].values, e) + if ids[from] == ids[to] then [ws[from].log[mark.0].stamps[mark.1]] else []
  {
    TopicsFollowIds(name, ids[from], ids[to]);
    hide Topic;
  }

  ghost function RunAll(name: string, ids: seq<string>, starts: seq<Time>, steps: seq<FleetStep>): (r: seq<World>)
    requires |starts| == |ids|
    ensures |r| == |ids|
  {
    if steps == [] then seq(|ids|, i requires 0 <= i < |ids| => Start(starts[i]))
    else NextAll(name, ids, RunAll(name, ids, starts, steps[..|steps| - 1]), steps[|steps| - 1])
  }

  /** A process's own steps. */
  function Own(steps: seq<FleetStep>, p: nat): seq<Step> {
    if steps == [] then []
    else
      var s := steps[|steps| - 1];
      Own(steps[..|steps| - 1], p) + if s.At? && s.p == p then [s.step] else []
  }

  lemma OwnNext(steps: seq<FleetStep>, s: FleetStep, p: nat)
    ensures Own(steps + [s], p) == if s.At? && s.p == p then Own(steps, p) + [s.step] else Own(steps, p)
  {
    assert (steps + [s])[..|steps|] == steps;
  }

  /** With ids of their own, the processes never see each other's records. */
  lemma {:induction false} ProcessesAreAlone(
    name: string, ids: seq<string>, starts: seq<Time>, steps: seq<FleetStep>, p: nat)
    requires Distinct(ids) && |starts| == |ids| && p < |ids|
    ensures RunAll(name, ids, starts, steps)[p] == Run(starts[p], Own(steps, p))
  {
    if steps != [] {
      var front, s := steps[..|steps| - 1], steps[|steps| - 1];
      ProcessesAreAlone(name, ids, starts, front, p);
      OwnNext(front, s, p);
      assert steps == front + [s];
      hide NextAll, Next, Run, Own;
      NextAlone(name, ids, RunAll(name, ids, starts, front), s, p);
      if s.At? {
        RunNext(starts[p], Own(front, p), s.step);
      }
    }
  }

  lemma NextAlone(name: string, ids: seq<string>, ws: seq<World>, s: FleetStep, p: nat)
    requires Distinct(ids) && |ws| == |ids| && p < |ids|
    ensures NextAll(name, ids, ws, s)[p] == if s.At? && s.p == p then Next(ws[p], s.step) else ws[p]
  {
    hide Next, Topic;
    if s.Echo? && s.from < |ids| && s.to < |ids| && s.from != s.to {
      TopicsFollowIds(name, ids[s.from], ids[s.to]);
    }
  }

  /** For each process, frequency checks of one sender that came out Neutral within less than a window, if any. */
  ghost predicate NeutralChecks(logs: seq<seq<Check>>, checks: seq<set<nat>>, sender: Entity, rate: Rate) {
    && |checks| == |logs|
    && forall p :: 0 <= p < |checks| ==> checks[p] == {} || NeutralIn(logs[p], checks[p], sender, rate)
  }

  ghost predicate NeutralIn(log: seq<Check>, checks: set<nat>, sender: Entity, rate: Rate) {
    PassedTogether(log, checks, sender, rate) && forall i :: i in checks && i < |log| ==> log[i].weight == 1
  }

  ghost function Logs(name: string, ids: seq<string>, starts: seq<Time>, steps: seq<FleetStep>): (r: seq<seq<Check>>)
    requires |starts| == |ids|
    ensures |r| == |ids|
  {
    var ws := RunAll(name, ids, starts, steps);
    seq(|ids|, p requires 0 <= p < |ids| => ws[p].log)
  }

  function Total(checks: seq<set<nat>>): nat {
    if checks == [] then 0 else Total(checks[..|checks| - 1]) + |checks[|checks| - 1]|
  }

  lemma {:induction false} TotalAtMost(checks: seq<set<nat>>, most: nat)
    requires forall p :: 0 <= p < |checks| ==> |checks[p]| <= most
    ensures Total(checks) <= |checks| * most
  {
    if checks != [] {
      TotalAtMost(checks[..|checks| - 1], most);
      assert |checks| * most == (|checks| - 1) * most + most;
    }
  }

  /** So a sender gets at most one limit's worth of Neutral verdicts from each process. */
  lemma FleetObeysLimitPerProcess(
    name: string, ids: seq<string>, starts: seq<Time>, steps: seq<FleetStep>, checks: seq<set<nat>>, sender: Entity,
    rate: Rate, most: nat)
    requires Distinct(ids) && |starts| == |ids| && rate.Monotone() && rate.IsMost(most)
    requires NeutralChecks(Logs(name, ids, starts, steps), checks, sender, rate)
    ensures Total(checks) <= |ids| * most
  {
    forall p | 0 <= p < |checks| ensures |checks[p]| <= most {
      ProcessesAreAlone(name, ids, starts, steps, p);
      hide PassedTogether;
      if checks[p] != {} {
        NeutralVerdictsObeyLimit(starts[p], Own(steps, p), checks[p], sender, rate, most);
      }
    }
    TotalAtMost(checks, most);
  }

  // ---------- A run that reaches the bound ----------

  /** n prompt events of one sender, at one moment. */
  function Burst(sender: Entity, n: nat): seq<Step> {
    if n == 0 then []
    else Burst(sender, n - 1) + [Open(sender, 1), Publish(n - 1), Read(n - 1, n - 1, NEUTRAL), Deliver((n - 1, 0))]
  }

  function BurstLog(sender: Entity, start: Time, n: nat): (log: seq<Check>)
    ensures |log| == n
  {
    seq(n, i requires 0 <= i < n => Check(sender, 1, [start], Some(Reading(start, i, true, NEUTRAL)), false))
  }

  function BurstWorld(sender: Entity, start: Time, n: nat): World {
    World(start, BurstLog(sender, start, n), seq(n, i => (i, 0)),
          if n == 0 then map[] else map[sender := seq(n, _ => start)])
  }

  lemma {:induction false} AllLive(start: Time, n: nat)
    ensures |Live(seq(n, _ => start), start, WINDOW)| == n
  {
    if n > 0 {
      AllLive(start, n - 1);
      assert seq(n, _ => start)[..n - 1] == seq(n - 1, _ => start);
    }
  }

  lemma OpenAndPublish(w: World, sender: Entity)
    ensures Next(Next(w, Open(sender, 1)), Publish(|w.log|))
      == w.(log := w.log + [Check(sender, 1, [w.now], None, false)])
  {
    var n, opening := |w.log|, Next(w, Open(sender, 1));
    assert opening.log[n].stamps + [w.now] == [w.now];
    assert opening.log[n := Check(sender, 1, [w.now], None, false)] == w.log + [Check(sender, 1, [w.now], None, false)];
  }

  lemma ReadPromptly(sender: Entity, start: Time, n: nat)
    ensures var w, c := BurstWorld(sender, start, n), Check(sender, 1, [start], None, false);
      Next(w.(log := w.log + [c]), Read(n, n, NEUTRAL)) == w.(log := BurstLog(sender, start, n + 1))
  {
    AllLive(start, n);
    hide Live;
    var w0 := BurstWorld(sender, start, n);
    var w := w0.(log := w0.log + [Check(sender, 1, [start], None, false)]);
    assert seq(0, _ => start) == [];
    assert Of(w.values, sender) == seq(n, _ => start);
    forall j, k | 0 <= j < n && 0 <= k < |w.log[j].stamps| ensures (j, k) in w.delivered {
      assert w.delivered[j] == (j, 0);
    }
    assert Prompt(w, n);
    assert Next(w, Read(n, n, NEUTRAL)).log == BurstLog(sender, start, n + 1);
  }

  lemma DeliverLast(sender: Entity, start: Time, n: nat)
    ensures Next(BurstWorld(sender, start, n).(log := BurstLog(sender, start, n + 1)), Deliver((n, 0)))
      == BurstWorld(sender, start, n + 1)
  {
    var w := BurstWorld(sender, start, n).(log := BurstLog(sender, start, n + 1));
    assert (n, 0) !in w.delivered;
    assert w.delivered + [(n, 0)] == BurstWorld(sender, start, n + 1).delivered;
    assert Of(w.values, sender) + [start] == seq(n + 1, _ => start);
  }

  lemma OneMore(sender: Entity, start: Time, n: nat)
    ensures var w := BurstWorld(sender, start, n);
      Next(Next(Next(Next(w, Open(sender, 1)), Publish(n)), Read(n, n, NEUTRAL)), Deliver((n, 0)))
      == BurstWorld(sender, start, n + 1)
  {
    OpenAndPublish(BurstWorld(sender, start, n), sender);
    ReadPromptly(sender, start, n);
    DeliverLast(sender, start, n);
    hide Next;
  }

  lemma {:induction false} BurstReaches(sender: Entity, start: Time, n: nat)
    ensures Run(start, Burst(sender, n)) == BurstWorld(sender, start, n)
  {
    hide Next;
    if n == 0 {
      assert BurstWorld(sender, start, 0) == Start(start);
    } else {
      BurstReaches(sender, start, n - 1);
      var before, opens, publishes := Burst(sender, n - 1), [Open(sender, 1)], [Publish(n - 1)];
      RunNext(start, before, Open(sender, 1));
      RunNext(start, before + opens, Publish(n - 1));
      RunNext(start, before + opens + publishes, Read(n - 1, n - 1, NEUTRAL));
      RunNext(start, before + opens + publishes + [Read(n - 1, n - 1, NEUTRAL)], Deliver((n - 1, 0)));
      assert Burst(sender, n)
        == before + opens + publishes + [Read(n - 1, n - 1, NEUTRAL)] + [Deliver((n - 1, 0))];
      hide Run, Burst;
      OneMore(sender, start, n - 1);
    }
  }

  function Lift(p: nat, steps: seq<Step>): seq<FleetStep> {
    seq(|steps|, i requires 0 <= i < |steps| => At(p, steps[i]))
  }

  /** The first k processes each see a burst. */
  function Bursts(sender: Entity, n: nat, k: nat): seq<FleetStep> {
    if k == 0 then [] else Bursts(sender, n, k - 1) + Lift(k - 1, Burst(sender, n))
  }

  lemma {:induction false} OwnOfLift(before: seq<FleetStep>, q: nat, steps: seq<Step>, p: nat)
    ensures Own(before + Lift(q, steps), p) == Own(before, p) + if p == q then steps else []
  {
    hide Own;
    if steps == [] {
      assert before + Lift(q, steps) == before;
    } else {
      var front, last := steps[..|steps| - 1], steps[|steps| - 1];
      OwnOfLift(before, q, front, p);
      OwnNext(before + Lift(q, front), At(q, last), p);
      assert before + Lift(q, steps) == before + Lift(q, front) + [At(q, last)];
      assert steps == front + [last];
    }
  }

  lemma {:induction false} OwnOfBursts(sender: Entity, n: nat, k: nat, p: nat)
    ensures Own(Bursts(sender, n, k), p) == if p < k then Burst(sender, n) else []
  {
    assert Own([], p) == [];
    hide Own, Lift, Burst;
    if k > 0 {
      OwnOfBursts(sender, n, k - 1, p);
      OwnOfLift(Bursts(sender, n, k - 1), k - 1, Burst(sender, n), p);
      assert Bursts(sender, n, k) == Bursts(sender, n, k - 1) + Lift(k - 1, Burst(sender, n));
    }
  }

  function Upto(n: nat): (r: set<nat>)
    ensures |r| == n && forall i: nat :: i in r <==> i < n
  {
    if n == 0 then {} else Upto(n - 1) + {n - 1}
  }

  lemma BurstIsNeutral(sender: Entity, start: Time, rate: Rate, most: nat)
    requires rate.Monotone() && rate.IsMost(most) && most > 0
    ensures NeutralIn(BurstLog(sender, start, most), Upto(most), sender, rate)
  {
    var log := BurstLog(sender, start, most);
    hide Rate.Exceeds, Upto;
    assert WithinWindow(log, Upto(most)) by {
      BurstIsShort(sender, start, most);
    }
    hide WithinWindow;
    assert 0 in Upto(most);
    forall i | i in Upto(most) ensures Passed(log, i, sender, rate) {
      PassesUpToMost(rate, most, i + 1);
    }
  }

  lemma BurstIsShort(sender: Entity, start: Time, n: nat)
    ensures WithinWindow(BurstLog(sender, start, n), Upto(n))
  {
  }

  lemma {:induction false} TotalOfSame(n: nat, most: nat)
    ensures Total(seq(n, _ => Upto(most))) == n * most
  {
    hide Upto;
    if n > 0 {
      TotalOfSame(n - 1, most);
      assert seq(n, _ => Upto(most))[..n - 1] == seq(n - 1, _ => Upto(most));
      assert n * most == (n - 1) * most + most;
    }
  }

  /** The bound is reached: every process lets a full limit's worth through at the same moment. */
  lemma FleetReachesBound(name: string, ids: seq<string>, start: Time, sender: Entity, rate: Rate, most: nat)
    requires Distinct(ids) && rate.Monotone() && rate.IsMost(most)
    ensures var checks := seq(|ids|, _ => Upto(most));
      && NeutralChecks(Logs(name, ids, seq(|ids|, _ => start), Bursts(sender, most, |ids|)), checks, sender, rate)
      && Total(checks) == |ids| * most
  {
    var starts, steps := seq(|ids|, _ => start), Bursts(sender, most, |ids|);
    TotalOfSame(|ids|, most);
    hide Total, Bursts, Burst, RunAll, PassedTogether, Rate.Monotone, Rate.Exceeds;
    var logs := Logs(name, ids, starts, steps);
    forall p | 0 <= p < |ids| && most > 0 ensures NeutralIn(logs[p], Upto(most), sender, rate) {
      ProcessesAreAlone(name, ids, starts, steps, p);
      OwnOfBursts(sender, most, |ids|, p);
      BurstReaches(sender, start, most);
      BurstIsNeutral(sender, start, rate, most);
    }
  }

  /** One limit for the whole fleet. */
  ghost predicate SharedLimit(name: string, ids: seq<string>, sender: Entity, rate: Rate, most: nat) {
    forall starts: seq<Time>, steps, checks ::
      TakenIn(name, ids, starts, steps, checks, sender, rate) ==> Total(checks) <= most
  }

  ghost predicate TakenIn(
    name: string, ids: seq<string>, starts: seq<Time>, steps: seq<FleetStep>, checks: seq<set<nat>>, sender: Entity,
    rate: Rate)
  {
    |starts| == |ids| && NeutralChecks(Logs(name, ids, starts, steps), checks, sender, rate)
  }

  /** The limit is shared between processes exactly if there is at most one of them, or nothing is let through. */
  lemma LimitIsSharedExactly(name: string, ids: seq<string>, sender: Entity, rate: Rate, most: nat)
    requires Distinct(ids) && rate.Monotone() && rate.IsMost(most)
    ensures SharedLimit(name, ids, sender, rate, most) <==> |ids| <= 1 || most == 0
  {
    hide NeutralChecks, Rate.Monotone, Rate.IsMost, Logs, Total, Bursts, Upto, Distinct;
    if |ids| <= 1 || most == 0 {
      forall starts: seq<Time>, steps, checks | TakenIn(name, ids, starts, steps, checks, sender, rate)
        ensures Total(checks) <= most
      {
        FleetObeysLimitPerProcess(name, ids, starts, steps, checks, sender, rate, most);
        assert |ids| * most <= most;
      }
    } else {
      FleetReachesBound(name, ids, 0, sender, rate, most);
      var checks := seq(|ids|, _ => Upto(most));
      assert TakenIn(name, ids, seq(|ids|, _ => 0), Bursts(sender, most, |ids|), checks, sender, rate);
      MoreThanOne(|ids|, most);
    }
  }

  lemma MoreThanOne(n: nat, most: nat)
    requires n > 1 && most > 0
    ensures n * most > most
  {
  }
}
