/**
 * queue/pool.go over storage/psql.go: the pool's answers when its results are stored in Postgres. An event is checked
 * once, and every later answer is what the stored vectors read as.
 */
module PersistedPool {
  import opened Basics
  import opened Harms
  import opened EventCodec
  import opened Pool

  /** The harms that the keys of some harms stand for. */
  function DecodedHarms(hs: seq<Harm>): seq<Harm> {
    if hs == [] then []
    else
      var front, h := DecodedHarms(hs[..|hs| - 1]), HarmOf(KeyOf(hs[|hs| - 1]));
      if h.Some? then front + [h.value] else front
  }

  lemma {:induction false} DecodedHarmsAre(hs: seq<Harm>)
    ensures Elements(DecodedHarms(hs)) == Decoded(set h | h in hs :: KeyOf(h))
  {
    if hs != [] {
      var front, last := hs[..|hs| - 1], hs[|hs| - 1];
      assert hs == front + [last];
      DecodedHarmsAre(front);
      DecodedNext(set h | h in front :: KeyOf(h), KeyOf(last));
      assert (set h | h in hs :: KeyOf(h)) == (set h | h in front :: KeyOf(h)) + {KeyOf(last)};
    }
  }

  /** How a verdict reads once UpsertEventResult has written it. */
  function Reread(info: BuiltInfo): BuiltInfo {
    ProhibitedInfo(DecodedHarms(info.harms))
  }

  lemma RereadIsRead(info: BuiltInfo)
    ensures ReadsAs(Vectors(Keys(info)), Ok(Reread(info)))
  {
    var keys, harms := set h | h in info.harms :: KeyOf(h), DecodedHarms(info.harms);
    DecodedHarmsAre(info.harms);
    DecodedNext(keys, ALLOWED_KEY);
    assert Keys(info) == keys || Keys(info) == keys + {ALLOWED_KEY};
    ProhibitedElements(harms);
    NoElements(harms);
  }

  /** A column has only one reading. */
  lemma ReadingIsUnique(c: Column, r: Result<Info>, r': Result<Info>)
    requires ReadsAs(c, r) && ReadsAs(c, r')
    ensures r == r'
  {
    if c.Vectors? {
      WellFormedUnique(r.value, r'.value);
    }
  }

  /**
   * A later answer to an event equals the first exactly if the first was Prohibited with readable harms. After a
   * first answer that let the event through, every later one flags it.
   */
  lemma LaterAnswersAgreeExactly(steps: seq<Step>, d: nat, e: nat)
    requires FirstAndLater(Run(Start(Reread), steps), d, e)
    ensures var w := Run(Start(Reread), steps);
      var first, later := Outcome(w.execs[d].phase).value.info, Outcome(w.execs[e].phase).value.info;
      && (later == first <==> first.cls == Prohibited && forall h :: h in first.harms ==> Readable(h))
      && (first.cls != Prohibited ==> later == Info(Prohibited, [OTHER_GENERAL]))
  {
    var w := Run(Start(Reread), steps);
    var first := Outcome(w.execs[d].phase).value.info;
    LaterAnswerIsRead(Reread, steps, d, e);
    hide Run, FirstAndLater, Reread;
    RereadIsRead(first);
    VerdictSurvivesExactly(first, Ok(Reread(first)));
  }

  /** An event that comes out Neutral, checked again. */
  function CheckedTwice(id: EventId): seq<Step> {
    [Submit(id, 0, false), Look(0, true), Filter(0, true, Ok(NEUTRAL)), Store(0, true, true), Return(0),
     Submit(id, 1, false), Look(1, true)]
  }

  lemma RunPrefix(w: World, steps: seq<Step>, k: nat)
    requires k < |steps|
    ensures Run(w, steps[..k + 1]) == Next(Run(w, steps[..k]), steps[k])
  {
    assert steps[..k + 1] == steps[..k] + [steps[k]];
    RunNext(w, steps[..k], steps[k]);
  }

  /** After the first five steps, the event is stored as Neutral and nothing is in flight. */
  lemma FirstCheck(id: EventId)
    ensures var w := Run(Start(Reread), CheckedTwice(id)[..5]);
      && w.results == map[id := Stored(false, NEUTRAL)] && w.calls == map[] && w.joined.Keys == {0}
      && w.execs == [Exec(id, Returned(Ok(Checked(true, NEUTRAL))))] && w.read == Reread
  {
    var s, w := CheckedTwice(id), Start(Reread);
    assert s[..0] == [];
    RunPrefix(w, s, 0);
    RunPrefix(w, s, 1);
    RunPrefix(w, s, 2);
    RunPrefix(w, s, 3);
    RunPrefix(w, s, 4);
    assert Run(w, []) == w;
    hide Run, Reread;
    assert Run(w, s[..1]).execs == [Exec(id, Looking)];
    assert Run(w, s[..2]).execs == [Exec(id, Filtering)];
    assert Run(w, s[..3]).execs == [Exec(id, Storing(NEUTRAL))];
  }

  lemma SecondCheck(w: World, id: EventId)
    requires w.results == map[id := Stored(false, NEUTRAL)] && w.calls == map[] && w.joined.Keys == {0}
    requires |w.execs| == 1 && w.read == Reread
    ensures Next(Next(w, Submit(id, 1, false)), Look(1, true)).execs
      == w.execs + [Exec(id, Returning(Ok(Checked(false, Reread(NEUTRAL)))))]
  {
    hide Reread;
    assert 1 !in w.joined.Keys;
    assert Next(w, Submit(id, 1, false)).execs == w.execs + [Exec(id, Looking)];
  }

  lemma CheckedTwiceRuns(id: EventId)
    ensures Run(Start(Reread), CheckedTwice(id)).execs
      == [Exec(id, Returned(Ok(Checked(true, NEUTRAL)))), Exec(id, Returning(Ok(Checked(false, Reread(NEUTRAL)))))]
  {
    var s, w := CheckedTwice(id), Start(Reread);
    assert |s| == 7 && s[..7] == s;
    assert s[5] == Submit(id, 1, false) && s[6] == Look(1, true);
    hide Run, CheckedTwice, Next, Reread, Start;
    FirstCheck(id);
    SecondCheck(Run(w, s[..5]), id);
    RunPrefix(w, s, 5);
    RunPrefix(w, s, 6);
    assert Run(w, s) == Next(Next(Run(w, s[..5]), s[5]), s[6]);
  }

  /** So the same event is first let through, and then flagged. */
  lemma NeutralThenProhibited(id: EventId)
    ensures var w := Run(Start(Reread), CheckedTwice(id));
      && FirstAndLater(w, 0, 1)
      && Outcome(w.execs[0].phase).value.info == NEUTRAL
      && Outcome(w.execs[1].phase).value.info == Info(Prohibited, [OTHER_GENERAL])
  {
    CheckedTwiceRuns(id);
    hide Run, CheckedTwice, Reread;
    assert FirstAndLater(Run(Start(Reread), CheckedTwice(id)), 0, 1);
    LaterAnswersAgreeExactly(CheckedTwice(id), 0, 1);
  }
}
