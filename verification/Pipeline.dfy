/** filter/set_group.go and filter/set.go: gated groups of concurrent filters, folded into one verdict. */
module Pipeline {
  import opened Basics
  import opened Harms
  import opened Slices
  import opened Registry

  datatype Mode = Event | Text

  /** What a filter's check returns: a possibly nil info and a possibly nil error. */
  datatype Outcome = Outcome(info: Option<BuiltInfo>, err: bool)

  /** A filter instance; None where it does not implement the event or the text interface. */
  datatype Filter = Filter(name: FilterName, onEvent: Option<Outcome>, onText: Option<Outcome>) {
    function On(mode: Mode): Option<Outcome> {
      if mode.Event? then onEvent else onText
    }
  }

  datatype Group = Group(filters: seq<Filter>, checked: seq<ContentClass>)

  /** What checkEvent and checkText put on the channel; the info is never nil there. */
  datatype Reply = Reply(info: BuiltInfo, err: bool)

  function ReplyOf(f: Filter, mode: Mode): Reply {
    match f.On(mode)
    case None => Reply(NEUTRAL, false)
    case Some(Outcome(None, _)) => Reply(NEUTRAL, true)
    case Some(Outcome(Some(info), err)) => Reply(info, err)
  }

  function Replies(fs: seq<Filter>, mode: Mode): (r: seq<Reply>)
    ensures |r| == |fs| && forall i :: 0 <= i < |fs| ==> r[i] == ReplyOf(fs[i], mode)
  {
    seq(|fs|, i requires 0 <= i < |fs| => ReplyOf(fs[i], mode))
  }

  // ---------- Merging the replies of one group ----------

  function TopClass(rs: seq<Reply>): ContentClass {
    if rs == [] then Neutral else MaxClass(TopClass(rs[..|rs| - 1]), rs[|rs| - 1].info.cls)
  }

  function AllHarms(rs: seq<Reply>): seq<Harm> {
    if rs == [] then [] else AllHarms(rs[..|rs| - 1]) + rs[|rs| - 1].info.harms
  }

  predicate AnyError(rs: seq<Reply>) {
    exists r :: r in rs && r.err
  }

  function Merge(rs: seq<Reply>): (m: Info)
    ensures m.WellFormed()
  {
    NewInfo(TopClass(rs), AllHarms(rs))
  }

  lemma {:induction false} TopClassIsTop(rs: seq<Reply>)
    ensures forall r :: r in rs ==> r.info.cls.Rank() <= TopClass(rs).Rank()
    ensures TopClass(rs) == Neutral || exists r :: r in rs && r.info.cls == TopClass(rs)
  {
    if rs != [] {
      TopClassIsTop(rs[..|rs| - 1]);
      assert rs == rs[..|rs| - 1] + [rs[|rs| - 1]];
    }
  }

  lemma {:induction false} AllHarmsIsUnion(rs: seq<Reply>)
    ensures Elements(AllHarms(rs)) == set r, h | r in rs && h in r.info.harms :: h
  {
    if rs != [] {
      var front, last := rs[..|rs| - 1], rs[|rs| - 1];
      AllHarmsIsUnion(front);
      assert rs == front + [last];
      ElementsOfConcat(AllHarms(front), last.info.harms);
    }
  }

  lemma {:induction false} HarmsMeanProhibited(rs: seq<Reply>)
    ensures AllHarms(rs) != [] <==> TopClass(rs).Prohibited?
  {
    if rs != [] {
      HarmsMeanProhibited(rs[..|rs| - 1]);
      assert rs[|rs| - 1].info.WellFormed();
    }
  }

  /** The merged info has the highest class of the replies and exactly their harms. */
  lemma MergeIsJoin(rs: seq<Reply>)
    ensures forall r :: r in rs ==> r.info.cls.Rank() <= Merge(rs).cls.Rank()
    ensures Merge(rs).cls == Neutral || exists r :: r in rs && r.info.cls == Merge(rs).cls
    ensures Elements(Merge(rs).harms) == set r, h | r in rs && h in r.info.harms :: h
  {
    hide TopClass, AllHarms;
    TopClassIsTop(rs);
    AllHarmsIsUnion(rs);
    HarmsMeanProhibited(rs);
    CanonIsCanonical(AllHarms(rs));
  }

  /** The verdict of a group does not depend on the order its filters finish in. */
  lemma MergeIgnoresArrivalOrder(a: seq<Reply>, b: seq<Reply>)
    requires multiset(a) == multiset(b)
    ensures Merge(a) == Merge(b)
    ensures AnyError(a) <==> AnyError(b)
  {
    forall r ensures r in a <==> r in b {
      assert r in a <==> r in multiset(a);
      assert r in b <==> r in multiset(b);
    }
    hide Merge;
    MergeIsJoin(a);
    MergeIsJoin(b);
    WellFormedUnique(Merge(a), Merge(b));
  }

  function GroupInfo(g: Group, mode: Mode): (m: Info)
    ensures m.WellFormed()
  {
    Merge(Replies(g.filters, mode))
  }

  predicate GroupFails(g: Group, mode: Mode) {
    AnyError(Replies(g.filters, mode))
  }

  // ---------- What a group answers, in terms of what its filters returned ----------

  /** What the filters return for an event; None where a filter does not take events. */
  function EventOutcomes(fs: seq<Filter>): (os: seq<Option<Outcome>>)
    ensures |os| == |fs| && forall i :: 0 <= i < |fs| ==> os[i] == fs[i].onEvent
  {
    seq(|fs|, i requires 0 <= i < |fs| => fs[i].onEvent)
  }

  /** What the filters return for a text; None where a filter does not take text. */
  function TextOutcomes(fs: seq<Filter>): (os: seq<Option<Outcome>>)
    ensures |os| == |fs| && forall i :: 0 <= i < |fs| ==> os[i] == fs[i].onText
  {
    seq(|fs|, i requires 0 <= i < |fs| => fs[i].onText)
  }

  function Outcomes(fs: seq<Filter>, mode: Mode): seq<Option<Outcome>> {
    match mode
    case Event => EventOutcomes(fs)
    case Text => TextOutcomes(fs)
  }

  /** The filter was called, and returned an error or no info. */
  ghost predicate Erred(o: Option<Outcome>) {
    o.Some? && (o.value.err || o.value.info.None?)
  }

  ghost predicate Gave(o: Option<Outcome>, cls: ContentClass) {
    o.Some? && o.value.info.Some? && o.value.info.value.cls == cls
  }

  ghost predicate Reported(o: Option<Outcome>, h: Harm) {
    o.Some? && o.value.info.Some? && h in o.value.info.value.harms
  }

  /** The most severe class that was given; filters that were not called have no say. */
  ghost predicate MostSevere(os: seq<Option<Outcome>>, cls: ContentClass) {
    && (cls == Prohibited <==> exists o :: o in os && Gave(o, Prohibited))
    && (cls == Neutral <==> forall o :: o in os ==> !Gave(o, Prohibited) && !Gave(o, Allowed))
  }

  ghost predicate GroupAnswers(os: seq<Option<Outcome>>, r: Result<Info>) {
    && (r.Err? <==> exists o :: o in os && Erred(o))
    && (r.Ok? ==>
         && MostSevere(os, r.value.cls)
         && forall h :: h in r.value.harms <==> exists o :: o in os && Reported(o, h))
  }

  /** A reply is an error exactly if its filter erred, and otherwise carries what the filter gave. */
  lemma ReplyMeaning(f: Filter, mode: Mode)
    ensures var o, reply := (if mode.Event? then f.onEvent else f.onText), ReplyOf(f, mode);
      && (reply.err <==> Erred(o))
      && (reply.info.cls == Prohibited <==> Gave(o, Prohibited))
      && (reply.info.cls == Allowed <==> Gave(o, Allowed))
      && forall h :: h in reply.info.harms <==> Reported(o, h)
  {
  }

  /** A running group errs exactly if one of its filters did, and otherwise joins what they gave. */
  lemma GroupMeaning(g: Group, mode: Mode)
    ensures GroupAnswers(Outcomes(g.filters, mode), if GroupFails(g, mode) then Err else Ok(GroupInfo(g, mode)))
  {
    var os, rs, m := Outcomes(g.filters, mode), Replies(g.filters, mode), GroupInfo(g, mode);
    MergeIsJoin(rs);
    hide Merge, ReplyOf, Erred, Gave, Reported;
    forall i | 0 <= i < |os|
      ensures rs[i].err <==> Erred(os[i])
      ensures rs[i].info.cls == Prohibited <==> Gave(os[i], Prohibited)
      ensures rs[i].info.cls == Allowed <==> Gave(os[i], Allowed)
      ensures forall h :: h in rs[i].info.harms <==> Reported(os[i], h)
    {
      ReplyMeaning(g.filters[i], mode);
    }
    RepliesMean(os, rs, m);
  }

  lemma RepliesMean(os: seq<Option<Outcome>>, rs: seq<Reply>, m: Info)
    requires |os| == |rs|
    requires forall i :: 0 <= i < |os| ==>
      && (rs[i].err <==> Erred(os[i]))
      && (rs[i].info.cls == Prohibited <==> Gave(os[i], Prohibited))
      && (rs[i].info.cls == Allowed <==> Gave(os[i], Allowed))
      && forall h :: h in rs[i].info.harms <==> Reported(os[i], h)
    requires forall r :: r in rs ==> r.info.cls.Rank() <= m.cls.Rank()
    requires m.cls == Neutral || exists r :: r in rs && r.info.cls == m.cls
    requires Elements(m.harms) == set r, h | r in rs && h in r.info.harms :: h
    ensures GroupAnswers(os, if AnyError(rs) then Err else Ok(m))
  {
    hide Erred, Gave, Reported;
    forall o | o in os ensures exists i :: 0 <= i < |os| && os[i] == o && rs[i] in rs {
    }
    forall r | r in rs ensures exists i :: 0 <= i < |rs| && rs[i] == r && os[i] in os {
    }
    forall h ensures h in m.harms <==> exists o :: o in os && Reported(o, h) {
      assert h in m.harms <==> h in Elements(m.harms);
    }
  }

  function Called(fs: seq<Filter>, mode: Mode): multiset<FilterName> {
    if fs == [] then multiset{}
    else Called(fs[..|fs| - 1], mode)
         + if fs[|fs| - 1].On(mode).Some? then multiset{fs[|fs| - 1].name} else multiset{}
  }

  lemma CalledNothing(mode: Mode)
    ensures Called([], mode) == multiset{}
  {
  }

  lemma CalledNext(fs: seq<Filter>, mode: Mode, i: nat)
    requires i < |fs|
    ensures Called(fs[..i + 1], mode)
      == Called(fs[..i], mode) + if fs[i].On(mode).Some? then multiset{fs[i].name} else multiset{}
  {
    assert fs[..i + 1][..i] == fs[..i];
  }

  // ---------- What a set of groups should decide ----------

  /** The join of the results of the groups that run, among the first n. */
  function Verdict(groups: seq<Group>, mode: Mode, n: nat): (v: Result<Info>)
    requires n <= |groups|
    ensures v.Ok? ==> v.value.WellFormed()
  {
    if n == 0 then Ok(NEUTRAL)
    else match Verdict(groups, mode, n - 1)
      case Err => Err
      case Ok(sofar) =>
        if sofar.cls !in groups[n - 1].checked then Ok(sofar)
        else if GroupFails(groups[n - 1], mode) then Err
        else Ok(Join(sofar, GroupInfo(groups[n - 1], mode)))
  }

  predicate Runs(groups: seq<Group>, mode: Mode, k: nat)
    requires k < |groups|
  {
    var sofar := Verdict(groups, mode, k);
    sofar.Ok? && sofar.value.cls in groups[k].checked
  }

  /** The filters a check has called once the first n groups are done. */
  function Calls(groups: seq<Group>, mode: Mode, n: nat): multiset<FilterName>
    requires n <= |groups|
  {
    if n == 0 then multiset{}
    else Calls(groups, mode, n - 1)
         + if Runs(groups, mode, n - 1) then Called(groups[n - 1].filters, mode) else multiset{}
  }

  /** What group k adds to the verdict: its result if it runs, and nothing otherwise. */
  function Added(groups: seq<Group>, mode: Mode, k: nat): (m: Info)
    requires k < |groups|
    ensures m.WellFormed()
  {
    if Runs(groups, mode, k) then GroupInfo(groups[k], mode) else NEUTRAL
  }

  lemma VerdictStep(groups: seq<Group>, mode: Mode, k: nat)
    requires k < |groups| && Verdict(groups, mode, k + 1).Ok?
    ensures Verdict(groups, mode, k).Ok?
    ensures var v, v', m := Verdict(groups, mode, k).value, Verdict(groups, mode, k + 1).value, Added(groups, mode, k);
      v'.cls == MaxClass(v.cls, m.cls) && Elements(v'.harms) == Elements(v.harms) + Elements(m.harms)
  {
    JoinIsUnion(Verdict(groups, mode, k).value, Added(groups, mode, k));
  }

  /** Verdict without its recursion: the maximum class over the groups that ran ... */
  lemma {:induction false} VerdictIsTopClass(groups: seq<Group>, mode: Mode, n: nat)
    requires n <= |groups| && Verdict(groups, mode, n).Ok?
    ensures var v := Verdict(groups, mode, n).value;
      && (forall k :: 0 <= k < n ==> Added(groups, mode, k).cls.Rank() <= v.cls.Rank())
      && (v.cls == Neutral || exists k :: 0 <= k < n && Added(groups, mode, k).cls == v.cls)
  {
    hide Added, NewInfo, Join;
    if n > 0 {
      VerdictStep(groups, mode, n - 1);
      VerdictIsTopClass(groups, mode, n - 1);
    }
  }

  /** ... and exactly the harms those groups reported, each once and in order. */
  lemma {:induction false} VerdictIsUnion(groups: seq<Group>, mode: Mode, n: nat)
    requires n <= |groups| && Verdict(groups, mode, n).Ok?
    ensures var v := Verdict(groups, mode, n).value;
      && StrictlyAscending(v.harms)
      && (forall h :: h in v.harms <==> exists k :: 0 <= k < n && h in Added(groups, mode, k).harms)
  {
    hide Added, NewInfo, Join, StrictlyAscending;
    if n > 0 {
      VerdictStep(groups, mode, n - 1);
      VerdictIsUnion(groups, mode, n - 1);
      hide Verdict;
      var before, v := Verdict(groups, mode, n - 1).value, Verdict(groups, mode, n).value;
      var m := Added(groups, mode, n - 1);
      forall h ensures h in v.harms <==> exists k :: 0 <= k < n && h in Added(groups, mode, k).harms {
        assert h in v.harms <==> h in Elements(v.harms);
        assert h in before.harms <==> h in Elements(before.harms);
        assert h in m.harms <==> h in Elements(m.harms);
      }
    }
  }

  // ---------- What the code computes ----------

  /** The loop state of CheckEvent: the running class, and the accumulator with whatever deduplication left in it. */
  datatype Acc = Acc(cls: ContentClass, harms: seq<Harm>)

  function Replay(groups: seq<Group>, mode: Mode, n: nat): Result<Acc>
    requires n <= |groups|
  {
    if n == 0 then Ok(Acc(Neutral, []))
    else match Replay(groups, mode, n - 1)
      case Err => Err
      case Ok(a) =>
        if NewInfo(a.cls, a.harms).cls !in groups[n - 1].checked then Ok(Acc(a.cls, Settled(a.harms)))
        else if GroupFails(groups[n - 1], mode) then Err
        else
          var g := GroupInfo(groups[n - 1], mode);
          Ok(Acc(MaxClass(a.cls, g.cls), Settled(a.harms) + g.harms))
  }

  /** What CheckEvent and CheckText return. */
  function Outturn(groups: seq<Group>, mode: Mode): Result<Info> {
    match Replay(groups, mode, |groups|)
    case Err => Err
    case Ok(a) => Ok(NewInfo(a.cls, a.harms))
  }

  /** Group k reports a harm that an earlier group has already reported. */
  ghost predicate Repeat(groups: seq<Group>, mode: Mode, k: nat)
    requires k < |groups|
  {
    var before := Verdict(groups, mode, k);
    before.Ok? && exists h :: h in before.value.harms && h in Added(groups, mode, k).harms
  }

  ghost predicate Repeats(groups: seq<Group>, mode: Mode, n: nat)
    requires n <= |groups|
  {
    exists k :: 0 <= k < n && Repeat(groups, mode, k)
  }

  /** The code's running class and gate agree with those of the intended fold. */
  ghost predicate Agree(a: Acc, v: Info) {
    a.cls == v.cls && (a.harms == [] <==> v.harms == []) && NewInfo(a.cls, a.harms).cls == v.cls
  }

  lemma AgreeNext(a: Acc, v: Info, m: Info)
    requires Agree(a, v) && v.WellFormed() && m.WellFormed()
    ensures Agree(Acc(MaxClass(a.cls, m.cls), Settled(a.harms) + m.harms), Join(v, m))
  {
  }

  lemma AgreeSkipping(a: Acc, v: Info)
    requires Agree(a, v) && v.WellFormed()
    ensures Agree(Acc(a.cls, Settled(a.harms)), v)
  {
  }

  /** The code takes the same gates and sees the same errors as the intended fold. */
  lemma {:induction false} GatesAgree(groups: seq<Group>, mode: Mode, n: nat)
    requires n <= |groups|
    ensures Replay(groups, mode, n).Ok? <==> Verdict(groups, mode, n).Ok?
    ensures Verdict(groups, mode, n).Ok? ==> Agree(Replay(groups, mode, n).value, Verdict(groups, mode, n).value)
  {
    if n > 0 {
      hide NewInfo, Join, GroupInfo, GroupFails, Settled;
      GatesAgree(groups, mode, n - 1);
      if Verdict(groups, mode, n - 1).Ok? {
        var a, v := Replay(groups, mode, n - 1).value, Verdict(groups, mode, n - 1).value;
        AgreeNext(a, v, GroupInfo(groups[n - 1], mode));
        AgreeSkipping(a, v);
      }
    }
  }

  lemma ReplayStep(groups: seq<Group>, mode: Mode, k: nat)
    requires k < |groups| && Verdict(groups, mode, k + 1).Ok?
    ensures Verdict(groups, mode, k).Ok?
    ensures Replay(groups, mode, k).Ok? && Replay(groups, mode, k + 1).Ok?
    ensures Replay(groups, mode, k + 1).value.harms
      == Settled(Replay(groups, mode, k).value.harms) + Added(groups, mode, k).harms
  {
    GatesAgree(groups, mode, k);
    GatesAgree(groups, mode, k + 1);
  }

  lemma AtStart(groups: seq<Group>, mode: Mode)
    ensures Verdict(groups, mode, 0) == Ok(NEUTRAL) && Replay(groups, mode, 0) == Ok(Acc(Neutral, []))
    ensures Calls(groups, mode, 0) == multiset{}
  {
  }

  /** One iteration of the loop over groups. */
  lemma ReplayNext(groups: seq<Group>, mode: Mode, k: nat, cls: ContentClass, harms: seq<Harm>)
    requires k < |groups| && Replay(groups, mode, k) == Ok(Acc(cls, harms))
    ensures var g, open := groups[k], NewInfo(cls, harms).cls in groups[k].checked;
      && Calls(groups, mode, k + 1) == Calls(groups, mode, k) + (if open then Called(g.filters, mode) else multiset{})
      && var info := if open then GroupInfo(g, mode) else NEUTRAL;
      Replay(groups, mode, k + 1)
      == if open && GroupFails(g, mode) then Err
         else Ok(Acc(MaxClass(cls, info.cls), Settled(harms) + info.harms))
  {
    GatesAgree(groups, mode, k);
    assert Settled(harms) + [] == Settled(harms);
  }

  /** The accumulator holds the harms found, plus a zero harm once a repeat has been compacted away. */
  lemma {:induction false} AccumulatorHolds(groups: seq<Group>, mode: Mode, n: nat)
    requires n <= |groups| && Verdict(groups, mode, n).Ok?
    ensures Replay(groups, mode, n).Ok?
    ensures var a, v := Replay(groups, mode, n).value.harms, Verdict(groups, mode, n).value.harms;
      && Elements(a) == Elements(v) + (if n > 0 && Repeats(groups, mode, n - 1) then {ZERO_HARM} else {})
      && ((n > 0 && Repeats(groups, mode, n - 1)) || (Distinct(a) <==> !Repeats(groups, mode, n)))
  {
    hide Verdict, Replay, Added, Settled, NewInfo, Join;
    if n > 0 {
      VerdictStep(groups, mode, n - 1);
      ReplayStep(groups, mode, n - 1);
      AccumulatorHolds(groups, mode, n - 1);
      var a, v := Replay(groups, mode, n - 1).value.harms, Verdict(groups, mode, n - 1).value.harms;
      var m := Added(groups, mode, n - 1).harms;
      SettledElements(a);
      ElementsOfConcat(Settled(a), m);
      if !Repeats(groups, mode, n - 1) {
        DistinctConcat(Settled(a), m);
        StrictlyAscendingIsDistinct(m);
        assert Repeat(groups, mode, n - 1) <==> !(Elements(v) !! Elements(m)) by {
          assert forall h :: h in v <==> h in Elements(v);
          assert forall h :: h in m <==> h in Elements(m);
        }
      }
    } else {
      AtStart(groups, mode);
    }
  }

  /**
   * For an arbitrary list of groups, the code returns the intended verdict exactly when no group before the last
   * repeats a harm, or the empty harm has really been reported.
   */
  lemma {:induction false} OutturnIsVerdictExactly(groups: seq<Group>, mode: Mode)
    ensures Outturn(groups, mode).Err? <==> Verdict(groups, mode, |groups|).Err?
    ensures Outturn(groups, mode).Ok? ==>
      Outturn(groups, mode).value.cls == Verdict(groups, mode, |groups|).value.cls
    ensures Outturn(groups, mode).Ok? ==>
      (Outturn(groups, mode) == Verdict(groups, mode, |groups|) <==>
        groups == [] || !Repeats(groups, mode, |groups| - 1)
        || ZERO_HARM in Verdict(groups, mode, |groups|).value.harms)
  {
    var n := |groups|;
    GatesAgree(groups, mode, n);
    if Verdict(groups, mode, n).Ok? {
      AccumulatorHolds(groups, mode, n);
      var a, v := Replay(groups, mode, n).value, Verdict(groups, mode, n).value;
      var r := NewInfo(a.cls, a.harms);
      assert a.harms != [] ==> Elements(r.harms) == Elements(a.harms);
      if Elements(r.harms) == Elements(v.harms) {
        WellFormedUnique(r, v);
      }
      assert ZERO_HARM in v.harms <==> ZERO_HARM in Elements(v.harms);
      if n > 0 && Repeats(groups, mode, n - 1) {
        assert a.harms != [];
      }
    }
  }

  // Group k ran, and a filter of it erred, gave a class, or reported a harm.

  ghost predicate GroupErred(groups: seq<Group>, mode: Mode, k: nat)
    requires k < |groups|
  {
    Runs(groups, mode, k) && exists o :: o in Outcomes(groups[k].filters, mode) && Erred(o)
  }

  ghost predicate GroupGave(groups: seq<Group>, mode: Mode, k: nat, cls: ContentClass)
    requires k < |groups|
  {
    Runs(groups, mode, k) && exists o :: o in Outcomes(groups[k].filters, mode) && Gave(o, cls)
  }

  ghost predicate GroupReported(groups: seq<Group>, mode: Mode, k: nat, h: Harm)
    requires k < |groups|
  {
    Runs(groups, mode, k) && exists o :: o in Outcomes(groups[k].filters, mode) && Reported(o, h)
  }

  /**
   * What a check answers, in terms of what the filters of the groups that ran returned. Whether the empty harm is
   * among the harms is a matter of OutturnIsVerdictExactly.
   */
  ghost predicate Decides(groups: seq<Group>, mode: Mode, r: Result<Info>) {
    var n := |groups|;
    && (r.Err? <==> exists k :: 0 <= k < n && GroupErred(groups, mode, k))
    && (r.Ok? ==>
         && (r.value.cls == Prohibited <==> exists k :: 0 <= k < n && GroupGave(groups, mode, k, Prohibited))
         && (r.value.cls == Neutral <==>
              forall k :: 0 <= k < n ==>
                !GroupGave(groups, mode, k, Prohibited) && !GroupGave(groups, mode, k, Allowed))
         && forall h | h != ZERO_HARM ::
              h in r.value.harms <==> exists k :: 0 <= k < n && GroupReported(groups, mode, k, h))
  }

  lemma {:induction false} VerdictFailsExactly(groups: seq<Group>, mode: Mode, n: nat)
    requires n <= |groups|
    ensures Verdict(groups, mode, n).Err? <==> exists k :: 0 <= k < n && GroupErred(groups, mode, k)
  {
    hide GroupFails, GroupInfo, Join, GroupErred;
    if n > 0 {
      VerdictFailsExactly(groups, mode, n - 1);
      ErredMeaning(groups, mode, n - 1);
    }
  }

  lemma ErredMeaning(groups: seq<Group>, mode: Mode, k: nat)
    requires k < |groups|
    ensures GroupErred(groups, mode, k) <==> Runs(groups, mode, k) && GroupFails(groups[k], mode)
  {
    hide Runs, GroupFails, GroupInfo, Gave, Reported, Erred, Outcomes;
    GroupMeaning(groups[k], mode);
  }

  /** What a group adds, in terms of what its filters returned. */
  lemma AddedMeaning(groups: seq<Group>, mode: Mode, k: nat)
    requires k < |groups| && !GroupErred(groups, mode, k)
    ensures var m := Added(groups, mode, k);
      && (m.cls == Prohibited <==> GroupGave(groups, mode, k, Prohibited))
      && (m.cls == Neutral <==> !GroupGave(groups, mode, k, Prohibited) && !GroupGave(groups, mode, k, Allowed))
      && forall h :: h in m.harms <==> GroupReported(groups, mode, k, h)
  {
    hide Runs, GroupFails, GroupInfo, Gave, Reported, Erred, Outcomes;
    GroupMeaning(groups[k], mode);
  }

  lemma VerdictClass(groups: seq<Group>, mode: Mode, n: nat)
    requires n <= |groups| && Verdict(groups, mode, n).Ok?
    ensures var cls := Verdict(groups, mode, n).value.cls;
      && (cls == Prohibited <==> exists k :: 0 <= k < n && Added(groups, mode, k).cls == Prohibited)
      && (cls == Neutral <==> forall k :: 0 <= k < n ==> Added(groups, mode, k).cls == Neutral)
  {
    VerdictIsTopClass(groups, mode, n);
    hide Verdict, Added;
    var cls := Verdict(groups, mode, n).value.cls;
    if k :| 0 <= k < n && Added(groups, mode, k).cls == Prohibited {
      assert Added(groups, mode, k).cls.Rank() <= cls.Rank();
    }
    if cls == Neutral {
      forall k | 0 <= k < n ensures Added(groups, mode, k).cls == Neutral {
        assert Added(groups, mode, k).cls.Rank() <= cls.Rank();
      }
    }
  }

  /** The answer's class, error and harms, one at a time. */
  lemma OutturnErrs(groups: seq<Group>, mode: Mode)
    ensures Outturn(groups, mode).Err? <==> exists k :: 0 <= k < |groups| && GroupErred(groups, mode, k)
  {
    hide Outturn, Verdict, GroupErred, Repeats;
    OutturnIsVerdictExactly(groups, mode);
    VerdictFailsExactly(groups, mode, |groups|);
  }

  lemma OutturnClass(groups: seq<Group>, mode: Mode)
    requires Outturn(groups, mode).Ok?
    ensures Outturn(groups, mode).value.cls == Prohibited
      <==> exists k :: 0 <= k < |groups| && GroupGave(groups, mode, k, Prohibited)
    ensures Outturn(groups, mode).value.cls == Neutral
      <==> forall k :: 0 <= k < |groups| ==>
        !GroupGave(groups, mode, k, Prohibited) && !GroupGave(groups, mode, k, Allowed)
  {
    hide Outturn, Verdict, Added, GroupGave, GroupErred, Repeats;
    var n := |groups|;
    OutturnErrs(groups, mode);
    OutturnIsVerdictExactly(groups, mode);
    VerdictClass(groups, mode, n);
    forall k: nat | k < n
      ensures Added(groups, mode, k).cls == Prohibited <==> GroupGave(groups, mode, k, Prohibited)
      ensures Added(groups, mode, k).cls == Neutral
        <==> !GroupGave(groups, mode, k, Prohibited) && !GroupGave(groups, mode, k, Allowed)
    {
      AddedMeaning(groups, mode, k);
    }
  }

  lemma OutturnHarm(groups: seq<Group>, mode: Mode, h: Harm)
    requires Outturn(groups, mode).Ok? && h != ZERO_HARM
    ensures h in Outturn(groups, mode).value.harms
      <==> exists k :: 0 <= k < |groups| && GroupReported(groups, mode, k, h)
  {
    hide Outturn, Verdict, Added, GroupReported, GroupErred, StrictlyAscending;
    var n := |groups|;
    OutturnErrs(groups, mode);
    OutturnUnion(groups, mode);
    VerdictIsUnion(groups, mode, n);
    forall k: nat | k < n ensures h in Added(groups, mode, k).harms <==> GroupReported(groups, mode, k, h) {
      AddedMeaning(groups, mode, k);
    }
  }

  /** Apart from the empty harm, the code returns the harms of the intended verdict. */
  lemma OutturnUnion(groups: seq<Group>, mode: Mode)
    requires Outturn(groups, mode).Ok?
    ensures Verdict(groups, mode, |groups|).Ok?
    ensures forall h | h != ZERO_HARM ::
      h in Outturn(groups, mode).value.harms <==> h in Verdict(groups, mode, |groups|).value.harms
  {
    var n := |groups|;
    GatesAgree(groups, mode, n);
    AccumulatorHolds(groups, mode, n);
    var a, v, r := Replay(groups, mode, n).value, Verdict(groups, mode, n).value, Outturn(groups, mode).value;
    assert a.harms != [] ==> Elements(r.harms) == Elements(a.harms);
    hide Verdict, Replay, Outturn, NewInfo, Repeats;
    forall h | h != ZERO_HARM ensures h in r.harms <==> h in v.harms {
      assert h in r.harms <==> h in Elements(r.harms);
      assert h in v.harms <==> h in Elements(v.harms);
    }
  }

  /** A check answers what the filters of the groups that ran returned. */
  lemma OutturnDecides(groups: seq<Group>, mode: Mode)
    ensures Decides(groups, mode, Outturn(groups, mode))
  {
    hide Outturn, GroupErred, GroupGave, GroupReported;
    OutturnErrs(groups, mode);
    if Outturn(groups, mode).Ok? {
      OutturnClass(groups, mode);
      forall h | h != ZERO_HARM
        ensures h in Outturn(groups, mode).value.harms
          <==> exists k :: 0 <= k < |groups| && GroupReported(groups, mode, k, h)
      {
        OutturnHarm(groups, mode, h);
      }
    }
  }

  /** Two groups that both report spam, then a third group. */
  function RepeatingGroups(): seq<Group> {
    var reports := Filter(Keyword, Some(Outcome(Some(ProhibitedInfo([SPAM_GENERAL])), false)), None);
    var always := [Neutral, Allowed, Prohibited];
    [Group([reports], always), Group([reports], always), Group([], always)]
  }

  lemma ReportsSpam()
    ensures GroupInfo(RepeatingGroups()[0], Event) == Info(Prohibited, [SPAM_GENERAL])
    ensures GroupInfo(RepeatingGroups()[1], Event) == Info(Prohibited, [SPAM_GENERAL])
    ensures !GroupFails(RepeatingGroups()[0], Event) && !GroupFails(RepeatingGroups()[1], Event)
  {
    CanonOfCanonical([SPAM_GENERAL]);
    hide Canon;
    var rs := Replies(RepeatingGroups()[0].filters, Event);
    assert rs == [Reply(Info(Prohibited, [SPAM_GENERAL]), false)];
    assert rs[..0] == [];
    assert AllHarms(rs) == [SPAM_GENERAL];
  }

  lemma EmptyGroup(g: Group, mode: Mode)
    requires g.filters == []
    ensures GroupInfo(g, mode) == NEUTRAL && !GroupFails(g, mode)
  {
  }

  lemma RepeatingVerdict()
    ensures var gs, x := RepeatingGroups(), Info(Prohibited, [SPAM_GENERAL]);
      && Verdict(gs, Event, 1) == Ok(x) && Verdict(gs, Event, 2) == Ok(x) && Verdict(gs, Event, 3) == Ok(x)
      && Repeats(gs, Event, 2)
  {
    hide GroupInfo, GroupFails, Join;
    var gs, x := RepeatingGroups(), Info(Prohibited, [SPAM_GENERAL]);
    ReportsSpam();
    JoinLaws(x, NEUTRAL);
    JoinLaws(x, x);
    assert GroupInfo(gs[2], Event) == NEUTRAL && !GroupFails(gs[2], Event) by {
      EmptyGroup(gs[2], Event);
    }
    assert Verdict(gs, Event, 0) == Ok(NEUTRAL);
    assert SPAM_GENERAL in Verdict(gs, Event, 1).value.harms && SPAM_GENERAL in Added(gs, Event, 1).harms;
    assert Repeat(gs, Event, 1);
  }

  /** So for arbitrary groups the promised union fails: here the empty harm appears from nowhere. */
  lemma {:induction false} RepeatingGroupsGainEmptyHarm()
    ensures Verdict(RepeatingGroups(), Event, 3) == Ok(Info(Prohibited, [SPAM_GENERAL]))
    ensures Outturn(RepeatingGroups(), Event) == Ok(Info(Prohibited, [ZERO_HARM, SPAM_GENERAL]))
  {
    hide Verdict, Replay, RepeatingGroups;
    var gs := RepeatingGroups();
    RepeatingVerdict();
    assert |gs| == 3 by { FewGroups(); }
    OutturnIsVerdictExactly(gs, Event);
    AccumulatorHolds(gs, Event, 3);
    var harms := Outturn(gs, Event).value.harms;
    assert Elements(harms) == Elements([ZERO_HARM, SPAM_GENERAL]);
    StrictlyAscendingUnique(harms, [ZERO_HARM, SPAM_GENERAL]);
  }

  lemma FewGroups()
    ensures |RepeatingGroups()| == 3
  {
  }

  // ---------- The filter set object ----------

  class FilterSet {
    const groups: seq<Group>
    /** Every filter call this set has made. */
    var calls: multiset<FilterName>

    constructor (groups: seq<Group>)
      ensures this.groups == groups && calls == multiset{}
    {
      this.groups, this.calls := groups, multiset{};
    }

    /** runFilters: one goroutine per filter, whose replies are received in any order. */
    method RunFilters(g: Group, sofar: ContentClass, mode: Mode) returns (r: Result<ContentInfo>)
      modifies `calls
      ensures calls == old(calls) + if sofar in g.checked then Called(g.filters, mode) else multiset{}
      ensures r.Err? <==> sofar in g.checked && GroupFails(g, mode)
      ensures r.Ok? ==> fresh(r.value) && r.value.Valid()
      ensures r.Ok? && r.value.harms.Some? ==> fresh(r.value.harms.value.buf)
      ensures r.Ok? ==> r.value.Value() == if sofar in g.checked then GroupInfo(g, mode) else NEUTRAL
      ensures sofar in g.checked ==>
        GroupAnswers(Outcomes(g.filters, mode), if r.Err? then Err else Ok(r.value.Value()))
    {
      GroupMeaning(g, mode);
      hide GroupAnswers, Outcomes;
      if sofar !in g.checked {
        var neutral := NeutralContent();
        return Ok(neutral);
      }
      var channel := Dispatch(g.filters, mode);
      var rets := Receive(channel, |g.filters|);
      MergeIgnoresArrivalOrder(rets, Replies(g.filters, mode));
      r := Combine(rets);
    }

    /** Starts the filters; every one of them eventually puts its reply on the channel. */
    method Dispatch(fs: seq<Filter>, mode: Mode) returns (channel: multiset<Reply>)
      modifies `calls
      ensures calls == old(calls) + Called(fs, mode)
      ensures channel == multiset(Replies(fs, mode))
    {
      hide Called, Replies, ReplyOf;
      CalledNothing(mode);
      channel := multiset{};
      ghost var replies := Replies(fs, mode);
      for i := 0 to |fs|
        invariant channel == multiset(replies[..i])
        invariant calls == old(calls) + Called(fs[..i], mode)
      {
        CalledNext(fs, mode, i);
        var f := fs[i];
        if f.On(mode).Some? {
          calls := calls + multiset{f.name};
        }
        channel := channel + multiset{ReplyOf(f, mode)};
        assert replies[..i + 1] == replies[..i] + [replies[i]];
      }
      assert fs[..|fs|] == fs && replies[..|fs|] == replies;
    }

    /** Takes the replies off the channel in whatever order they arrive. */
    static method Receive(channel: multiset<Reply>, n: nat) returns (rets: seq<Reply>)
      requires |channel| == n
      ensures multiset(rets) == channel
    {
      rets := [];
      var pending := channel;
      for i := 0 to n
        invariant |pending| == n - i && multiset(rets) + pending == channel
      {
        var got :| got in pending;
        pending := pending - multiset{got};
        rets := rets + [got];
      }
      assert pending == multiset{};
    }

    /** Scans the replies for errors and merges the rest. */
    static method Combine(rets: seq<Reply>) returns (r: Result<ContentInfo>)
      ensures r.Err? <==> AnyError(rets)
      ensures r.Ok? ==> fresh(r.value) && r.value.Valid()
      ensures r.Ok? && r.value.harms.Some? ==> fresh(r.value.harms.value.buf)
      ensures r.Ok? ==> r.value.Value() == Merge(rets)
    {
      var cls, harmIds, failed := Neutral, [], false;
      for i := 0 to |rets|
        invariant failed <==> AnyError(rets[..i])
        invariant !failed ==> cls == TopClass(rets[..i]) && harmIds == AllHarms(rets[..i])
      {
        var ret := rets[i];
        assert rets[..i + 1][..i] == rets[..i];
        assert rets[..i + 1] == rets[..i] + [ret];
        if ret.err {
          failed := true;
        } else {
          harmIds := harmIds + ret.info.harms;
          cls := MaxClass(cls, ret.info.cls);
        }
      }
      assert rets[..|rets|] == rets;
      if failed {
        return Err;
      }
      var buf := new Harm[|harmIds|](i requires 0 <= i < |harmIds| => harmIds[i]);
      assert Slice(buf, |harmIds|).Elems() == harmIds;
      var info := NewContentInfo(cls, Slice(buf, |harmIds|));
      r := Ok(info);
    }

    /** One iteration of the loop over groups; `base` is what had been called before the loop. */
    method NextGroup(mode: Mode, i: nat, cls: ContentClass, harmIds: Slice, ghost base: multiset<FilterName>)
      returns (r: Result<(ContentClass, Slice)>)
      requires i < |groups| && harmIds.Valid() && Replay(groups, mode, i) == Ok(Acc(cls, harmIds.Elems()))
      requires calls == base + Calls(groups, mode, i)
      modifies `calls, harmIds.buf
      ensures calls == base + Calls(groups, mode, i + 1)
      ensures r.Err? <==> Replay(groups, mode, i + 1).Err?
      ensures r.Ok? ==>
        && r.value.1.Valid() && (r.value.1.buf == harmIds.buf || fresh(r.value.1.buf))
        && Replay(groups, mode, i + 1) == Ok(Acc(r.value.0, r.value.1.Elems()))
    {
      hide NewInfo, Settled, Called, GroupInfo, GroupFails, GroupAnswers, Outcomes, Replay, Calls;
      ReplayNext(groups, mode, i, cls, harmIds.Elems());
      var sofar := NewContentInfo(cls, harmIds);
      var got := RunFilters(groups[i], sofar.cls, mode);
      if got.Err? {
        return Err;
      }
      var info := got.value;
      var highest := cls;
      if cls.Rank() < info.cls.Rank() {
        highest := info.cls;
      }
      var more := info.Harms();
      var longer := Append(harmIds, more);
      r := Ok((highest, longer));
    }

    /** The loop over groups that CheckEvent and CheckText share. */
    method FoldGroups(mode: Mode) returns (r: Result<ContentInfo>)
      modifies `calls
      ensures calls == old(calls) + Calls(groups, mode, |groups|)
      ensures r.Err? <==> Outturn(groups, mode).Err?
      ensures r.Ok? ==> fresh(r.value) && r.value.Valid() && r.value.Value() == Outturn(groups, mode).value
    {
      hide NewInfo, Settled, Called, Replay, Calls;
      AtStart(groups, mode);
      var cls := Neutral;
      var empty := new Harm[0];
      var harmIds := Slice(empty, 0);
      for i := 0 to |groups|
        invariant fresh(harmIds.buf) && harmIds.Valid()
        invariant Replay(groups, mode, i) == Ok(Acc(cls, harmIds.Elems()))
        invariant calls == old(calls) + Calls(groups, mode, i)
      {
        var next := NextGroup(mode, i, cls, harmIds, old(calls));
        if next.Err? {
          ErrorIsFinal(groups, mode, i + 1, |groups|);
          return Err;
        }
        cls, harmIds := next.value.0, next.value.1;
      }
      var info := NewContentInfo(cls, harmIds);
      r := Ok(info);
    }

    /** CheckEvent; `contentParses` is whether media extraction, if enabled, can read the event's content. */
    method CheckEvent(senderIsUser: bool, contentParses: bool) returns (r: Result<ContentInfo>)
      modifies `calls
      ensures r.Ok? ==> fresh(r.value) && r.value.Valid()
      ensures !senderIsUser ==>
        && r.Ok? && calls == old(calls)
        && r.value.Value().cls == Prohibited && Elements(r.value.Value().harms) == {SPAM_GENERAL, SPEC_NON_COMPLIANCE}
      ensures senderIsUser && groups != [] && !contentParses ==> r.Err? && calls == old(calls)
      ensures senderIsUser && (groups == [] || contentParses) ==>
        && calls == old(calls) + Calls(groups, Event, |groups|)
        && (r.Err? <==> Outturn(groups, Event).Err?)
        && (r.Ok? ==> r.value.Value() == Outturn(groups, Event).value)
        && Decides(groups, Event, if r.Err? then Err else Ok(r.value.Value()))
    {
      OutturnDecides(groups, Event);
      hide Decides, Outturn;
      if !senderIsUser {
        var buf := new Harm[] [SPAM_GENERAL, SPEC_NON_COMPLIANCE];
        assert Slice(buf, 2).Elems() == [SPAM_GENERAL, SPEC_NON_COMPLIANCE];
        CanonIsCanonical([SPAM_GENERAL, SPEC_NON_COMPLIANCE]);
        var info := ProhibitedContent(Slice(buf, 2));
        return Ok(info);
      }
      if groups != [] && !contentParses {
        return Err;
      }
      r := FoldGroups(Event);
    }

    method CheckText() returns (r: Result<ContentInfo>)
      modifies `calls
      ensures calls == old(calls) + Calls(groups, Text, |groups|)
      ensures r.Err? <==> Outturn(groups, Text).Err?
      ensures r.Ok? ==> fresh(r.value) && r.value.Valid() && r.value.Value() == Outturn(groups, Text).value
      ensures Decides(groups, Text, if r.Err? then Err else Ok(r.value.Value()))
    {
      OutturnDecides(groups, Text);
      hide Decides, Outturn;
      r := FoldGroups(Text);
    }
  }

  /** Once a group errors, no later group runs. */
  lemma ErrorIsFinal(groups: seq<Group>, mode: Mode, k: nat, n: nat)
    requires k <= n <= |groups| && Replay(groups, mode, k).Err?
    ensures Replay(groups, mode, n).Err?
    ensures Calls(groups, mode, n) == Calls(groups, mode, k)
    decreases n
  {
    hide NewInfo, Join, Settled, Called, GroupInfo, GroupFails, Verdict;
    if k < n {
      ErrorIsFinal(groups, mode, k, n - 1);
      GatesAgree(groups, mode, n - 1);
    }
  }
}
