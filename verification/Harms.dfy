/** harms/types.go: harm identifiers, content classes and their canonical combination. */
module Harms {
  import opened Basics

  type Harm = string

  const OTHER_GENERAL: Harm := "org.matrix.msc4456.other"
  const SPAM_GENERAL: Harm := "org.matrix.msc4456.spam"
  const SPAM_FLOODING: Harm := "org.matrix.msc4456.spam.flooding"
  const SPEC_NON_COMPLIANCE: Harm := "org.matrix.policyserv.spec_non_compliance"

  /** Go's zero value for a string, which Compact leaves in the slots it vacates. */
  const ZERO_HARM: Harm := ""

  // ---------- Order of harms ----------

  /** Go's `<` on strings. */
  predicate Below(a: Harm, b: Harm) {
    |b| > 0 && (|a| == 0 || a[0] < b[0] || (a[0] == b[0] && Below(a[1..], b[1..])))
  }

  lemma {:induction false} BelowIsTotal(a: Harm, b: Harm)
    ensures Below(a, b) || a == b || Below(b, a)
    ensures !(Below(a, b) && Below(b, a))
    ensures Below(a, b) ==> a != b
  {
    if |a| > 0 && |b| > 0 {
      BelowIsTotal(a[1..], b[1..]);
      assert a == [a[0]] + a[1..] && b == [b[0]] + b[1..];
    }
  }

  lemma {:induction false} BelowIsTransitive(a: Harm, b: Harm, c: Harm)
    requires Below(a, b) && Below(b, c)
    ensures Below(a, c)
  {
    if |a| > 0 && a[0] == b[0] == c[0] {
      BelowIsTransitive(a[1..], b[1..], c[1..]);
    }
  }

  /** Where two strings first differ, one ends or has the smaller character. */
  lemma {:induction false} BelowExactly(a: Harm, b: Harm)
    ensures Below(a, b) <==>
      exists k: nat :: k <= |a| && k < |b| && a[..k] == b[..k] && (k < |a| ==> a[k] < b[k])
  {
    if |a| > 0 && |b| > 0 && a[0] == b[0] {
      BelowExactly(a[1..], b[1..]);
      if k: nat :| k < |a| && k < |b[1..]| && a[1..][..k] == b[1..][..k] && (k < |a[1..]| ==> a[1..][k] < b[1..][k]) {
        assert a[..k + 1] == [a[0]] + a[1..][..k] && b[..k + 1] == [b[0]] + b[1..][..k];
        assert k + 1 < |a| ==> a[k + 1] < b[k + 1];
      }
      if k: nat :| k <= |a| && k < |b| && a[..k] == b[..k] && (k < |a| ==> a[k] < b[k]) {
        assert k > 0;
        assert a[1..][..k - 1] == a[..k][1..] && b[1..][..k - 1] == b[..k][1..];
      }
    } else if Below(a, b) {
      assert a[..0] == b[..0];
    }
  }

  ghost predicate Ascending(s: seq<Harm>) {
    forall i, j :: 0 <= i < j < |s| ==> !Below(s[j], s[i])
  }

  ghost predicate StrictlyAscending(s: seq<Harm>) {
    forall i, j :: 0 <= i < j < |s| ==> Below(s[i], s[j])
  }

  lemma StrictlyAscendingIsDistinct(s: seq<Harm>)
    requires StrictlyAscending(s)
    ensures Distinct(s)
  {
    forall i, j | 0 <= i < j < |s| ensures s[i] != s[j] {
      BelowIsTotal(s[i], s[j]);
    }
  }

  // ---------- slices.Sort ----------

  function Insert(x: Harm, s: seq<Harm>): seq<Harm> {
    if s == [] || !Below(s[0], x) then [x] + s else [s[0]] + Insert(x, s[1..])
  }

  /** What slices.Sort leaves in the slice. */
  function Sort(s: seq<Harm>): seq<Harm> {
    if s == [] then [] else Insert(s[0], Sort(s[1..]))
  }

  lemma {:induction false} InsertContents(x: Harm, s: seq<Harm>)
    ensures multiset(Insert(x, s)) == multiset(s) + multiset{x}
  {
    if s != [] {
      assert s == [s[0]] + s[1..];
      if Below(s[0], x) {
        InsertContents(x, s[1..]);
      }
    }
  }

  lemma {:induction false} InsertKeepsOrder(x: Harm, s: seq<Harm>)
    requires Ascending(s)
    ensures Ascending(Insert(x, s))
  {
    if s != [] && Below(s[0], x) {
      InsertKeepsOrder(x, s[1..]);
      var rest := Insert(x, s[1..]);
      InsertContents(x, s[1..]);
      forall j | 0 <= j < |rest| ensures !Below(rest[j], s[0]) {
        assert rest[j] in multiset(rest);
        BelowIsTotal(s[0], x);
      }
    } else if s != [] {
      forall j | 0 <= j < |s| ensures !Below(s[j], x) {
        HeadIsLowest(x, s, j);
      }
    }
  }

  lemma HeadIsLowest(x: Harm, s: seq<Harm>, j: nat)
    requires Ascending(s) && j < |s| && !Below(s[0], x)
    ensures !Below(s[j], x)
  {
    if Below(s[j], x) {
      BelowIsTotal(s[0], x);
      BelowIsTotal(s[0], s[j]);
      if j > 0 && s[0] != s[j] {
        BelowIsTransitive(s[0], s[j], x);
      }
    }
  }

  lemma {:induction false} SortContents(s: seq<Harm>)
    ensures multiset(Sort(s)) == multiset(s)
  {
    if s != [] {
      SortContents(s[1..]);
      InsertContents(s[0], Sort(s[1..]));
      assert s == [s[0]] + s[1..];
    }
  }

  lemma {:induction false} SortOrders(s: seq<Harm>)
    ensures Ascending(Sort(s))
  {
    if s != [] {
      SortOrders(s[1..]);
      InsertKeepsOrder(s[0], Sort(s[1..]));
    }
  }

  lemma SortSorts(s: seq<Harm>)
    ensures Ascending(Sort(s))
    ensures multiset(Sort(s)) == multiset(s)
    ensures Elements(Sort(s)) == Elements(s)
    ensures |Sort(s)| == |s|
  {
    hide Sort, Ascending, Below;
    SortOrders(s);
    SortContents(s);
    assert forall x :: x in Sort(s) <==> x in multiset(Sort(s));
    assert |multiset(Sort(s))| == |multiset(s)|;
  }

  // ---------- slices.Compact ----------

  /** Drops every element that equals the one before it. */
  function Squash(s: seq<Harm>): seq<Harm> {
    if |s| < 2 then s
    else if s[|s| - 1] == s[|s| - 2] then Squash(s[..|s| - 1])
    else Squash(s[..|s| - 1]) + [s[|s| - 1]]
  }

  lemma {:induction false} SquashCompacts(s: seq<Harm>)
    requires Ascending(s)
    ensures StrictlyAscending(Squash(s))
    ensures Elements(Squash(s)) == Elements(s)
    ensures |Squash(s)| <= |s|
    ensures |s| > 0 ==> |Squash(s)| > 0 && Squash(s)[|Squash(s)| - 1] == s[|s| - 1]
    ensures |Squash(s)| == |s| <==> Distinct(s)
  {
    if |s| >= 2 {
      var front, last := s[..|s| - 1], s[|s| - 1];
      SquashCompacts(front);
      assert s == front + [last];
      var kept := Squash(front);
      if last != s[|s| - 2] {
        forall i | 0 <= i < |kept| ensures Below(kept[i], last) {
          assert kept[i] in Elements(kept);
          var k :| 0 <= k < |front| && front[k] == kept[i];
          BelowIsTotal(s[k], s[|s| - 2]);
          BelowIsTotal(s[|s| - 2], last);
          if k < |s| - 2 && s[k] != s[|s| - 2] {
            BelowIsTransitive(s[k], s[|s| - 2], last);
          }
        }
        ElementsOfConcat(front, [last]);
        ElementsOfConcat(kept, [last]);
      } else {
        assert s[|s| - 1] == s[|s| - 2];
      }
    }
  }

  // ---------- Canonical harm lists ----------

  /** deduplicateHarms: sort, then compact. */
  function Canon(s: seq<Harm>): seq<Harm> {
    Squash(Sort(s))
  }

  lemma CanonIsCanonical(s: seq<Harm>)
    ensures StrictlyAscending(Canon(s))
    ensures Elements(Canon(s)) == Elements(s)
    ensures |Canon(s)| <= |s|
    ensures s != [] <==> Canon(s) != []
    ensures |Canon(s)| == |s| <==> Distinct(s)
  {
    SortSorts(s);
    SquashCompacts(Sort(s));
    SameMultisetSameDistinct(s, Sort(s));
  }

  /** A strictly ascending list is determined by its elements. */
  lemma {:induction false} StrictlyAscendingUnique(s: seq<Harm>, t: seq<Harm>)
    requires StrictlyAscending(s) && StrictlyAscending(t)
    requires Elements(s) == Elements(t)
    ensures s == t
  {
    if s != [] {
      assert s[0] in Elements(t);
    }
    if t != [] {
      assert t[0] in Elements(s);
    }
    if s != [] && t != [] {
      HeadIsLeast(s, t[0]);
      HeadIsLeast(t, s[0]);
      BelowIsTotal(s[0], t[0]);
      TailElements(s);
      TailElements(t);
      StrictlyAscendingUnique(s[1..], t[1..]);
      assert s == [s[0]] + s[1..] && t == [t[0]] + t[1..];
    }
  }

  lemma HeadIsLeast(s: seq<Harm>, x: Harm)
    requires StrictlyAscending(s) && x in s
    ensures s[0] == x || Below(s[0], x)
  {
  }

  lemma TailElements(s: seq<Harm>)
    requires StrictlyAscending(s) && s != []
    ensures StrictlyAscending(s[1..])
    ensures Elements(s[1..]) == Elements(s) - {s[0]}
  {
    forall x | x in s[1..] ensures x != s[0] {
      BelowIsTotal(s[0], x);
    }
    forall x | x in s && x != s[0] ensures x in s[1..] {
      var i :| 0 <= i < |s| && s[i] == x;
      assert s[1..][i - 1] == x;
    }
  }

  /** deduplicateHarms is a canonical form: equal outputs exactly for equal element sets. */
  lemma CanonDecidesElements(s: seq<Harm>, t: seq<Harm>)
    ensures Canon(s) == Canon(t) <==> Elements(s) == Elements(t)
  {
    CanonIsCanonical(s);
    CanonIsCanonical(t);
    if Elements(s) == Elements(t) {
      StrictlyAscendingUnique(Canon(s), Canon(t));
    }
  }

  lemma CanonOfCanonical(s: seq<Harm>)
    requires StrictlyAscending(s)
    ensures Canon(s) == s
  {
    CanonIsCanonical(s);
    StrictlyAscendingUnique(Canon(s), s);
  }

  // ---------- Content classes and infos ----------

  datatype ContentClass = Neutral | Allowed | Prohibited {
    function Rank(): nat {
      match this
      case Neutral => 0
      case Allowed => 1
      case Prohibited => 2
    }
  }

  function MaxClass(a: ContentClass, b: ContentClass): ContentClass {
    if a.Rank() < b.Rank() then b else a
  }

  /** The observable value of a ContentInfo. */
  datatype Info = Info(cls: ContentClass, harms: seq<Harm>) {
    /** What every constructor establishes. */
    ghost predicate WellFormed() {
      && StrictlyAscending(harms)
      && (cls.Prohibited? <==> harms != [])
    }
  }

  const NEUTRAL := Info(Neutral, [])
  const ALLOWED := Info(Allowed, [])

  /** A ContentInfo can only be obtained from its constructors. */
  type BuiltInfo = i: Info | i.WellFormed() witness NEUTRAL

  function NewInfo(cls: ContentClass, harms: seq<Harm>): (r: Info)
    ensures r.WellFormed()
    ensures r.cls.Prohibited? <==> cls.Prohibited? || harms != []
    ensures harms != [] ==> Elements(r.harms) == Elements(harms)
    ensures harms == [] && !cls.Prohibited? ==> r == Info(cls, [])
  {
    var listed := if harms == [] && cls.Prohibited? then [OTHER_GENERAL] else harms;
    CanonIsCanonical(listed);
    Info(if listed != [] then Prohibited else cls, Canon(listed))
  }

  function ProhibitedInfo(harms: seq<Harm>): (r: Info)
    ensures r.WellFormed() && r.cls.Prohibited?
  {
    var listed := if harms == [] then [OTHER_GENERAL] else harms;
    CanonIsCanonical(listed);
    Info(Prohibited, Canon(listed))
  }

  lemma ProhibitedElements(harms: seq<Harm>)
    ensures Elements(ProhibitedInfo(harms).harms) == if harms == [] then {OTHER_GENERAL} else Elements(harms)
  {
    CanonIsCanonical(harms);
    CanonIsCanonical([OTHER_GENERAL]);
  }

  lemma WellFormedUnique(a: Info, b: Info)
    requires a.WellFormed() && b.WellFormed()
    requires a.cls == b.cls && Elements(a.harms) == Elements(b.harms)
    ensures a == b
  {
    StrictlyAscendingUnique(a.harms, b.harms);
  }

  /** Merging two verdicts the way the filter pipeline does. */
  function Join(a: Info, b: Info): Info {
    NewInfo(MaxClass(a.cls, b.cls), a.harms + b.harms)
  }

  lemma JoinIsUnion(a: Info, b: Info)
    requires a.WellFormed() && b.WellFormed()
    ensures Join(a, b).WellFormed()
    ensures Join(a, b).cls == MaxClass(a.cls, b.cls)
    ensures Elements(Join(a, b).harms) == Elements(a.harms) + Elements(b.harms)
  {
  }

  lemma JoinIsAssociative(a: Info, b: Info, c: Info)
    requires a.WellFormed() && b.WellFormed() && c.WellFormed()
    ensures Join(a, Join(b, c)) == Join(Join(a, b), c)
  {
    JoinIsUnion(a, b);
    JoinIsUnion(b, c);
    var left, right := Join(Join(a, b), c), Join(a, Join(b, c));
    assert left.WellFormed() && left.cls == MaxClass(MaxClass(a.cls, b.cls), c.cls)
        && Elements(left.harms) == Elements(a.harms) + Elements(b.harms) + Elements(c.harms) by {
      JoinIsUnion(Join(a, b), c);
    }
    assert right.WellFormed() && right.cls == MaxClass(a.cls, MaxClass(b.cls, c.cls))
        && Elements(right.harms) == Elements(a.harms) + (Elements(b.harms) + Elements(c.harms)) by {
      JoinIsUnion(a, Join(b, c));
    }
    WellFormedUnique(right, left);
  }

  /** With associativity, this makes infos under Join a bounded semilattice. */
  lemma JoinLaws(a: Info, b: Info)
    requires a.WellFormed() && b.WellFormed()
    ensures Join(a, b) == Join(b, a)
    ensures Join(a, a) == a
    ensures Join(NEUTRAL, a) == a
  {
    assert Join(a, b) == Join(b, a) by {
      JoinIsUnion(a, b);
      JoinIsUnion(b, a);
      WellFormedUnique(Join(a, b), Join(b, a));
    }
    assert Join(a, a) == a by {
      JoinIsUnion(a, a);
      WellFormedUnique(Join(a, a), a);
    }
    assert Join(NEUTRAL, a) == a by {
      JoinIsUnion(NEUTRAL, a);
      WellFormedUnique(Join(NEUTRAL, a), a);
    }
  }
}
