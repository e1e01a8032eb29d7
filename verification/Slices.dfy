/** Go slices of harms over shared buffers, and the ContentInfo object of harms/types.go. */
module Slices {
  import opened Basics
  import opened Harms

  /** A slice header: the first `len` cells of a buffer that other headers may share. */
  datatype Slice = Slice(buf: array<Harm>, len: nat) {
    ghost predicate Valid() {
      len <= buf.Length
    }

    ghost function Elems(): seq<Harm>
      requires Valid()
      reads buf
    {
      buf[..len]
    }
  }

  function Zeros(n: nat): (z: seq<Harm>)
    ensures |z| == n
  {
    seq(n, _ => ZERO_HARM)
  }

  /** Go's append: in place when the capacity allows, otherwise into a new buffer of unspecified capacity. */
  method Append(s: Slice, more: Slice) returns (r: Slice)
    requires s.Valid() && more.Valid() && s.buf != more.buf
    modifies s.buf
    ensures r.Valid()
    ensures r.buf == s.buf || fresh(r.buf)
    ensures r.Elems() == old(s.Elems()) + old(more.Elems())
    ensures s.Elems() == old(s.Elems())
  {
    var total := s.len + more.len;
    var buf := s.buf;
    if total > s.buf.Length {
      var capacity :| total <= capacity;
      buf := new Harm[capacity](_ => ZERO_HARM);
      forall i | 0 <= i < s.len { buf[i] := s.buf[i]; }
    }
    forall i | 0 <= i < more.len { buf[s.len + i] := more.buf[i]; }
    r := Slice(buf, total);
    ghost var was, added := old(s.Elems()), old(more.Elems());
    forall i | 0 <= i < total ensures buf[i] == (was + added)[i] {
      assert i < s.len ==> buf[i] == was[i];
      assert i >= s.len ==> buf[i] == added[i - s.len];
    }
    assert r.Elems() == was + added;
  }

  /** slices.Sort, a library routine: only its effect on the slice is modelled. */
  method SortInPlace(s: Slice)
    requires s.Valid()
    modifies s.buf
    ensures s.Elems() == Sort(old(s.Elems()))
    ensures forall i :: s.len <= i < s.buf.Length ==> s.buf[i] == old(s.buf[i])
  {
    var sorted := Sort(s.buf[..s.len]);
    SortSorts(s.buf[..s.len]);
    forall i | 0 <= i < s.len { s.buf[i] := sorted[i]; }
  }

  /** slices.Compact: moves the kept elements down and clears the cells they leave behind. */
  method CompactInPlace(s: Slice) returns (r: Slice)
    requires s.Valid()
    modifies s.buf
    ensures r.Valid() && r.buf == s.buf && r.len <= s.len
    ensures r.Elems() == Squash(old(s.Elems()))
    ensures s.Elems() == r.Elems() + Zeros(s.len - r.len)
    ensures forall i :: s.len <= i < s.buf.Length ==> s.buf[i] == old(s.buf[i])
  {
    var a := s.buf;
    ghost var was := a[..];
    if s.len < 2 {
      return s;
    }
    var k := 1;
    while k < s.len && a[k] != a[k - 1]
      invariant 1 <= k <= s.len
      invariant a[..] == was && Squash(was[..k]) == was[..k]
    {
      SquashStep(was, k);
      assert was[..k + 1] == was[..k] + [was[k]];
      k := k + 1;
    }
    if k == s.len {
      return s;
    }
    SquashStep(was, k);
    assert forall i :: 0 <= i < a.Length ==> a[i] == was[i];
    r := CloseGaps(s, k);
    assert was[..s.len] == old(s.Elems());
  }

  /** The rest of Compact, from the first element found to repeat its predecessor. */
  method CloseGaps(s: Slice, first: nat) returns (r: Slice)
    requires s.Valid() && 1 <= first < s.len
    requires Squash(s.buf[..first + 1]) == s.buf[..first]
    modifies s.buf
    ensures r.Valid() && r.buf == s.buf && r.len <= s.len
    ensures r.Elems() == Squash(old(s.Elems()))
    ensures s.Elems() == r.Elems() + Zeros(s.len - r.len)
    ensures forall i :: s.len <= i < s.buf.Length ==> s.buf[i] == old(s.buf[i])
  {
    hide Squash;
    var a, k, j := s.buf, first, first + 1;
    ghost var was := a[..];
    assert was[..first + 1] == a[..first + 1];
    while j < s.len
      invariant 1 <= k < j <= s.len
      invariant a[..k] == Squash(was[..j])
      invariant forall i :: j - 1 <= i < a.Length ==> a[i] == was[i]
    {
      SquashStep(was, j);
      if a[j] != a[j - 1] {
        a[k] := a[j];
        k := k + 1;
      }
      j := j + 1;
    }
    forall i | k <= i < s.len { a[i] := ZERO_HARM; }
    r := Slice(a, k);
    assert was[..s.len] == old(s.Elems());
  }

  lemma SquashStep(s: seq<Harm>, k: nat)
    requires 1 <= k < |s|
    ensures Squash(s[..k + 1]) == if s[k] == s[k - 1] then Squash(s[..k]) else Squash(s[..k]) + [s[k]]
  {
    assert s[..k + 1][..k] == s[..k];
  }

  /** The tail that deduplication leaves in the caller's own slice. */
  function Settled(s: seq<Harm>): (r: seq<Harm>)
    ensures |r| == |s|
  {
    CanonIsCanonical(s);
    Canon(s) + Zeros(|s| - |Canon(s)|)
  }

  lemma SettledElements(s: seq<Harm>)
    ensures Elements(Settled(s)) == Elements(s) + if Distinct(s) then {} else {ZERO_HARM}
    ensures Distinct(s) ==> Settled(s) == Canon(s) && Distinct(Settled(s))
  {
    CanonIsCanonical(s);
    var z := Zeros(|s| - |Canon(s)|);
    ElementsOfConcat(Canon(s), z);
    if Distinct(s) {
      StrictlyAscendingIsDistinct(Canon(s));
      assert Settled(s) == Canon(s);
    } else {
      assert z[0] == ZERO_HARM;
      assert Elements(z) == {ZERO_HARM};
    }
  }

  /** deduplicateHarms works in the slice it is given and returns a shorter header over it. */
  method DeduplicateHarms(s: Slice) returns (r: Slice)
    requires s.Valid()
    modifies s.buf
    ensures r.Valid() && r.buf == s.buf
    ensures r.Elems() == Canon(old(s.Elems()))
    ensures s.Elems() == Settled(old(s.Elems()))
  {
    SortInPlace(s);
    r := CompactInPlace(s);
  }

  class ContentInfo {
    var cls: ContentClass
    var harms: Option<Slice>  // None is Go's nil slice

    constructor (cls: ContentClass, harms: Option<Slice>)
      ensures this.cls == cls && this.harms == harms
    {
      this.cls, this.harms := cls, harms;
    }

    ghost predicate Valid()
      reads this
    {
      harms.Some? ==> harms.value.Valid()
    }

    ghost function Value(): Info
      requires Valid()
      reads this, if harms.Some? then {harms.value.buf} else {}
    {
      Info(cls, if harms.Some? then harms.value.Elems() else [])
    }

    /** Harms: replaces a nil slice by an empty one before returning it. */
    method Harms() returns (s: Slice)
      requires Valid()
      modifies `harms
      ensures Valid() && harms == Some(s)
      ensures old(harms).Some? ==> Some(s) == old(harms)
      ensures old(harms).None? ==> fresh(s.buf)
      ensures Value() == old(Value())
      ensures s.Elems() == Value().harms
    {
      if harms.None? {
        var empty := new Harm[0];
        harms := Some(Slice(empty, 0));
      }
      s := harms.value;
    }
  }

  /** The result aliases `harms`, and the caller's view of `harms` changes. */
  method NewContentInfo(cls: ContentClass, harms: Slice) returns (r: ContentInfo)
    requires harms.Valid()
    modifies harms.buf
    ensures fresh(r) && r.Valid()
    ensures r.harms.Some? && (r.harms.value.buf == harms.buf || fresh(r.harms.value.buf))
    ensures r.Value() == NewInfo(cls, old(harms.Elems()))
    ensures harms.Elems() == Settled(old(harms.Elems()))
  {
    var c, listed := cls, harms;
    if harms.len == 0 && cls.Prohibited? {
      var other := new Harm[1](_ => OTHER_GENERAL);
      listed := Slice(other, 1);
      assert listed.Elems() == [OTHER_GENERAL];
    }
    if listed.len > 0 {
      c := Prohibited;
    }
    var kept := DeduplicateHarms(listed);
    r := new ContentInfo(c, Some(kept));
    assert harms.len == 0 ==> harms.Elems() == [] == Settled([]);
  }

  method ProhibitedContent(harms: Slice) returns (r: ContentInfo)
    requires harms.Valid()
    modifies harms.buf
    ensures fresh(r) && r.Valid()
    ensures r.Value() == ProhibitedInfo(old(harms.Elems()))
    ensures harms.Elems() == Settled(old(harms.Elems()))
  {
    var listed := harms;
    if harms.len == 0 {
      var other := new Harm[1](_ => OTHER_GENERAL);
      listed := Slice(other, 1);
      assert listed.Elems() == [OTHER_GENERAL];
    }
    var kept := DeduplicateHarms(listed);
    r := new ContentInfo(Prohibited, Some(kept));
    assert harms.len == 0 ==> harms.Elems() == [] == Settled([]);
  }

  method NeutralContent() returns (r: ContentInfo)
    ensures fresh(r) && r.Valid() && r.harms.None?
    ensures r.Value() == NEUTRAL
  {
    r := new ContentInfo(Neutral, None);
  }
}
