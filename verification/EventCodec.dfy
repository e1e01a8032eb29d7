/**
 * storage/psql.go: how an event's verdict is written to, and read back from, the map of "vectors" in its row. Only the
 * keys of the map carry information.
 */
module EventCodec {
  import opened Basics
  import opened Harms

  const VEC: string := "org.matrix.policyserv.vec."
  const ALLOWED_KEY: string := "Allowed"

  /** The column: legacy rows may be empty, and text that is not JSON cannot be read. */
  datatype Column = EmptyText | BadJson | Vectors(keys: set<string>)

  /** The key a harm is stored under. */
  function KeyOf(h: Harm): string {
    if VEC <= h then h[|VEC|..] else "h:" + h
  }

  /** The harm a key stands for, if any. */
  function HarmOf(k: string): Option<Harm> {
    if k == ALLOWED_KEY then None else if "h:" <= k then Some(k[2..]) else Some(VEC + k)
  }

  function Keys(info: Info): set<string> {
    (set h | h in info.harms :: KeyOf(h)) + if info.cls == Allowed then {ALLOWED_KEY} else {}
  }

  function Decoded(keys: set<string>): set<Harm> {
    set k | k in keys && HarmOf(k).Some? :: HarmOf(k).value
  }

  /** UpsertEventResult, up to the JSON encoding of the map. */
  method UpsertEventResult(info: Info) returns (c: Column)
    ensures c == Vectors(Keys(info))
  {
    var decodedVectors := {};
    for i := 0 to |info.harms|
      invariant decodedVectors == set h | h in info.harms[..i] :: KeyOf(h)
    {
      var harm := info.harms[i];
      var key := if VEC <= harm then harm[|VEC|..] else "h:" + harm;
      assert key == KeyOf(harm);
      decodedVectors := decodedVectors + {key};
      assert info.harms[..i + 1] == info.harms[..i] + [info.harms[i]];
    }
    assert info.harms[..|info.harms|] == info.harms;
    if info.cls == Allowed {
      decodedVectors := decodedVectors + {ALLOWED_KEY};
    }
    c := Vectors(decodedVectors);
  }

  /** What reading a column yields; a well-formed info is determined by its class and harms. */
  ghost predicate ReadsAs(c: Column, r: Result<Info>) {
    match c
    case EmptyText => r == Ok(NEUTRAL)
    case BadJson => r.Err?
    case Vectors(keys) =>
      && r.Ok? && r.value.WellFormed() && r.value.cls == Prohibited
      && Elements(r.value.harms) == if Decoded(keys) == {} then {OTHER_GENERAL} else Decoded(keys)
  }

  /** GetEventResult on a stored row; the keys of the map come in any order. */
  method GetEventResult(c: Column) returns (r: Result<Info>)
    ensures ReadsAs(c, r)
  {
    match c {
      case EmptyText =>
        r := Ok(NEUTRAL);
      case BadJson =>
        r := Err;
      case Vectors(keys) =>
        var wasAllowed, harmIds: seq<Harm>, todo := false, [], keys;
        while todo != {}
          invariant todo <= keys && Elements(harmIds) == Decoded(keys - todo)
          decreases todo
        {
          var k :| k in todo;
          DecodedNext(keys - todo, k);
          assert keys - (todo - {k}) == (keys - todo) + {k};
          todo := todo - {k};
          if k == ALLOWED_KEY {
            wasAllowed := true;
          } else if "h:" <= k {
            ElementsOfConcat(harmIds, [k[2..]]);
            harmIds := harmIds + [k[2..]];
          } else {
            ElementsOfConcat(harmIds, [VEC + k]);
            harmIds := harmIds + [VEC + k];
          }
        }
        assert keys - todo == keys;
        NoElements(harmIds);
        var info := NEUTRAL;
        if wasAllowed && harmIds == [] {
          info := ALLOWED;
        }
        info := ProhibitedInfo(harmIds);  // as in the source, this overwrites the Allowed result
        ProhibitedElements(harmIds);
        r := Ok(info);
    }
  }

  lemma DecodedNext(keys: set<string>, k: string)
    ensures Decoded(keys + {k}) == Decoded(keys) + if HarmOf(k).Some? then {HarmOf(k).value} else {}
  {
  }

  /** A harm whose key is not mistaken for something else when it is read. */
  predicate Readable(h: Harm) {
    VEC <= h ==> h[|VEC|..] != ALLOWED_KEY && !("h:" <= h[|VEC|..])
  }

  /** A readable harm comes back as itself; any other is lost or comes back shorter. */
  lemma HarmRoundTrip(h: Harm)
    ensures Readable(h) ==> HarmOf(KeyOf(h)) == Some(h)
    ensures !Readable(h) ==> HarmOf(KeyOf(h)).None? || |HarmOf(KeyOf(h)).value| < |h|
  {
    if VEC <= h {
      assert h == VEC + h[|VEC|..];
    } else {
      assert ("h:" + h)[2..] == h;
      assert ("h:" + h)[0] == 'h';
    }
  }

  /** On readable harms the key encoding is injective. */
  lemma KeysAreInjective(a: Harm, b: Harm)
    requires Readable(a) && Readable(b) && KeyOf(a) == KeyOf(b)
    ensures a == b
  {
    HarmRoundTrip(a);
    HarmRoundTrip(b);
  }

  lemma {:induction false} LongestUnreadable(hs: seq<Harm>) returns (h: Harm)
    requires exists x :: x in hs && !Readable(x)
    ensures h in hs && !Readable(h) && forall x :: x in hs && !Readable(x) ==> |x| <= |h|
  {
    var front, last := hs[..|hs| - 1], hs[|hs| - 1];
    assert hs == front + [last];
    if exists x :: x in front && !Readable(x) {
      h := LongestUnreadable(front);
      if !Readable(last) && |last| > |h| {
        h := last;
      }
    } else {
      h := last;
    }
  }

  lemma DecodedKeys(info: Info, x: Harm)
    requires info.WellFormed() && info.cls == Prohibited
    ensures x in Decoded(Keys(info)) <==> exists h :: h in info.harms && HarmOf(KeyOf(h)) == Some(x)
  {
  }

  lemma ReadableComeBack(info: Info, r: Result<Info>)
    requires info.WellFormed() && ReadsAs(Vectors(Keys(info)), r)
    requires info.cls == Prohibited && forall h :: h in info.harms ==> Readable(h)
    ensures r == Ok(info)
  {
    forall x ensures x in Decoded(Keys(info)) <==> x in info.harms {
      DecodedKeys(info, x);
      forall h | h in info.harms ensures HarmOf(KeyOf(h)) == Some(h) {
        HarmRoundTrip(h);
      }
    }
    assert Decoded(Keys(info)) == Elements(info.harms);
    NoElements(info.harms);
    WellFormedUnique(r.value, info);
  }

  lemma OtherIsReadable()
    ensures Readable(OTHER_GENERAL)
  {
  }

  lemma UnreadableDoNotComeBack(info: Info, r: Result<Info>)
    requires info.WellFormed() && ReadsAs(Vectors(Keys(info)), r)
    requires info.cls == Prohibited && exists h :: h in info.harms && !Readable(h)
    ensures r != Ok(info)
  {
    var worst := LongestUnreadable(info.harms);
    if worst in Decoded(Keys(info)) {
      DecodedKeys(info, worst);
      var h :| h in info.harms && HarmOf(KeyOf(h)) == Some(worst);
      HarmRoundTrip(h);
      assert false;
    }
    OtherIsReadable();
    assert worst in Elements(info.harms);
    assert worst !in Elements(r.value.harms);
  }

  /**
   * Exactly when a verdict survives storage: it is Prohibited, and no harm in the vector namespace has a suffix that
   * reads as something else. A Neutral or Allowed verdict comes back as Prohibited.
   */
  lemma VerdictSurvivesExactly(info: Info, r: Result<Info>)
    requires info.WellFormed() && ReadsAs(Vectors(Keys(info)), r)
    ensures r == Ok(info) <==> info.cls == Prohibited && forall h :: h in info.harms ==> Readable(h)
    ensures info.cls != Prohibited ==> r == Ok(Info(Prohibited, [OTHER_GENERAL]))
  {
    if info.cls == Prohibited {
      if forall h :: h in info.harms ==> Readable(h) {
        ReadableComeBack(info, r);
      } else {
        UnreadableDoNotComeBack(info, r);
      }
    } else {
      assert Decoded(Keys(info)) == {};
      StrictlyAscendingUnique(r.value.harms, [OTHER_GENERAL]);
    }
  }
}
