/** storage/interface.go: media classifications, stored as an array that starts with the content class. */
module ClassificationCodec {
  import opened Basics
  import opened Harms

  /** What the database driver hands to Scan. */
  datatype Source = NotBytes | BadJson | Strings(items: seq<string>)

  /** ContentClass.String() */
  function ClassName(c: ContentClass): string {
    match c
    case Neutral => "Neutral"
    case Allowed => "Allowed"
    case Prohibited => "Prohibited"
  }

  /** StoredClassifications.Value, up to the JSON encoding of the array. */
  method Value(info: Info) returns (items: seq<string>)
    ensures items == [ClassName(info.cls)] + info.harms
  {
    items := [ClassName(info.cls)];
    for i := 0 to |info.harms|
      invariant items == [ClassName(info.cls)] + info.harms[..i]
    {
      items := items + [info.harms[i]];
    }
  }

  /** What an array of strings means. */
  function Scanned(items: seq<string>): Result<Info> {
    if items == [] then Ok(NEUTRAL)
    else if items[0] == ClassName(Neutral) then (if |items| == 1 then Ok(NEUTRAL) else Err)
    else if items[0] == ClassName(Allowed) then (if |items| == 1 then Ok(ALLOWED) else Err)
    else Ok(ProhibitedInfo(if items[0] == ClassName(Prohibited) then items[1..] else items))
  }

  /** StoredClassifications.Scan; a source that is not bytes leaves the current info alone. */
  method Scan(src: Source, current: Info) returns (r: Result<Info>)
    ensures src.NotBytes? ==> r == Ok(current)
    ensures src.BadJson? ==> r.Err?
    ensures src.Strings? ==> r == Scanned(src.items)
  {
    if src.NotBytes? {
      return Ok(current);
    }
    if src.BadJson? {
      return Err;
    }
    var items := src.items;
    if items == [] {
      return Ok(NEUTRAL);
    }
    if items[0] == ClassName(Neutral) {
      if |items| != 1 {
        return Err;
      }
      return Ok(NEUTRAL);
    }
    if items[0] == ClassName(Allowed) {
      if |items| != 1 {
        return Err;
      }
      return Ok(ALLOWED);
    }
    if items[0] == ClassName(Prohibited) {
      items := items[1..];
    }
    var harmIds: seq<Harm> := [];
    for i := 0 to |items|
      invariant harmIds == items[..i]
    {
      harmIds := harmIds + [items[i]];
    }
    assert harmIds == items;
    r := Ok(ProhibitedInfo(harmIds));
  }

  lemma ProhibitedOfCanonical(harms: seq<Harm>)
    requires StrictlyAscending(harms) && harms != []
    ensures ProhibitedInfo(harms) == Info(Prohibited, harms)
  {
    CanonOfCanonical(harms);
  }

  /** Scan undoes Value, even for harms spelled like a class name. */
  lemma ScanUndoesValue(info: Info)
    requires info.WellFormed()
    ensures Scanned([ClassName(info.cls)] + info.harms) == Ok(info)
  {
    var items := [ClassName(info.cls)] + info.harms;
    assert items[0] == ClassName(info.cls) && items[1..] == info.harms;
    if info.cls == Prohibited {
      ProhibitedOfCanonical(info.harms);
    }
  }

  /** What the empty array, the class names alone, and a marked list of harms mean. */
  lemma ScannedMarkers(harms: seq<string>)
    ensures Scanned([]) == Scanned(["Neutral"]) == Ok(Info(Neutral, []))
    ensures Scanned(["Allowed"]) == Ok(Info(Allowed, []))
    ensures Scanned(["Prohibited"]) == Ok(Info(Prohibited, [OTHER_GENERAL]))
    ensures harms != [] ==> ReadsAsLegacy(harms, Scanned(["Prohibited"] + harms))
  {
    ProhibitedOfCanonical([OTHER_GENERAL]);
    hide ProhibitedInfo;
    assert (["Prohibited"] + harms)[1..] == harms && ["Prohibited"][1..] == [];
    ProhibitedElements(harms);
    NoHarmsIsOther();
  }

  lemma NoHarmsIsOther()
    ensures ProhibitedInfo([]) == Info(Prohibited, [OTHER_GENERAL])
  {
    ProhibitedOfCanonical([OTHER_GENERAL]);
  }

  predicate IsClassName(s: string) {
    s == ClassName(Neutral) || s == ClassName(Allowed) || s == ClassName(Prohibited)
  }

  /** Read as a legacy list of classifications, the array is Prohibited with exactly its own elements. */
  ghost predicate ReadsAsLegacy(items: seq<string>, r: Result<Info>) {
    r.Ok? && r.value.WellFormed() && r.value.cls == Prohibited && Elements(r.value.harms) == Elements(items)
  }

  /** Exactly which arrays keep their legacy meaning: those whose first element is no class name that gets dropped. */
  lemma LegacyMeaningExactly(items: seq<string>)
    ensures ReadsAsLegacy(items, Scanned(items)) <==>
      items != [] && (!IsClassName(items[0]) || (items[0] == ClassName(Prohibited) && items[0] in items[1..]))
  {
    hide ProhibitedInfo;
    if items != [] && items[0] == ClassName(Prohibited) {
      DroppedMarker(items);
    } else if items != [] {
      ProhibitedElements(items);
    }
  }

  lemma DroppedMarker(items: seq<string>)
    requires items != [] && items[0] == ClassName(Prohibited)
    ensures Elements(ProhibitedInfo(items[1..]).harms) == Elements(items) <==> items[0] in items[1..]
  {
    hide ProhibitedInfo;
    ProhibitedElements(items[1..]);
    assert items == [items[0]] + items[1..];
    ElementsOfConcat([items[0]], items[1..]);
    assert Elements([items[0]]) == {items[0]};
    assert |OTHER_GENERAL| != |ClassName(Prohibited)|;
    assert items[0] in items[1..] <==> items[0] in Elements(items[1..]);
  }

  /** Only a Neutral or Allowed marker followed by harms is an error. */
  lemma ScanErrorsExactly(items: seq<string>)
    ensures Scanned(items).Err? <==>
      |items| > 1 && (items[0] == ClassName(Neutral) || items[0] == ClassName(Allowed))
    ensures Scanned(items).Ok? ==> Scanned(items).value.WellFormed()
  {
  }

  /** Legacy lists that start like a marked one: the first is an error, and the second loses its first element. */
  lemma LegacyListsMisread()
    ensures Scanned(["Allowed", "x"]).Err?
    ensures Scanned(["Prohibited", "x"]) == Ok(Info(Prohibited, ["x"]))
    ensures !ReadsAsLegacy(["Allowed", "x"], Scanned(["Allowed", "x"]))
    ensures !ReadsAsLegacy(["Prohibited", "x"], Scanned(["Prohibited", "x"]))
  {
    ProhibitedOfCanonical(["x"]);
    hide ProhibitedInfo;
    assert ["Prohibited", "x"][1..] == ["x"];
    LegacyMeaningExactly(["Prohibited", "x"]);
  }
}
