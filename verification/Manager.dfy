/** community/manager.go: the four-group layout of a community's filter set, and what it guarantees. */
module Manager {
  import opened Basics
  import opened Harms
  import opened Pipeline
  import opened Registry

  /** The settings that decide which filters are enabled; None is an unset pointer. */
  datatype CommunityConfig = CommunityConfig(
    keywords: Option<seq<string>>,
    keywordTemplates: Option<seq<string>>,
    allowedEventTypes: Option<seq<string>>,
    allowedStateEventTypes: Option<seq<string>>,
    allowedSenders: Option<seq<string>>,
    maxDensity: Option<real>,
    maxLength: Option<int>,
    maxAts: Option<int>,
    mediaTypes: Option<seq<string>>,
    untrustedMediaTypes: Option<seq<string>>,
    maxEmojiHeight: Option<int>,
    maxMentions: Option<int>,
    mjolnirEnabled: Option<bool>,
    maxTrimDifference: Option<int>,
    hellbanMinutes: Option<int>,
    allowStickyEvents: Option<bool>,
    allowedUrlGlobs: Option<seq<string>>,
    deniedUrlGlobs: Option<seq<string>>,
    mentionRateLimit: Option<real>,
    frequencyEventTypes: Option<seq<string>>,
    frequencyRateLimit: Option<real>,
    maxUserIdWords: Option<int>,
    maxUserIdLength: Option<int>,
    hmaBanks: Option<seq<string>>,
    unsafeSigningKeys: bool)

  datatype InstanceConfig = InstanceConfig(mjolnirRoomId: string, openAIApiKey: string, hmaApiUrl: string)

  // internal.Dereference, at the types it is used here
  predicate Listed(o: Option<seq<string>>) { o.Some? && o.value != [] }
  predicate Positive(o: Option<int>) { o.Some? && o.value > 0 }
  predicate PositiveReal(o: Option<real>) { o.Some? && o.value > 0.0 }
  predicate IsTrue(o: Option<bool>) { o.Some? && o.value }

  /** Which group a filter belongs to. */
  function Role(n: FilterName): (k: nat)
    ensures k < 4
  {
    match n
    case ProtectLocalUser | EventType | Sender | UnsafeSigningKey => 0
    case HellbanPrefilter => 1
    case HellbanPostfilter => 3
    case _ => 2
  }

  /** The place of a filter in the order the manager considers the filters of its group. */
  function Place(n: FilterName): nat {
    match n
    case ProtectLocalUser => 0
    case EventType => 1
    case Sender => 2
    case UnsafeSigningKey => 3
    case HellbanPrefilter => 0
    case HellbanPostfilter => 0
    case Keyword => 0
    case KeywordTemplate => 1
    case Density => 2
    case Length => 3
    case ManyAts => 4
    case Media => 5
    case UntrustedMedia => 6
    case InlineEmojiSize => 7
    case Mentions => 8
    case Mjolnir => 9
    case TrimLength => 10
    case OpenAIOmni => 11
    case StickyEvents => 12
    case Link => 13
    case MentionsFrequency => 14
    case Frequency => 15
    case UserIdContainsWords => 16
    case UserIdLength => 17
    case MediaScanning => 18
  }

  /** When a filter is enabled. */
  predicate Enabled(c: CommunityConfig, inst: InstanceConfig, n: FilterName) {
    match n
    case ProtectLocalUser => true
    case EventType => Listed(c.allowedEventTypes) || Listed(c.allowedStateEventTypes)
    case Sender => Listed(c.allowedSenders)
    case UnsafeSigningKey => c.unsafeSigningKeys
    case HellbanPrefilter => Positive(c.hellbanMinutes)
    case HellbanPostfilter => Positive(c.hellbanMinutes)
    case Keyword => Listed(c.keywords)
    case KeywordTemplate => Listed(c.keywordTemplates)
    case Density => PositiveReal(c.maxDensity)
    case Length => Positive(c.maxLength)
    case ManyAts => Positive(c.maxAts)
    case Media => Listed(c.mediaTypes)
    case UntrustedMedia => Listed(c.untrustedMediaTypes)
    case InlineEmojiSize => Positive(c.maxEmojiHeight)
    case Mentions => Positive(c.maxMentions)
    case Mjolnir => IsTrue(c.mjolnirEnabled) && inst.mjolnirRoomId != ""
    case TrimLength => Positive(c.maxTrimDifference)
    case OpenAIOmni => inst.openAIApiKey != ""
    case StickyEvents => !IsTrue(c.allowStickyEvents)
    case Link => Listed(c.allowedUrlGlobs) || Listed(c.deniedUrlGlobs)
    case MentionsFrequency => PositiveReal(c.mentionRateLimit)
    case Frequency => Listed(c.frequencyEventTypes) && PositiveReal(c.frequencyRateLimit)
    case UserIdContainsWords => Positive(c.maxUserIdWords)
    case UserIdLength => Positive(c.maxUserIdLength)
    case MediaScanning => inst.hmaApiUrl != "" && Listed(c.hmaBanks)
  }

  datatype GroupConfig = GroupConfig(names: seq<FilterName>, checked: seq<ContentClass>)

  const CHECKED: seq<seq<ContentClass>> :=
    [[Neutral, Allowed, Prohibited], [Neutral], [Neutral], [Prohibited]]

  /** The layout: each group lists exactly its own enabled filters, each once, in order. */
  ghost predicate IsLayoutFor(gs: seq<GroupConfig>, c: CommunityConfig, inst: InstanceConfig) {
    && |gs| == 4
    && (forall k :: 0 <= k < 4 ==> gs[k].checked == CHECKED[k] && Lists(gs[k].names, c, inst, k, 19))
  }

  /** `names` are the enabled filters of group k among the first `upTo` that the manager considers. */
  ghost predicate Lists(names: seq<FilterName>, c: CommunityConfig, inst: InstanceConfig, k: nat, upTo: nat) {
    && (forall n :: n in names <==> Role(n) == k && Place(n) < upTo && Enabled(c, inst, n))
    && InPlace(names)
  }

  ghost predicate InPlace(names: seq<FilterName>) {
    forall i, j :: 0 <= i < j < |names| ==> Place(names[i]) < Place(names[j])
  }

  /** The layout in terms of the settings: which group lists each filter, when, and which classes a group checks. */
  ghost predicate FollowsSettings(gs: seq<GroupConfig>, c: CommunityConfig, inst: InstanceConfig) {
    && |gs| == 4
    && gs[0].checked == [Neutral, Allowed, Prohibited]
    && gs[1].checked == [Neutral]
    && gs[2].checked == [Neutral]
    && gs[3].checked == [Prohibited]
    && PrefiltersFollow(gs[0].names, c)
    && HellbanFollows(gs[1].names, HellbanPrefilter, c)
    && TextFiltersFollow(gs[2].names, c, inst)
    && LimitFiltersFollow(gs[2].names, c)
    && BulkOnly(gs[2].names)
    && HellbanFollows(gs[3].names, HellbanPostfilter, c)
  }

  ghost predicate HellbanFollows(names: seq<FilterName>, name: FilterName, c: CommunityConfig) {
    forall n :: n in names <==> n == name && c.hellbanMinutes.Some? && c.hellbanMinutes.value > 0
  }

  ghost predicate BulkOnly(names: seq<FilterName>) {
    forall n :: n in names ==>
      n !in {ProtectLocalUser, EventType, Sender, UnsafeSigningKey, HellbanPrefilter, HellbanPostfilter}
  }

  ghost predicate PrefiltersFollow(names: seq<FilterName>, c: CommunityConfig) {
    && ProtectLocalUser in names
    && (EventType in names <==>
      || (c.allowedEventTypes.Some? && |c.allowedEventTypes.value| > 0)
      || (c.allowedStateEventTypes.Some? && |c.allowedStateEventTypes.value| > 0))
    && (Sender in names <==> c.allowedSenders.Some? && |c.allowedSenders.value| > 0)
    && (UnsafeSigningKey in names <==> c.unsafeSigningKeys)
    && (forall n :: n in names ==> n in {ProtectLocalUser, EventType, Sender, UnsafeSigningKey})
  }

  /** The filters of the third group that a list, a flag or the instance enables. */
  ghost predicate TextFiltersFollow(names: seq<FilterName>, c: CommunityConfig, inst: InstanceConfig) {
    && (Keyword in names <==> c.keywords.Some? && |c.keywords.value| > 0)
    && (KeywordTemplate in names <==> c.keywordTemplates.Some? && |c.keywordTemplates.value| > 0)
    && (Media in names <==> c.mediaTypes.Some? && |c.mediaTypes.value| > 0)
    && (UntrustedMedia in names <==> c.untrustedMediaTypes.Some? && |c.untrustedMediaTypes.value| > 0)
    && (Mjolnir in names <==> c.mjolnirEnabled == Some(true) && inst.mjolnirRoomId != "")
    && (OpenAIOmni in names <==> inst.openAIApiKey != "")
    && (StickyEvents in names <==> c.allowStickyEvents != Some(true))
    && (Link in names <==>
      || (c.allowedUrlGlobs.Some? && |c.allowedUrlGlobs.value| > 0)
      || (c.deniedUrlGlobs.Some? && |c.deniedUrlGlobs.value| > 0))
    && (MediaScanning in names <==> inst.hmaApiUrl != "" && c.hmaBanks.Some? && |c.hmaBanks.value| > 0)
  }

  /** The filters of the third group that a limit enables. */
  ghost predicate LimitFiltersFollow(names: seq<FilterName>, c: CommunityConfig) {
    && (Density in names <==> c.maxDensity.Some? && c.maxDensity.value > 0.0)
    && (Length in names <==> c.maxLength.Some? && c.maxLength.value > 0)
    && (ManyAts in names <==> c.maxAts.Some? && c.maxAts.value > 0)
    && (InlineEmojiSize in names <==> c.maxEmojiHeight.Some? && c.maxEmojiHeight.value > 0)
    && (Mentions in names <==> c.maxMentions.Some? && c.maxMentions.value > 0)
    && (TrimLength in names <==> c.maxTrimDifference.Some? && c.maxTrimDifference.value > 0)
    && (MentionsFrequency in names <==> c.mentionRateLimit.Some? && c.mentionRateLimit.value > 0.0)
    && (Frequency in names <==>
      && c.frequencyEventTypes.Some? && |c.frequencyEventTypes.value| > 0
      && c.frequencyRateLimit.Some? && c.frequencyRateLimit.value > 0.0)
    && (UserIdContainsWords in names <==> c.maxUserIdWords.Some? && c.maxUserIdWords.value > 0)
    && (UserIdLength in names <==> c.maxUserIdLength.Some? && c.maxUserIdLength.value > 0)
  }

  /** The layout is the one the settings ask for. */
  lemma LayoutFollowsSettings(gs: seq<GroupConfig>, c: CommunityConfig, inst: InstanceConfig)
    requires IsLayoutFor(gs, c, inst)
    ensures FollowsSettings(gs, c, inst)
  {
    hide PrefiltersFollow, HellbanFollows, TextFiltersFollow, LimitFiltersFollow, BulkOnly;
    hide Enabled, Role, Place;
    hide Lists;
    InGroup(gs[0].names, c, inst, 0);
    FirstGroup(gs[0].names, c, inst);
    InGroup(gs[1].names, c, inst, 1);
    HellbanGroup(gs[1].names, c, inst, HellbanPrefilter);
    InGroup(gs[2].names, c, inst, 2);
    ListedFilters(gs[2].names, c, inst);
    LimitFilters(gs[2].names, c, inst);
    OnlyBulk(gs[2].names, c, inst);
    InGroup(gs[3].names, c, inst, 3);
    HellbanGroup(gs[3].names, c, inst, HellbanPostfilter);
  }

  lemma InGroup(names: seq<FilterName>, c: CommunityConfig, inst: InstanceConfig, k: nat)
    requires Lists(names, c, inst, k, 19)
    ensures forall n :: n in names <==> Role(n) == k && Enabled(c, inst, n)
  {
    hide Enabled, Role, Place;
    forall n ensures Place(n) < 19 {
      PlacesAreBounded(n);
    }
  }

  lemma FirstGroup(names: seq<FilterName>, c: CommunityConfig, inst: InstanceConfig)
    requires forall n :: n in names <==> Role(n) == 0 && Enabled(c, inst, n)
    ensures PrefiltersFollow(names, c)
  {
  }

  lemma HellbanGroup(names: seq<FilterName>, c: CommunityConfig, inst: InstanceConfig, name: FilterName)
    requires name == HellbanPrefilter || name == HellbanPostfilter
    requires forall n :: n in names <==> Role(n) == (if name == HellbanPrefilter then 1 else 3) && Enabled(c, inst, n)
    ensures HellbanFollows(names, name, c)
  {
    assert forall n :: Role(n) == (if name == HellbanPrefilter then 1 else 3) <==> n == name;
    hide Role;
  }

  lemma ListedFilters(names: seq<FilterName>, c: CommunityConfig, inst: InstanceConfig)
    requires forall n :: n in names <==> Role(n) == 2 && Enabled(c, inst, n)
    ensures TextFiltersFollow(names, c, inst)
  {
  }

  lemma LimitFilters(names: seq<FilterName>, c: CommunityConfig, inst: InstanceConfig)
    requires forall n :: n in names <==> Role(n) == 2 && Enabled(c, inst, n)
    ensures LimitFiltersFollow(names, c)
  {
  }

  lemma OnlyBulk(names: seq<FilterName>, c: CommunityConfig, inst: InstanceConfig)
    requires forall n :: n in names <==> Role(n) == 2 && Enabled(c, inst, n)
    ensures BulkOnly(names)
  {
    hide Enabled;
  }

  lemma SamePlace(name: FilterName)
    ensures forall n :: Role(n) == Role(name) && Place(n) == Place(name) ==> n == name
  {
  }

  /** `if cond { names = append(names, name) }` */
  method AppendIf(
    names: seq<FilterName>, cond: bool, name: FilterName, ghost c: CommunityConfig, ghost inst: InstanceConfig)
    returns (r: seq<FilterName>)
    requires cond <==> Enabled(c, inst, name)
    requires Lists(names, c, inst, Role(name), Place(name))
    ensures Lists(r, c, inst, Role(name), Place(name) + 1)
  {
    r := if cond then names + [name] else names;
    SamePlace(name);
    hide Enabled, Role, Place;
    forall n ensures n in r <==> n in names || (cond && n == name) {
    }
    forall i | 0 <= i < |names| ensures Place(names[i]) < Place(name) {
      assert names[i] in names;
    }
  }

  lemma ListsMore(names: seq<FilterName>, c: CommunityConfig, inst: InstanceConfig, k: nat, upTo: nat)
    requires Lists(names, c, inst, k, upTo)
    requires (k == 0 && upTo == 4) || ((k == 1 || k == 3) && upTo == 1)
    ensures Lists(names, c, inst, k, 19)
  {
  }

  // The third group's appends, in order, a few at a time.

  method TextFilters(c: CommunityConfig, inst: InstanceConfig) returns (filters: seq<FilterName>)
    ensures Lists(filters, c, inst, 2, 5)
  {
    assert Lists([], c, inst, 2, 0);
    hide Lists;
    filters := AppendIf([], Listed(c.keywords), Keyword, c, inst);
    filters := AppendIf(filters, Listed(c.keywordTemplates), KeywordTemplate, c, inst);
    filters := AppendIf(filters, PositiveReal(c.maxDensity), Density, c, inst);
    filters := AppendIf(filters, Positive(c.maxLength), Length, c, inst);
    filters := AppendIf(filters, Positive(c.maxAts), ManyAts, c, inst);
  }

  method MediaFilters(names: seq<FilterName>, c: CommunityConfig, inst: InstanceConfig)
    returns (filters: seq<FilterName>)
    requires Lists(names, c, inst, 2, 5)
    ensures Lists(filters, c, inst, 2, 10)
  {
    hide Lists;
    filters := AppendIf(names, Listed(c.mediaTypes), Media, c, inst);
    filters := AppendIf(filters, Listed(c.untrustedMediaTypes), UntrustedMedia, c, inst);
    filters := AppendIf(filters, Positive(c.maxEmojiHeight), InlineEmojiSize, c, inst);
    filters := AppendIf(filters, Positive(c.maxMentions), Mentions, c, inst);
    filters := AppendIf(filters, IsTrue(c.mjolnirEnabled) && inst.mjolnirRoomId != "", Mjolnir, c, inst);
  }

  method PolicyFilters(names: seq<FilterName>, c: CommunityConfig, inst: InstanceConfig)
    returns (filters: seq<FilterName>)
    requires Lists(names, c, inst, 2, 10)
    ensures Lists(filters, c, inst, 2, 15)
  {
    hide Lists;
    filters := AppendIf(names, Positive(c.maxTrimDifference), TrimLength, c, inst);
    filters := AppendIf(filters, inst.openAIApiKey != "", OpenAIOmni, c, inst);
    filters := AppendIf(filters, !IsTrue(c.allowStickyEvents), StickyEvents, c, inst);
    filters := AppendIf(filters, Listed(c.allowedUrlGlobs) || Listed(c.deniedUrlGlobs), Link, c, inst);
    filters := AppendIf(filters, PositiveReal(c.mentionRateLimit), MentionsFrequency, c, inst);
  }

  method RateFilters(names: seq<FilterName>, c: CommunityConfig, inst: InstanceConfig)
    returns (filters: seq<FilterName>)
    requires Lists(names, c, inst, 2, 15)
    ensures Lists(filters, c, inst, 2, 19)
  {
    hide Lists;
    filters := AppendIf(names, Listed(c.frequencyEventTypes) && PositiveReal(c.frequencyRateLimit), Frequency, c, inst);
    filters := AppendIf(filters, Positive(c.maxUserIdWords), UserIdContainsWords, c, inst);
    filters := AppendIf(filters, Positive(c.maxUserIdLength), UserIdLength, c, inst);
    filters := AppendIf(filters, inst.hmaApiUrl != "" && Listed(c.hmaBanks), MediaScanning, c, inst);
  }

  method BulkFilters(c: CommunityConfig, inst: InstanceConfig) returns (filters: seq<FilterName>)
    ensures Lists(filters, c, inst, 2, 19)
  {
    filters := TextFilters(c, inst);
    filters := MediaFilters(filters, c, inst);
    filters := PolicyFilters(filters, c, inst);
    filters := RateFilters(filters, c, inst);
  }

  method Prefilters(c: CommunityConfig, inst: InstanceConfig) returns (names: seq<FilterName>)
    ensures Lists(names, c, inst, 0, 19)
  {
    assert Lists([], c, inst, 0, 0);
    hide Lists;
    names := AppendIf([], true, ProtectLocalUser, c, inst);
    names := AppendIf(names, Listed(c.allowedEventTypes) || Listed(c.allowedStateEventTypes), EventType, c, inst);
    names := AppendIf(names, Listed(c.allowedSenders), Sender, c, inst);
    names := AppendIf(names, c.unsafeSigningKeys, UnsafeSigningKey, c, inst);
    ListsMore(names, c, inst, 0, 4);
  }

  method HellbanFilter(name: FilterName, c: CommunityConfig, inst: InstanceConfig) returns (names: seq<FilterName>)
    requires name == HellbanPrefilter || name == HellbanPostfilter
    ensures Lists(names, c, inst, Role(name), 19)
  {
    assert Lists([], c, inst, Role(name), 0);
    names := AppendIf([], Positive(c.hellbanMinutes), name, c, inst);
    ListsMore(names, c, inst, Role(name), 1);
  }

  /** GetFilterSetForCommunityId up to NewSet; `scannerOk` is whether the media scanner could be created. */
  method BuildGroups(c: CommunityConfig, inst: InstanceConfig, scannerOk: bool)
    returns (r: Result<seq<GroupConfig>>)
    ensures r.Err? <==> inst.hmaApiUrl != "" && c.hmaBanks.Some? && |c.hmaBanks.value| > 0 && !scannerOk
    ensures r.Ok? ==> IsLayoutFor(r.value, c, inst) && FollowsSettings(r.value, c, inst)
  {
    hide Lists, FollowsSettings;
    var prefilters := Prefilters(c, inst);
    var filters := BulkFilters(c, inst);
    var hellbanPrefilters := HellbanFilter(HellbanPrefilter, c, inst);
    var postfilterSilences := HellbanFilter(HellbanPostfilter, c, inst);
    if inst.hmaApiUrl != "" && Listed(c.hmaBanks) && !scannerOk {
      return Err;
    }
    r := Ok([GroupConfig(prefilters, CHECKED[0]), GroupConfig(hellbanPrefilters, CHECKED[1]),
             GroupConfig(filters, CHECKED[2]), GroupConfig(postfilterSilences, CHECKED[3])]);
    LayoutFollowsSettings(r.value, c, inst);
  }

  lemma LastName(names: seq<FilterName>)
    requires InPlace(names) && names != []
    ensures names[|names| - 1] in names && InPlace(names[..|names| - 1])
    ensures forall n :: n in names ==> Place(n) <= Place(names[|names| - 1])
    ensures forall n :: n in names[..|names| - 1] <==> n in names && n != names[|names| - 1]
  {
    hide Place;
    assert names == names[..|names| - 1] + [names[|names| - 1]];
  }

  /** Names in the manager's order are determined by which names they are. */
  lemma {:induction false} OrderIsUnique(names: seq<FilterName>, others: seq<FilterName>)
    requires InPlace(names) && InPlace(others)
    requires forall n :: n in names <==> n in others
    ensures names == others
  {
    hide InPlace, Place;
    if names != [] {
      LastName(names);
    }
    if others != [] {
      LastName(others);
    }
    if names != [] {
      assert names[|names| - 1] in others;
      LastIsLast(names, others);
      var front, rest := names[..|names| - 1], others[..|others| - 1];
      forall n ensures n in front <==> n in rest {
        assert n in names <==> n in others;
      }
      OrderIsUnique(front, rest);
      assert names == front + [names[|names| - 1]] && others == rest + [others[|others| - 1]];
    }
  }

  lemma LastIsLast(names: seq<FilterName>, others: seq<FilterName>)
    requires InPlace(names) && InPlace(others) && names != [] && others != []
    requires forall n :: n in names <==> n in others
    ensures names[|names| - 1] == others[|others| - 1]
  {
    hide Place;
    assert names[|names| - 1] in names && others[|others| - 1] in others;
  }

  lemma LayoutIsUnique(gs: seq<GroupConfig>, hs: seq<GroupConfig>, c: CommunityConfig, inst: InstanceConfig)
    requires IsLayoutFor(gs, c, inst) && IsLayoutFor(hs, c, inst)
    ensures gs == hs
  {
    hide Enabled, Role, Place;
    forall k | 0 <= k < 4 ensures gs[k] == hs[k] {
      OrderIsUnique(gs[k].names, hs[k].names);
    }
  }

  /** No setting is set, and the instance offers nothing. */
  const UNSET := CommunityConfig(
    None, None, None, None, None, None, None, None, None, None, None, None, None, None, None, None, None, None, None,
    None, None, None, None, None, false)
  const BARE := InstanceConfig("", "", "")

  /** What such a community gets: local users are protected and sticky events flagged, and that is all. */
  lemma DefaultLayout(gs: seq<GroupConfig>)
    ensures IsLayoutFor(gs, UNSET, BARE) <==>
      gs == [GroupConfig([ProtectLocalUser], [Neutral, Allowed, Prohibited]), GroupConfig([], [Neutral]),
             GroupConfig([StickyEvents], [Neutral]), GroupConfig([], [Prohibited])]
  {
    var defaults := [GroupConfig([ProtectLocalUser], [Neutral, Allowed, Prohibited]), GroupConfig([], [Neutral]),
                     GroupConfig([StickyEvents], [Neutral]), GroupConfig([], [Prohibited])];
    assert IsLayoutFor(defaults, UNSET, BARE);
    hide IsLayoutFor;
    if IsLayoutFor(gs, UNSET, BARE) {
      LayoutIsUnique(gs, defaults, UNSET, BARE);
    }
  }

  function SomeList(o: Option<seq<string>>): (r: Option<seq<string>>)
    ensures r.Some? ==> r.value != []
  {
    if o == Some([]) then None else o
  }

  function SomeLimit(o: Option<int>): (r: Option<int>)
    ensures r.Some? ==> r.value > 0
  {
    if o.Some? && o.value <= 0 then None else o
  }

  function SomeRate(o: Option<real>): (r: Option<real>)
    ensures r.Some? ==> r.value > 0.0
  {
    if o.Some? && o.value <= 0.0 then None else o
  }

  function SomeFlag(o: Option<bool>): (r: Option<bool>)
    ensures r.Some? ==> r.value
  {
    if o == Some(false) then None else o
  }

  /** The settings, with every empty list, every limit of zero or less and every `false` left unset. */
  function Pruned(c: CommunityConfig): CommunityConfig {
    CommunityConfig(
      SomeList(c.keywords), SomeList(c.keywordTemplates), SomeList(c.allowedEventTypes),
      SomeList(c.allowedStateEventTypes), SomeList(c.allowedSenders), SomeRate(c.maxDensity), SomeLimit(c.maxLength),
      SomeLimit(c.maxAts), SomeList(c.mediaTypes), SomeList(c.untrustedMediaTypes), SomeLimit(c.maxEmojiHeight),
      SomeLimit(c.maxMentions), SomeFlag(c.mjolnirEnabled), SomeLimit(c.maxTrimDifference),
      SomeLimit(c.hellbanMinutes), SomeFlag(c.allowStickyEvents), SomeList(c.allowedUrlGlobs),
      SomeList(c.deniedUrlGlobs), SomeRate(c.mentionRateLimit), SomeList(c.frequencyEventTypes),
      SomeRate(c.frequencyRateLimit), SomeLimit(c.maxUserIdWords), SomeLimit(c.maxUserIdLength),
      SomeList(c.hmaBanks), c.unsafeSigningKeys)
  }

  /** Two configurations whose settings the manager reads alike. */
  ghost predicate ReadAlike(c: CommunityConfig, d: CommunityConfig) {
    && Listed(d.keywords) == Listed(c.keywords)
    && Listed(d.keywordTemplates) == Listed(c.keywordTemplates)
    && Listed(d.allowedEventTypes) == Listed(c.allowedEventTypes)
    && Listed(d.allowedStateEventTypes) == Listed(c.allowedStateEventTypes)
    && Listed(d.allowedSenders) == Listed(c.allowedSenders)
    && Listed(d.mediaTypes) == Listed(c.mediaTypes)
    && Listed(d.untrustedMediaTypes) == Listed(c.untrustedMediaTypes)
    && Listed(d.allowedUrlGlobs) == Listed(c.allowedUrlGlobs)
    && Listed(d.deniedUrlGlobs) == Listed(c.deniedUrlGlobs)
    && Listed(d.frequencyEventTypes) == Listed(c.frequencyEventTypes)
    && Listed(d.hmaBanks) == Listed(c.hmaBanks)
    && Positive(d.maxLength) == Positive(c.maxLength)
    && Positive(d.maxAts) == Positive(c.maxAts)
    && Positive(d.maxEmojiHeight) == Positive(c.maxEmojiHeight)
    && Positive(d.maxMentions) == Positive(c.maxMentions)
    && Positive(d.maxTrimDifference) == Positive(c.maxTrimDifference)
    && Positive(d.hellbanMinutes) == Positive(c.hellbanMinutes)
    && Positive(d.maxUserIdWords) == Positive(c.maxUserIdWords)
    && Positive(d.maxUserIdLength) == Positive(c.maxUserIdLength)
    && PositiveReal(d.maxDensity) == PositiveReal(c.maxDensity)
    && PositiveReal(d.mentionRateLimit) == PositiveReal(c.mentionRateLimit)
    && PositiveReal(d.frequencyRateLimit) == PositiveReal(c.frequencyRateLimit)
    && IsTrue(d.mjolnirEnabled) == IsTrue(c.mjolnirEnabled)
    && IsTrue(d.allowStickyEvents) == IsTrue(c.allowStickyEvents)
    && d.unsafeSigningKeys == c.unsafeSigningKeys
  }

  lemma PrunedReadsAlike(c: CommunityConfig)
    ensures ReadAlike(c, Pruned(c))
  {
  }

  lemma AlikeEnable(c: CommunityConfig, d: CommunityConfig, inst: InstanceConfig, n: FilterName)
    requires ReadAlike(c, d)
    ensures Enabled(d, inst, n) == Enabled(c, inst, n)
  {
    hide Listed, Positive, PositiveReal, IsTrue;
  }

  /** An empty list, a limit of zero or less and `false` give the very groups that leaving them unset gives. */
  lemma ZeroIsUnset(gs: seq<GroupConfig>, hs: seq<GroupConfig>, c: CommunityConfig, inst: InstanceConfig)
    requires IsLayoutFor(gs, c, inst)
    ensures IsLayoutFor(hs, Pruned(c), inst) <==> hs == gs
  {
    hide Enabled, Role, Place, Pruned, ReadAlike;
    PrunedReadsAlike(c);
    forall n ensures Enabled(c, inst, n) == Enabled(Pruned(c), inst, n) {
      AlikeEnable(c, Pruned(c), inst, n);
    }
    if IsLayoutFor(hs, Pruned(c), inst) {
      LayoutIsUnique(gs, hs, c, inst);
    }
  }

  /** NewSet: instantiates the filters by name; `made` holds those whose MakeFor succeeds. */
  method NewSet(gs: seq<GroupConfig>, made: map<FilterName, Filter>) returns (r: Result<FilterSet>)
    ensures r.Err? <==> exists k, n :: 0 <= k < |gs| && n in gs[k].names && n !in made
    ensures r.Ok? ==> fresh(r.value) && Instantiates(r.value.groups, gs, made)
  {
    var groups: seq<Group> := [];
    for i := 0 to |gs|
      invariant |groups| == i && Instantiates(groups, gs[..i], made)
    {
      var filters: seq<Filter> := [];
      for j := 0 to |gs[i].names|
        invariant |filters| == j
        invariant forall m :: 0 <= m < j ==> gs[i].names[m] in made && filters[m] == made[gs[i].names[m]]
      {
        if gs[i].names[j] !in made {
          return Err;
        }
        filters := filters + [made[gs[i].names[j]]];
      }
      groups := groups + [Group(filters, gs[i].checked)];
    }
    assert gs[..|gs|] == gs;
    var filterSet := new FilterSet(groups);
    r := Ok(filterSet);
  }

  ghost predicate Instantiates(groups: seq<Group>, gs: seq<GroupConfig>, made: map<FilterName, Filter>) {
    && |groups| == |gs|
    && forall k :: 0 <= k < |gs| ==>
      && groups[k].checked == gs[k].checked && |groups[k].filters| == |gs[k].names|
      && forall m :: 0 <= m < |gs[k].names| ==>
        gs[k].names[m] in made && groups[k].filters[m] == made[gs[k].names[m]]
  }

  // ---------- What the layout guarantees ----------

  ghost predicate ManagerGates(groups: seq<Group>) {
    |groups| == 4 && forall k :: 0 <= k < 4 ==> groups[k].checked == CHECKED[k]
  }

  lemma {:induction false} ReporterFindsNeutral(groups: seq<Group>, mode: Mode, k: nat)
    requires ManagerGates(groups) && 0 < k < 3 && Added(groups, mode, k).harms != []
    ensures Verdict(groups, mode, k).Ok? && Verdict(groups, mode, k).value.cls == Neutral
  {
    hide Verdict, GroupInfo;
    assert groups[k].checked == CHECKED[k] == [Neutral];
  }

  /** At most one of the first three groups reports harms. */
  lemma {:induction false} OneReporter(groups: seq<Group>, mode: Mode, j: nat, k: nat)
    requires ManagerGates(groups) && j < k < 3
    ensures Added(groups, mode, j).harms == [] || Added(groups, mode, k).harms == []
  {
    hide Verdict, Added;
    if Added(groups, mode, k).harms != [] {
      ReporterFindsNeutral(groups, mode, k);
      VerdictIsTopClass(groups, mode, k);
      assert Added(groups, mode, j).WellFormed();
    }
  }

  lemma ManagerNeverRepeats(groups: seq<Group>, mode: Mode)
    requires ManagerGates(groups)
    ensures !Repeats(groups, mode, 3)
  {
  }

  /** With the manager's layout, CheckEvent and CheckText return the intended verdict, whatever the filters say. */
  lemma {:induction false} ManagerVerdictIsExact(groups: seq<Group>, mode: Mode)
    requires ManagerGates(groups)
    ensures Outturn(groups, mode) == Verdict(groups, mode, 4)
  {
    ManagerNeverRepeats(groups, mode);
    OutturnIsVerdictExactly(groups, mode);
  }

  /** Which groups run: the bulk filters exactly when both earlier groups stayed Neutral, the last exactly on spam. */
  lemma {:induction false} WhichGroupsRun(groups: seq<Group>, mode: Mode)
    requires ManagerGates(groups) && Verdict(groups, mode, 4).Ok?
    ensures var first, second := GroupInfo(groups[0], mode), GroupInfo(groups[1], mode);
      && Runs(groups, mode, 0)
      && (Runs(groups, mode, 1) <==> first.cls == Neutral)
      && (Runs(groups, mode, 2) <==> first.cls == Neutral && second.cls == Neutral)
      && (Runs(groups, mode, 3) <==> Verdict(groups, mode, 4).value.cls == Prohibited)
      && (first.cls == Allowed ==> Verdict(groups, mode, 4) == Ok(ALLOWED))
  {
    hide GroupInfo, GroupFails, Join;
    VerdictStep(groups, mode, 3);
    VerdictStep(groups, mode, 2);
    VerdictStep(groups, mode, 1);
    VerdictStep(groups, mode, 0);
    NoElements(Verdict(groups, mode, 4).value.harms);
  }

  /**
   * The last group runs exactly if the first group prohibits the event, or leaves it to the second or third group,
   * and one of those prohibits it.
   */
  lemma {:induction false} LastGroupRunsExactly(groups: seq<Group>, mode: Mode)
    requires ManagerGates(groups) && Verdict(groups, mode, 4).Ok?
    ensures var first, second, third :=
        GroupInfo(groups[0], mode).cls, GroupInfo(groups[1], mode).cls, GroupInfo(groups[2], mode).cls;
      Runs(groups, mode, 3) <==>
        first == Prohibited
        || (first == Neutral && (second == Prohibited || (second == Neutral && third == Prohibited)))
  {
    hide GroupInfo, Verdict;
    WhichGroupsRun(groups, mode);
    VerdictStep(groups, mode, 3);
    VerdictStep(groups, mode, 2);
    VerdictStep(groups, mode, 1);
    VerdictStep(groups, mode, 0);
    assert Verdict(groups, mode, 0) == Ok(NEUTRAL) by { AtStart(groups, mode); }
    assert groups[3].checked == [Prohibited];
  }

  /** The number of times one check calls a filter. */
  lemma {:induction false} CalledOnce(fs: seq<Filter>, mode: Mode, n: FilterName)
    requires forall i, j :: 0 <= i < j < |fs| ==> fs[i].name != fs[j].name
    ensures Called(fs, mode)[n]
      == if exists f ::
          f in fs && f.name == n && (if mode.Event? then f.onEvent.Some? else f.onText.Some?) then 1 else 0
  {
    hide Called;
    if fs == [] {
      CalledNothing(mode);
    } else {
      var front, last := fs[..|fs| - 1], fs[|fs| - 1];
      CalledOnce(front, mode, n);
      CalledNext(fs, mode, |fs| - 1);
      assert fs[..|fs|] == fs == front + [last];
      assert forall f :: f in front ==> f.name != last.name;
    }
  }

  /** `groups` is the filter set of a community: the manager's layout, filled with the instances made for it. */
  ghost predicate Managed(
    groups: seq<Group>, gs: seq<GroupConfig>, made: map<FilterName, Filter>, c: CommunityConfig, inst: InstanceConfig)
  {
    && IsLayoutFor(gs, c, inst) && Instantiates(groups, gs, made)
    && forall n :: n in made ==> made[n].name == n
  }

  /** A running group calls each of its own filters once, and nobody else's. */
  lemma CalledInGroup(
    groups: seq<Group>, gs: seq<GroupConfig>, made: map<FilterName, Filter>, c: CommunityConfig, inst: InstanceConfig,
    mode: Mode, k: nat, n: FilterName)
    requires Managed(groups, gs, made, c, inst) && k < 4 && n in made && Enabled(c, inst, n) && made[n].On(mode).Some?
    ensures Called(groups[k].filters, mode)[n] == if Role(n) == k then 1 else 0
  {
    hide Enabled, Role, Place, Called;
    var fs, names := groups[k].filters, gs[k].names;
    forall i, j | 0 <= i < j < |fs| ensures fs[i].name != fs[j].name {
      assert Place(names[i]) < Place(names[j]);
    }
    CalledOnce(fs, mode, n);
    PlacesAreBounded(n);
    assert n in names <==> Role(n) == k;
    if n in names {
      var m :| 0 <= m < |names| && names[m] == n;
      assert fs[m] == made[n];
    }
  }

  lemma PlacesAreBounded(n: FilterName)
    ensures Place(n) < 19
  {
  }

  lemma {:induction false} CallsOfOne(groups: seq<Group>, mode: Mode, n: FilterName, k: nat, upTo: nat)
    requires k < |groups| && upTo <= |groups|
    requires forall j :: 0 <= j < |groups| ==> Called(groups[j].filters, mode)[n] == if j == k then 1 else 0
    ensures Calls(groups, mode, upTo)[n] == if k < upTo && Runs(groups, mode, k) then 1 else 0
  {
    hide Runs, Called;
    if upTo > 0 {
      CallsOfOne(groups, mode, n, k, upTo - 1);
    }
  }

  /**
   * In a community's filter set, an error-free check calls an enabled filter once if its group runs and never
   * otherwise. So the rate limiters count an event exactly when the prefilters and the hellban prefilter stayed
   * Neutral, and one hellban is published exactly when the final verdict is Prohibited.
   */
  lemma {:induction false} ManagedCalls(
    groups: seq<Group>, gs: seq<GroupConfig>, made: map<FilterName, Filter>, c: CommunityConfig, inst: InstanceConfig,
    n: FilterName)
    requires Managed(groups, gs, made, c, inst)
    requires n in made && Enabled(c, inst, n) && made[n].onEvent.Some?
    requires Verdict(groups, Event, 4).Ok?
    ensures Calls(groups, Event, 4)[n] == if Runs(groups, Event, Role(n)) then 1 else 0
    ensures n == Frequency || n == MentionsFrequency ==>
      (Calls(groups, Event, 4)[n] == 1 <==>
        GroupInfo(groups[0], Event).cls == Neutral && GroupInfo(groups[1], Event).cls == Neutral)
    ensures n == HellbanPostfilter ==>
      (Calls(groups, Event, 4)[n] == 1 <==> Verdict(groups, Event, 4).value.cls == Prohibited)
  {
    hide Calls, Called, Enabled, Runs, GroupInfo, Verdict, Place;
    forall k | 0 <= k < 4 ensures Called(groups[k].filters, Event)[n] == if k == Role(n) then 1 else 0 {
      CalledInGroup(groups, gs, made, c, inst, Event, k, n);
    }
    CallsOfOne(groups, Event, n, Role(n), 4);
    WhichGroupsRun(groups, Event);
  }
}
