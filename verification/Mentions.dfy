/** filter/filter_mentions.go: counting the users a message mentions, up to a limit. Strings are byte strings. */
module Mentions {
  import opened Basics
  import opened Harms

  /** mentionsContent */
  datatype Message = Message(mentioned: seq<string>, body: string, formattedBody: string)

  /** The room's joined user IDs and display names, as stored. */
  datatype Members = Members(userIds: seq<string>, displayNames: seq<string>)

  predicate OccursAt(hay: string, needle: string, i: nat) {
    i + |needle| <= |hay| && hay[i..i + |needle|] == needle
  }

  /** strings.Contains */
  predicate Contains(hay: string, needle: string) {
    exists i: nat :: i <= |hay| && OccursAt(hay, needle, i)
  }

  lemma ContainsExactly(hay: string, needle: string)
    ensures Contains(hay, needle) <==> exists before, after :: hay == before + needle + after
  {
    if i: nat :| i <= |hay| && OccursAt(hay, needle, i) {
      assert hay == hay[..i] + needle + hay[i + |needle|..];
    }
    if before, after :| hay == before + needle + after {
      assert OccursAt(hay, needle, |before|);
    }
  }

  predicate Found(m: Message, s: string) {
    Contains(m.body, s) || Contains(m.formattedBody, s)
  }

  /** The non-empty strings of at least a given length. */
  function Kept(xs: seq<string>, minLength: int): set<string> {
    set x | x in xs && |x| > 0 && |x| >= minLength
  }

  function Users(r: Members): set<string> {
    Kept(r.userIds, 0)
  }

  function Names(r: Members, minLength: int): set<string> {
    Kept(r.displayNames, minLength)
  }

  function FoundIn(m: Message, s: set<string>): set<string> {
    set x | x in s && Found(m, x)
  }

  /** Mentions by metadata, user IDs in the text, and display names in the text. */
  function FullCount(m: Message, r: Members, minLength: int): nat {
    |Users(r) * Elements(m.mentioned)| + |FoundIn(m, Users(r))| + |FoundIn(m, Names(r, minLength))|
  }

  /** `n` is the full count, except that counting may stop anywhere at or above the limit. */
  predicate Truncates(n: nat, full: nat, limit: int) {
    && (n >= limit <==> full >= limit)
    && (full < limit ==> n == full)
    && n <= full
  }

  /** `set.Each(loopIter)`: visits the set in any order until the running count reaches the limit. */
  method CountEach(m: Message, s: set<string>, start: nat, limit: int) returns (n: nat)
    requires start < limit
    ensures Truncates(n, start + |FoundIn(m, s)|, limit)
  {
    n := start;
    var todo, stop := s, false;
    while todo != {} && !stop
      invariant todo <= s
      invariant n + |FoundIn(m, todo)| == start + |FoundIn(m, s)|
      invariant stop <==> n >= limit
      decreases todo
    {
      var x :| x in todo;
      FoundStep(m, todo, x);
      todo := todo - {x};
      if Contains(m.body, x) || Contains(m.formattedBody, x) {
        n := n + 1;
      }
      stop := n >= limit;
    }
    assert todo == {} ==> FoundIn(m, todo) == {};
  }

  lemma FoundStep(m: Message, s: set<string>, x: string)
    requires x in s
    ensures |FoundIn(m, s)| == |FoundIn(m, s - {x})| + if Found(m, x) then 1 else 0
  {
    var rest := FoundIn(m, s - {x});
    if Found(m, x) {
      assert FoundIn(m, s) == rest + {x};
    } else {
      assert FoundIn(m, s) == rest;
    }
  }

  /** The loops that fill the sets of display names and of user IDs. */
  method Collect(xs: seq<string>, minLength: int) returns (r: set<string>)
    ensures r == Kept(xs, minLength)
  {
    r := {};
    for i := 0 to |xs|
      invariant r == Kept(xs[..i], minLength)
    {
      if |xs[i]| > 0 && |xs[i]| >= minLength {
        r := r + {xs[i]};
      }
    }
    assert xs[..|xs|] == xs;
  }

  /** CountMentionsToLimit; `content` and `members` are None when they cannot be read. */
  method CountMentionsToLimit(
    eventType: string, content: Option<Message>, members: Option<Members>, minLength: int, limit: int)
    returns (r: Result<nat>)
    ensures eventType != "m.room.message" ==> r == Ok(0)
    ensures eventType == "m.room.message" ==> (r.Ok? <==> content.Some? && members.Some?)
    ensures eventType == "m.room.message" && r.Ok? ==>
      Truncates(r.value, FullCount(content.value, members.value, minLength), limit)
  {
    if eventType != "m.room.message" {
      return Ok(0);
    }
    if content.None? || members.None? {
      return Err;
    }
    var m, room := content.value, members.value;
    var displayNames := Collect(room.displayNames, minLength);
    var userIds := Collect(room.userIds, 0);
    var mentionedUserIds := Elements(m.mentioned);

    var n := |userIds * mentionedUserIds|;
    if n >= limit {
      return Ok(n);
    }
    n := CountEach(m, userIds, n, limit);
    if n >= limit {
      return Ok(n);
    }
    n := CountEach(m, displayNames, n, limit);
    r := Ok(n);
  }

  /** InstancedMentionsFilter.CheckEvent: a readable message is spam exactly when its full count reaches the maximum. */
  method CheckMentions(
    eventType: string, content: Option<Message>, members: Option<Members>, minLength: int, maxMentions: int)
    returns (r: Result<Info>)
    ensures r.Err? <==> eventType == "m.room.message" && (content.None? || members.None?)
    ensures eventType == "m.room.message" && r.Ok? ==>
      (r.value.cls == Prohibited <==> FullCount(content.value, members.value, minLength) >= maxMentions)
    ensures r.Ok? ==> r.value == NEUTRAL || r.value == ProhibitedInfo([SPAM_FLOODING])
  {
    var counted := CountMentionsToLimit(eventType, content, members, minLength, maxMentions);
    if counted.Err? {
      return Err;
    }
    r := Ok(if counted.value >= maxMentions then ProhibitedInfo([SPAM_FLOODING]) else NEUTRAL);
  }
}
