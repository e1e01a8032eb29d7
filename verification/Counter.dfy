/**
 * frequency/counter.go: a sliding-window count per entity. Increments travel over pub/sub and are counted when their
 * echo is delivered; a background task drops old entries. The clock never goes backwards.
 */
module Counter {
  import opened Basics

  type Entity = string

  datatype Record = Record(entity: Entity, timestamp: Time)

  /** The timestamps younger than the window at a given time; future ones are younger than any window. */
  function Live(ts: seq<Time>, now: Time, window: int): seq<Time> {
    if ts == [] then []
    else
      var front, last := Live(ts[..|ts| - 1], now, window), ts[|ts| - 1];
      if now - last < window then front + [last] else front
  }

  function Of(m: map<Entity, seq<Time>>, e: Entity): seq<Time> {
    if e in m then m[e] else []
  }

  lemma LiveNext(ts: seq<Time>, t: Time, now: Time, window: int)
    ensures Live(ts + [t], now, window) == Live(ts, now, window) + if now - t < window then [t] else []
  {
  }

  lemma {:induction false} LiveShrinks(ts: seq<Time>, now: Time, later: Time, window: int)
    requires now <= later
    ensures |Live(ts, later, window)| <= |Live(ts, now, window)|
  {
    if ts != [] {
      LiveShrinks(ts[..|ts| - 1], now, later, window);
    }
  }

  /** From `now` on, two histories are indistinguishable to anyone who only sees live timestamps. */
  ghost predicate SameLive(a: seq<Time>, b: seq<Time>, now: Time, window: int) {
    forall t :: now <= t ==> Live(a, t, window) == Live(b, t, window)
  }

  lemma SameLiveNext(a: seq<Time>, b: seq<Time>, ts: Time, now: Time, window: int)
    requires SameLive(a, b, now, window)
    ensures SameLive(a + [ts], b + [ts], now, window)
  {
  }

  lemma SameLiveDropped(a: seq<Time>, b: seq<Time>, ts: Time, now: Time, window: int)
    requires SameLive(a, b, now, window) && now - ts >= window
    ensures SameLive(a, b + [ts], now, window)
  {
  }

  class Counter {
    const window: int
    var now: Time
    /** Published records whose echo has not arrived yet. */
    var bus: multiset<Record>
    var values: map<Entity, seq<Time>>
    /** Every timestamp ever delivered. */
    ghost var history: map<Entity, seq<Time>>
    ghost var delivered: multiset<Record>

    constructor (window: int, now: Time)
      ensures Valid() && this.window == window && this.now == now && history == map[]
      ensures bus == multiset{} && delivered == multiset{}
    {
      this.window, this.now, bus, values := window, now, multiset{}, map[];
      history, delivered := map[], multiset{};
    }

    /** Every record ever published: none is lost, or delivered twice. */
    ghost function Published(): multiset<Record>
      reads this
    {
      bus + delivered
    }

    /** What is stored is as good as everything ever delivered. */
    ghost predicate Valid()
      reads this
    {
      forall e :: SameLive(Of(values, e), Of(history, e), now, window)
    }

    /** time.Now() */
    method Now() returns (t: Time)
      requires Valid()
      modifies `now
      ensures Valid() && old(now) <= t == now
    {
      t :| now <= t;
      now := t;
    }

    method Increment(e: Entity, published: bool) returns (ok: bool)
      requires Valid()
      modifies `now, `bus
      ensures Valid() && old(now) <= now && ok == published
      ensures bus == old(bus) + if published then multiset{Record(e, now)} else multiset{}
    {
      var t := Now();
      if published {
        bus := bus + multiset{Record(e, t)};
      }
      ok := published;
    }

    /** The subscription loop receives an echo; echoes may arrive in any order. */
    method Deliver(r: Record)
      requires Valid() && r in bus
      modifies `bus, `values, `history, `delivered
      ensures Valid()
      ensures bus == old(bus) - multiset{r} && delivered == old(delivered) + multiset{r}
      ensures history == old(history)[r.entity := Of(old(history), r.entity) + [r.timestamp]]
      ensures values == old(values)[r.entity := Of(old(values), r.entity) + [r.timestamp]]
    {
      bus, delivered := bus - multiset{r}, delivered + multiset{r};
      var arr := if r.entity in values then values[r.entity] else [];
      assert SameLive(arr, Of(history, r.entity), now, window);
      SameLiveNext(arr, Of(history, r.entity), r.timestamp, now, window);
      hide SameLive;
      values := values[r.entity := arr + [r.timestamp]];
      history := history[r.entity := Of(history, r.entity) + [r.timestamp]];
      forall e | e != r.entity ensures SameLive(Of(values, e), Of(history, e), now, window) {
        assert SameLive(Of(old(values), e), Of(old(history), e), now, window);
      }
    }

    /** One pass over an entity's timestamps; the clock is read for each of them. */
    method Prune(v: seq<Time>) returns (newVals: seq<Time>)
      requires Valid()
      modifies `now
      ensures Valid() && old(now) <= now
      ensures SameLive(newVals, v, now, window)
      ensures forall t :: t in newVals ==> old(now) - t < window
    {
      newVals := [];
      for i := 0 to |v|
        invariant Valid() && old(now) <= now
        invariant SameLive(newVals, v[..i], now, window)
        invariant forall t :: t in newVals ==> old(now) - t < window
      {
        var t := Now();
        assert v[..i + 1] == v[..i] + [v[i]];
        if t - v[i] < window {
          SameLiveNext(newVals, v[..i], v[i], now, window);
          newVals := newVals + [v[i]];
        } else {
          SameLiveDropped(newVals, v[..i], v[i], now, window);
        }
      }
      assert v[..|v|] == v;
    }

    /** The cleanup tick. Nobody can tell that it ran, and only entries that were live when it started remain. */
    method Cleanup()
      requires Valid()
      modifies `now, `values
      ensures Valid() && old(now) <= now
      ensures forall e :: e in values ==> values[e] != [] && forall t :: t in values[e] ==> old(now) - t < window
    {
      var todo := values.Keys;
      while todo != {}
        invariant Valid() && old(now) <= now && todo <= values.Keys
        invariant forall e :: e in values && e !in todo ==>
          values[e] != [] && forall t :: t in values[e] ==> old(now) - t < window
        decreases todo
      {
        var k :| k in todo;
        var newVals := Prune(values[k]);
        if newVals == [] {
          values := map e | e in values && e != k :: values[e];
        } else {
          values := values[k := newVals];
        }
        todo := todo - {k};
      }
    }

    /**
     * Get: the number of live timestamps among all ever delivered. The clock may move while it counts, so the answer
     * lies between the counts at the end and at the start of the call.
     */
    method Get(e: Entity) returns (count: nat)
      requires Valid()
      modifies `now
      ensures Valid() && old(now) <= now
      ensures |Live(Of(history, e), now, window)| <= count <= |Live(Of(history, e), old(now), window)|
    {
      if e !in values {
        assert Live([], now, window) == [];
        assert SameLive(Of(values, e), Of(history, e), now, window);
        return 0;
      }
      var vals := values[e];
      count := 0;
      for i := 0 to |vals|
        invariant Valid() && old(now) <= now
        invariant |Live(vals[..i], now, window)| <= count <= |Live(vals[..i], old(now), window)|
      {
        LiveShrinks(vals[..i], now, now, window);
        ghost var before := now;
        var t := Now();
        assert vals[..i + 1] == vals[..i] + [vals[i]];
        LiveNext(vals[..i], vals[i], now, window);
        LiveNext(vals[..i], vals[i], old(now), window);
        LiveShrinks(vals[..i], before, now, window);
        if t - vals[i] < window {
          count := count + 1;
        }
      }
      assert vals[..|vals|] == vals;
      assert SameLive(Of(values, e), Of(history, e), now, window);
      assert Live(vals, old(now), window) == Live(Of(history, e), old(now), window);
    }

    /** What the background loops may do between two statements of a caller: any deliveries and cleanups. */
    method Background(rounds: nat)
      requires Valid()
      modifies this
      ensures Valid() && old(now) <= now && bus <= old(bus) && Published() == old(Published())
      ensures forall e :: Of(old(history), e) <= Of(history, e)
    {
      for i := 0 to rounds
        invariant Valid() && old(now) <= now && bus <= old(bus) && Published() == old(Published())
        invariant forall e :: Of(old(history), e) <= Of(history, e)
      {
        var deliver: bool := *;
        if deliver && bus != multiset{} {
          var r :| r in bus;
          Deliver(r);
        } else {
          Cleanup();
        }
      }
    }
  }
}
