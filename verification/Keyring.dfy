/** homeserver/keyring.go and keyring_fetcher.go: answering signing-key requests from several sources. */
module Keyring {
  import opened Basics

  datatype Request = Request(server: string, keyId: string)

  datatype KeyResult = KeyResult(key: string, expiredTs: Time, validUntil: Time)

  type Answers = map<Request, KeyResult>

  /** What each fetcher answers; None is a fetcher's error. */
  type Fetchers = seq<Option<Answers>>

  type Cache = map<string, map<string, KeyResult>>

  /** Whether a key was valid at a time. */
  type Validity = (KeyResult, Time) -> bool

  /** filterUnsafeKeysOut */
  function Safe(answers: Answers, unsafeKeys: seq<string>): Answers {
    map req | req in answers && answers[req].key !in unsafeKeys :: answers[req]
  }

  method FilterUnsafeKeysOut(answers: Answers, unsafeKeys: seq<string>) returns (r: Answers)
    ensures r == Safe(answers, unsafeKeys)
  {
    r := map[];
    var todo := answers.Keys;
    while todo != {}
      invariant todo <= answers.Keys
      invariant r == map req | req in answers && req !in todo && answers[req].key !in unsafeKeys :: answers[req]
      decreases todo
    {
      var req :| req in todo;
      todo := todo - {req};
      var matched, i := false, 0;
      while i < |unsafeKeys| && !matched
        invariant 0 <= i <= |unsafeKeys|
        invariant matched <==> answers[req].key in unsafeKeys[..i]
      {
        matched := answers[req].key == unsafeKeys[i];
        i := i + 1;
      }
      if !matched {
        assert unsafeKeys[..i] == unsafeKeys;
        r := r[req := answers[req]];
      } else {
        assert forall k :: k in unsafeKeys[..i] ==> k in unsafeKeys;
      }
    }
  }

  /** A fetched answer is kept if it is the first, or valid for longer than the one at hand. */
  predicate Improves(results: Answers, fetched: Answers, req: Request) {
    req in fetched && (req !in results || fetched[req].validUntil > results[req].validUntil)
  }

  function Merged(results: Answers, fetched: Answers): Answers {
    map req | req in results.Keys + fetched.Keys ::
      if Improves(results, fetched, req) then fetched[req] else results[req]
  }

  /** The answers after k fetchers; no fetcher is asked once nothing is missing. */
  function After(base: Answers, wanted: set<Request>, fetchers: Fetchers, unsafeKeys: seq<string>, k: nat): Answers
    requires k <= |fetchers|
  {
    if k == 0 then base
    else
      var prev := After(base, wanted, fetchers, unsafeKeys, k - 1);
      if wanted <= prev.Keys || fetchers[k - 1].None? then prev
      else Merged(prev, Safe(fetchers[k - 1].value, unsafeKeys))
  }

  lemma AfterNext(base: Answers, wanted: set<Request>, fetchers: Fetchers, unsafeKeys: seq<string>, k: nat)
    requires k < |fetchers|
    ensures var prev := After(base, wanted, fetchers, unsafeKeys, k);
      After(base, wanted, fetchers, unsafeKeys, k + 1)
      == if wanted <= prev.Keys || fetchers[k].None? then prev else Merged(prev, Safe(fetchers[k].value, unsafeKeys))
  {
  }

  /** Fetcher k was asked, and answered. */
  predicate Consulted(base: Answers, wanted: set<Request>, fetchers: Fetchers, unsafeKeys: seq<string>, k: nat)
    requires k < |fetchers|
  {
    !(wanted <= After(base, wanted, fetchers, unsafeKeys, k).Keys) && fetchers[k].Some?
  }

  /** Each fetcher that was tried was asked for exactly what was still missing, and never for nothing. */
  ghost predicate AskedForMissing(
    base: Answers, wanted: set<Request>, fetchers: Fetchers, unsafeKeys: seq<string>, asked: seq<set<Request>>)
  {
    && |asked| <= |fetchers|
    && forall k :: 0 <= k < |asked| ==>
         asked[k] != {} && asked[k] == wanted - After(base, wanted, fetchers, unsafeKeys, k).Keys
  }

  lemma AskedNext(
    base: Answers, wanted: set<Request>, fetchers: Fetchers, unsafeKeys: seq<string>, asked: seq<set<Request>>)
    requires AskedForMissing(base, wanted, fetchers, unsafeKeys, asked) && |asked| < |fetchers|
    ensures var missing := wanted - After(base, wanted, fetchers, unsafeKeys, |asked|).Keys;
      missing != {} ==> AskedForMissing(base, wanted, fetchers, unsafeKeys, asked + [missing])
  {
  }

  function Lookup(cache: Cache, req: Request): Option<KeyResult> {
    if req.server in cache && req.keyId in cache[req.server] then Some(cache[req.server][req.keyId]) else None
  }

  lemma LookupStored(cache: Cache, req: Request, answer: KeyResult, other: Request)
    ensures var existing := if req.server in cache then cache[req.server] else map[];
      Lookup(cache[req.server := existing[req.keyId := answer]], other)
      == if other == req then Some(answer) else Lookup(cache, other)
  {
  }

  class KeyStore {
    const serverName: string
    const ownKeyId: string
    const ownKey: string
    const unsafeKeys: seq<string>
    /** The unexpired entries of the key cache. */
    var keyCache: Cache

    constructor (serverName: string, ownKeyId: string, ownKey: string, unsafeKeys: seq<string>)
      ensures this.serverName == serverName && this.ownKeyId == ownKeyId && this.ownKey == ownKey
      ensures this.unsafeKeys == unsafeKeys && keyCache == map[]
      ensures SafeCache(keyCache, unsafeKeys)
    {
      this.serverName, this.ownKeyId, this.ownKey, this.unsafeKeys := serverName, ownKeyId, ownKey, unsafeKeys;
      keyCache := map[];
    }

    predicate IsOwn(req: Request) {
      req.server == serverName && req.keyId == ownKeyId
    }

    /** Our own key, valid for a day; times are in milliseconds. */
    function OwnAnswer(now: Time): KeyResult {
      KeyResult(ownKey, 0, now + 86_400_000)
    }

    /** Another server's key that is cached, and valid at the requested time. */
    predicate IsCached(cache: Cache, req: Request, ts: Time, validAt: Validity) {
      && !(req.server == serverName && req.keyId == ownKeyId)
      && req.server in cache && req.keyId in cache[req.server] && validAt(cache[req.server][req.keyId], ts)
    }

    /** An answer that needs no fetching: our own key, or a cached one that is valid at the requested time. */
    function Known(cache: Cache, req: Request, ts: Time, now: Time, validAt: Validity): Option<KeyResult> {
      if IsOwn(req) then Some(KeyResult(ownKey, 0, now + 24 * 60 * 60 * 1000))
      else match Lookup(cache, req)
        case Some(cached) => if validAt(cached, ts) then Some(cached) else None
        case None => None
    }

    function AllKnown(cache: Cache, requests: map<Request, Time>, now: Time, validAt: Validity): Answers {
      map req | req in requests && Known(cache, req, requests[req], now, validAt).Some? ::
        Known(cache, req, requests[req], now, validAt).value
    }

    /** StoreKeys */
    method StoreKeys(answers: Answers)
      modifies this
      ensures forall req ::
        Lookup(keyCache, req) == if req in answers then Some(answers[req]) else Lookup(old(keyCache), req)
    {
      hide Lookup;
      var todo := answers.Keys;
      while todo != {}
        invariant todo <= answers.Keys
        invariant forall req ::
          Lookup(keyCache, req)
          == if req in answers && req !in todo then Some(answers[req]) else Lookup(old(keyCache), req)
        decreases todo
      {
        var req :| req in todo;
        todo := todo - {req};
        forall other { LookupStored(keyCache, req, answers[req], other); }
        var existing := if req.server in keyCache then keyCache[req.server] else map[];
        keyCache := keyCache[req.server := existing[req.keyId := answers[req]]];
      }
    }

    /** The first loop of FetchKeys: answers what it can, and queues the rest. */
    method AnswerKnown(requests: map<Request, Time>, now: Time, validAt: Validity)
      returns (results: Answers, toFetch: map<Request, Time>)
      ensures results == AllKnown(keyCache, requests, now, validAt)
      ensures toFetch.Keys == requests.Keys - results.Keys
      ensures forall req | req in requests && IsOwn(req) ::
        req in results && results[req] == OwnAnswer(now) && req !in toFetch
      ensures forall req | req in requests && IsCached(keyCache, req, requests[req], validAt) ::
        req in results && Some(results[req]) == Lookup(keyCache, req) && req !in toFetch
      ensures forall req | req in requests && !IsOwn(req) && !IsCached(keyCache, req, requests[req], validAt) ::
        req !in results && req in toFetch
    {
      results, toFetch := map[], map[];
      var todo := requests.Keys;
      while todo != {}
        invariant todo <= requests.Keys
        invariant results == map req |
          req in requests && req !in todo && Known(keyCache, req, requests[req], now, validAt).Some? ::
          Known(keyCache, req, requests[req], now, validAt).value
        invariant toFetch.Keys == requests.Keys - todo - results.Keys
        decreases todo
      {
        var req :| req in todo;
        todo := todo - {req};
        var ts := requests[req];
        if req.server == serverName && req.keyId == ownKeyId {
          results := results[req := KeyResult(ownKey, 0, now + 24 * 60 * 60 * 1000)];
        } else if req.server in keyCache && req.keyId in keyCache[req.server]
                  && validAt(keyCache[req.server][req.keyId], ts) {
          results := results[req := keyCache[req.server][req.keyId]];
        } else {
          toFetch := toFetch[req := ts];
        }
      }
    }

    /** FetchKeys; `asked` is what each fetcher that was tried was asked for, in turn. */
    method FetchKeys(requests: map<Request, Time>, fetchers: Fetchers, now: Time, validAt: Validity)
      returns (results: Answers, asked: seq<set<Request>>)
      modifies this
      ensures var base := AllKnown(old(keyCache), requests, now, validAt);
        && results == After(base, requests.Keys, fetchers, unsafeKeys, |fetchers|)
        && AskedForMissing(base, requests.Keys, fetchers, unsafeKeys, asked)
        && (|asked| < |fetchers| ==> requests.Keys <= results.Keys)
        && CachesNew(old(keyCache), keyCache, base, results)
      ensures forall req | req in requests && IsOwn(req) ::
        Kept(req, OwnAnswer(now), fetchers, unsafeKeys, asked, results)
      ensures forall req | req in requests && IsCached(old(keyCache), req, requests[req], validAt) ::
        Kept(req, old(keyCache)[req.server][req.keyId], fetchers, unsafeKeys, asked, results)
      ensures forall req | req in requests && !IsOwn(req) && !IsCached(old(keyCache), req, requests[req], validAt) ::
        FromFetchers(req, fetchers, unsafeKeys, asked, results)
      ensures SafeCache(old(keyCache), unsafeKeys) ==> SafeCache(keyCache, unsafeKeys)
    {
      var known, toFetch := AnswerKnown(requests, now, validAt);
      var toStore: Answers;
      results, toStore, asked := FetchMissing(requests.Keys, known, toFetch, fetchers, unsafeKeys);
      forall req
        ensures req in toStore <==> IsNew(known, results, req)
        ensures req in toStore ==> toStore[req] == results[req]
      {
        StoredIsNew(known, results, toStore, req);
      }
      forall req | req in requests
        ensures req in known ==> Kept(req, known[req], fetchers, unsafeKeys, asked, results)
        ensures req !in known ==> FromFetchers(req, fetchers, unsafeKeys, asked, results)
      {
        KnownAreKept(known, requests.Keys, fetchers, unsafeKeys, asked, req);
        UnknownAreFetched(known, requests.Keys, fetchers, unsafeKeys, asked, req);
      }
      hide Kept, FromFetchers;
      hide Books, After, Lookup, IsNew, SafeCache, KeyStore.AllKnown;
      if toStore != map[] {
        StoreKeys(toStore);
      }
      if SafeCache(old(keyCache), unsafeKeys) {
        FetchKeepsCacheSafe(old(keyCache), keyCache, known, requests.Keys, fetchers, unsafeKeys);
      }
    }
  }

  /** The fetchers that were asked, answered, and had a safe answer to a request, asked for or not. */
  predicate Offers(fetchers: Fetchers, unsafeKeys: seq<string>, asked: seq<set<Request>>, k: nat, req: Request) {
    && k < |asked| && k < |fetchers| && fetchers[k].Some?
    && req in fetchers[k].value && fetchers[k].value[req].key !in unsafeKeys
  }

  /**
   * A request whose answer was known is never passed on. Its answer stays the known one exactly if no fetcher offers,
   * unasked, one that is valid for longer.
   */
  ghost predicate Kept(
    req: Request, known: KeyResult, fetchers: Fetchers, unsafeKeys: seq<string>, asked: seq<set<Request>>,
    results: Answers)
  {
    && (forall k :: 0 <= k < |asked| ==> req !in asked[k])
    && req in results && results[req].validUntil >= known.validUntil
    && (results[req] == known <==>
         forall k | 0 <= k < |fetchers| && Offers(fetchers, unsafeKeys, asked, k, req) ::
           fetchers[k].value[req].validUntil <= known.validUntil)
  }

  /** Any other request is passed on, and an answer to it is one that a fetcher offers. */
  ghost predicate FromFetchers(
    req: Request, fetchers: Fetchers, unsafeKeys: seq<string>, asked: seq<set<Request>>, results: Answers)
  {
    && (fetchers != [] ==> asked != [] && req in asked[0])
    && (req in results ==>
         exists k :: 0 <= k < |fetchers| && Offers(fetchers, unsafeKeys, asked, k, req)
           && results[req] == fetchers[k].value[req])
  }

  /** A fetcher was consulted exactly if it was asked and answered. */
  lemma ConsultedExactly(
    base: Answers, wanted: set<Request>, fetchers: Fetchers, unsafeKeys: seq<string>, asked: seq<set<Request>>, k: nat)
    requires AskedForMissing(base, wanted, fetchers, unsafeKeys, asked) && k < |fetchers|
    requires |asked| < |fetchers| ==> wanted <= After(base, wanted, fetchers, unsafeKeys, |asked|).Keys
    ensures Consulted(base, wanted, fetchers, unsafeKeys, k) <==> k < |asked| && fetchers[k].Some?
  {
    hide After;
    if k >= |asked| {
      NothingMissing(base, wanted, fetchers, unsafeKeys, |asked|, k);
    } else {
      NothingLeft(wanted, After(base, wanted, fetchers, unsafeKeys, k).Keys);
    }
  }

  lemma {:induction false} UnchangedAnswer(
    base: Answers, wanted: set<Request>, fetchers: Fetchers, unsafeKeys: seq<string>, n: nat, req: Request)
    requires n <= |fetchers| && req in base
    requires forall k | 0 <= k < n && Consulted(base, wanted, fetchers, unsafeKeys, k)
      && req in fetchers[k].value && fetchers[k].value[req].key !in unsafeKeys ::
        fetchers[k].value[req].validUntil <= base[req].validUntil
    ensures req in After(base, wanted, fetchers, unsafeKeys, n)
    ensures After(base, wanted, fetchers, unsafeKeys, n)[req] == base[req]
  {
    if n > 0 {
      UnchangedAnswer(base, wanted, fetchers, unsafeKeys, n - 1, req);
    }
  }

  lemma KnownAreKept(
    base: Answers, wanted: set<Request>, fetchers: Fetchers, unsafeKeys: seq<string>, asked: seq<set<Request>>,
    req: Request)
    requires AskedForMissing(base, wanted, fetchers, unsafeKeys, asked)
    requires |asked| < |fetchers| ==> wanted <= After(base, wanted, fetchers, unsafeKeys, |asked|).Keys
    ensures req in base ==>
      Kept(req, base[req], fetchers, unsafeKeys, asked, After(base, wanted, fetchers, unsafeKeys, |fetchers|))
  {
    if req in base {
      var n, results := |fetchers|, After(base, wanted, fetchers, unsafeKeys, |fetchers|);
      forall k | 0 <= k < n
        ensures Consulted(base, wanted, fetchers, unsafeKeys, k) <==> k < |asked| && fetchers[k].Some?
      {
        ConsultedExactly(base, wanted, fetchers, unsafeKeys, asked, k);
      }
      forall k | 0 <= k < |asked| ensures req !in asked[k] {
        KeepsLongestValid(base, wanted, fetchers, unsafeKeys, k, req);
      }
      KeepsLongestValid(base, wanted, fetchers, unsafeKeys, n, req);
      hide After, Consulted;
      if forall k | 0 <= k < n && Offers(fetchers, unsafeKeys, asked, k, req) ::
        fetchers[k].value[req].validUntil <= base[req].validUntil
      {
        UnchangedAnswer(base, wanted, fetchers, unsafeKeys, n, req);
      }
    }
  }

  /** So even our own answer can be displaced, by an unasked answer to a fetch for something else. */
  lemma OwnAnswerDisplaced(own: Request, other: Request, ownKey: string, theirKey: string, unsafeKeys: seq<string>)
    requires own != other && theirKey != ownKey && theirKey !in unsafeKeys
    ensures var base, offer := map[own := KeyResult(ownKey, 0, 1)], map[own := KeyResult(theirKey, 0, 2)];
      After(base, {own, other}, [Some(offer)], unsafeKeys, 1) == offer
  {
    var base, offer := map[own := KeyResult(ownKey, 0, 1)], map[own := KeyResult(theirKey, 0, 2)];
    assert other !in base.Keys;
    assert After(base, {own, other}, [Some(offer)], unsafeKeys, 0) == base;
    assert Safe(offer, unsafeKeys) == offer;
    assert Merged(base, offer) == offer;
  }

  lemma UnknownAreFetched(
    base: Answers, wanted: set<Request>, fetchers: Fetchers, unsafeKeys: seq<string>, asked: seq<set<Request>>,
    req: Request)
    requires AskedForMissing(base, wanted, fetchers, unsafeKeys, asked)
    requires |asked| < |fetchers| ==> wanted <= After(base, wanted, fetchers, unsafeKeys, |asked|).Keys
    ensures req in wanted && req !in base ==>
      FromFetchers(req, fetchers, unsafeKeys, asked, After(base, wanted, fetchers, unsafeKeys, |fetchers|))
  {
    if req in wanted && req !in base {
      var n := |fetchers|;
      assert After(base, wanted, fetchers, unsafeKeys, 0) == base;
      forall k | 0 <= k < n
        ensures Consulted(base, wanted, fetchers, unsafeKeys, k) <==> k < |asked| && fetchers[k].Some?
      {
        ConsultedExactly(base, wanted, fetchers, unsafeKeys, asked, k);
      }
      if req in After(base, wanted, fetchers, unsafeKeys, n) {
        AnswersAreSafe(base, wanted, fetchers, unsafeKeys, n, req);
      }
      hide After, Consulted;
    }
  }

  /** The loop over the fetchers. */
  method FetchMissing(
    ghost wanted: set<Request>, known: Answers, missing: map<Request, Time>, fetchers: Fetchers,
    unsafeKeys: seq<string>)
    returns (results: Answers, toStore: Answers, asked: seq<set<Request>>)
    requires missing.Keys == wanted - known.Keys
    ensures results == After(known, wanted, fetchers, unsafeKeys, |fetchers|)
    ensures Books(known, results, toStore)
    ensures AskedForMissing(known, wanted, fetchers, unsafeKeys, asked)
    ensures |asked| < |fetchers| ==> wanted <= After(known, wanted, fetchers, unsafeKeys, |asked|).Keys
    ensures |asked| < |fetchers| ==> wanted <= results.Keys
  {
    assert After(known, wanted, fetchers, unsafeKeys, 0) == known;
    assert AskedForMissing(known, wanted, fetchers, unsafeKeys, []);
    hide Merged, Safe, Books, After, AskedForMissing;
    var toFetch := missing;
    results, toStore, asked := known, map[], [];
    NothingNew(known);
    var i := 0;
    while i < |fetchers| && toFetch.Keys != {}
      invariant 0 <= i == |asked| <= |fetchers|
      invariant results == After(known, wanted, fetchers, unsafeKeys, i)
      invariant toFetch.Keys == wanted - results.Keys
      invariant Books(known, results, toStore)
      invariant AskedForMissing(known, wanted, fetchers, unsafeKeys, asked)
    {
      AfterNext(known, wanted, fetchers, unsafeKeys, i);
      NothingLeft(wanted, results.Keys);
      AskedNext(known, wanted, fetchers, unsafeKeys, asked);
      asked := asked + [toFetch.Keys];
      if fetchers[i].Some? {
        var fetched := FilterUnsafeKeysOut(fetchers[i].value, unsafeKeys);
        results, toStore, toFetch := KeepBest(known, wanted, results, toStore, toFetch, fetched);
      }
      i := i + 1;
    }
    AllAsked(known, wanted, fetchers, unsafeKeys, i, results, toFetch.Keys);
  }

  /** The loop ends when every fetcher has been asked or nothing is missing; then the rest would change nothing. */
  lemma AllAsked(
    base: Answers, wanted: set<Request>, fetchers: Fetchers, unsafeKeys: seq<string>, k: nat,
    results: Answers, missing: set<Request>)
    requires k <= |fetchers| && results == After(base, wanted, fetchers, unsafeKeys, k)
    requires missing == wanted - results.Keys && (k < |fetchers| ==> missing == {})
    ensures results == After(base, wanted, fetchers, unsafeKeys, |fetchers|)
    ensures k < |fetchers| ==> wanted <= results.Keys && wanted <= After(base, wanted, fetchers, unsafeKeys, k).Keys
  {
    hide After;
    if k < |fetchers| {
      NothingLeft(wanted, results.Keys);
      NothingMissing(base, wanted, fetchers, unsafeKeys, k, |fetchers|);
    }
  }

  /** An answer that was not already known at the start. */
  predicate IsNew(base: Answers, results: Answers, req: Request) {
    req in results && (req !in base || results[req] != base[req])
  }

  /** Exactly the new answers are cached. */
  ghost predicate CachesNew(before: Cache, after: Cache, base: Answers, results: Answers) {
    forall req :: Lookup(after, req) == if IsNew(base, results, req) then Some(results[req]) else Lookup(before, req)
  }

  /** No unsafe key is cached. */
  ghost predicate SafeCache(cache: Cache, unsafeKeys: seq<string>) {
    forall req :: Lookup(cache, req).Some? ==> Lookup(cache, req).value.key !in unsafeKeys
  }

  lemma FetchKeepsCacheSafe(
    before: Cache, after: Cache, base: Answers, wanted: set<Request>, fetchers: Fetchers, unsafeKeys: seq<string>)
    requires SafeCache(before, unsafeKeys)
    requires CachesNew(before, after, base, After(base, wanted, fetchers, unsafeKeys, |fetchers|))
    ensures SafeCache(after, unsafeKeys)
  {
    hide After, Lookup;
    var results := After(base, wanted, fetchers, unsafeKeys, |fetchers|);
    forall req | IsNew(base, results, req) ensures results[req].key !in unsafeKeys {
      AnswersAreSafe(base, wanted, fetchers, unsafeKeys, |fetchers|, req);
    }
  }

  /** What one call of FetchKeys may do to the cache. */
  ghost predicate Fetches(before: Cache, after: Cache, unsafeKeys: seq<string>) {
    exists base, wanted, fetchers ::
      CachesNew(before, after, base, After(base, wanted, fetchers, unsafeKeys, |fetchers|))
  }

  /** Over any sequence of calls, a cache that starts without unsafe keys never holds one. */
  lemma {:induction false} CacheStaysSafe(caches: seq<Cache>, unsafeKeys: seq<string>)
    requires caches != [] && SafeCache(caches[0], unsafeKeys)
    requires forall i :: 0 <= i < |caches| - 1 ==> Fetches(caches[i], caches[i + 1], unsafeKeys)
    ensures forall i :: 0 <= i < |caches| ==> SafeCache(caches[i], unsafeKeys)
  {
    hide SafeCache, CachesNew, After;
    var n := |caches| - 1;
    if n > 0 {
      var front := caches[..n];
      forall i | 0 <= i < n - 1 ensures Fetches(front[i], front[i + 1], unsafeKeys) {
        assert Fetches(caches[i], caches[i + 1], unsafeKeys);
      }
      CacheStaysSafe(front, unsafeKeys);
      assert SafeCache(front[n - 1], unsafeKeys);
      assert Fetches(caches[n - 1], caches[n - 1 + 1], unsafeKeys);
      var base, wanted, fetchers :|
        CachesNew(caches[n - 1], caches[n], base, After(base, wanted, fetchers, unsafeKeys, |fetchers|));
      FetchKeepsCacheSafe(caches[n - 1], caches[n], base, wanted, fetchers, unsafeKeys);
      forall i | 0 <= i <= n ensures SafeCache(caches[i], unsafeKeys) {
        assert i < n ==> caches[i] == front[i];
      }
    }
  }

  /** `toStore` holds the answers that are new, each valid for longer than what it replaces. */
  ghost predicate Books(base: Answers, results: Answers, toStore: Answers) {
    forall req :: Booked(base, results, toStore, req)
  }

  predicate Booked(base: Answers, results: Answers, toStore: Answers, req: Request) {
    if req in toStore then
      req in results && toStore[req] == results[req] && (req in base ==> results[req].validUntil > base[req].validUntil)
    else
      (req in results <==> req in base) && (req in base ==> base[req] == results[req])
  }

  lemma NothingNew(base: Answers)
    ensures Books(base, base, map[])
  {
  }

  lemma StoredIsNew(base: Answers, results: Answers, toStore: Answers, req: Request)
    requires Books(base, results, toStore)
    ensures req in toStore <==> IsNew(base, results, req)
    ensures req in toStore ==> toStore[req] == results[req]
  {
    assert Booked(base, results, toStore, req);
  }

  /** keepResult */
  lemma KeepOne(base: Answers, results: Answers, toStore: Answers, req: Request, res: KeyResult)
    requires Books(base, results, toStore)
    requires req !in results || res.validUntil > results[req].validUntil
    ensures Books(base, results[req := res], toStore[req := res])
  {
    var results', toStore' := results[req := res], toStore[req := res];
    forall r ensures Booked(base, results', toStore', r) {
      assert Booked(base, results, toStore, r);
    }
  }

  /** Goes through one fetcher's safe answers, in any order. */
  method KeepBest(
    ghost base: Answers, ghost wanted: set<Request>, results: Answers, toStore: Answers, toFetch: map<Request, Time>,
    fetched: Answers)
    returns (results': Answers, toStore': Answers, toFetch': map<Request, Time>)
    requires toFetch.Keys == wanted - results.Keys && Books(base, results, toStore)
    ensures results' == Merged(results, fetched)
    ensures toFetch'.Keys == wanted - results'.Keys && Books(base, results', toStore')
  {
    hide Books;
    results', toStore', toFetch' := results, toStore, toFetch;
    var todo := fetched.Keys;
    while todo != {}
      invariant todo <= fetched.Keys
      invariant toFetch'.Keys == wanted - results'.Keys && Books(base, results', toStore')
      invariant results'.Keys == results.Keys + (fetched.Keys - todo)
      invariant forall req :: req in results' ==>
        results'[req] == if req !in todo && Improves(results, fetched, req) then fetched[req] else results[req]
      decreases todo
    {
      var req :| req in todo;
      todo := todo - {req};
      var res := fetched[req];
      if req !in results' || res.validUntil > results'[req].validUntil {
        KeepOne(base, results', toStore', req, res);
        toStore' := toStore'[req := res];
        results' := results'[req := res];
        toFetch' := toFetch' - {req};
      }
    }
  }

  lemma NothingLeft(wanted: set<Request>, answered: set<Request>)
    ensures wanted - answered == {} <==> wanted <= answered
  {
    if wanted - answered == {} {
      forall req | req in wanted ensures req in answered {
        assert req !in wanted - answered;
      }
    }
  }

  lemma {:induction false} NothingMissing(
    base: Answers, wanted: set<Request>, fetchers: Fetchers, unsafeKeys: seq<string>, k: nat, n: nat)
    requires k <= n <= |fetchers| && wanted <= After(base, wanted, fetchers, unsafeKeys, k).Keys
    ensures After(base, wanted, fetchers, unsafeKeys, n) == After(base, wanted, fetchers, unsafeKeys, k)
    decreases n
  {
    if k < n {
      NothingMissing(base, wanted, fetchers, unsafeKeys, k, n - 1);
    }
  }

  /** Each answer is valid at least as long as any safe answer that was fetched for it, and as what was known before. */
  lemma {:induction false} KeepsLongestValid(
    base: Answers, wanted: set<Request>, fetchers: Fetchers, unsafeKeys: seq<string>, n: nat, req: Request)
    requires n <= |fetchers|
    ensures var results := After(base, wanted, fetchers, unsafeKeys, n);
      && (req in base ==> req in results && results[req].validUntil >= base[req].validUntil)
      && forall k ::
           (0 <= k < n && Consulted(base, wanted, fetchers, unsafeKeys, k)
            && req in fetchers[k].value && fetchers[k].value[req].key !in unsafeKeys) ==>
           req in results && results[req].validUntil >= fetchers[k].value[req].validUntil
  {
    if n > 0 {
      KeepsLongestValid(base, wanted, fetchers, unsafeKeys, n - 1, req);
    }
  }

  /** Each answer was known before or is a safe answer of a fetcher: no unsafe fetched key is ever used. */
  lemma {:induction false} AnswersAreSafe(
    base: Answers, wanted: set<Request>, fetchers: Fetchers, unsafeKeys: seq<string>, n: nat, req: Request)
    requires n <= |fetchers| && req in After(base, wanted, fetchers, unsafeKeys, n)
    ensures var answer := After(base, wanted, fetchers, unsafeKeys, n)[req];
      || (req in base && answer == base[req])
      || (answer.key !in unsafeKeys
          && exists k :: 0 <= k < n && Consulted(base, wanted, fetchers, unsafeKeys, k)
               && req in fetchers[k].value && fetchers[k].value[req] == answer)
  {
    if n > 0 && req in After(base, wanted, fetchers, unsafeKeys, n - 1) {
      AnswersAreSafe(base, wanted, fetchers, unsafeKeys, n - 1, req);
    }
    if n > 0 && Consulted(base, wanted, fetchers, unsafeKeys, n - 1) {
      assert req in Safe(fetchers[n - 1].value, unsafeKeys) ==> req in fetchers[n - 1].value;
    }
  }
}
