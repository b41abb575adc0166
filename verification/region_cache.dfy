/**
 * The region cache every resource page keeps: a `byRegion` state variable
 * (initially null) and one localStorage key. Two effects act on them. On mount
 * the stored text is hydrated into the state, and corrupt text is removed. When
 * the query's data becomes truthy, it replaces the state and is persisted under
 * the same key. Fetches come only from the refresh button, which is disabled
 * while a fetch is in flight. The four pages differ only in key and endpoint
 * (see module Pages), so the cache is written once, over the key.
 */
module RegionCache {
  import opened Types
  import opened Json
  import opened Envelope

  /** localStorage: item name to stored text. */
  type Store = map<string, string>

  /** The page state together with the store. `snapshot` is the `byRegion`
      state variable; it holds whatever JSON.parse produced, with `Null` for
      React's initial `null`, so no key of it is assumed to be a region. */
  datatype Cache = Cache(snapshot: Json, store: Store)

  /** The state right after `useState(null)`, before any effect. */
  function Fresh(store: Store): Cache {
    Cache(Null, store)
  }

  /** The mount effect: read the key; a non-empty text that parses becomes the
      snapshot; one that does not parse is removed and the snapshot kept. */
  function Hydrate(c: Codec, key: string, cache: Cache): (r: Cache)
    ensures r.store - {key} == cache.store - {key}
    ensures key in r.store ==> key in cache.store && r.store[key] == cache.store[key]
    ensures r.snapshot != cache.snapshot ==>
              key in cache.store && cache.store[key] != "" && c.parse(cache.store[key]) == Some(r.snapshot)
    ensures key in cache.store && cache.store[key] != "" && c.parse(cache.store[key]).None? ==>
              key !in r.store && r.snapshot == cache.snapshot
    ensures key in cache.store && cache.store[key] != "" && c.parse(cache.store[key]).Some? ==>
              r == cache.(snapshot := c.parse(cache.store[key]).value)
    ensures !(key in cache.store && cache.store[key] != "") ==> r == cache
  {
    if key in cache.store && cache.store[key] != "" then
      match c.parse(cache.store[key])
      case Some(v) => cache.(snapshot := v)
      case None => cache.(store := cache.store - {key})
    else cache
  }

  /** The data effect: truthy fetched data replaces the snapshot wholesale and
      its serialisation overwrites the key; falsy data changes nothing. */
  function OnData(c: Codec, key: string, cache: Cache, data: Json): (r: Cache)
    ensures r.store - {key} == cache.store - {key}
    ensures Truthy(data) ==> r.snapshot == data && key in r.store
    ensures Lawful(c) && Truthy(data) ==> c.parse(r.store[key]) == Some(data)
    ensures !Truthy(data) ==> r == cache
  {
    if Truthy(data) then Cache(data, cache.store[key := c.stringify(data)]) else cache
  }

  /** A settled fetch: a payload goes through the data effect; a rejection
      leaves the snapshot and the store as they were. */
  function Settle(c: Codec, key: string, cache: Cache, resp: Response): (r: Cache)
    ensures FetchPayload(c, resp).Err? ==> r == cache
    ensures r.store - {key} == cache.store - {key}
  {
    match FetchPayload(c, resp)
    case Ok(v) => OnData(c, key, cache, v)
    case Err(_) => cache
  }

  /** A mounting page: the effects run in declaration order, so hydration comes
      first and then the data effect, which fires only if the query client
      already holds data for this query (`retained`, from an earlier visit). */
  function Mount(c: Codec, key: string, store: Store, retained: Option<Json>): (r: Cache)
    ensures r.store - {key} == store - {key}
    ensures retained.Some? && Truthy(retained.value) ==> r.snapshot == retained.value
    ensures Lawful(c) && retained.Some? && Truthy(retained.value) ==>
              key in r.store && c.parse(r.store[key]) == Some(retained.value)
    ensures retained.None? || !Truthy(retained.value) ==> r == Hydrate(c, key, Fresh(store))
  {
    var hydrated := Hydrate(c, key, Fresh(store));
    match retained
    case Some(d) => OnData(c, key, hydrated, d)
    case None => hydrated
  }

  /** Reload after a successful fetch reproduces the fetched data exactly. */
  lemma ReloadRestoresFetchedData(c: Codec, key: string, cache: Cache, data: Json)
    requires Lawful(c)
    requires Truthy(data)
    ensures Mount(c, key, OnData(c, key, cache, data).store, None).snapshot == data
  {
    var s := OnData(c, key, cache, data).store;
    assert s[key] == c.stringify(data);
    assert c.stringify(data) != "" && c.parse(c.stringify(data)) == Some(data);
  }

  /** Hydrating a store that holds a persisted snapshot, then persisting the
      hydrated value again, leaves the store as it was: hydration is idempotent. */
  lemma HydrateThenPersistIsStable(c: Codec, key: string, v: Json, store: Store)
    requires Lawful(c)
    requires Truthy(v)
    requires key in store && store[key] == c.stringify(v)
    ensures var h := Hydrate(c, key, Fresh(store));
            h.snapshot == v && OnData(c, key, h, h.snapshot).store == store
  {
    assert c.stringify(v) != "" && c.parse(c.stringify(v)) == Some(v);
  }

  /** Corrupt stored text heals itself: the first hydration removes the key and
      keeps the snapshot null, and so does every later hydration. */
  lemma CorruptStoreSelfHeals(c: Codec, key: string, store: Store)
    requires key in store && store[key] != "" && c.parse(store[key]).None?
    ensures Hydrate(c, key, Fresh(store)) == Fresh(store - {key})
    ensures Hydrate(c, key, Hydrate(c, key, Fresh(store))) == Fresh(store - {key})
  {
  }

  /** An absent or empty stored item leaves the snapshot null and the store intact. */
  lemma EmptyStoreHydratesNothing(c: Codec, key: string, store: Store)
    requires key !in store || store[key] == ""
    ensures Hydrate(c, key, Fresh(store)) == Fresh(store)
  {
  }

  /** Replacement, not merge: after two successful fetches the snapshot is the
      second payload alone, whatever regions the first one had. */
  lemma SecondFetchReplacesFirst(c: Codec, key: string, cache: Cache, first: Json, second: Json)
    requires Lawful(c)
    requires Truthy(second)
    ensures OnData(c, key, OnData(c, key, cache, first), second).snapshot == second
    ensures OnData(c, key, OnData(c, key, cache, first), second).store
              == OnData(c, key, cache, second).store
  {
  }

  // ---------------------------------------------------------------------------
  // The refresh button and the query's fetch lifecycle
  // ---------------------------------------------------------------------------

  /** A mounted page: its cache, whether a fetch is in flight (`isFetching`),
      how many fetches were issued and settled, and the last fetch error
      (shown while the query is in its error status). */
  datatype Page = Page(cache: Cache, inFlight: bool, issued: nat, settled: nat, lastError: Option<FetchError>)

  /** What the operator or the network can do to a mounted page. */
  datatype Event =
    | ClickRefresh             // the refresh button
    | Resolve(resp: Response)  // the outstanding request's response arrives

  /** The page right after mounting: no fetch is issued (`enabled: false`). */
  function MountPage(c: Codec, key: string, store: Store, retained: Option<Json>): (p: Page)
    ensures p.issued == 0 && p.lastError.None?
    ensures OneInFlight(p) && ButtonEnabled(p)
  {
    Page(Mount(c, key, store, retained), false, 0, 0, None)
  }

  /** `disabled={isFetching}`: the button can be pressed exactly when no fetch
      is in flight. */
  predicate ButtonEnabled(p: Page) {
    !p.inFlight
  }

  /** One event. A click on the disabled button is not delivered; a response
      with no request in flight cannot arrive and changes nothing. */
  function Step(c: Codec, key: string, p: Page, e: Event): (q: Page)
    ensures q.cache.store - {key} == p.cache.store - {key}
    ensures q.issued == p.issued + (if e.ClickRefresh? && ButtonEnabled(p) then 1 else 0)
  {
    match e
    case ClickRefresh =>
      if ButtonEnabled(p) then p.(inFlight := true, issued := p.issued + 1) else p
    case Resolve(resp) =>
      if !p.inFlight then p
      else
        var outcome := FetchPayload(c, resp);
        Page(Settle(c, key, p.cache, resp), false, p.issued, p.settled + 1,
             if outcome.Err? then Some(outcome.error) else None)
  }

  /** A sequence of events applied in order. */
  function Run(c: Codec, key: string, p: Page, es: seq<Event>): Page
    decreases |es|
  {
    if es == [] then p else Run(c, key, Step(c, key, p, es[0]), es[1..])
  }

  /** At most one fetch is outstanding: every issued fetch has settled, except
      the one in flight. */
  predicate OneInFlight(p: Page) {
    p.issued == p.settled + (if p.inFlight then 1 else 0)
  }

  /** Number of refresh clicks in a trace. */
  function Clicks(es: seq<Event>): nat
    decreases |es|
  {
    if es == [] then 0 else (if es[0].ClickRefresh? then 1 else 0) + Clicks(es[1..])
  }

  /** Every step keeps the one-in-flight invariant. */
  lemma StepKeepsOneInFlight(c: Codec, key: string, p: Page, e: Event)
    requires OneInFlight(p)
    ensures OneInFlight(Step(c, key, p, e))
  {
  }

  /** Over any trace: the invariant holds, no fetch is issued except by a click,
      and no storage key other than the page's own is touched. */
  lemma {:induction false} RunInvariants(c: Codec, key: string, p: Page, es: seq<Event>)
    requires OneInFlight(p)
    ensures OneInFlight(Run(c, key, p, es))
    ensures Run(c, key, p, es).issued <= p.issued + Clicks(es)
    ensures Run(c, key, p, es).cache.store - {key} == p.cache.store - {key}
    decreases |es|
  {
    if es != [] {
      var q := Step(c, key, p, es[0]);
      StepKeepsOneInFlight(c, key, p, es[0]);
      RunInvariants(c, key, q, es[1..]);
    }
  }

  /** A mounted page that is never clicked never fetches. */
  lemma NoClickNoFetch(c: Codec, key: string, store: Store, retained: Option<Json>, es: seq<Event>)
    requires Clicks(es) == 0
    ensures Run(c, key, MountPage(c, key, store, retained), es).issued == 0
    ensures !Run(c, key, MountPage(c, key, store, retained), es).inFlight
  {
    var p := MountPage(c, key, store, retained);
    RunInvariants(c, key, p, es);
  }

  /** A failed fetch keeps the last good snapshot in memory and in storage and
      surfaces its error. */
  lemma FailedFetchKeepsLastGood(c: Codec, key: string, p: Page, resp: Response)
    requires p.inFlight
    requires FetchPayload(c, resp).Err?
    ensures Step(c, key, p, Resolve(resp)).cache == p.cache
    ensures Step(c, key, p, Resolve(resp)).lastError == Some(FetchPayload(c, resp).error)
    ensures ButtonEnabled(Step(c, key, p, Resolve(resp)))
  {
  }
}
