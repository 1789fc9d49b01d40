// The generation-guarded read cache that all API clients share.
//
// `request` is async, and the code between two awaits runs without interruption. So a request is two
// atomic pieces, one before the HTTP call and one from its `finally` to the end, and everything else
// may happen in between.
module ReadCache {
  import opened Common

  type Key = string
  type Value = string

  // A mutation is any method but GET; a fresh read is a GET with _no_cache.
  datatype Kind = CachedGet | FreshGet | Mutation

  datatype Shared = Shared(cache: map<Key, Value>, generation: nat)

  function Begin(s: Shared, kind: Kind): Shared
  {
    if kind.CachedGet? then s else Shared(map[], s.generation + 1)
  }

  // `parsed` is None when the request failed or was cancelled.
  function End(s: Shared, kind: Kind, key: Key, started: nat, parsed: Option<Value>): Shared
  {
    var current := s.generation == started;
    var cleared := Shared(map[], s.generation + 1);
    match kind
    case Mutation => cleared
    case FreshGet =>
      if !current then s
      else if parsed.Some? then cleared.(cache := map[key := parsed.value])
      else cleared
    case CachedGet =>
      if current && parsed.Some? then s.(cache := s.cache[key := parsed.value]) else s
  }

  class AppContext {
    var cache: map<Key, Value>
    var cacheGeneration: nat

    function State(): Shared
      reads this
    {
      Shared(cache, cacheGeneration)
    }

    constructor ()
      ensures State() == Shared(map[], 0)
    {
      cache, cacheGeneration := map[], 0;
    }

    // From the call of `request` to its first await. A hit ends the request at once.
    method BeginRequest(cacheable: bool, noCache: bool, key: Key) returns (hit: Option<Value>, generation: nat)
      modifies this
      ensures hit.Some? <==> cacheable && !noCache && key in old(cache)
      ensures hit.Some? ==> hit.value == old(cache)[key] && State() == old(State())
      ensures hit.None? ==> State() == Begin(old(State()), KindOf(cacheable, noCache)) && generation == cacheGeneration
      ensures cacheable && !noCache ==> State() == old(State())
      ensures !cacheable || noCache ==> cache == map[] && cacheGeneration == old(cacheGeneration) + 1
    {
      if cacheable && !noCache && key in cache {
        return Some(cache[key]), cacheGeneration;
      }
      var invalidating := !cacheable || noCache;
      if invalidating {
        cacheGeneration := cacheGeneration + 1;
        cache := map[];
      }
      return None, cacheGeneration;
    }

    // The `finally` block and, when the request succeeded, the conditional store after it.
    method FinishRequest(cacheable: bool, noCache: bool, key: Key, generation: nat, parsed: Option<Value>)
      modifies this
      ensures State() == End(old(State()), KindOf(cacheable, noCache), key, generation, parsed)
      ensures cacheable && !noCache && generation == old(cacheGeneration) && parsed.Some? ==>
        cache == old(cache)[key := parsed.value] && cacheGeneration == old(cacheGeneration)
      ensures cacheable && !noCache && (generation != old(cacheGeneration) || parsed.None?) ==> State() == old(State())
      ensures cacheable && noCache && generation != old(cacheGeneration) ==> State() == old(State())
      ensures cacheable && noCache && generation == old(cacheGeneration) ==>
        && cacheGeneration == old(cacheGeneration) + 1
        && cache == if parsed.Some? then map[key := parsed.value] else map[]
      ensures !cacheable ==> cacheGeneration == old(cacheGeneration) + 1 && cache == map[]
    {
      var freshFinalized := false;
      if !cacheable {
        cacheGeneration := cacheGeneration + 1;
        cache := map[];
      } else if noCache && cacheGeneration == generation {
        cacheGeneration := cacheGeneration + 1;
        cache := map[];
        freshFinalized := true;
      }
      if parsed.Some? && cacheable
         && ((noCache && freshFinalized) || (!noCache && cacheGeneration == generation)) {
        cache := cache[key := parsed.value];
      }
    }
  }

  function KindOf(cacheable: bool, noCache: bool): Kind
  {
    if !cacheable then Mutation else if noCache then FreshGet else CachedGet
  }

  // ---- all interleavings ----

  datatype Reading = Reading(value: Value, version: nat)

  datatype Request = Request(kind: Kind, key: Key, generation: nat, response: Option<Reading>)

  // `log` is every state the controller has been in, the last one current. `settled` is the index of
  // the state it was in when a mutation last finished. `readAt` says which state a cached value is from.
  datatype State = State(shared: Shared, readAt: map<Key, nat>, inFlight: map<nat, Request>, issued: nat,
                         log: seq<map<Key, Value>>, settled: nat)

  datatype Step =
    | Dispatch(kind: Kind, key: Key)
    | Land(id: nat, controller: map<Key, Value>)  // a mutation takes effect, any number of times
    | Respond(id: nat)                            // again after a 401 and a refreshed session
    | Finish(id: nat, succeeded: bool)            // or failed, or was cancelled
    | Evict(keys: set<Key>)                       // TTL or size

  function Start(controller: map<Key, Value>): State
  {
    State(Shared(map[], 0), map[], map[], 0, [controller], 0)
  }

  predicate Enabled(s: State, e: Step)
  {
    match e
    case Dispatch(kind, key) => kind.CachedGet? ==> key !in s.shared.cache
    case Land(id, _) => id in s.inFlight && s.inFlight[id].kind.Mutation?
    case Respond(id) => id in s.inFlight && s.log != [] && s.inFlight[id].key in s.log[|s.log| - 1]
    case Finish(id, succeeded) =>
      id in s.inFlight && (succeeded && !s.inFlight[id].kind.Mutation? ==> s.inFlight[id].response.Some?)
    case Evict(_) => true
  }

  function Parsed(r: Request, succeeded: bool): Option<Value>
  {
    if succeeded && r.response.Some? then Some(r.response.value.value) else None
  }

  predicate Stores(s: State, r: Request, succeeded: bool)
  {
    !r.kind.Mutation? && Parsed(r, succeeded).Some? && r.generation == s.shared.generation
  }

  function Apply(s: State, e: Step): State
    requires Enabled(s, e)
  {
    match e
    case Dispatch(kind, key) =>
      var shared := Begin(s.shared, kind);
      s.(shared := shared, issued := s.issued + 1,
         inFlight := s.inFlight[s.issued := Request(kind, key, shared.generation, None)])
    case Land(_, controller) => s.(log := s.log + [controller])
    case Respond(id) =>
      var r := s.inFlight[id];
      var version := |s.log| - 1;
      s.(inFlight := s.inFlight[id := r.(response := Some(Reading(s.log[version][r.key], version)))])
    case Finish(id, succeeded) =>
      var r := s.inFlight[id];
      s.(shared := End(s.shared, r.kind, r.key, r.generation, Parsed(r, succeeded)),
         readAt := if Stores(s, r, succeeded) then s.readAt[r.key := r.response.value.version] else s.readAt,
         inFlight := s.inFlight - {id},
         settled := if r.kind.Mutation? && s.log != [] then |s.log| - 1 else s.settled)
    case Evict(keys) => s.(shared := s.shared.(cache := s.shared.cache - keys))
  }

  predicate Legal(s: State, trace: seq<Step>)
    decreases |trace|
  {
    trace == [] || (Enabled(s, trace[0]) && Legal(Apply(s, trace[0]), trace[1..]))
  }

  function Run(s: State, trace: seq<Step>): State
    requires Legal(s, trace)
    decreases |trace|
  {
    if trace == [] then s else Run(Apply(s, trace[0]), trace[1..])
  }

  predicate Quiet(s: State)
  {
    forall id :: id in s.inFlight ==> !s.inFlight[id].kind.Mutation?
  }

  // A value read from the controller no earlier than the latest finished mutation.
  ghost predicate Recent(s: State, key: Key, value: Value, version: nat)
  {
    s.settled <= version < |s.log| && key in s.log[version] && s.log[version][key] == value
  }

  // A response that could yet be stored is recent.
  ghost predicate StillUsable(s: State, r: Request)
  {
    r.kind.Mutation? || r.generation != s.shared.generation || r.response.None? ||
    Recent(s, r.key, r.response.value.value, r.response.value.version)
  }

  ghost predicate Inv(s: State)
  {
    && s.settled < |s.log|
    && (Quiet(s) ==> s.settled == |s.log| - 1)
    && (forall k :: k in s.shared.cache ==> k in s.readAt && Recent(s, k, s.shared.cache[k], s.readAt[k]))
    && (forall id :: id in s.inFlight ==> id < s.issued && s.inFlight[id].generation <= s.shared.generation)
    && (forall id :: id in s.inFlight ==> StillUsable(s, s.inFlight[id]))
  }

  lemma InvStep(s: State, e: Step)
    requires Inv(s) && Enabled(s, e)
    ensures Inv(Apply(s, e))
  {
    var t := Apply(s, e);
    match e
    case Dispatch(kind, key) =>
      if Quiet(t) { forall id | id in s.inFlight ensures !s.inFlight[id].kind.Mutation? { assert id in t.inFlight; } }
    case Land(id, _) =>
    case Respond(id) =>
      if Quiet(t) { forall i | i in s.inFlight ensures !s.inFlight[i].kind.Mutation? { assert i in t.inFlight; } }
    case Finish(id, succeeded) =>
      if Quiet(t) && !s.inFlight[id].kind.Mutation? {
        forall i | i in s.inFlight ensures !s.inFlight[i].kind.Mutation? { assert i == id || i in t.inFlight; }
      }
    case Evict(_) =>
  }

  lemma {:induction false} InvRun(s: State, trace: seq<Step>)
    requires Inv(s) && Legal(s, trace)
    ensures Inv(Run(s, trace))
    decreases |trace|
  {
    if trace != [] {
      InvStep(s, trace[0]);
      InvRun(Apply(s, trace[0]), trace[1..]);
    }
  }

  // In every reachable state a cached value is one the controller held at or after the end of the
  // latest mutation, even while further mutations are in flight; and when none is in flight, every
  // cached value is the controller's current one.
  lemma CachedReadsAreCoherent(controller: map<Key, Value>, trace: seq<Step>, key: Key)
    requires Legal(Start(controller), trace)
    requires key in Run(Start(controller), trace).shared.cache
    ensures var s := Run(Start(controller), trace);
      && (exists version :: Recent(s, key, s.shared.cache[key], version))
      && (Quiet(s) ==> key in s.log[|s.log| - 1] && s.log[|s.log| - 1][key] == s.shared.cache[key])
  {
    InvRun(Start(controller), trace);
  }

  // ---- what was stored is what later reads get ----

  // Nothing that this step does removes or replaces the entry of `key`.
  predicate Spares(s: State, e: Step, key: Key)
    requires Enabled(s, e)
  {
    match e
    case Dispatch(kind, _) => kind.CachedGet?
    case Finish(id, succeeded) =>
      var r := s.inFlight[id];
      && !r.kind.Mutation? && (r.kind.FreshGet? ==> r.generation != s.shared.generation)
      && (Stores(s, r, succeeded) ==> r.key != key)
    case Evict(keys) => key !in keys
    case _ => true
  }

  predicate AllSpare(s: State, trace: seq<Step>, key: Key)
    requires Legal(s, trace)
    decreases |trace|
  {
    trace == [] || (Spares(s, trace[0], key) && AllSpare(Apply(s, trace[0]), trace[1..], key))
  }

  // A read of `key` from here gets this value from the cache, and sends no request.
  ghost predicate Hits(s: State, key: Key, value: Value)
  {
    key in s.shared.cache && s.shared.cache[key] == value && !Enabled(s, Dispatch(CachedGet, key))
  }

  lemma {:induction false} EntryStays(s: State, trace: seq<Step>, key: Key)
    requires Legal(s, trace) && AllSpare(s, trace, key) && key in s.shared.cache
    ensures Hits(Run(s, trace), key, s.shared.cache[key])
    decreases |trace|
  {
    if trace != [] { EntryStays(Apply(s, trace[0]), trace[1..], key); }
  }

  // A cached read that ends in the generation it began in is stored: until its entry is invalidated, evicted
  // or replaced, every read of its key gets the response from the cache, and so do reads of any other key
  // that was in the cache before.
  lemma StoredReadsHit(controller: map<Key, Value>, before: seq<Step>, id: nat, after: seq<Step>, key: Key)
    requires Legal(Start(controller), before)
    requires var s := Run(Start(controller), before);
      && Enabled(s, Finish(id, true)) && s.inFlight[id].kind.CachedGet?
      && s.inFlight[id].generation == s.shared.generation
      && (key == s.inFlight[id].key || key in s.shared.cache)
      && Legal(Apply(s, Finish(id, true)), after) && AllSpare(Apply(s, Finish(id, true)), after, key)
    ensures var s := Run(Start(controller), before);
      Hits(Run(Apply(s, Finish(id, true)), after), key,
           if key == s.inFlight[id].key then s.inFlight[id].response.value.value else s.shared.cache[key])
  {
    var s := Run(Start(controller), before);
    EntryStays(Apply(s, Finish(id, true)), after, key);
  }

  // The cache only ever holds what was stored: a step that is no such end adds and changes no entry.
  lemma OnlyStoresAdd(s: State, e: Step, key: Key)
    requires Enabled(s, e) && key in Apply(s, e).shared.cache
    ensures var t := Apply(s, e);
      || (key in s.shared.cache && t.shared.cache[key] == s.shared.cache[key])
      || (e.Finish? && e.succeeded && s.inFlight[e.id].key == key && s.inFlight[e.id].response.Some?
          && !s.inFlight[e.id].kind.Mutation? && s.inFlight[e.id].generation == s.shared.generation
          && t.shared.cache[key] == s.inFlight[e.id].response.value.value)
  {
  }

  // ---- an overtaken read ----

  // A read is answered, a mutation overtakes it, and the answer is not stored: the next read sends a request of
  // its own, and only its answer is.
  function Overtaken(key: Key, later: Value): seq<Step>
  {
    [Dispatch(CachedGet, key), Respond(0), Dispatch(Mutation, key)]
    + ([Land(1, map[key := later]), Finish(1, true), Finish(0, true)] + [Dispatch(CachedGet, key), Respond(2)])
  }

  // The stages of that run: after three steps, after six, and at the end.
  function Overtaking(key: Key, sooner: Value): State
  {
    State(Shared(map[], 1), map[],
          map[0 := Request(CachedGet, key, 0, Some(Reading(sooner, 0))), 1 := Request(Mutation, key, 1, None)],
          2, [map[key := sooner]], 0)
  }

  function Settled(key: Key, sooner: Value, later: Value): State
  {
    State(Shared(map[], 2), map[], map[], 2, [map[key := sooner], map[key := later]], 1)
  }

  function Reread(key: Key, sooner: Value, later: Value): State
  {
    Settled(key, sooner, later).(issued := 3, inFlight := map[2 := Request(CachedGet, key, 2, Some(Reading(later, 1)))])
  }

  lemma {:induction false} Prepend(s: State, first: seq<Step>, rest: seq<Step>)
    requires Legal(s, first) && Legal(Run(s, first), rest)
    ensures Legal(s, first + rest) && Run(s, first + rest) == Run(Run(s, first), rest)
    decreases |first|
  {
    if first == [] {
      assert first + rest == rest;
    } else {
      Prepend(Apply(s, first[0]), first[1..], rest);
      assert (first + rest)[1..] == first[1..] + rest;
    }
  }

  lemma TwoSteps(s: State, d: Step, e: Step)
    requires Enabled(s, d) && Enabled(Apply(s, d), e)
    ensures Legal(s, [d, e]) && Run(s, [d, e]) == Apply(Apply(s, d), e)
  {
    assert [e][1..] == [] && Legal(Apply(s, d), [e]) && Run(Apply(s, d), [e]) == Apply(Apply(s, d), e);
    assert [d, e][1..] == [e];
  }

  lemma ThreeSteps(s: State, d: Step, e: Step, f: Step)
    requires Enabled(s, d) && Enabled(Apply(s, d), e) && Enabled(Apply(Apply(s, d), e), f)
    ensures Legal(s, [d, e, f]) && Run(s, [d, e, f]) == Apply(Apply(Apply(s, d), e), f)
  {
    TwoSteps(Apply(s, d), e, f);
    assert [d, e, f][1..] == [e, f];
  }

  lemma OvertakingBegins(key: Key, sooner: Value)
    ensures var trace := [Dispatch(CachedGet, key), Respond(0), Dispatch(Mutation, key)];
      Legal(Start(map[key := sooner]), trace) && Run(Start(map[key := sooner]), trace) == Overtaking(key, sooner)
  {
    var s := Start(map[key := sooner]);
    var s1 := Apply(s, Dispatch(CachedGet, key));
    var s2 := Apply(s1, Respond(0));
    assert Apply(s2, Dispatch(Mutation, key)) == Overtaking(key, sooner);
    ThreeSteps(s, Dispatch(CachedGet, key), Respond(0), Dispatch(Mutation, key));
  }

  lemma OvertakingSettles(key: Key, sooner: Value, later: Value)
    ensures var trace := [Land(1, map[key := later]), Finish(1, true), Finish(0, true)];
      Legal(Overtaking(key, sooner), trace) && Run(Overtaking(key, sooner), trace) == Settled(key, sooner, later)
  {
    var s1 := Apply(Overtaking(key, sooner), Land(1, map[key := later]));
    var s2 := Apply(s1, Finish(1, true));
    assert Apply(s2, Finish(0, true)) == Settled(key, sooner, later);
    ThreeSteps(Overtaking(key, sooner), Land(1, map[key := later]), Finish(1, true), Finish(0, true));
  }

  lemma SettledIsReread(key: Key, sooner: Value, later: Value)
    ensures var trace := [Dispatch(CachedGet, key), Respond(2)];
      Legal(Settled(key, sooner, later), trace) && Run(Settled(key, sooner, later), trace) == Reread(key, sooner, later)
  {
    var s1 := Apply(Settled(key, sooner, later), Dispatch(CachedGet, key));
    assert Apply(s1, Respond(2)) == Reread(key, sooner, later);
    TwoSteps(Settled(key, sooner, later), Dispatch(CachedGet, key), Respond(2));
  }

  // So the next read gets the value the mutation left, and it is that which is cached, until it is evicted.
  lemma OvertakenReadIsDropped(key: Key, sooner: Value, later: Value)
    ensures Legal(Start(map[key := sooner]), Overtaken(key, later))
    ensures Run(Start(map[key := sooner]), Overtaken(key, later)) == Reread(key, sooner, later)
    ensures Enabled(Reread(key, sooner, later), Finish(2, true))
    ensures var stored := Apply(Reread(key, sooner, later), Finish(2, true));
      && stored.shared.cache == map[key := later] && stored.inFlight == map[]
      && Apply(stored, Evict({key})).shared.cache == map[]
  {
    OvertakingBegins(key, sooner);
    OvertakingSettles(key, sooner, later);
    SettledIsReread(key, sooner, later);
    var middle, end := [Land(1, map[key := later]), Finish(1, true), Finish(0, true)],
                       [Dispatch(CachedGet, key), Respond(2)];
    Prepend(Overtaking(key, sooner), middle, end);
    Prepend(Start(map[key := sooner]), [Dispatch(CachedGet, key), Respond(0), Dispatch(Mutation, key)], middle + end);
  }

  // ---- a fresh read is never overwritten by anything older ----

  // The first n requests ever dispatched have all lost the generation they started in.
  ghost predicate Outdated(s: State, n: nat)
  {
    n <= s.issued && forall id :: id in s.inFlight && id < n ==> s.inFlight[id].generation < s.shared.generation
  }

  lemma {:induction false} OutdatedRun(s: State, trace: seq<Step>, n: nat)
    requires Outdated(s, n) && Legal(s, trace)
    ensures Outdated(Run(s, trace), n)
    decreases |trace|
  {
    if trace != [] {
      assert Outdated(Apply(s, trace[0]), n);
      OutdatedRun(Apply(s, trace[0]), trace[1..], n);
    }
  }

  // Once a fresh read has stored its response, whatever happens next, no request dispatched before
  // that moment puts anything into the cache.
  lemma OlderRequestsNeverStore(controller: map<Key, Value>, before: seq<Step>, winner: nat,
                                after: seq<Step>, older: nat, succeeded: bool)
    requires Legal(Start(controller), before)
    requires var s := Run(Start(controller), before);
      && Enabled(s, Finish(winner, true)) && s.inFlight[winner].kind.FreshGet?
      && s.inFlight[winner].generation == s.shared.generation
      && older < s.issued
      && Legal(Apply(s, Finish(winner, true)), after)
      && Enabled(Run(Apply(s, Finish(winner, true)), after), Finish(older, succeeded))
    ensures var s := Run(Start(controller), before);
      var stored := Apply(s, Finish(winner, true));
      var t := Run(stored, after);
      && stored.shared.cache == map[s.inFlight[winner].key := s.inFlight[winner].response.value.value]
      && Apply(t, Finish(older, succeeded)).shared.cache.Items <= t.shared.cache.Items
  {
    var s := Run(Start(controller), before);
    InvRun(Start(controller), before);
    assert Outdated(Apply(s, Finish(winner, true)), s.issued);
    OutdatedRun(Apply(s, Finish(winner, true)), after, s.issued);
  }
}
