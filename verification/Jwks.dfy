// The JWKS cache of the OIDC verifier: expiry, and the cooldown on forced refreshes.
// Times are integers in microseconds of the monotonic clock.
module Jwks {
  import opened Arithmetic
  import opened Common

  datatype Jwk = NotAnObject | Jwk(kid: Option<string>, body: string)

  type KeySet = seq<Jwk>

  const MAX_COOLDOWN := 60000000

  datatype Cached = Cached(expiry: int, keys: KeySet)

  // forcedAt is None for minus infinity.
  datatype Cache = Cache(jwks: Option<Cached>, forcedAt: Option<int>)

  function Cooldown(ttl: nat): nat { Min(ttl, MAX_COOLDOWN) }

  predicate Fresh(c: Cache, now: int)
  {
    c.jwks.Some? && c.jwks.value.expiry > now
  }

  predicate CoolingDown(c: Cache, ttl: nat, now: int)
  {
    c.jwks.Some? && c.forcedAt.Some? && now - c.forcedAt.value < Cooldown(ttl)
  }

  // Under the lock: what a lookup is answered from, without a fetch.
  predicate Answered(c: Cache, ttl: nat, force: bool, now: int)
  {
    if force then CoolingDown(c, ttl, now) else Fresh(c, now)
  }

  function Refreshed(c: Cache, ttl: nat, force: bool, now: int, keys: KeySet): Cache
  {
    Cache(Some(Cached(now + ttl, keys)), if force then Some(now) else c.forcedAt)
  }

  predicate HasId(key: Jwk, kid: string)
  {
    key.Jwk? && key.kid == Some(kid)
  }

  class OIDCTokenVerifier {
    const ttl: nat
    var jwks: Option<Cached>
    var lastForcedRefresh: Option<int>

    function State(): Cache
      reads this
    {
      Cache(jwks, lastForcedRefresh)
    }

    constructor (ttl: nat)
      ensures this.ttl == ttl && State() == Cache(None, None)
    {
      this.ttl, jwks, lastForcedRefresh := ttl, None, None;
    }

    // `before` and `now` are the clock outside and inside the lock; `fetched` is what the endpoint
    // answers, None for an error or a response without a keys array.
    method GetJwks(force: bool, before: int, now: int, fetched: Option<KeySet>) returns (keys: Option<KeySet>)
      modifies this`jwks, this`lastForcedRefresh
      ensures var c := old(State());
        if !force && Fresh(c, before) then keys == Some(c.jwks.value.keys) && State() == c
        else if Answered(c, ttl, force, now) then keys == Some(c.jwks.value.keys) && State() == c
        else keys == fetched && State() == if fetched.Some? then Refreshed(c, ttl, force, now, fetched.value) else c
      ensures (jwks == old(jwks) && lastForcedRefresh == old(lastForcedRefresh))
        || (fetched.Some? && keys == fetched && jwks == Some(Cached(now + ttl, fetched.value))
            && lastForcedRefresh == if force then Some(now) else old(lastForcedRefresh))
      ensures keys.Some? ==> keys == fetched || (old(jwks).Some? && keys.value == old(jwks).value.keys)
      ensures old(jwks).None? ==> keys == fetched && (jwks.Some? <==> fetched.Some?)
      ensures !force && old(jwks).Some? && old(jwks).value.expiry > now ==> keys == Some(old(jwks).value.keys)
      ensures !force && old(jwks).Some? && old(jwks).value.expiry <= Min(before, now) ==> keys == fetched
      ensures force && old(lastForcedRefresh).None? ==> keys == fetched
      ensures force && old(jwks).Some? && old(lastForcedRefresh).Some? ==>
        if now - old(lastForcedRefresh).value < ttl && now - old(lastForcedRefresh).value < 60000000
        then keys == Some(old(jwks).value.keys) else keys == fetched
    {
      if !force && jwks.Some? && jwks.value.expiry > before { return Some(jwks.value.keys); }
      if !force && jwks.Some? && jwks.value.expiry > now { return Some(jwks.value.keys); }
      if force && jwks.Some? && lastForcedRefresh.Some? && now - lastForcedRefresh.value < Cooldown(ttl) {
        return Some(jwks.value.keys);
      }
      if fetched.None? { return None; }
      jwks := Some(Cached(now + ttl, fetched.value));
      if force { lastForcedRefresh := Some(now); }
      return fetched;
    }

    // The first object in the set with this key id.
    static method KeyById(keys: KeySet, kid: string) returns (key: Option<Jwk>)
      ensures key.None? ==> forall i :: 0 <= i < |keys| ==> keys[i].NotAnObject? || keys[i].kid != Some(kid)
      ensures key.Some? ==> key.value.Jwk? && key.value.kid == Some(kid)
      ensures key.Some? ==>
        exists i :: 0 <= i < |keys| && keys[i] == key.value && forall k :: k in keys[..i] ==> !HasId(k, kid)
    {
      var i := 0;
      while i < |keys|
        invariant 0 <= i <= |keys|
        invariant forall j :: 0 <= j < i ==> keys[j].NotAnObject? || keys[j].kid != Some(kid)
      {
        if keys[i].Jwk? && keys[i].kid == Some(kid) { return Some(keys[i]); }
        i := i + 1;
      }
      return None;
    }
  }

  // ---- all interleavings: lookups go on while one of them, holding the lock, fetches ----

  datatype Fetch = Fetch(at: int, forced: bool)

  // `successes` lists the successful fetches, oldest first, each with the clock it read under the lock.
  datatype State = State(cache: Cache, fetching: Option<Fetch>, clock: int, successes: seq<Fetch>)

  datatype Step =
    | FastHit(now: int)               // answered without the lock
    | Enter(now: int, force: bool)    // takes the lock, and is answered or starts a fetch
    | Finish(keys: Option<KeySet>)    // the fetch succeeds or fails, and the lock is released

  const EMPTY := State(Cache(None, None), None, 0, [])

  predicate Enabled(s: State, e: Step)
  {
    match e
    case FastHit(now) => s.clock <= now && Fresh(s.cache, now)
    case Enter(now, _) => s.clock <= now && s.fetching.None?
    case Finish(_) => s.fetching.Some?
  }

  function Apply(ttl: nat, s: State, e: Step): State
    requires Enabled(s, e)
  {
    match e
    case FastHit(now) => s.(clock := now)
    case Enter(now, force) =>
      if Answered(s.cache, ttl, force, now) then s.(clock := now)
      else s.(clock := now, fetching := Some(Fetch(now, force)))
    case Finish(keys) =>
      var f := s.fetching.value;
      if keys.None? then s.(fetching := None)
      else s.(cache := Refreshed(s.cache, ttl, f.forced, f.at, keys.value), fetching := None,
              successes := s.successes + [f])
  }

  predicate Legal(ttl: nat, s: State, trace: seq<Step>)
    decreases |trace|
  {
    trace == [] || (Enabled(s, trace[0]) && Legal(ttl, Apply(ttl, s, trace[0]), trace[1..]))
  }

  function Run(ttl: nat, s: State, trace: seq<Step>): State
    requires Legal(ttl, s, trace)
    decreases |trace|
  {
    if trace == [] then s else Run(ttl, Apply(ttl, s, trace[0]), trace[1..])
  }

  // What must separate a successful fetch from those before it.
  ghost predicate Justified(ttl: nat, earlier: seq<Fetch>, f: Fetch)
  {
    && (forall i :: 0 <= i < |earlier| ==> earlier[i].at <= f.at)
    && (f.forced ==> forall i :: 0 <= i < |earlier| && earlier[i].forced ==> f.at - earlier[i].at >= Cooldown(ttl))
    && (!f.forced && earlier != [] ==> f.at >= earlier[|earlier| - 1].at + ttl)
  }

  ghost predicate Inv(ttl: nat, s: State)
  {
    && (s.cache.jwks.Some? <==> s.successes != [])
    && (s.successes != [] ==> s.cache.jwks.value.expiry == s.successes[|s.successes| - 1].at + ttl)
    && (forall i :: 0 <= i < |s.successes| ==> s.successes[i].at <= s.successes[|s.successes| - 1].at <= s.clock)
    && (forall i :: 0 <= i < |s.successes| && s.successes[i].forced ==>
          s.cache.forcedAt.Some? && s.successes[i].at <= s.cache.forcedAt.value)
    && (s.cache.forcedAt.Some? ==>
          exists i :: 0 <= i < |s.successes| && s.successes[i] == Fetch(s.cache.forcedAt.value, true))
    && (s.fetching.Some? ==> s.fetching.value.at <= s.clock && Justified(ttl, s.successes, s.fetching.value))
    && (forall i :: 0 <= i < |s.successes| ==> Justified(ttl, s.successes[..i], s.successes[i]))
  }

  lemma FinishStep(ttl: nat, s: State, keys: KeySet)
    requires Inv(ttl, s) && s.fetching.Some?
    ensures Inv(ttl, Apply(ttl, s, Finish(Some(keys))))
  {
    var t := Apply(ttl, s, Finish(Some(keys)));
    var n := |s.successes|;
    assert t.successes[n] == s.fetching.value && t.successes[..n] == s.successes;
    forall i | 0 <= i < |t.successes| ensures Justified(ttl, t.successes[..i], t.successes[i]) {
      if i < n { assert t.successes[..i] == s.successes[..i]; }
    }
    if t.cache.forcedAt.Some? && !s.fetching.value.forced {
      var i :| 0 <= i < n && s.successes[i] == Fetch(s.cache.forcedAt.value, true);
      assert t.successes[i] == s.successes[i];
    }
  }

  lemma InvStep(ttl: nat, s: State, e: Step)
    requires Inv(ttl, s) && Enabled(s, e)
    ensures Inv(ttl, Apply(ttl, s, e))
  {
    if e.Finish? && e.keys.Some? { FinishStep(ttl, s, e.keys.value); }
  }

  lemma {:induction false} InvRun(ttl: nat, s: State, trace: seq<Step>)
    requires Inv(ttl, s) && Legal(ttl, s, trace)
    ensures Inv(ttl, Run(ttl, s, trace))
    decreases |trace|
  {
    if trace != [] {
      InvStep(ttl, s, trace[0]);
      InvRun(ttl, Apply(ttl, s, trace[0]), trace[1..]);
    }
  }

  lemma JustifiedAreSpaced(ttl: nat, fs: seq<Fetch>, i: nat, j: nat)
    requires i < j < |fs| && Justified(ttl, fs[..j], fs[j])
    ensures fs[i].forced && fs[j].forced ==> fs[j].at - fs[i].at >= Cooldown(ttl)
    ensures !fs[j].forced ==> fs[j].at >= fs[j - 1].at + ttl
  {
    assert fs[..j][i] == fs[i];
  }

  // Successful forced fetches are at least the cooldown apart, and a non-forced one comes at least the
  // lifetime after the success before it.
  lemma FetchesAreSpaced(ttl: nat, trace: seq<Step>, i: nat, j: nat)
    requires Legal(ttl, EMPTY, trace) && i < j < |Run(ttl, EMPTY, trace).successes|
    ensures var fs := Run(ttl, EMPTY, trace).successes;
      && (fs[i].forced && fs[j].forced ==> fs[j].at - fs[i].at >= Cooldown(ttl))
      && (!fs[j].forced ==> fs[j].at >= fs[j - 1].at + ttl)
  {
    InvRun(ttl, EMPTY, trace);
    JustifiedAreSpaced(ttl, Run(ttl, EMPTY, trace).successes, i, j);
  }

  // Successful forced fetches, by their places in the list.
  predicate ForcedOnes(fs: seq<Fetch>, places: seq<nat>)
  {
    && (forall n :: 0 <= n < |places| ==> places[n] < |fs| && fs[places[n]].forced)
    && (forall m, n :: 0 <= m < n < |places| ==> places[m] < places[n])
  }

  lemma {:induction false} GapsAddUp(ttl: nat, trace: seq<Step>, places: seq<nat>)
    requires Legal(ttl, EMPTY, trace) && places != [] && ForcedOnes(Run(ttl, EMPTY, trace).successes, places)
    ensures var fs := Run(ttl, EMPTY, trace).successes;
      fs[places[|places| - 1]].at - fs[places[0]].at >= Cooldown(ttl) * (|places| - 1)
  {
    var last := |places| - 1;
    if last > 0 {
      GapsAddUp(ttl, trace, places[..last]);
      FetchesAreSpaced(ttl, trace, places[last - 1], places[last]);
      assert Cooldown(ttl) * last == Cooldown(ttl) * (last - 1) + Cooldown(ttl);
    }
  }

  // However many successful forced fetches one picks, there are at most span / cooldown + 1 of them.
  lemma ForcedFetchesAreBounded(ttl: nat, trace: seq<Step>, places: seq<nat>)
    requires ttl >= 1 && Legal(ttl, EMPTY, trace)
    requires places != [] && ForcedOnes(Run(ttl, EMPTY, trace).successes, places)
    ensures var fs := Run(ttl, EMPTY, trace).successes;
      |places| <= (fs[places[|places| - 1]].at - fs[places[0]].at) / Cooldown(ttl) + 1
  {
    GapsAddUp(ttl, trace, places);
    var fs := Run(ttl, EMPTY, trace).successes;
    var span, k, n := fs[places[|places| - 1]].at - fs[places[0]].at, Cooldown(ttl), |places| - 1;
    DivMod(span, k, span / k);
    if span / k < n { StepsOf(span / k, n, k); }
  }

  // A fetch that fails releases the lock and changes nothing else: the next lookup may fetch at once.
  lemma FailedFetchChangesNothing(ttl: nat, s: State, force: bool)
    requires Enabled(s, Finish(None))
    ensures var t := Apply(ttl, s, Finish(None));
      && t.cache == s.cache && t.successes == s.successes && t.clock == s.clock && Enabled(t, Enter(s.clock, force))
  {
  }

  // ---- keys that were rotated ----

  // A lookup fetches the first keys, a forced one the next ones, and one forced again within the cooldown is
  // answered with these.
  function Rotation(first: KeySet, later: KeySet): seq<Step>
  {
    [Enter(0, false), Finish(Some(first)), FastHit(1), Enter(2, true)] + [Finish(Some(later)), Enter(3, true)]
  }

  function Cached1(ttl: nat, first: KeySet): State
  {
    State(Cache(Some(Cached(ttl, first)), None), Some(Fetch(2, true)), 2, [Fetch(0, false)])
  }

  function Cached2(ttl: nat, later: KeySet): State
  {
    State(Cache(Some(Cached(2 + ttl, later)), Some(2)), None, 3, [Fetch(0, false), Fetch(2, true)])
  }

  lemma OneMore(ttl: nat, s: State, e: Step, rest: seq<Step>)
    requires Enabled(s, e) && Legal(ttl, Apply(ttl, s, e), rest)
    ensures Legal(ttl, s, [e] + rest) && Run(ttl, s, [e] + rest) == Run(ttl, Apply(ttl, s, e), rest)
  {
    assert ([e] + rest)[1..] == rest;
  }

  lemma RotationBegins(ttl: nat, first: KeySet, rest: seq<Step>)
    requires ttl >= 2 && Legal(ttl, Cached1(ttl, first), rest)
    ensures var trace := [Enter(0, false)] + ([Finish(Some(first))] + ([FastHit(1)] + ([Enter(2, true)] + rest)));
      Legal(ttl, EMPTY, trace) && Run(ttl, EMPTY, trace) == Run(ttl, Cached1(ttl, first), rest)
  {
    var s1 := Apply(ttl, EMPTY, Enter(0, false));
    var s2 := Apply(ttl, s1, Finish(Some(first)));
    var s3 := Apply(ttl, s2, FastHit(1));
    assert Apply(ttl, s3, Enter(2, true)) == Cached1(ttl, first);
    OneMore(ttl, s3, Enter(2, true), rest);
    OneMore(ttl, s2, FastHit(1), [Enter(2, true)] + rest);
    OneMore(ttl, s1, Finish(Some(first)), [FastHit(1)] + ([Enter(2, true)] + rest));
    OneMore(ttl, EMPTY, Enter(0, false), [Finish(Some(first))] + ([FastHit(1)] + ([Enter(2, true)] + rest)));
  }

  lemma RotationIsSeen(ttl: nat, first: KeySet, later: KeySet)
    requires ttl >= 2
    ensures Legal(ttl, EMPTY, Rotation(first, later))
    ensures Run(ttl, EMPTY, Rotation(first, later)) == Cached2(ttl, later)
  {
    var s1 := Apply(ttl, Cached1(ttl, first), Finish(Some(later)));
    assert Apply(ttl, s1, Enter(3, true)) == Cached2(ttl, later);
    OneMore(ttl, s1, Enter(3, true), []);
    OneMore(ttl, Cached1(ttl, first), Finish(Some(later)), [Enter(3, true)] + []);
    RotationBegins(ttl, first, [Finish(Some(later))] + ([Enter(3, true)] + []));
    assert Rotation(first, later) == [Enter(0, false)] + ([Finish(Some(first))] + ([FastHit(1)] + ([Enter(2, true)]
                                     + ([Finish(Some(later))] + ([Enter(3, true)] + [])))));
  }

  // The keys in the cache are those of the last fetch that succeeded: a lookup answered from the cache later
  // gets exactly them, until another fetch succeeds.
  lemma {:induction false} KeysAreTheLastFetched(ttl: nat, s: State, trace: seq<Step>)
    requires Legal(ttl, s, trace) && s.cache.jwks.Some?
    requires forall i :: 0 <= i < |trace| && trace[i].Finish? ==> trace[i].keys.None?
    ensures Run(ttl, s, trace).cache.jwks.Some? && Run(ttl, s, trace).cache.jwks.value.keys == s.cache.jwks.value.keys
    decreases |trace|
  {
    if trace != [] { KeysAreTheLastFetched(ttl, Apply(ttl, s, trace[0]), trace[1..]); }
  }

  lemma FetchedKeysAreKept(ttl: nat, before: seq<Step>, keys: KeySet, after: seq<Step>)
    requires Legal(ttl, EMPTY, before) && Enabled(Run(ttl, EMPTY, before), Finish(Some(keys)))
    requires Legal(ttl, Apply(ttl, Run(ttl, EMPTY, before), Finish(Some(keys))), after)
    requires forall i :: 0 <= i < |after| && after[i].Finish? ==> after[i].keys.None?
    ensures var t := Run(ttl, Apply(ttl, Run(ttl, EMPTY, before), Finish(Some(keys))), after);
      t.cache.jwks.Some? && t.cache.jwks.value.keys == keys
  {
    KeysAreTheLastFetched(ttl, Apply(ttl, Run(ttl, EMPTY, before), Finish(Some(keys))), after);
  }

  // No lookup that is answered from the cache gets an expired set, the cooldown shortcut included.
  lemma AnswersAreFresh(ttl: nat, trace: seq<Step>, now: int, force: bool)
    requires Legal(ttl, EMPTY, trace) && Run(ttl, EMPTY, trace).clock <= now
    requires Answered(Run(ttl, EMPTY, trace).cache, ttl, force, now)
    ensures Fresh(Run(ttl, EMPTY, trace).cache, now)
  {
    InvRun(ttl, EMPTY, trace);
  }
}
