// Staged plugin registration. The five dictionaries of a registry are one map keyed by kind and name.
module Plugins {
  import opened Common
  import opened Ordering

  datatype Kind = Tool | Collector | Job | NotificationSink | ReportRenderer

  // `conforms` says whether the extension passes the interface checks of its kind; `declaredName` is
  // the name inside a job definition.
  datatype Extension = Extension(body: string, conforms: bool, declaredName: string)

  type Registry = map<(Kind, string), Extension>

  const CORE_JOBS := {"capture_observations", "poll_events", "prune_runtime_data", "retry_webhook_deliveries"}
  const CORE_RENDERERS := {"html", "csv"}
  const API_VERSION := 1

  predicate NameChar(c: char)
  {
    'a' <= c <= 'z' || '0' <= c <= '9' || c == '_' || c == '.' || c == '-'
  }

  predicate ValidName(name: string)
  {
    1 <= |name| <= 64 && 'a' <= name[0] <= 'z' && forall i :: 0 <= i < |name| ==> NameChar(name[i])
  }

  predicate Reserved(kind: Kind, name: string)
  {
    (kind.Job? && name in CORE_JOBS) || (kind.ReportRenderer? && name in CORE_RENDERERS)
  }

  predicate Registrable(r: Registry, kind: Kind, name: string, e: Extension)
  {
    && ValidName(name) && !Reserved(kind, name) && e.conforms && (kind.Job? ==> e.declaredName == name)
    && (kind, name) !in r
  }

  // No tool of `staged` is a core tool or registered, and no other extension is registered.
  predicate Compatible(r: Registry, staged: Registry, coreTools: set<string>)
  {
    r.Keys !! staged.Keys && forall name :: name in coreTools ==> (Tool, name) !in staged
  }

  // Its name matches [a-z][a-z0-9_.-]{0,63} and is that of no core job or core renderer, and it passed its checks.
  ghost predicate EntryInOrder(kind: Kind, name: string, e: Extension)
  {
    && 1 <= |name| <= 64 && 'a' <= name[0] <= 'z'
    && (forall i :: 0 <= i < |name| ==>
          'a' <= name[i] <= 'z' || '0' <= name[i] <= '9' || name[i] == '_' || name[i] == '.' || name[i] == '-')
    && (kind.Job? ==> name != "capture_observations" && name != "poll_events" && name != "prune_runtime_data")
    && (kind.Job? ==> name != "retry_webhook_deliveries" && e.declaredName == name)
    && (kind.ReportRenderer? ==> name != "html" && name != "csv")
    && e.conforms
  }

  ghost predicate InOrder(r: Registry)
  {
    forall k :: k in r ==> EntryInOrder(k.0, k.1, r[k])
  }

  class PluginRegistry {
    var entries: Registry

    constructor ()
      ensures entries == map[]
    {
      entries := map[];
    }

    // register_tool, register_collector, register_job, register_notification_sink and
    // register_report_renderer; false stands for the PluginError.
    method Register(kind: Kind, name: string, e: Extension) returns (ok: bool)
      modifies this
      ensures ok <==> Registrable(old(entries), kind, name, e)
      ensures entries == if ok then old(entries)[(kind, name) := e] else old(entries)
      ensures InOrder(old(entries)) ==> InOrder(entries)
      ensures ok <==> EntryInOrder(kind, name, e) && (kind, name) !in old(entries)
    {
      if Reserved(kind, name) { return false; }
      if !e.conforms { return false; }
      if kind.Job? && e.declaredName != name { return false; }
      if !ValidName(name) { return false; }
      if (kind, name) in entries { return false; }
      entries := entries[(kind, name) := e];
      return true;
    }

    // Either everything staged is taken over or nothing is.
    method Merge(staged: Registry, coreTools: set<string>) returns (ok: bool)
      modifies this
      ensures ok <==> Compatible(old(entries), staged, coreTools)
      ensures entries == if ok then old(entries) + staged else old(entries)
      ensures InOrder(old(entries)) && InOrder(staged) ==> InOrder(entries)
    {
      if exists name :: name in coreTools && (Tool, name) in staged { return false; }
      if exists k :: k in entries && k in staged { return false; }
      entries := entries + staged;
      return true;
    }
  }

  // What loading an entry point and running its registration does. A registration that returns leaves
  // some staged registry, whatever it did to it.
  datatype Behaviour = LoadFails | Plugin(apiVersion: int, staged: Option<Registry>)

  datatype EntryPoint = EntryPoint(name: string, behaviour: Behaviour)

  datatype State = Loaded | Skipped | Failed

  datatype Reason = NoReason | NotAllowlisted | DuplicateEntryPoint | LoadFailed | IncompatibleApi | RegistrationFailed

  datatype Status = Status(name: string, state: State, reason: Reason, required: bool)

  datatype LoadResult = Manager(registry: Registry, statuses: seq<Status>) | PluginError(name: string)

  datatype Options = Options(allowlist: set<string>, required: set<string>, coreTools: set<string>)

  predicate IsDuplicate(ps: seq<EntryPoint>, allowlist: set<string>, name: string)
  {
    name in allowlist && exists i, j :: 0 <= i < j < |ps| && ps[i].name == name && ps[j].name == name
  }

  function Duplicates(ps: seq<EntryPoint>, allowlist: set<string>): set<string>
  {
    set i | 0 <= i < |ps| && IsDuplicate(ps, allowlist, ps[i].name) :: ps[i].name
  }

  predicate Reported(statuses: seq<Status>, name: string)
  {
    exists k :: 0 <= k < |statuses| && statuses[k].name == name && statuses[k].state.Loaded?
  }

  // Why an entry point does not get in next to `r`, or NoReason.
  function Outcome(r: Registry, p: EntryPoint, coreTools: set<string>): Reason
  {
    if p.behaviour.LoadFails? then LoadFailed
    else if p.behaviour.apiVersion != API_VERSION then IncompatibleApi
    else if p.behaviour.staged.None? || !Compatible(r, p.behaviour.staged.value, coreTools) then RegistrationFailed
    else NoReason
  }

  predicate Accepts(r: Registry, p: EntryPoint, o: Options)
  {
    p.name in o.allowlist && Outcome(r, p, o.coreTools).NoReason?
  }

  function Staged(ps: seq<EntryPoint>, i: nat): Registry
  {
    if i < |ps| && ps[i].behaviour.Plugin? && ps[i].behaviour.staged.Some? then ps[i].behaviour.staged.value else map[]
  }

  datatype Progress = Progress(registry: Registry, loaded: set<nat>)

  function Step(p: Progress, ps: seq<EntryPoint>, i: nat, o: Options): Progress
    requires i < |ps|
  {
    if !IsDuplicate(ps, o.allowlist, ps[i].name) && Accepts(p.registry, ps[i], o) then
      Progress(p.registry + Staged(ps, i), p.loaded + {i})
    else p
  }

  // Where loading stands after the first `n` entry points.
  function After(ps: seq<EntryPoint>, n: nat, o: Options): Progress
    requires n <= |ps|
  {
    if n == 0 then Progress(map[], {}) else Step(After(ps, n - 1, o), ps, n - 1, o)
  }

  // The plugins counted in: each was allowed, found once, and finished registering.
  ghost predicate Sound(ps: seq<EntryPoint>, loaded: set<nat>, allowlist: set<string>)
  {
    forall i :: i in loaded ==>
      i < |ps| && ps[i].behaviour.Plugin? && ps[i].behaviour.apiVersion == API_VERSION && ps[i].behaviour.staged.Some?
      && ps[i].name in allowlist && !IsDuplicate(ps, allowlist, ps[i].name)
  }

  // The disjoint union of what exactly the loaded plugins staged.
  ghost predicate DisjointUnion(r: Registry, ps: seq<EntryPoint>, loaded: set<nat>)
  {
    && (forall i, k :: i in loaded && k in Staged(ps, i) ==> k in r && r[k] == Staged(ps, i)[k])
    && (forall k :: k in r ==> exists i :: i in loaded && k in Staged(ps, i))
    && (forall i, j :: i in loaded && j in loaded && i != j ==> Staged(ps, i).Keys !! Staged(ps, j).Keys)
  }

  ghost predicate NoCoreTool(r: Registry, coreTools: set<string>)
  {
    forall name :: name in coreTools ==> (Tool, name) !in r
  }

  lemma UnionGrows(r: Registry, ps: seq<EntryPoint>, loaded: set<nat>, n: nat, coreTools: set<string>)
    requires DisjointUnion(r, ps, loaded) && n !in loaded && NoCoreTool(r, coreTools)
    requires Compatible(r, Staged(ps, n), coreTools)
    ensures DisjointUnion(r + Staged(ps, n), ps, loaded + {n}) && NoCoreTool(r + Staged(ps, n), coreTools)
  {
    var s := Staged(ps, n);
    forall i, k | i in loaded + {n} && k in Staged(ps, i) ensures k in r + s && (r + s)[k] == Staged(ps, i)[k] {
      if i != n { assert k in r; }
    }
    forall k | k in r + s ensures exists i :: i in loaded + {n} && k in Staged(ps, i) {
      if k !in s {
        var i :| i in loaded && k in Staged(ps, i);
        assert i in loaded + {n};
      }
    }
    forall i | i in loaded ensures Staged(ps, i).Keys !! s.Keys {
      assert Staged(ps, i).Keys <= r.Keys;
    }
  }

  lemma {:induction false} LoadedAreEarlier(ps: seq<EntryPoint>, n: nat, o: Options)
    requires n <= |ps|
    ensures forall i :: i in After(ps, n, o).loaded ==> i < n
  {
    if n > 0 { LoadedAreEarlier(ps, n - 1, o); }
  }

  // Whether an entry point is loaded is settled when it is handled.
  lemma {:induction false} LoadedIsSettled(ps: seq<EntryPoint>, i: nat, n: nat, o: Options)
    requires i < n <= |ps|
    ensures i in After(ps, n, o).loaded <==> i in After(ps, i + 1, o).loaded
  {
    if i + 1 < n { LoadedIsSettled(ps, i, n - 1, o); }
  }

  lemma UnionStep(ps: seq<EntryPoint>, n: nat, p: Progress, o: Options)
    requires n < |ps| && n !in p.loaded
    requires DisjointUnion(p.registry, ps, p.loaded) && NoCoreTool(p.registry, o.coreTools)
    ensures DisjointUnion(Step(p, ps, n, o).registry, ps, Step(p, ps, n, o).loaded)
    ensures NoCoreTool(Step(p, ps, n, o).registry, o.coreTools)
  {
    if Step(p, ps, n, o) != p {
      UnionGrows(p.registry, ps, p.loaded, n, o.coreTools);
    }
  }

  lemma {:induction false} LoadedAreSound(ps: seq<EntryPoint>, n: nat, o: Options)
    requires n <= |ps|
    ensures Sound(ps, After(ps, n, o).loaded, o.allowlist)
  {
    if n > 0 { LoadedAreSound(ps, n - 1, o); }
  }

  // The registry is the disjoint union of the staged registries of exactly the loaded plugins, without
  // any core tool.
  lemma {:induction false} RegistryIsTheUnion(ps: seq<EntryPoint>, n: nat, o: Options)
    requires n <= |ps|
    ensures DisjointUnion(After(ps, n, o).registry, ps, After(ps, n, o).loaded)
    ensures NoCoreTool(After(ps, n, o).registry, o.coreTools)
  {
    if n > 0 {
      RegistryIsTheUnion(ps, n - 1, o);
      LoadedAreEarlier(ps, n - 1, o);
      UnionStep(ps, n - 1, After(ps, n - 1, o), o);
    }
  }

  ghost predicate SoleContributor(r: Registry, ps: seq<EntryPoint>, loaded: set<nat>, k: (Kind, string), i: nat)
    requires k in r
  {
    && i in loaded && k in Staged(ps, i) && r[k] == Staged(ps, i)[k]
    && forall j :: j in loaded && k in Staged(ps, j) ==> j == i
  }

  // Each extension in the registry comes from exactly one loaded plugin, so a plugin that is not loaded
  // contributed nothing.
  lemma ContributorIsUnique(r: Registry, ps: seq<EntryPoint>, loaded: set<nat>, k: (Kind, string))
    requires DisjointUnion(r, ps, loaded) && k in r
    ensures exists i :: SoleContributor(r, ps, loaded, k, i)
  {
    var i :| i in loaded && k in Staged(ps, i);
    forall j | j in loaded && k in Staged(ps, j) ensures j == i {
      assert k in Staged(ps, i).Keys * Staged(ps, j).Keys;
    }
    assert SoleContributor(r, ps, loaded, k, i);
  }

  ghost predicate Clash(ps: seq<EntryPoint>, i: nat, j: nat)
  {
    exists k :: k in Staged(ps, i) && k in Staged(ps, j)
  }

  // A plugin fails on its own account, shadows a core tool, or clashes with a loaded plugin before it.
  ghost predicate Failing(ps: seq<EntryPoint>, i: nat, loaded: set<nat>, coreTools: set<string>)
    requires i < |ps|
  {
    || ps[i].behaviour.LoadFails?
    || ps[i].behaviour.apiVersion != API_VERSION
    || ps[i].behaviour.staged.None?
    || !NoCoreTool(Staged(ps, i), coreTools)
    || exists j :: j in loaded && j < i && Clash(ps, i, j)
  }

  // An allowed, unique entry point is loaded exactly when it does not fail.
  lemma LoadedIffNotFailing(ps: seq<EntryPoint>, i: nat, o: Options)
    requires i < |ps| && ps[i].name in o.allowlist && !IsDuplicate(ps, o.allowlist, ps[i].name)
    ensures i in After(ps, |ps|, o).loaded <==> !Failing(ps, i, After(ps, |ps|, o).loaded, o.coreTools)
  {
    var before, end := After(ps, i, o), After(ps, |ps|, o);
    LoadedIsSettled(ps, i, |ps|, o);
    LoadedAreEarlier(ps, i, o);
    RegistryIsTheUnion(ps, i, o);
    forall j: nat | j < i ensures j in before.loaded <==> j in end.loaded {
      LoadedIsSettled(ps, j, i, o);
      LoadedIsSettled(ps, j, |ps|, o);
    }
    FailingIffNotAccepted(before.registry, ps, before.loaded, i, o);
    assert Failing(ps, i, before.loaded, o.coreTools) <==> Failing(ps, i, end.loaded, o.coreTools);
  }

  lemma FailingIffNotAccepted(r: Registry, ps: seq<EntryPoint>, loaded: set<nat>, i: nat, o: Options)
    requires DisjointUnion(r, ps, loaded) && i < |ps| && ps[i].name in o.allowlist && forall j :: j in loaded ==> j < i
    ensures Accepts(r, ps[i], o) <==> !Failing(ps, i, loaded, o.coreTools)
  {
    if ps[i].behaviour.Plugin? && ps[i].behaviour.staged.Some? {
      if k :| k in r.Keys && k in Staged(ps, i).Keys {
        var j :| j in loaded && k in Staged(ps, j);
        assert Clash(ps, i, j);
      }
      if j :| j in loaded && Clash(ps, i, j) {
        var k :| k in Staged(ps, i) && k in Staged(ps, j);
        assert k in r.Keys * Staged(ps, i).Keys;
      }
    }
  }

  // The status an entry point ends with, by whether it was loaded.
  function StatusOf(p: EntryPoint, isLoaded: bool, o: Options): Status
  {
    if p.name !in o.allowlist then Status(p.name, Skipped, NotAllowlisted, p.name in o.required)
    else if isLoaded then Status(p.name, Loaded, NoReason, p.name in o.required)
    else if p.behaviour.LoadFails? then Status(p.name, Failed, LoadFailed, false)
    else if p.behaviour.apiVersion != API_VERSION then Status(p.name, Failed, IncompatibleApi, false)
    else Status(p.name, Failed, RegistrationFailed, false)
  }

  function DuplicateStatus(name: string): Status
  {
    Status(name, Failed, DuplicateEntryPoint, false)
  }

  function DuplicateStatuses(names: set<string>): (r: seq<Status>)
    ensures forall k :: 0 <= k < |r| ==> r[k].state.Failed?
  {
    seq(|Ascending(names)|, k requires 0 <= k < |Ascending(names)| => DuplicateStatus(Ascending(names)[k]))
  }

  lemma LeastComesFirst(name: string, names: set<string>)
    requires IsLeast(name, names)
    ensures DuplicateStatuses(names) == [DuplicateStatus(name)] + DuplicateStatuses(names - {name})
  {
    var first := Ascending(names)[0];
    assert IsLeast(first, names);
    LeastIsUnique(name, first, names);
  }

  // The duplicated names first, in order; then every other entry point, in the order discovered.
  function Statuses(ps: seq<EntryPoint>, n: nat, o: Options): seq<Status>
    requires n <= |ps|
  {
    if n == 0 then DuplicateStatuses(Duplicates(ps, o.allowlist))
    else
      var earlier := Statuses(ps, n - 1, o);
      if IsDuplicate(ps, o.allowlist, ps[n - 1].name) then earlier
      else
        var isLoaded := Accepts(After(ps, n - 1, o).registry, ps[n - 1], o);
        earlier + [StatusOf(ps[n - 1], isLoaded, o)]
  }

  lemma ReportedMore(statuses: seq<Status>, s: Status, name: string)
    ensures Reported(statuses + [s], name) <==> Reported(statuses, name) || (s.state.Loaded? && s.name == name)
  {
    var more := statuses + [s];
    if k :| 0 <= k < |statuses| && statuses[k].name == name && statuses[k].state.Loaded? {
      assert more[k] == statuses[k];
    }
    if s.state.Loaded? && s.name == name { assert more[|statuses|] == s; }
  }

  // Exactly the loaded plugins are reported loaded.
  lemma {:induction false} ReportedIffLoaded(ps: seq<EntryPoint>, n: nat, name: string, o: Options)
    requires n <= |ps|
    ensures Reported(Statuses(ps, n, o), name)
      <==> exists i :: i in After(ps, n, o).loaded && i < |ps| && ps[i].name == name
  {
    if n > 0 {
      var before := After(ps, n - 1, o);
      ReportedIffLoaded(ps, n - 1, name, o);
      if !IsDuplicate(ps, o.allowlist, ps[n - 1].name) {
        var isLoaded := Accepts(before.registry, ps[n - 1], o);
        ReportedMore(Statuses(ps, n - 1, o), StatusOf(ps[n - 1], isLoaded, o), name);
        if isLoaded { assert n - 1 in After(ps, n, o).loaded; }
      }
    }
  }

  // When every plugin registered through the registry, so that what it staged is in order, the registry is.
  lemma {:induction false} RegistryIsInOrder(ps: seq<EntryPoint>, n: nat, o: Options)
    requires n <= |ps| && forall i :: 0 <= i < |ps| ==> InOrder(Staged(ps, i))
    ensures InOrder(After(ps, n, o).registry)
  {
    if n > 0 { RegistryIsInOrder(ps, n - 1, o); }
  }

  // What is reported of an entry point: skipped, loaded, or failed for the first reason that applies.
  ghost predicate Reports(s: Status, p: EntryPoint, isLoaded: bool, o: Options)
  {
    && s.name == p.name
    && (s.state.Skipped? <==> p.name !in o.allowlist) && (s.state.Skipped? <==> s.reason.NotAllowlisted?)
    && (s.state.Loaded? <==> p.name in o.allowlist && isLoaded) && (s.state.Loaded? <==> s.reason.NoReason?)
    && (s.state.Failed? && p.behaviour.LoadFails? ==> s.reason.LoadFailed?)
    && (s.state.Failed? && p.behaviour.Plugin? && p.behaviour.apiVersion != 1 ==> s.reason.IncompatibleApi?)
    && (s.state.Failed? && p.behaviour.Plugin? && p.behaviour.apiVersion == 1 ==> s.reason.RegistrationFailed?)
    && (s.required <==> p.name in o.required && !s.state.Failed?)
  }

  // How many of the first n entry points are not duplicates.
  function Singles(ps: seq<EntryPoint>, n: nat, o: Options): nat
    requires n <= |ps|
  {
    if n == 0 then 0
    else Singles(ps, n - 1, o) + if IsDuplicate(ps, o.allowlist, ps[n - 1].name) then 0 else 1
  }

  lemma {:induction false} StatusesGrow(ps: seq<EntryPoint>, m: nat, n: nat, o: Options)
    requires m <= n <= |ps|
    ensures Statuses(ps, m, o) <= Statuses(ps, n, o)
  {
    if m < n { StatusesGrow(ps, m, n - 1, o); }
  }

  lemma LastStatus(ps: seq<EntryPoint>, i: nat, o: Options)
    requires i < |ps| && !IsDuplicate(ps, o.allowlist, ps[i].name)
    ensures |Statuses(ps, i + 1, o)| == |Statuses(ps, i, o)| + 1
    ensures Reports(Statuses(ps, i + 1, o)[|Statuses(ps, i, o)|], ps[i], i in After(ps, i + 1, o).loaded, o)
  {
    LoadedAreEarlier(ps, i, o);
  }

  // After the duplicated names, each once, every other entry point is reported, in the order discovered.
  lemma StatusesAreInOrder(ps: seq<EntryPoint>, n: nat, i: nat, o: Options)
    requires i < n <= |ps| && !IsDuplicate(ps, o.allowlist, ps[i].name)
    ensures |Statuses(ps, n, o)| == |Duplicates(ps, o.allowlist)| + Singles(ps, n, o)
    ensures var k := |Duplicates(ps, o.allowlist)| + Singles(ps, i, o);
      k < |Statuses(ps, n, o)| && Reports(Statuses(ps, n, o)[k], ps[i], i in After(ps, n, o).loaded, o)
  {
    StatusCount(ps, n, o);
    StatusCount(ps, i, o);
    LastStatus(ps, i, o);
    StatusesGrow(ps, i + 1, n, o);
    LoadedIsSettled(ps, i, n, o);
  }

  lemma {:induction false} StatusCount(ps: seq<EntryPoint>, n: nat, o: Options)
    requires n <= |ps|
    ensures |Statuses(ps, n, o)| == |Duplicates(ps, o.allowlist)| + Singles(ps, n, o)
  {
    if n > 0 { StatusCount(ps, n - 1, o); } else { AscendingSize(Duplicates(ps, o.allowlist)); }
  }

  lemma {:induction false} AscendingSize(names: set<string>)
    ensures |Ascending(names)| == |names|
    decreases |names|
  {
    if names != {} {
      var least := Ascending(names)[0];
      LeastIsDetermined(names);
      AscendingSize(names - {least});
    }
  }

  lemma {:induction false} DuplicatesComeFirst(ps: seq<EntryPoint>, n: nat, o: Options)
    requires n <= |ps|
    ensures DuplicateStatuses(Duplicates(ps, o.allowlist)) <= Statuses(ps, n, o)
  {
    if n > 0 { DuplicatesComeFirst(ps, n - 1, o); }
  }

  // The first statuses are those of the names that are allowed and found more than once.
  lemma DuplicatesAreReported(ps: seq<EntryPoint>, n: nat, name: string, o: Options)
    requires n <= |ps|
    ensures |Duplicates(ps, o.allowlist)| <= |Statuses(ps, n, o)|
    ensures Status(name, Failed, DuplicateEntryPoint, false) in Statuses(ps, n, o)[..|Duplicates(ps, o.allowlist)|]
      <==> name in o.allowlist && exists i, j :: 0 <= i < j < |ps| && ps[i].name == name && ps[j].name == name
  {
    var names := Duplicates(ps, o.allowlist);
    var first := DuplicateStatuses(names);
    DuplicatesComeFirst(ps, n, o);
    AscendingSize(names);
    AscendingHasAll(names, name);
    assert Statuses(ps, n, o)[..|names|] == first;
    if name in names {
      var k :| 0 <= k < |Ascending(names)| && Ascending(names)[k] == name;
      assert first[k] == Status(name, Failed, DuplicateEntryPoint, false);
    }
  }

  // One entry point that is not a duplicate: everything it staged is merged, or nothing. Without a status
  // the plugin is required and loading stops.
  method LoadEntry(registry: PluginRegistry, p: EntryPoint, o: Options)
    returns (status: Option<Status>)
    modifies registry
    ensures Accepts(old(registry.entries), p, o) ==>
      registry.entries == old(registry.entries) + p.behaviour.staged.value
    ensures !Accepts(old(registry.entries), p, o) ==> registry.entries == old(registry.entries)
    ensures status.None? <==> p.name in o.allowlist && p.name in o.required && !Accepts(old(registry.entries), p, o)
    ensures status.Some? ==> status.value == StatusOf(p, Accepts(old(registry.entries), p, o), o)
  {
    var isRequired := p.name in o.required;
    if p.name !in o.allowlist { return Some(Status(p.name, Skipped, NotAllowlisted, isRequired)); }
    var reason := NoReason;
    if p.behaviour.LoadFails? {
      reason := LoadFailed;
    } else if p.behaviour.apiVersion != API_VERSION {
      reason := IncompatibleApi;
    } else if p.behaviour.staged.None? {
      reason := RegistrationFailed;
    } else {
      var merged := registry.Merge(p.behaviour.staged.value, o.coreTools);
      if !merged { reason := RegistrationFailed; }
    }
    if reason.NoReason? { return Some(Status(p.name, Loaded, NoReason, isRequired)); }
    return if isRequired then None else Some(Status(p.name, Failed, reason, false));
  }

  method ReportDuplicates(duplicates: set<string>) returns (statuses: seq<Status>)
    ensures statuses == DuplicateStatuses(duplicates)
  {
    statuses := [];
    var rest := duplicates;
    while rest != {}
      invariant statuses + DuplicateStatuses(rest) == DuplicateStatuses(duplicates)
      decreases |rest|
    {
      LeastExists(rest);
      var name :| IsLeast(name, rest);
      LeastComesFirst(name, rest);
      statuses := statuses + [DuplicateStatus(name)];
      rest := rest - {name};
    }
  }

  // Some entry point named `name` was discovered, and each such entry point is loaded or not allowed.
  ghost predicate Met(ps: seq<EntryPoint>, name: string, o: Options)
  {
    && !IsDuplicate(ps, o.allowlist, name)
    && (exists i :: 0 <= i < |ps| && ps[i].name == name)
    && forall i :: 0 <= i < |ps| && ps[i].name == name && name in o.allowlist ==> i in After(ps, |ps|, o).loaded
  }

  // Loading stops at this entry point because its plugin is required and not accepted.
  ghost predicate Stops(ps: seq<EntryPoint>, i: nat, o: Options)
    requires i < |ps|
  {
    && ps[i].name in o.required && ps[i].name in o.allowlist
    && !Accepts(After(ps, i, o).registry, ps[i], o)
  }

  lemma StoppedMeansUnmet(ps: seq<EntryPoint>, n: nat, o: Options)
    requires n < |ps| && Stops(ps, n, o)
    ensures !Met(ps, ps[n].name, o)
  {
    LoadedAreEarlier(ps, n, o);
    LoadedIsSettled(ps, n, |ps|, o);
  }

  function Names(ps: seq<EntryPoint>, n: nat): set<string>
    requires n <= |ps|
  {
    if n == 0 then {} else Names(ps, n - 1) + {ps[n - 1].name}
  }

  lemma {:induction false} NamesAreTheNames(ps: seq<EntryPoint>, n: nat, name: string)
    requires n <= |ps|
    ensures name in Names(ps, n) <==> exists i :: 0 <= i < n && ps[i].name == name
  {
    if n > 0 { NamesAreTheNames(ps, n - 1, name); }
  }

  lemma NotStoppedIsLoaded(ps: seq<EntryPoint>, i: nat, o: Options)
    requires i < |ps| && ps[i].name in o.required && ps[i].name in o.allowlist
    requires !IsDuplicate(ps, o.allowlist, ps[i].name)
    requires !Stops(ps, i, o)
    ensures i in After(ps, |ps|, o).loaded
  {
    LoadedIsSettled(ps, i, |ps|, o);
    assert i in After(ps, i + 1, o).loaded;
  }

  lemma RequiredAreMet(ps: seq<EntryPoint>, o: Options)
    requires o.required <= Names(ps, |ps|) && Duplicates(ps, o.allowlist) * o.required == {}
    requires forall i :: 0 <= i < |ps| ==> !Stops(ps, i, o)
    ensures forall name :: name in o.required ==> Met(ps, name, o)
  {
    forall name | name in o.required ensures Met(ps, name, o) {
      NamesAreTheNames(ps, |ps|, name);
      assert name !in Duplicates(ps, o.allowlist) * o.required;
      forall i | 0 <= i < |ps| && ps[i].name == name && name in o.allowlist ensures i in After(ps, |ps|, o).loaded {
        NotStoppedIsLoaded(ps, i, o);
      }
    }
  }

  // One pass of the loop; `stop` stands for the PluginError about this entry point.
  method HandleEntry(registry: PluginRegistry, statuses: seq<Status>, ps: seq<EntryPoint>, n: nat,
                     duplicates: set<string>, o: Options)
    returns (more: seq<Status>, stop: bool)
    requires n < |ps| && duplicates == Duplicates(ps, o.allowlist) && duplicates * o.required == {}
    requires registry.entries == After(ps, n, o).registry
    requires statuses == Statuses(ps, n, o)
    modifies registry
    ensures stop <==> Stops(ps, n, o)
    ensures !stop ==> registry.entries == After(ps, n + 1, o).registry
    ensures !stop ==> more == Statuses(ps, n + 1, o)
  {
    assert ps[n].name in duplicates <==> IsDuplicate(ps, o.allowlist, ps[n].name);
    if ps[n].name in duplicates {
      assert ps[n].name !in duplicates * o.required;
      return statuses, false;
    }
    var status := LoadEntry(registry, ps[n], o);
    if status.None? { return statuses, true; }
    return statuses + [status.value], false;
  }

  // PluginManager.load.
  method Load(ps: seq<EntryPoint>, o: Options) returns (r: LoadResult)
    ensures r.Manager? ==> r.registry == After(ps, |ps|, o).registry
    ensures r.Manager? ==> r.statuses == Statuses(ps, |ps|, o)
    ensures r.Manager? ==> forall name :: name in o.required ==> Met(ps, name, o)
    ensures r.PluginError? ==> r.name in o.required && !Met(ps, r.name, o)
  {
    var registry := new PluginRegistry();
    var duplicates := Duplicates(ps, o.allowlist);
    var requiredDuplicates := duplicates * o.required;
    if requiredDuplicates != {} {
      var name :| name in requiredDuplicates;
      return PluginError(name);
    }
    var statuses := ReportDuplicates(duplicates);
    var found: set<string> := {};
    var n := 0;
    while n < |ps|
      invariant 0 <= n <= |ps| && fresh(registry)
      invariant registry.entries == After(ps, n, o).registry
      invariant statuses == Statuses(ps, n, o)
      invariant found == Names(ps, n)
      invariant forall i :: 0 <= i < n ==> !Stops(ps, i, o)
    {
      found := found + {ps[n].name};
      var more, stop := HandleEntry(registry, statuses, ps, n, duplicates, o);
      if stop {
        StoppedMeansUnmet(ps, n, o);
        return PluginError(ps[n].name);
      }
      n, statuses := n + 1, more;
    }
    var missing := o.required - found;
    if missing != {} {
      var name :| name in missing;
      NamesAreTheNames(ps, |ps|, name);
      return PluginError(name);
    }
    RequiredAreMet(ps, o);
    return Manager(registry.entries, statuses);
  }

  // With every required plugin allowed, a normal return means each is reported loaded.
  lemma RequiredAreReported(ps: seq<EntryPoint>, name: string, o: Options)
    requires name in o.required && name in o.allowlist && Met(ps, name, o)
    ensures Reported(Statuses(ps, |ps|, o), name)
  {
    ReportedIffLoaded(ps, |ps|, name, o);
  }
}
