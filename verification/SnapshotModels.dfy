// The snapshot schema: its records, their limits, and the canonical order of the collections.
module SnapshotModels {
  import opened Common
  import opened Ordering

  datatype SourceScope = SourceScope(source: string, deviceName: string, site: string, mode: string, status: string)

  datatype SnapshotLimitation = SnapshotLimitation(source: string, deviceName: string, site: string, code: string,
                                                    summary: string)

  datatype DeviceSnapshot = DeviceSnapshot(id: string, name: string, service: string, controller: string, site: string,
                                           kind: Option<string>, model: Option<string>, state: Option<string>)

  datatype NetworkSnapshot = NetworkSnapshot(id: string, name: string, controller: string, site: string,
                                             purpose: Option<string>, subnet: Option<string>, vlan: Option<int>)

  datatype WlanSnapshot = WlanSnapshot(id: string, name: string, controller: string, site: string, enabled: bool,
                                       security: Option<string>, hidden: bool)

  datatype FirewallSnapshot = FirewallSnapshot(id: string, name: string, controller: string, site: string, kind: string,
                                               action: Option<string>, enabled: bool)

  datatype Content = Content(sources: seq<SourceScope>, limitations: seq<SnapshotLimitation>,
                             devices: seq<DeviceSnapshot>, networks: seq<NetworkSnapshot>,
                             wlans: seq<WlanSnapshot>, firewall: seq<FirewallSnapshot>)

  function SourceId(x: SourceScope): seq<string> { [x.source, x.deviceName, x.site] }

  function LimitationId(x: SnapshotLimitation): seq<string> { [x.source, x.deviceName, x.site, x.code] }

  function DeviceId(x: DeviceSnapshot): seq<string> { [x.service, x.controller, x.site, x.id] }

  function NetworkId(x: NetworkSnapshot): seq<string> { [x.controller, x.site, x.id] }

  function WlanId(x: WlanSnapshot): seq<string> { [x.controller, x.site, x.id] }

  function FirewallId(x: FirewallSnapshot): seq<string> { [x.controller, x.site, x.kind, x.id] }

  predicate UniqueIdentities(c: Content)
  {
    && DistinctBy(c.sources, SourceId)
    && DistinctBy(c.limitations, LimitationId)
    && DistinctBy(c.devices, DeviceId)
    && DistinctBy(c.networks, NetworkId)
    && DistinctBy(c.wlans, WlanId)
    && DistinctBy(c.firewall, FirewallId)
  }

  function Sorted(c: Content): Content
  {
    Content(SortBy(c.sources, SourceId, TupleLess), SortBy(c.limitations, LimitationId, TupleLess),
            SortBy(c.devices, DeviceId, TupleLess), SortBy(c.networks, NetworkId, TupleLess),
            SortBy(c.wlans, WlanId, TupleLess), SortBy(c.firewall, FirewallId, TupleLess))
  }

  // What the model validator makes of a content: None stands for the ValueError.
  function Normalise(c: Content): Option<Content>
  {
    if UniqueIdentities(c) then Some(Sorted(c)) else None
  }

  ghost predicate SameItems(a: Content, b: Content)
  {
    && multiset(a.sources) == multiset(b.sources)
    && multiset(a.limitations) == multiset(b.limitations)
    && multiset(a.devices) == multiset(b.devices)
    && multiset(a.networks) == multiset(b.networks)
    && multiset(a.wlans) == multiset(b.wlans)
    && multiset(a.firewall) == multiset(b.firewall)
  }

  lemma SortedCollection<T>(xs: seq<T>, ys: seq<T>, key: T -> seq<string>)
    requires multiset(xs) == multiset(ys)
    ensures DistinctBy(xs, key) <==> DistinctBy(ys, key)
    ensures DistinctBy(xs, key) ==> SortBy(xs, key, TupleLess) == SortBy(ys, key, TupleLess)
  {
    TupleOrder();
    if DistinctBy(xs, key) {
      DistinctIsPermutationInvariant(xs, ys, key);
      SortForgetsOrder(xs, ys, key, TupleLess);
    }
    if DistinctBy(ys, key) { DistinctIsPermutationInvariant(ys, xs, key); }
  }

  // The order in which the collections arrive does not matter: both contents are refused, or both
  // become the same one.
  lemma NormaliseForgetsOrder(a: Content, b: Content)
    requires SameItems(a, b)
    ensures Normalise(a) == Normalise(b)
  {
    SortedCollection(a.sources, b.sources, SourceId);
    SortedCollection(a.limitations, b.limitations, LimitationId);
    SortedCollection(a.devices, b.devices, DeviceId);
    SortedCollection(a.networks, b.networks, NetworkId);
    SortedCollection(a.wlans, b.wlans, WlanId);
    SortedCollection(a.firewall, b.firewall, FirewallId);
  }

  // Normalising keeps every item and settles: doing it again changes nothing.
  lemma NormaliseIsIdempotent(c: Content)
    requires Normalise(c).Some?
    ensures SameItems(Normalise(c).value, c)
    ensures Normalise(Normalise(c).value) == Normalise(c)
  {
    TupleOrder();
    SortBySorts(c.sources, SourceId, TupleLess);
    SortBySorts(c.limitations, LimitationId, TupleLess);
    SortBySorts(c.devices, DeviceId, TupleLess);
    SortBySorts(c.networks, NetworkId, TupleLess);
    SortBySorts(c.wlans, WlanId, TupleLess);
    SortBySorts(c.firewall, FirewallId, TupleLess);
    NormaliseForgetsOrder(Normalise(c).value, c);
  }

  // ---- what tells items apart, and their order, field by field ----

  predicate SameSource(a: SourceScope, b: SourceScope)
  {
    a.source == b.source && a.deviceName == b.deviceName && a.site == b.site
  }

  predicate SameLimitation(a: SnapshotLimitation, b: SnapshotLimitation)
  {
    a.source == b.source && a.deviceName == b.deviceName && a.site == b.site && a.code == b.code
  }

  predicate SameDevice(a: DeviceSnapshot, b: DeviceSnapshot)
  {
    a.service == b.service && a.controller == b.controller && a.site == b.site && a.id == b.id
  }

  predicate SameNetwork(a: NetworkSnapshot, b: NetworkSnapshot)
  {
    a.controller == b.controller && a.site == b.site && a.id == b.id
  }

  predicate SameWlan(a: WlanSnapshot, b: WlanSnapshot)
  {
    a.controller == b.controller && a.site == b.site && a.id == b.id
  }

  predicate SameFirewall(a: FirewallSnapshot, b: FirewallSnapshot)
  {
    a.controller == b.controller && a.site == b.site && a.kind == b.kind && a.id == b.id
  }

  // A content is accepted exactly when no two items of a collection agree in the fields that name them.
  lemma AcceptedIffAllDiffer(c: Content)
    ensures Normalise(c).Some? <==>
      && (forall i, j :: 0 <= i < j < |c.sources| ==> !SameSource(c.sources[i], c.sources[j]))
      && (forall i, j :: 0 <= i < j < |c.limitations| ==> !SameLimitation(c.limitations[i], c.limitations[j]))
      && (forall i, j :: 0 <= i < j < |c.devices| ==> !SameDevice(c.devices[i], c.devices[j]))
      && (forall i, j :: 0 <= i < j < |c.networks| ==> !SameNetwork(c.networks[i], c.networks[j]))
      && (forall i, j :: 0 <= i < j < |c.wlans| ==> !SameWlan(c.wlans[i], c.wlans[j]))
      && (forall i, j :: 0 <= i < j < |c.firewall| ==> !SameFirewall(c.firewall[i], c.firewall[j]))
  {
  }

  lemma StrictlySorted<T>(xs: seq<T>, key: T -> seq<string>, i: nat, j: nat)
    requires DistinctBy(xs, key) && i < j < |SortBy(xs, key, TupleLess)|
    ensures TupleLess(key(SortBy(xs, key, TupleLess)[i]), key(SortBy(xs, key, TupleLess)[j]))
  {
    var sorted := SortBy(xs, key, TupleLess);
    TupleOrder();
    SortBySorts(xs, key, TupleLess);
    DistinctIsPermutationInvariant(xs, sorted, key);
    TupleLessTotal(key(sorted[i]), key(sorted[j]));
  }

  lemma ThreeTexts(a: string, b: string, c: string, x: string, y: string, z: string)
    ensures TupleLess([a, b, c], [x, y, z])
      <==> TextLess(a, x) || (a == x && (TextLess(b, y) || (b == y && TextLess(c, z))))
  {
    assert [a, b, c][1..] == [b, c] && [b, c][1..] == [c] && [c][1..] == [];
    assert [x, y, z][1..] == [y, z] && [y, z][1..] == [z] && [z][1..] == [];
    assert TupleLess([c], [z]) <==> TextLess(c, z);
    assert TupleLess([b, c], [y, z]) <==> TextLess(b, y) || (b == y && TextLess(c, z));
  }

  lemma FourTexts(a: string, b: string, c: string, d: string, x: string, y: string, z: string, w: string)
    ensures TupleLess([a, b, c, d], [x, y, z, w])
      <==> TextLess(a, x) || (a == x && TupleLess([b, c, d], [y, z, w]))
  {
    assert [a, b, c, d][1..] == [b, c, d] && [x, y, z, w][1..] == [y, z, w];
  }

  predicate DeviceBefore(a: DeviceSnapshot, b: DeviceSnapshot)
  {
    || TextLess(a.service, b.service)
    || (a.service == b.service && TextLess(a.controller, b.controller))
    || (a.service == b.service && a.controller == b.controller && TextLess(a.site, b.site))
    || (a.service == b.service && a.controller == b.controller && a.site == b.site && TextLess(a.id, b.id))
  }

  predicate FirewallBefore(a: FirewallSnapshot, b: FirewallSnapshot)
  {
    || TextLess(a.controller, b.controller)
    || (a.controller == b.controller && TextLess(a.site, b.site))
    || (a.controller == b.controller && a.site == b.site && TextLess(a.kind, b.kind))
    || (a.controller == b.controller && a.site == b.site && a.kind == b.kind && TextLess(a.id, b.id))
  }

  predicate LimitationBefore(a: SnapshotLimitation, b: SnapshotLimitation)
  {
    || TextLess(a.source, b.source)
    || (a.source == b.source && TextLess(a.deviceName, b.deviceName))
    || (a.source == b.source && a.deviceName == b.deviceName && TextLess(a.site, b.site))
    || (a.source == b.source && a.deviceName == b.deviceName && a.site == b.site && TextLess(a.code, b.code))
  }

  predicate SourceBefore(a: SourceScope, b: SourceScope)
  {
    || TextLess(a.source, b.source)
    || (a.source == b.source && TextLess(a.deviceName, b.deviceName))
    || (a.source == b.source && a.deviceName == b.deviceName && TextLess(a.site, b.site))
  }

  // Networks and WLANs alike.
  predicate PlaceBefore(controller: string, site: string, id: string, controller': string, site': string, id': string)
  {
    || TextLess(controller, controller')
    || (controller == controller' && TextLess(site, site'))
    || (controller == controller' && site == site' && TextLess(id, id'))
  }

  // In an accepted content every collection is in order of those fields.
  lemma CollectionsAreInOrder(c: Content, i: nat, j: nat)
    requires Normalise(c).Some? && i < j
    ensures var n := Normalise(c).value;
      && (j < |n.sources| ==> SourceBefore(n.sources[i], n.sources[j]))
      && (j < |n.limitations| ==> LimitationBefore(n.limitations[i], n.limitations[j]))
      && (j < |n.devices| ==> DeviceBefore(n.devices[i], n.devices[j]))
      && (j < |n.networks| ==> NetworkBefore(n.networks[i], n.networks[j]))
      && (j < |n.wlans| ==> WlanBefore(n.wlans[i], n.wlans[j]))
      && (j < |n.firewall| ==> FirewallBefore(n.firewall[i], n.firewall[j]))
  {
    var n := Normalise(c).value;
    if j < |n.sources| {
      StrictlySorted(c.sources, SourceId, i, j);
      SourceOrder(n.sources[i], n.sources[j]);
    }
    if j < |n.limitations| {
      StrictlySorted(c.limitations, LimitationId, i, j);
      LimitationOrder(n.limitations[i], n.limitations[j]);
    }
    if j < |n.devices| {
      StrictlySorted(c.devices, DeviceId, i, j);
      DeviceOrder(n.devices[i], n.devices[j]);
    }
    if j < |n.networks| {
      StrictlySorted(c.networks, NetworkId, i, j);
      NetworkOrder(n.networks[i], n.networks[j]);
    }
    if j < |n.wlans| {
      StrictlySorted(c.wlans, WlanId, i, j);
      WlanOrder(n.wlans[i], n.wlans[j]);
    }
    if j < |n.firewall| {
      StrictlySorted(c.firewall, FirewallId, i, j);
      FirewallOrder(n.firewall[i], n.firewall[j]);
    }
  }

  predicate NetworkBefore(a: NetworkSnapshot, b: NetworkSnapshot)
  {
    PlaceBefore(a.controller, a.site, a.id, b.controller, b.site, b.id)
  }

  predicate WlanBefore(a: WlanSnapshot, b: WlanSnapshot)
  {
    PlaceBefore(a.controller, a.site, a.id, b.controller, b.site, b.id)
  }

  lemma SourceOrder(a: SourceScope, b: SourceScope)
    ensures TupleLess(SourceId(a), SourceId(b)) <==> SourceBefore(a, b)
  {
    ThreeTexts(a.source, a.deviceName, a.site, b.source, b.deviceName, b.site);
  }

  lemma LimitationOrder(a: SnapshotLimitation, b: SnapshotLimitation)
    ensures TupleLess(LimitationId(a), LimitationId(b)) <==> LimitationBefore(a, b)
  {
    FourTexts(a.source, a.deviceName, a.site, a.code, b.source, b.deviceName, b.site, b.code);
    ThreeTexts(a.deviceName, a.site, a.code, b.deviceName, b.site, b.code);
  }

  lemma DeviceOrder(a: DeviceSnapshot, b: DeviceSnapshot)
    ensures TupleLess(DeviceId(a), DeviceId(b)) <==> DeviceBefore(a, b)
  {
    FourTexts(a.service, a.controller, a.site, a.id, b.service, b.controller, b.site, b.id);
    ThreeTexts(a.controller, a.site, a.id, b.controller, b.site, b.id);
  }

  lemma NetworkOrder(a: NetworkSnapshot, b: NetworkSnapshot)
    ensures TupleLess(NetworkId(a), NetworkId(b)) <==> NetworkBefore(a, b)
  {
    ThreeTexts(a.controller, a.site, a.id, b.controller, b.site, b.id);
  }

  lemma WlanOrder(a: WlanSnapshot, b: WlanSnapshot)
    ensures TupleLess(WlanId(a), WlanId(b)) <==> WlanBefore(a, b)
  {
    ThreeTexts(a.controller, a.site, a.id, b.controller, b.site, b.id);
  }

  lemma FirewallOrder(a: FirewallSnapshot, b: FirewallSnapshot)
    ensures TupleLess(FirewallId(a), FirewallId(b)) <==> FirewallBefore(a, b)
  {
    FourTexts(a.controller, a.site, a.kind, a.id, b.controller, b.site, b.kind, b.id);
    ThreeTexts(a.site, a.kind, a.id, b.site, b.kind, b.id);
  }

  // list.sort(key=...): insertion keeps items with equal keys in their order.
  method Sort<T>(xs: seq<T>, key: T -> seq<string>) returns (r: seq<T>)
    ensures r == SortBy(xs, key, TupleLess)
  {
    r := [];
    var i := |xs|;
    while i > 0
      invariant 0 <= i <= |xs| && r == SortBy(xs[i..], key, TupleLess)
    {
      i := i - 1;
      assert xs[i..][1..] == xs[i + 1..];
      r := Insert(xs[i], r, key, TupleLess);
    }
    assert xs[0..] == xs;
  }

  function Keys<T>(xs: seq<T>, key: T -> seq<string>): set<seq<string>>
  {
    set i | 0 <= i < |xs| :: key(xs[i])
  }

  lemma {:induction false} KeyCount<T>(xs: seq<T>, key: T -> seq<string>)
    ensures |Keys(xs, key)| <= |xs|
    ensures |Keys(xs, key)| == |xs| <==> DistinctBy(xs, key)
  {
    if xs != [] {
      var last := |xs| - 1;
      KeyCount(xs[..last], key);
      assert forall i :: 0 <= i < last ==> xs[..last][i] == xs[i];
      assert Keys(xs, key) == Keys(xs[..last], key) + {key(xs[last])};
    }
  }

  // Fewer different identities than items means that two items share one.
  method HasUniqueIdentities<T>(xs: seq<T>, key: T -> seq<string>) returns (unique: bool)
    ensures unique <==> DistinctBy(xs, key)
  {
    var identities := {};
    var i := 0;
    while i < |xs|
      invariant 0 <= i <= |xs| && identities == Keys(xs[..i], key)
    {
      assert forall j :: 0 <= j < i ==> xs[..i + 1][j] == xs[..i][j];
      identities := identities + {key(xs[i])};
      i := i + 1;
    }
    assert xs[..i] == xs;
    KeyCount(xs, key);
    unique := |xs| == |identities|;
  }

  // Sorting neither makes nor removes a repeated identity.
  lemma SortKeepsDistinct<T>(xs: seq<T>, key: T -> seq<string>)
    ensures DistinctBy(SortBy(xs, key, TupleLess), key) <==> DistinctBy(xs, key)
  {
    TupleOrder();
    SortBySorts(xs, key, TupleLess);
    SortedCollection(xs, SortBy(xs, key, TupleLess), key);
  }

  // One pass of the validator's loop.
  method SortAndCheck<T>(xs: seq<T>, key: T -> seq<string>) returns (r: seq<T>, unique: bool)
    ensures r == SortBy(xs, key, TupleLess)
    ensures unique <==> DistinctBy(xs, key)
  {
    r := Sort(xs, key);
    unique := HasUniqueIdentities(r, key);
    SortKeepsDistinct(xs, key);
  }

  class SnapshotContent {
    var sources: seq<SourceScope>
    var limitations: seq<SnapshotLimitation>
    var devices: seq<DeviceSnapshot>
    var networks: seq<NetworkSnapshot>
    var wlans: seq<WlanSnapshot>
    var firewall: seq<FirewallSnapshot>

    ghost function Value(): Content
      reads this
    {
      Content(sources, limitations, devices, networks, wlans, firewall)
    }

    constructor (c: Content)
      ensures Value() == c
    {
      sources, limitations, devices := c.sources, c.limitations, c.devices;
      networks, wlans, firewall := c.networks, c.wlans, c.firewall;
    }

    // Sorts one collection after the other; false stands for the ValueError at the first one with a
    // repeated identity, and then nothing uses the content any more.
    method SortAndRequireUniqueIdentities() returns (ok: bool)
      modifies this
      ensures ok <==> Normalise(old(Value())).Some?
      ensures ok ==> Value() == Normalise(old(Value())).value
    {
      sources, ok := SortAndCheck(sources, SourceId);
      if ok { limitations, ok := SortAndCheck(limitations, LimitationId); }
      if ok { devices, ok := SortAndCheck(devices, DeviceId); }
      if ok { networks, ok := SortAndCheck(networks, NetworkId); }
      if ok { wlans, ok := SortAndCheck(wlans, WlanId); }
      if ok { firewall, ok := SortAndCheck(firewall, FirewallId); }
    }
  }
}
