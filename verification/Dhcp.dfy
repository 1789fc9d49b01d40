// DHCP pools: range validation, and what create_network and update_network send to the controller.
module Dhcp {
  import opened Common
  import opened Prefixes

  // ip_address and ip_interface on stripped text, which this model takes as given.
  datatype Parsers = Parsers(address: string -> Option<Address>, subnet: string -> Option<Interface>)

  ghost predicate WellBehaved(p: Parsers)
  {
    && p.address("").None? && p.subnet("").None?
    && (forall s :: p.address(s).Some? ==> ValidAddress(p.address(s).value))
    && (forall s :: p.subnet(s).Some? ==> ValidInterface(p.subnet(s).value))
  }

  datatype RangeError =
    | SubnetUnknown | NotAddresses | VersionsDiffer | OutsideSubnet
    | GatewayUsed | NetworkAddressUsed | BroadcastAddressUsed | StartAfterStop

  // The checks on parsed addresses.
  function CheckRange(a: Address, b: Address, i: Interface): Option<RangeError>
    requires ValidAddress(a) && ValidAddress(b) && ValidInterface(i)
  {
    if a.version != b.version then Some(VersionsDiffer)
    else if !InNetwork(a, i) || !InNetwork(b, i) then Some(OutsideSubnet)
    else if i.address == a || i.address == b then Some(GatewayUsed)
    else if i.address.version.V4? && NetworkAddress(i) in [a.value, b.value] then Some(NetworkAddressUsed)
    else if i.address.version.V4? && BroadcastAddress(i) in [a.value, b.value] then Some(BroadcastAddressUsed)
    else if a.value > b.value then Some(StartAfterStop)
    else None
  }

  function ValidateDhcpRange(p: Parsers, start: string, stop: string, subnet: Option<string>): Option<RangeError>
    requires WellBehaved(p)
  {
    if subnet.None? then Some(SubnetUnknown)
    else if p.address(start).None? || p.address(stop).None? || p.subnet(subnet.value).None? then Some(NotAddresses)
    else CheckRange(p.address(start).value, p.address(stop).value, p.subnet(subnet.value).value)
  }

  // What a usable pool is: every address of it, not only its ends, is a host of the subnet.
  ghost predicate UsableRange(a: Address, b: Address, i: Interface)
    requires ValidInterface(i)
  {
    && a.version == b.version == i.address.version && a.value <= b.value
    && a != i.address && b != i.address
    && forall v :: a.value <= v <= b.value ==> HostOf(v, i)
  }

  ghost predicate Usable(p: Parsers, start: string, stop: string, subnet: Option<string>)
    requires WellBehaved(p)
  {
    && subnet.Some? && p.address(start).Some? && p.address(stop).Some? && p.subnet(subnet.value).Some?
    && UsableRange(p.address(start).value, p.address(stop).value, p.subnet(subnet.value).value)
  }

  lemma CheckedIsUsable(a: Address, b: Address, i: Interface)
    requires ValidAddress(a) && ValidAddress(b) && ValidInterface(i) && CheckRange(a, b, i) == None
    ensures UsableRange(a, b, i)
  {
    BlockIsInterval(a, i);
    BlockIsInterval(b, i);
    forall v | a.value <= v <= b.value ensures HostOf(v, i) { HostsAreConvex(a.value, b.value, v, i); }
  }

  lemma UsableIsChecked(a: Address, b: Address, i: Interface)
    requires ValidAddress(a) && ValidAddress(b) && ValidInterface(i) && UsableRange(a, b, i)
    ensures CheckRange(a, b, i) == None
  {
    BlockIsInterval(a, i);
    BlockIsInterval(b, i);
    assert HostOf(a.value, i) && HostOf(b.value, i);
  }

  lemma ValidationIsExact(p: Parsers, start: string, stop: string, subnet: Option<string>)
    requires WellBehaved(p)
    ensures ValidateDhcpRange(p, start, stop, subnet) == None <==> Usable(p, start, stop, subnet)
  {
    if subnet.Some? && p.address(start).Some? && p.address(stop).Some? && p.subnet(subnet.value).Some? {
      var a, b, i := p.address(start).value, p.address(stop).value, p.subnet(subnet.value).value;
      if CheckRange(a, b, i) == None { CheckedIsUsable(a, b, i); }
      if UsableRange(a, b, i) { UsableIsChecked(a, b, i); }
    }
  }

  // What each error says of the range.
  predicate Explains(e: RangeError, p: Parsers, start: string, stop: string, subnet: Option<string>)
    requires subnet.Some? && p.subnet(subnet.value).Some? ==> ValidInterface(p.subnet(subnet.value).value)
  {
    if subnet.None? then e.SubnetUnknown?
    else if p.address(start).None? || p.address(stop).None? || p.subnet(subnet.value).None? then e.NotAddresses?
    else ExplainsAddresses(e, p.address(start).value, p.address(stop).value, p.subnet(subnet.value).value)
  }

  predicate ExplainsAddresses(e: RangeError, a: Address, b: Address, i: Interface)
    requires ValidInterface(i)
  {
    match e
    case SubnetUnknown => false
    case NotAddresses => false
    case VersionsDiffer => a.version != b.version
    case OutsideSubnet =>
      a.version == b.version && (a.version != i.address.version || !InBlock(a.value, i) || !InBlock(b.value, i))
    case GatewayUsed => i.address == a || i.address == b
    case NetworkAddressUsed => i.address.version.V4? && (a.value % BlockSize(i) == 0 || b.value % BlockSize(i) == 0)
    case BroadcastAddressUsed =>
      && i.address.version.V4?
      && (a.value % BlockSize(i) == BlockSize(i) - 1 || b.value % BlockSize(i) == BlockSize(i) - 1)
    case StartAfterStop => a.value > b.value
  }

  lemma CheckErrorsAreTrue(a: Address, b: Address, i: Interface)
    requires ValidAddress(a) && ValidAddress(b) && ValidInterface(i) && CheckRange(a, b, i).Some?
    ensures ExplainsAddresses(CheckRange(a, b, i).value, a, b, i)
  {
    BlockIsInterval(a, i);
    BlockIsInterval(b, i);
  }

  lemma RangeErrorsAreTrue(p: Parsers, start: string, stop: string, subnet: Option<string>)
    requires WellBehaved(p) && ValidateDhcpRange(p, start, stop, subnet).Some?
    ensures Explains(ValidateDhcpRange(p, start, stop, subnet).value, p, start, stop, subnet)
  {
    if subnet.Some? && p.address(start).Some? && p.address(stop).Some? && p.subnet(subnet.value).Some? {
      CheckErrorsAreTrue(p.address(start).value, p.address(stop).value, p.subnet(subnet.value).value);
    }
  }

  // Only the ends are kept off the gateway: it may lie inside an accepted pool.
  lemma GatewayMayLieInside(p: Parsers)
    requires WellBehaved(p)
    requires p.address("10.0.0.2") == Some(Address(V4, 167772162))
    requires p.address("10.0.0.9") == Some(Address(V4, 167772169))
    requires p.subnet("10.0.0.5/24") == Some(Interface(Address(V4, 167772165), 24))
    ensures ValidateDhcpRange(p, "10.0.0.2", "10.0.0.9", Some("10.0.0.5/24")) == None
  {
    var i := p.subnet("10.0.0.5/24").value;
    assert BlockSize(i) == 256 by { assert Pow2(4) == 16; }
    assert forall v :: 167772162 <= v <= 167772169 ==> HostOf(v, i);
    ValidationIsExact(p, "10.0.0.2", "10.0.0.9", Some("10.0.0.5/24"));
  }

  // ---- records and payloads ----

  datatype Network = Network(name: Option<string>, purpose: Option<string>, subnet: Option<string>,
                             vlanEnabled: Option<bool>, vlan: Option<int>, domainName: Option<string>,
                             dhcpEnabled: Option<bool>, dhcpStart: Option<string>, dhcpStop: Option<string>,
                             leaseTime: Option<int>, enabled: Option<bool>)

  const BLANK := Network(None, None, None, None, None, None, None, None, None, None, None)

  function Or<T>(a: Option<T>, b: Option<T>): Option<T> { if a.Some? then a else b }

  // The record after the controller applied a payload: a payload is a record with only the sent fields.
  function Overlay(n: Network, d: Network): Network
  {
    Network(Or(d.name, n.name), Or(d.purpose, n.purpose), Or(d.subnet, n.subnet), Or(d.vlanEnabled, n.vlanEnabled),
            Or(d.vlan, n.vlan), Or(d.domainName, n.domainName), Or(d.dhcpEnabled, n.dhcpEnabled),
            Or(d.dhcpStart, n.dhcpStart), Or(d.dhcpStop, n.dhcpStop), Or(d.leaseTime, n.leaseTime),
            Or(d.enabled, n.enabled))
  }

  predicate Given(s: Option<string>) { s.Some? && s.value != "" }

  predicate Cleared(s: Option<string>) { s == Some("") }

  ghost predicate PoolUsable(p: Parsers, n: Network)
    requires WellBehaved(p)
  {
    Given(n.dhcpStart) && Given(n.dhcpStop) && Usable(p, n.dhcpStart.value, n.dhcpStop.value, n.subnet)
  }

  // DHCP enabled implies a usable pool.
  ghost predicate PoolValid(p: Parsers, n: Network)
    requires WellBehaved(p)
  {
    n.dhcpEnabled == Some(true) ==> PoolUsable(p, n)
  }

  // str.isspace().
  predicate IsSpace(c: char)
  {
    var n := c as int;
    || 9 <= n <= 13 || 0x1C <= n <= 0x20 || n == 0x85 || n == 0xA0 || n == 0x1680 || 0x2000 <= n <= 0x200A
    || n == 0x2028 || n == 0x2029 || n == 0x202F || n == 0x205F || n == 0x3000
  }

  function LStrip(s: string): string
  {
    if s != "" && IsSpace(s[0]) then LStrip(s[1..]) else s
  }

  function RStrip(s: string): string
  {
    if s != "" && IsSpace(s[|s| - 1]) then RStrip(s[..|s| - 1]) else s
  }

  function Strip(s: string): string { RStrip(LStrip(s)) }

  predicate Blank(s: string)
  {
    forall i :: 0 <= i < |s| ==> IsSpace(s[i])
  }

  ghost predicate StrippedOf(t: string, s: string, before: string, after: string)
  {
    && s == before + t + after && Blank(before) && Blank(after)
    && (t != "" ==> !IsSpace(t[0]) && !IsSpace(t[|t| - 1]))
  }

  lemma BlankConcat(x: string, y: string)
    requires Blank(x) && Blank(y)
    ensures Blank(x + y)
  {
  }

  lemma {:induction false} LStripParts(s: string) returns (before: string)
    ensures s == before + LStrip(s) && Blank(before) && (LStrip(s) != "" ==> !IsSpace(LStrip(s)[0]))
  {
    before := "";
    if s != "" && IsSpace(s[0]) {
      var more := LStripParts(s[1..]);
      before := [s[0]] + more;
      BlankConcat([s[0]], more);
      assert s == [s[0]] + s[1..];
    }
  }

  lemma {:induction false} RStripParts(s: string) returns (after: string)
    ensures s == RStrip(s) + after && Blank(after)
    ensures RStrip(s) != "" ==> !IsSpace(RStrip(s)[|RStrip(s)| - 1])
  {
    after := "";
    if s != "" && IsSpace(s[|s| - 1]) {
      var init, last := s[..|s| - 1], [s[|s| - 1]];
      var more := RStripParts(init);
      after := more + last;
      BlankConcat(more, last);
      assert s == init + last && (RStrip(init) + more) + last == RStrip(init) + (more + last);
    }
  }

  // Stripping takes white space off both ends, and no more.
  lemma StripIsExact(s: string)
    ensures exists before, after :: StrippedOf(Strip(s), s, before, after)
  {
    var before := LStripParts(s);
    var after := RStripParts(LStrip(s));
    assert before + LStrip(s) == before + Strip(s) + after;
    assert Strip(s) != "" ==> Strip(s)[0] == LStrip(s)[0];
    assert StrippedOf(Strip(s), s, before, after);
  }

  // ---- update_network ----

  datatype UpdateArgs = UpdateArgs(nameNew: Option<string>, subnet: Option<string>, vlan: Option<int>,
                                   domainName: Option<string>, dhcpStart: Option<string>, dhcpStop: Option<string>,
                                   leaseTime: Option<int>, enabled: Option<bool>)

  datatype Refusal =
    | BlankName | BadVlan | BadSubnet | BadLeaseTime | BadAddress | HalfCleared | NothingToUpdate | BadPurpose
    | PoolIncomplete | PoolInvalid(why: RangeError)

  datatype Plan = Send(data: Network) | Refuse(why: Refusal)

  // Refusals come in this order: the first that applies is given.
  function Rank(why: Refusal): nat
  {
    match why
    case BlankName => 0
    case BadPurpose => 1
    case BadVlan => 2
    case BadSubnet => 3
    case BadLeaseTime => 4
    case BadAddress => 5
    case HalfCleared => 6
    case NothingToUpdate => 7
    case PoolIncomplete => 8
    case PoolInvalid(_) => 9
  }

  // The pool a record would have: incomplete, or invalid in its subnet.
  ghost predicate PoolRefused(p: Parsers, m: Network, why: Refusal)
    requires WellBehaved(p)
  {
    match why
    case PoolIncomplete => !Given(m.dhcpStart) || !Given(m.dhcpStop)
    case PoolInvalid(e) =>
      && Given(m.dhcpStart) && Given(m.dhcpStop)
      && ValidateDhcpRange(p, m.dhcpStart.value, m.dhcpStop.value, m.subnet) == Some(e)
    case _ => false
  }

  predicate UpdateArgsOk(p: Parsers, a: UpdateArgs)
  {
    && (a.nameNew.Some? ==> Strip(a.nameNew.value) != "")
    && (a.vlan.Some? ==> a.vlan.value == -1 || 1 <= a.vlan.value <= 4094)
    && (a.subnet.Some? ==> p.subnet(a.subnet.value).Some?)
    && (a.leaseTime.Some? ==> a.leaseTime.value > 0)
    && (Given(a.dhcpStart) ==> p.address(a.dhcpStart.value).Some?)
    && (Given(a.dhcpStop) ==> p.address(a.dhcpStop.value).Some?)
    && (Cleared(a.dhcpStart) <==> Cleared(a.dhcpStop))
    && a != UpdateArgs(None, None, None, None, None, None, None, None)
  }

  // The payload the arguments ask for.
  function Asked(a: UpdateArgs): Network
  {
    Network(if a.nameNew.Some? then Some(Strip(a.nameNew.value)) else None, None, a.subnet,
            if a.vlan.Some? then Some(a.vlan.value > 0) else None,
            if a.vlan.Some? && a.vlan.value > 0 then a.vlan else None, a.domainName,
            if Given(a.dhcpStart) && Given(a.dhcpStop) then Some(true)
            else if Cleared(a.dhcpStart) && Cleared(a.dhcpStop) then Some(false) else None,
            a.dhcpStart, a.dhcpStop, a.leaseTime, a.enabled)
  }

  // The update sets an endpoint, or moves the subnet under an existing pool.
  predicate TouchesPool(n: Network, a: UpdateArgs)
  {
    || Given(a.dhcpStart) || Given(a.dhcpStop)
    || (a.subnet.Some? && a.dhcpStart.None? && a.dhcpStop.None?
        && (n.dhcpEnabled == Some(true) || Given(n.dhcpStart) || Given(n.dhcpStop)))
  }

  // What each refusal says of the update.
  ghost predicate UpdateRefused(p: Parsers, n: Network, a: UpdateArgs, why: Refusal)
    requires WellBehaved(p)
  {
    match why
    case BlankName => a.nameNew.Some? && Strip(a.nameNew.value) == ""
    case BadPurpose => false
    case BadVlan => a.vlan.Some? && a.vlan.value != -1 && (a.vlan.value < 1 || a.vlan.value > 4094)
    case BadSubnet => a.subnet.Some? && p.subnet(a.subnet.value).None?
    case BadLeaseTime => a.leaseTime.Some? && a.leaseTime.value <= 0
    case BadAddress =>
      || (Given(a.dhcpStart) && p.address(a.dhcpStart.value).None?)
      || (Given(a.dhcpStop) && p.address(a.dhcpStop.value).None?)
    case HalfCleared => Cleared(a.dhcpStart) != Cleared(a.dhcpStop)
    case NothingToUpdate => a == UpdateArgs(None, None, None, None, None, None, None, None)
    case _ => TouchesPool(n, a) && PoolRefused(p, Overlay(n, Asked(a)), why)
  }

  ghost predicate FirstUpdateRefusal(p: Parsers, n: Network, a: UpdateArgs, why: Refusal)
    requires WellBehaved(p)
  {
    UpdateRefused(p, n, a, why) && forall other :: Rank(other) < Rank(why) ==> !UpdateRefused(p, n, a, other)
  }

  method CheckUpdateArgs(p: Parsers, ghost n: Network, a: UpdateArgs) returns (r: Option<Refusal>)
    requires WellBehaved(p)
    ensures r.None? <==> UpdateArgsOk(p, a)
    ensures r.None? ==> forall why :: Rank(why) < 8 ==> !UpdateRefused(p, n, a, why)
    ensures r.Some? ==> Rank(r.value) < 8 && FirstUpdateRefusal(p, n, a, r.value)
  {
    if a.nameNew.Some? && Strip(a.nameNew.value) == "" { return Some(BlankName); }
    if a.vlan.Some? && a.vlan.value != -1 && !(1 <= a.vlan.value <= 4094) { return Some(BadVlan); }
    if a.subnet.Some? && p.subnet(a.subnet.value).None? { return Some(BadSubnet); }
    if a.leaseTime.Some? && a.leaseTime.value <= 0 { return Some(BadLeaseTime); }
    if Given(a.dhcpStart) && p.address(a.dhcpStart.value).None? { return Some(BadAddress); }
    if Given(a.dhcpStop) && p.address(a.dhcpStop.value).None? { return Some(BadAddress); }
    if Cleared(a.dhcpStart) != Cleared(a.dhcpStop) { return Some(HalfCleared); }
    if a.nameNew.None? && a.subnet.None? && a.vlan.None? && a.domainName.None? && a.dhcpStart.None?
       && a.dhcpStop.None? && a.leaseTime.None? && a.enabled.None? { return Some(NothingToUpdate); }
    return None;
  }

  method FillUpdate(a: UpdateArgs) returns (data: Network)
    ensures data == Asked(a)
  {
    data := BLANK;
    if a.nameNew.Some? { data := data.(name := Some(Strip(a.nameNew.value))); }
    if a.subnet.Some? { data := data.(subnet := a.subnet); }
    if a.vlan.Some? {
      data := data.(vlanEnabled := Some(a.vlan.value > 0));
      if a.vlan.value > 0 { data := data.(vlan := a.vlan); }
    }
    if a.domainName.Some? { data := data.(domainName := a.domainName); }
    if a.dhcpStart.Some? { data := data.(dhcpStart := a.dhcpStart); }
    if a.dhcpStop.Some? { data := data.(dhcpStop := a.dhcpStop); }
    if a.leaseTime.Some? { data := data.(leaseTime := a.leaseTime); }
    if a.dhcpStart.Some? && a.dhcpStop.Some? {
      if Given(a.dhcpStart) && Given(a.dhcpStop) {
        data := data.(dhcpEnabled := Some(true));
      } else if Cleared(a.dhcpStart) && Cleared(a.dhcpStop) {
        data := data.(dhcpEnabled := Some(false));
      }
    }
    if a.enabled.Some? { data := data.(enabled := a.enabled); }
  }

  // From the arguments and the record read fresh to the payload sent, or a refusal.
  method PlanUpdate(p: Parsers, network: Network, a: UpdateArgs) returns (r: Plan)
    requires WellBehaved(p)
    ensures r.Send? <==> UpdateArgsOk(p, a) && (TouchesPool(network, a) ==> PoolUsable(p, Overlay(network, Asked(a))))
    ensures r.Send? ==> r.data == Asked(a)
    ensures r.Refuse? ==> FirstUpdateRefusal(p, network, a, r.why)
  {
    var bad := CheckUpdateArgs(p, network, a);
    if bad.Some? { return Refuse(bad.value); }
    if a.subnet.Some? && a.dhcpStart.None? && a.dhcpStop.None? {
      var start, stop := network.dhcpStart, network.dhcpStop;
      if network.dhcpEnabled == Some(true) || Given(start) || Given(stop) {
        if !Given(start) || !Given(stop) { return Refuse(PoolIncomplete); }
        ValidationIsExact(p, start.value, stop.value, a.subnet);
        var error := ValidateDhcpRange(p, start.value, stop.value, a.subnet);
        if error.Some? { return Refuse(PoolInvalid(error.value)); }
      }
    }
    var data := FillUpdate(a);
    if a.dhcpStart.Some? || a.dhcpStop.Some? {
      if Cleared(a.dhcpStart) && Cleared(a.dhcpStop) {
      } else {
        var start := if a.dhcpStart.Some? then a.dhcpStart else network.dhcpStart;
        var stop := if a.dhcpStop.Some? then a.dhcpStop else network.dhcpStop;
        var subnet := if a.subnet.Some? then a.subnet else network.subnet;
        if !Given(start) || !Given(stop) { return Refuse(PoolIncomplete); }
        ValidationIsExact(p, start.value, stop.value, subnet);
        var error := ValidateDhcpRange(p, start.value, stop.value, subnet);
        if error.Some? { return Refuse(PoolInvalid(error.value)); }
      }
    }
    return Send(data);
  }

  // An update is sent exactly when no refusal applies to it.
  lemma SentIffNothingRefuses(p: Parsers, n: Network, a: UpdateArgs)
    requires WellBehaved(p)
    ensures UpdateArgsOk(p, a) && (TouchesPool(n, a) ==> PoolUsable(p, Overlay(n, Asked(a))))
      <==> forall why :: !UpdateRefused(p, n, a, why)
  {
    var m := Overlay(n, Asked(a));
    if Given(m.dhcpStart) && Given(m.dhcpStop) {
      var error := ValidateDhcpRange(p, m.dhcpStart.value, m.dhcpStop.value, m.subnet);
      ValidationIsExact(p, m.dhcpStart.value, m.dhcpStop.value, m.subnet);
      if error.Some? && TouchesPool(n, a) { assert UpdateRefused(p, n, a, PoolInvalid(error.value)); }
    } else if TouchesPool(n, a) {
      assert UpdateRefused(p, n, a, PoolIncomplete);
    }
    if !UpdateArgsOk(p, a) {
      assert || UpdateRefused(p, n, a, BlankName) || UpdateRefused(p, n, a, BadVlan)
             || UpdateRefused(p, n, a, BadSubnet) || UpdateRefused(p, n, a, BadLeaseTime)
             || UpdateRefused(p, n, a, BadAddress)
             || UpdateRefused(p, n, a, HalfCleared) || UpdateRefused(p, n, a, NothingToUpdate);
    }
  }

  predicate NonEmpty(s: Option<string>)
  {
    s.Some? && |s.value| > 0
  }

  // An update is refused for its pool exactly when that is not usable and the update sets an end of it, or gives
  // a subnet and no end while DHCP is on or an end is set.
  lemma PoolIsCheckedWhenTouched(p: Parsers, n: Network, a: UpdateArgs)
    requires WellBehaved(p) && UpdateArgsOk(p, a)
    ensures (exists why: Refusal :: (why.PoolIncomplete? || why.PoolInvalid?) && UpdateRefused(p, n, a, why))
      <==> !PoolUsable(p, Overlay(n, Asked(a))) &&
           (NonEmpty(a.dhcpStart) || NonEmpty(a.dhcpStop)
            || (a.subnet.Some? && a.dhcpStart.None? && a.dhcpStop.None?
                && (n.dhcpEnabled == Some(true) || NonEmpty(n.dhcpStart) || NonEmpty(n.dhcpStop))))
  {
    var m := Overlay(n, Asked(a));
    if Given(m.dhcpStart) && Given(m.dhcpStop) {
      ValidationIsExact(p, m.dhcpStart.value, m.dhcpStop.value, m.subnet);
      var error := ValidateDhcpRange(p, m.dhcpStart.value, m.dhcpStop.value, m.subnet);
      if error.Some? && TouchesPool(n, a) { assert UpdateRefused(p, n, a, PoolInvalid(error.value)); }
    } else if TouchesPool(n, a) {
      assert UpdateRefused(p, n, a, PoolIncomplete);
    }
  }

  // The record after one call: overlaid when the payload was sent, as it was when refused.
  ghost function AfterUpdate(p: Parsers, n: Network, a: UpdateArgs): Network
    requires WellBehaved(p)
  {
    if UpdateArgsOk(p, a) && (TouchesPool(n, a) ==> PoolUsable(p, Overlay(n, Asked(a)))) then Overlay(n, Asked(a))
    else n
  }

  // An update changes no field it was not given; giving both pool ends also switches DHCP.
  lemma OnlyGivenFieldsChange(p: Parsers, n: Network, a: UpdateArgs)
    requires WellBehaved(p)
    ensures var m := AfterUpdate(p, n, a);
      && m.purpose == n.purpose && (a.nameNew.None? ==> m.name == n.name) && (a.subnet.None? ==> m.subnet == n.subnet)
      && (a.vlan.None? ==> m.vlanEnabled == n.vlanEnabled && m.vlan == n.vlan)
      && (a.domainName.None? ==> m.domainName == n.domainName) && (a.leaseTime.None? ==> m.leaseTime == n.leaseTime)
      && (a.dhcpStart.None? ==> m.dhcpStart == n.dhcpStart) && (a.dhcpStop.None? ==> m.dhcpStop == n.dhcpStop)
      && (a.dhcpStart.None? || a.dhcpStop.None? ==> m.dhcpEnabled == n.dhcpEnabled)
      && (a.enabled.None? ==> m.enabled == n.enabled)
  {
  }

  // What was given is in the payload and nothing else is: VLAN -1 only switches VLANs off, any other also sets
  // its id, both pool ends switch DHCP on and both cleared switch it off.
  lemma PayloadIsWhatWasGiven(p: Parsers, a: UpdateArgs)
    requires UpdateArgsOk(p, a)
    ensures var d := Asked(a);
      && (a.nameNew.Some? ==> d.name == Some(Strip(a.nameNew.value))) && (a.nameNew.None? ==> d.name == None)
      && d.subnet == a.subnet && d.domainName == a.domainName && d.leaseTime == a.leaseTime && d.enabled == a.enabled
      && d.dhcpStart == a.dhcpStart && d.dhcpStop == a.dhcpStop && d.purpose == None
      && (a.vlan == None ==> d.vlanEnabled == None && d.vlan == None)
      && (a.vlan == Some(-1) ==> d.vlanEnabled == Some(false) && d.vlan == None)
      && (a.vlan.Some? && a.vlan.value != -1 ==> d.vlanEnabled == Some(true) && d.vlan == a.vlan)
      && (a.dhcpStart == Some("") && a.dhcpStop == Some("") ==> d.dhcpEnabled == Some(false))
      && (a.dhcpStart.Some? && a.dhcpStop.Some? && a.dhcpStart != Some("") ==> d.dhcpEnabled == Some(true))
      && (a.dhcpStart == None || a.dhcpStop == None ==> d.dhcpEnabled == None)
  {
  }

  // After an update that was sent, the record has every field that was given as given, and the others as before.
  lemma GivenFieldsAreSet(p: Parsers, n: Network, a: UpdateArgs)
    requires WellBehaved(p)
    requires UpdateArgsOk(p, a) && (TouchesPool(n, a) ==> PoolUsable(p, Overlay(n, Asked(a))))
    ensures var m := AfterUpdate(p, n, a);
      && (a.nameNew.Some? ==> m.name == Some(Strip(a.nameNew.value)))
      && (a.subnet.Some? ==> m.subnet == a.subnet) && (a.domainName.Some? ==> m.domainName == a.domainName)
      && (a.leaseTime.Some? ==> m.leaseTime == a.leaseTime) && (a.enabled.Some? ==> m.enabled == a.enabled)
      && (a.dhcpStart.Some? ==> m.dhcpStart == a.dhcpStart) && (a.dhcpStop.Some? ==> m.dhcpStop == a.dhcpStop)
      && (a.vlan == Some(-1) ==> m.vlanEnabled == Some(false) && m.vlan == n.vlan)
      && (a.vlan.Some? && a.vlan.value != -1 ==> m.vlanEnabled == Some(true) && m.vlan == a.vlan)
      && (a.dhcpStart == Some("") && a.dhcpStop == Some("") ==> m.dhcpEnabled == Some(false))
      && (a.dhcpStart.Some? && a.dhcpStop.Some? && a.dhcpStart != Some("") ==> m.dhcpEnabled == Some(true))
  {
  }

  lemma UpdateKeepsPoolValid(p: Parsers, n: Network, a: UpdateArgs)
    requires WellBehaved(p) && PoolValid(p, n)
    ensures PoolValid(p, AfterUpdate(p, n, a))
  {
    var m := Overlay(n, Asked(a));
    if UpdateArgsOk(p, a) && !TouchesPool(n, a) && m.dhcpEnabled == Some(true) {
      assert a.subnet.None?;
      assert m.dhcpStart == n.dhcpStart && m.dhcpStop == n.dhcpStop && m.subnet == n.subnet;
    }
  }

  // ---- create_network ----

  datatype CreateArgs = CreateArgs(name: string, subnet: Option<string>, vlan: Option<int>, purpose: string,
                                   domainName: Option<string>, dhcpStart: Option<string>, dhcpStop: Option<string>,
                                   leaseTime: Option<int>)

  predicate CreateArgsOk(p: Parsers, a: CreateArgs)
  {
    && Strip(a.name) != "" && (a.purpose == "corporate" || a.purpose == "guest" || a.purpose == "wan")
    && (a.vlan.Some? ==> 1 <= a.vlan.value <= 4094)
    && (a.subnet.Some? ==> p.subnet(a.subnet.value).Some?)
    && (a.leaseTime.Some? ==> a.leaseTime.value > 0)
    && (a.dhcpStart.Some? || a.dhcpStop.Some? || a.leaseTime.Some? ==> Given(a.dhcpStart) && Given(a.dhcpStop))
  }

  // What each refusal says of the creation.
  ghost predicate CreateRefused(p: Parsers, a: CreateArgs, why: Refusal)
    requires WellBehaved(p)
  {
    match why
    case BlankName => Strip(a.name) == ""
    case BadPurpose => a.purpose != "corporate" && a.purpose != "guest" && a.purpose != "wan"
    case BadVlan => a.vlan.Some? && (a.vlan.value < 1 || a.vlan.value > 4094)
    case BadSubnet => a.subnet.Some? && p.subnet(a.subnet.value).None?
    case BadLeaseTime => a.leaseTime.Some? && a.leaseTime.value <= 0
    case PoolIncomplete =>
      (a.dhcpStart.Some? || a.dhcpStop.Some? || a.leaseTime.Some?) && (!Given(a.dhcpStart) || !Given(a.dhcpStop))
    case PoolInvalid(_) =>
      && Given(a.dhcpStart)
      && PoolRefused(p, BLANK.(dhcpStart := a.dhcpStart, dhcpStop := a.dhcpStop, subnet := a.subnet), why)
    case _ => false
  }

  // A network is created exactly when no refusal applies.
  lemma CreatedIffNothingRefuses(p: Parsers, a: CreateArgs)
    requires WellBehaved(p)
    ensures CreateArgsOk(p, a) && (Given(a.dhcpStart) ==> Usable(p, a.dhcpStart.value, a.dhcpStop.value, a.subnet))
      <==> forall why :: !CreateRefused(p, a, why)
  {
    if Given(a.dhcpStart) && Given(a.dhcpStop) {
      var error := ValidateDhcpRange(p, a.dhcpStart.value, a.dhcpStop.value, a.subnet);
      ValidationIsExact(p, a.dhcpStart.value, a.dhcpStop.value, a.subnet);
      if error.Some? { assert CreateRefused(p, a, PoolInvalid(error.value)); }
    }
    if !CreateArgsOk(p, a) {
      assert || CreateRefused(p, a, BlankName) || CreateRefused(p, a, BadPurpose) || CreateRefused(p, a, BadVlan)
             || CreateRefused(p, a, BadSubnet) || CreateRefused(p, a, BadLeaseTime)
             || CreateRefused(p, a, PoolIncomplete);
    }
  }

  method PlanCreate(p: Parsers, a: CreateArgs) returns (r: Plan)
    requires WellBehaved(p)
    ensures r.Send? <==>
      CreateArgsOk(p, a) && (Given(a.dhcpStart) ==> Usable(p, a.dhcpStart.value, a.dhcpStop.value, a.subnet))
    ensures r.Send? ==> r.data == Network(Some(Strip(a.name)), Some(a.purpose), a.subnet, Some(a.vlan.Some?), a.vlan,
      if Given(a.domainName) then a.domainName else None, Some(Given(a.dhcpStart)), a.dhcpStart, a.dhcpStop,
      if Given(a.dhcpStart) then Or(a.leaseTime, Some(86400)) else None, None)
    ensures r.Send? ==> PoolValid(p, Overlay(BLANK, r.data))
    ensures r.Refuse? ==> CreateRefused(p, a, r.why)
    ensures r.Refuse? ==> forall other :: Rank(other) < Rank(r.why) ==> !CreateRefused(p, a, other)
  {
    if Strip(a.name) == "" { return Refuse(BlankName); }
    if a.purpose != "corporate" && a.purpose != "guest" && a.purpose != "wan" { return Refuse(BadPurpose); }
    if a.vlan.Some? && !(1 <= a.vlan.value <= 4094) { return Refuse(BadVlan); }
    if a.subnet.Some? && p.subnet(a.subnet.value).None? { return Refuse(BadSubnet); }
    if a.leaseTime.Some? && a.leaseTime.value <= 0 { return Refuse(BadLeaseTime); }
    var supplied := a.dhcpStart.Some? || a.dhcpStop.Some? || a.leaseTime.Some?;
    var pool := Given(a.dhcpStart) && Given(a.dhcpStop);
    if supplied && !pool { return Refuse(PoolIncomplete); }
    if pool {
      ValidationIsExact(p, a.dhcpStart.value, a.dhcpStop.value, a.subnet);
      var error := ValidateDhcpRange(p, a.dhcpStart.value, a.dhcpStop.value, a.subnet);
      if error.Some? { return Refuse(PoolInvalid(error.value)); }
    }
    var data := BLANK.(name := Some(Strip(a.name)), purpose := Some(a.purpose), vlanEnabled := Some(a.vlan.Some?));
    if a.vlan.Some? { data := data.(vlan := a.vlan); }
    if Given(a.subnet) { data := data.(subnet := a.subnet); }
    if Given(a.domainName) { data := data.(domainName := a.domainName); }
    if pool {
      data := data.(dhcpEnabled := Some(true), dhcpStart := a.dhcpStart, dhcpStop := a.dhcpStop,
                    leaseTime := if a.leaseTime.Some? then a.leaseTime else Some(86400));
    } else {
      data := data.(dhcpEnabled := Some(false));
    }
    return Send(data);
  }

  // The record changes with each update.
  ghost predicate Updated(p: Parsers, records: seq<Network>, updates: seq<UpdateArgs>)
    requires WellBehaved(p)
  {
    && |records| == |updates| + 1
    && forall i :: 0 <= i < |updates| ==> records[i + 1] == AfterUpdate(p, records[i], updates[i])
  }

  // A network created here and then updated any number of times never has DHCP on without a usable
  // pool, whatever fields each update gives, omits or clears.
  lemma {:induction false} PoolStaysValid(p: Parsers, records: seq<Network>, updates: seq<UpdateArgs>, i: nat)
    requires WellBehaved(p) && Updated(p, records, updates) && PoolValid(p, records[0]) && i < |records|
    ensures PoolValid(p, records[i])
  {
    if i > 0 {
      PoolStaysValid(p, records, updates, i - 1);
      UpdateKeepsPoolValid(p, records[i - 1], updates[i - 1]);
    }
  }
}
