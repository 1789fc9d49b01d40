// Canonical snapshot encoding, and reading a snapshot back with its checksum.
module SnapshotCodec {
  import opened Common
  import opened Ordering
  import opened Json
  import opened SnapshotModels

  import IsoTime
  import JsonTexts
  import Utf8
  import UtcText

  const MAX_SNAPSHOT_BYTES := 16 * 1024 * 1024

  datatype Document = Document(generatedAt: IsoTime.DateTime, contentSha256: Option<string>, content: Content)

  // ---- The limits of the schema

  const SERVICES := {"network", "protect"}
  const STATUSES := {"complete", "partial", "unsupported", "failed"}

  predicate Short(t: Option<string>, high: nat)
  {
    t.Some? ==> |t.value| <= high
  }

  predicate ValidSource(x: SourceScope)
  {
    && x.source in SERVICES && 1 <= |x.deviceName| <= 128 && |x.site| <= 128
    && 1 <= |x.mode| <= 64 && x.status in STATUSES
  }

  predicate ValidLimitation(x: SnapshotLimitation)
  {
    && x.source in SERVICES && 1 <= |x.deviceName| <= 128 && |x.site| <= 128
    && 1 <= |x.code| <= 128 && 1 <= |x.summary| <= 500
  }

  predicate ValidNames(id: string, name: string, controller: string, site: string)
  {
    1 <= |id| <= 256 && 1 <= |name| <= 256 && |controller| <= 128 && |site| <= 128
  }

  predicate ValidDevice(x: DeviceSnapshot)
  {
    && ValidNames(x.id, x.name, x.controller, x.site) && x.service in SERVICES
    && Short(x.kind, 128) && Short(x.model, 128) && Short(x.state, 64)
  }

  predicate ValidNetwork(x: NetworkSnapshot)
  {
    && ValidNames(x.id, x.name, x.controller, x.site) && Short(x.purpose, 64) && Short(x.subnet, 128)
    && (x.vlan.Some? ==> 1 <= x.vlan.value <= 4094)
  }

  predicate ValidWlan(x: WlanSnapshot)
  {
    ValidNames(x.id, x.name, x.controller, x.site) && Short(x.security, 64)
  }

  predicate ValidFirewall(x: FirewallSnapshot)
  {
    ValidNames(x.id, x.name, x.controller, x.site) && x.kind in {"rule", "policy"} && Short(x.action, 64)
  }

  predicate AllValid<T>(xs: seq<T>, limit: nat, valid: T -> bool)
  {
    |xs| <= limit && forall i :: 0 <= i < |xs| ==> valid(xs[i])
  }

  predicate WithinLimits(c: Content)
  {
    && AllValid(c.sources, 256, ValidSource)
    && AllValid(c.limitations, 1000, ValidLimitation)
    && AllValid(c.devices, 10000, ValidDevice)
    && AllValid(c.networks, 5000, ValidNetwork)
    && AllValid(c.wlans, 5000, ValidWlan)
    && AllValid(c.firewall, 10000, ValidFirewall)
  }

  // A content as the validator leaves it.
  predicate ValidContent(c: Content)
  {
    WithinLimits(c) && Normalise(c) == Some(c)
  }

  predicate IsDigest(t: string)
  {
    |t| == 64 && forall i :: 0 <= i < |t| ==> '0' <= t[i] <= '9' || 'a' <= t[i] <= 'f'
  }

  lemma HexCharacter(c: char)
    ensures ('0' <= c <= '9' || 'a' <= c <= 'f') <==> c in "0123456789abcdef"
  {
    if '0' <= c <= '9' { assert "0123456789abcdef"[c as int - '0' as int] == c; }
    if 'a' <= c <= 'f' { assert "0123456789abcdef"[c as int - 'a' as int + 10] == c; }
  }

  // A checksum is 64 lower-case hexadecimal digits.
  lemma DigestCharacters(t: string)
    ensures IsDigest(t) <==> |t| == 64 && forall i :: 0 <= i < |t| ==> t[i] in "0123456789abcdef"
  {
    forall i | 0 <= i < |t| { HexCharacter(t[i]); }
  }

  predicate ValidDocument(d: Document)
  {
    && IsoTime.Valid(d.generatedAt)
    && (d.contentSha256.Some? ==> IsDigest(d.contentSha256.value))
    && ValidContent(d.content)
  }

  // ---- model_dump(mode="json")

  function Nullable(t: Option<string>): Json
  {
    if t.None? then Null else Str(t.value)
  }

  function Map<T, U>(xs: seq<T>, f: T -> U): seq<U>
  {
    seq(|xs|, i requires 0 <= i < |xs| => f(xs[i]))
  }

  function SourceToJson(x: SourceScope): Json
  {
    Obj(map["source" := Str(x.source), "device_name" := Str(x.deviceName), "site" := Str(x.site), "mode" := Str(x.mode),
            "status" := Str(x.status)])
  }

  function LimitationToJson(x: SnapshotLimitation): Json
  {
    Obj(map["source" := Str(x.source), "device_name" := Str(x.deviceName), "site" := Str(x.site), "code" := Str(x.code),
            "summary" := Str(x.summary)])
  }

  function DeviceToJson(x: DeviceSnapshot): Json
  {
    Obj(map["id" := Str(x.id), "name" := Str(x.name), "service" := Str(x.service), "controller" := Str(x.controller),
            "site" := Str(x.site), "kind" := Nullable(x.kind), "model" := Nullable(x.model),
            "state" := Nullable(x.state)])
  }

  function NetworkToJson(x: NetworkSnapshot): Json
  {
    Obj(map["id" := Str(x.id), "name" := Str(x.name), "controller" := Str(x.controller), "site" := Str(x.site),
            "purpose" := Nullable(x.purpose), "subnet" := Nullable(x.subnet),
            "vlan" := if x.vlan.None? then Null else Int(x.vlan.value)])
  }

  function WlanToJson(x: WlanSnapshot): Json
  {
    Obj(map["id" := Str(x.id), "name" := Str(x.name), "controller" := Str(x.controller), "site" := Str(x.site),
            "enabled" := Bool(x.enabled), "security" := Nullable(x.security), "hidden" := Bool(x.hidden)])
  }

  function FirewallToJson(x: FirewallSnapshot): Json
  {
    Obj(map["id" := Str(x.id), "name" := Str(x.name), "controller" := Str(x.controller), "site" := Str(x.site),
            "kind" := Str(x.kind), "action" := Nullable(x.action), "enabled" := Bool(x.enabled)])
  }

  function ContentToJson(c: Content): Json
  {
    Obj(map["sources" := Arr(Map(c.sources, SourceToJson)), "limitations" := Arr(Map(c.limitations, LimitationToJson)),
            "devices" := Arr(Map(c.devices, DeviceToJson)), "networks" := Arr(Map(c.networks, NetworkToJson)),
            "wlans" := Arr(Map(c.wlans, WlanToJson)), "firewall" := Arr(Map(c.firewall, FirewallToJson))])
  }

  function DocumentFields(generatedAt: string, contentSha256: Option<string>, content: Json): Json
  {
    Obj(map["schema_version" := Int(1), "generated_at" := Str(generatedAt),
            "redaction_status" := Str("secrets_excluded"), "content_sha256" := Nullable(contentSha256),
            "content" := content])
  }

  function DocumentToJson(d: Document): Json
    requires IsoTime.Valid(d.generatedAt)
  {
    DocumentFields(UtcText.PrintUtc(d.generatedAt), d.contentSha256, ContentToJson(d.content))
  }

  // What the checksum is taken over: no generation time and no checksum.
  function StableFields(content: Json): Json
  {
    Obj(map["schema_version" := Int(1), "redaction_status" := Str("secrets_excluded"), "content" := content])
  }

  // ---- model_validate

  type Fields = map<string, Json>

  predicate Required(m: Fields, key: string, low: nat, high: nat)
  {
    key in m && m[key].Str? && low <= |m[key].s| <= high
  }

  predicate Choice(m: Fields, key: string, options: set<string>)
  {
    key in m && m[key].Str? && m[key].s in options
  }

  predicate Defaulted(m: Fields, key: string, high: nat)
  {
    key in m ==> m[key].Str? && |m[key].s| <= high
  }

  predicate Optional(m: Fields, key: string, high: nat)
  {
    key in m ==> m[key].Null? || (m[key].Str? && |m[key].s| <= high)
  }

  predicate Flag(m: Fields, key: string)
  {
    key in m ==> m[key].Bool?
  }

  function TextOf(m: Fields, key: string): string
  {
    if key in m && m[key].Str? then m[key].s else ""
  }

  function OptionOf(m: Fields, key: string): Option<string>
  {
    if key in m && m[key].Str? then Some(m[key].s) else None
  }

  function FlagOf(m: Fields, key: string, default: bool): bool
  {
    if key in m && m[key].Bool? then m[key].b else default
  }

  function SourceFromJson(j: Json): Option<SourceScope>
  {
    if !j.Obj? then None
    else
      var m := j.members;
      if && m.Keys <= {"source", "device_name", "site", "mode", "status"}
         && Choice(m, "source", SERVICES) && Required(m, "device_name", 1, 128) && Defaulted(m, "site", 128)
         && Required(m, "mode", 1, 64) && Choice(m, "status", STATUSES)
      then Some(SourceScope(TextOf(m, "source"), TextOf(m, "device_name"), TextOf(m, "site"), TextOf(m, "mode"),
                            TextOf(m, "status")))
      else None
  }

  function LimitationFromJson(j: Json): Option<SnapshotLimitation>
  {
    if !j.Obj? then None
    else
      var m := j.members;
      if && m.Keys <= {"source", "device_name", "site", "code", "summary"}
         && Choice(m, "source", SERVICES) && Required(m, "device_name", 1, 128) && Defaulted(m, "site", 128)
         && Required(m, "code", 1, 128) && Required(m, "summary", 1, 500)
      then Some(SnapshotLimitation(TextOf(m, "source"), TextOf(m, "device_name"), TextOf(m, "site"), TextOf(m, "code"),
                                   TextOf(m, "summary")))
      else None
  }

  predicate Named(m: Fields)
  {
    && Required(m, "id", 1, 256) && Required(m, "name", 1, 256)
    && Defaulted(m, "controller", 128) && Defaulted(m, "site", 128)
  }

  function DeviceFromJson(j: Json): Option<DeviceSnapshot>
  {
    if !j.Obj? then None
    else
      var m := j.members;
      if && m.Keys <= {"id", "name", "service", "controller", "site", "kind", "model", "state"}
         && Named(m) && Choice(m, "service", SERVICES)
         && Optional(m, "kind", 128) && Optional(m, "model", 128) && Optional(m, "state", 64)
      then Some(DeviceSnapshot(TextOf(m, "id"), TextOf(m, "name"), TextOf(m, "service"), TextOf(m, "controller"),
                               TextOf(m, "site"), OptionOf(m, "kind"), OptionOf(m, "model"), OptionOf(m, "state")))
      else None
  }

  predicate VlanField(m: Fields)
  {
    "vlan" in m ==> m["vlan"].Null? || (m["vlan"].Int? && 1 <= m["vlan"].i <= 4094)
  }

  function NetworkFromJson(j: Json): Option<NetworkSnapshot>
  {
    if !j.Obj? then None
    else
      var m := j.members;
      if && m.Keys <= {"id", "name", "controller", "site", "purpose", "subnet", "vlan"}
         && Named(m) && Optional(m, "purpose", 64) && Optional(m, "subnet", 128) && VlanField(m)
      then Some(NetworkSnapshot(TextOf(m, "id"), TextOf(m, "name"), TextOf(m, "controller"), TextOf(m, "site"),
                                OptionOf(m, "purpose"), OptionOf(m, "subnet"),
                                if "vlan" in m && m["vlan"].Int? then Some(m["vlan"].i) else None))
      else None
  }

  function WlanFromJson(j: Json): Option<WlanSnapshot>
  {
    if !j.Obj? then None
    else
      var m := j.members;
      if && m.Keys <= {"id", "name", "controller", "site", "enabled", "security", "hidden"}
         && Named(m) && "enabled" in m && Flag(m, "enabled") && Optional(m, "security", 64) && Flag(m, "hidden")
      then Some(WlanSnapshot(TextOf(m, "id"), TextOf(m, "name"), TextOf(m, "controller"), TextOf(m, "site"),
                             FlagOf(m, "enabled", false), OptionOf(m, "security"), FlagOf(m, "hidden", false)))
      else None
  }

  function FirewallFromJson(j: Json): Option<FirewallSnapshot>
  {
    if !j.Obj? then None
    else
      var m := j.members;
      if && m.Keys <= {"id", "name", "controller", "site", "kind", "action", "enabled"}
         && Named(m) && Choice(m, "kind", {"rule", "policy"}) && Optional(m, "action", 64) && Flag(m, "enabled")
      then Some(FirewallSnapshot(TextOf(m, "id"), TextOf(m, "name"), TextOf(m, "controller"), TextOf(m, "site"),
                                 TextOf(m, "kind"), OptionOf(m, "action"), FlagOf(m, "enabled", true)))
      else None
  }

  // Every member of j is a member of k.
  ghost predicate PartOf(j: Json, k: Json)
  {
    j.Obj? && k.Obj? && forall key :: key in j.members ==> key in k.members && k.members[key] == j.members[key]
  }

  // Nothing that was read is ignored or changed: dumped again, a record has every field it was read from; and it
  // was read from at least the fields that may not be missing.
  lemma SourceKeepsFields(j: Json)
    requires SourceFromJson(j).Some?
    ensures PartOf(j, SourceToJson(SourceFromJson(j).value))
    ensures {"source", "device_name", "mode", "status"} <= j.members.Keys
  {
  }

  lemma LimitationKeepsFields(j: Json)
    requires LimitationFromJson(j).Some?
    ensures PartOf(j, LimitationToJson(LimitationFromJson(j).value))
    ensures {"source", "device_name", "code", "summary"} <= j.members.Keys
  {
  }

  lemma DeviceKeepsFields(j: Json)
    requires DeviceFromJson(j).Some?
    ensures PartOf(j, DeviceToJson(DeviceFromJson(j).value))
    ensures {"id", "name", "service"} <= j.members.Keys
  {
  }

  lemma NetworkKeepsFields(j: Json)
    requires NetworkFromJson(j).Some?
    ensures PartOf(j, NetworkToJson(NetworkFromJson(j).value))
    ensures {"id", "name"} <= j.members.Keys
  {
  }

  lemma WlanKeepsFields(j: Json)
    requires WlanFromJson(j).Some?
    ensures PartOf(j, WlanToJson(WlanFromJson(j).value))
    ensures {"id", "name", "enabled"} <= j.members.Keys
  {
  }

  lemma FirewallKeepsFields(j: Json)
    requires FirewallFromJson(j).Some?
    ensures PartOf(j, FirewallToJson(FirewallFromJson(j).value))
    ensures {"id", "name", "kind"} <= j.members.Keys
  {
  }

  // The fields that may be missing, for what they then are.
  lemma SourceDefaults(x: SourceScope)
    requires ValidSource(x) && x.site == ""
    ensures SourceFromJson(Obj(SourceToJson(x).members - {"site"})) == Some(x)
  {
  }

  lemma LimitationDefaults(x: SnapshotLimitation)
    requires ValidLimitation(x) && x.site == ""
    ensures LimitationFromJson(Obj(LimitationToJson(x).members - {"site"})) == Some(x)
  {
  }

  lemma DeviceDefaults(x: DeviceSnapshot)
    requires ValidDevice(x) && x.controller == x.site == "" && x.kind == x.model == x.state == None
    ensures DeviceFromJson(Obj(DeviceToJson(x).members - {"controller", "site", "kind", "model", "state"})) == Some(x)
  {
  }

  lemma NetworkDefaults(x: NetworkSnapshot)
    requires ValidNetwork(x) && x.controller == x.site == "" && x.purpose == x.subnet == None && x.vlan == None
    ensures var given := NetworkToJson(x).members - {"controller", "site", "purpose", "subnet", "vlan"};
      NetworkFromJson(Obj(given)) == Some(x)
  {
  }

  lemma WlanDefaults(x: WlanSnapshot)
    requires ValidWlan(x) && x.controller == x.site == "" && x.security == None && !x.hidden
    ensures WlanFromJson(Obj(WlanToJson(x).members - {"controller", "site", "security", "hidden"})) == Some(x)
  {
  }

  lemma FirewallDefaults(x: FirewallSnapshot)
    requires ValidFirewall(x) && x.controller == x.site == "" && x.action == None && x.enabled
    ensures FirewallFromJson(Obj(FirewallToJson(x).members - {"controller", "site", "action", "enabled"})) == Some(x)
  {
  }

  function AllFrom<T>(items: seq<Json>, from: Json -> Option<T>): (r: Option<seq<T>>)
    ensures r.Some? ==> |r.value| == |items| && forall i :: 0 <= i < |items| ==> from(items[i]) == Some(r.value[i])
    ensures r.None? ==> exists i :: 0 <= i < |items| && from(items[i]).None?
  {
    if items == [] then Some([])
    else
      var first, rest := from(items[0]), AllFrom(items[1..], from);
      if first.Some? && rest.Some? then Some([first.value] + rest.value) else None
  }

  // A missing collection is empty.
  function ListFrom<T>(m: Fields, key: string, limit: nat, from: Json -> Option<T>): Option<seq<T>>
  {
    if key !in m then Some([])
    else if !m[key].Arr? || |m[key].items| > limit then None
    else AllFrom(m[key].items, from)
  }

  function ContentFromJson(j: Json): Option<Content>
  {
    if !j.Obj? || !(j.members.Keys <= {"sources", "limitations", "devices", "networks", "wlans", "firewall"}) then None
    else
      var m := j.members;
      var sources := ListFrom(m, "sources", 256, SourceFromJson);
      var limitations := ListFrom(m, "limitations", 1000, LimitationFromJson);
      var devices := ListFrom(m, "devices", 10000, DeviceFromJson);
      var networks := ListFrom(m, "networks", 5000, NetworkFromJson);
      var wlans := ListFrom(m, "wlans", 5000, WlanFromJson);
      var firewall := ListFrom(m, "firewall", 10000, FirewallFromJson);
      if sources.None? || limitations.None? || devices.None? then None
      else if networks.None? || wlans.None? || firewall.None? then None
      else Normalise(Content(sources.value, limitations.value, devices.value,
                             networks.value, wlans.value, firewall.value))
  }

  predicate DigestField(m: Fields)
  {
    "content_sha256" in m ==> m["content_sha256"].Null? || (m["content_sha256"].Str? && IsDigest(m["content_sha256"].s))
  }

  // `readTime` reads a timestamp with a zone as UTC. It may take more forms than the printed one.
  type TimeReader = string -> Option<IsoTime.DateTime>

  ghost predicate ReadsPrinted(readTime: TimeReader)
  {
    && (forall w :: UtcText.ReadUtc(w).Some? ==> readTime(w) == UtcText.ReadUtc(w))
    && (forall w :: readTime(w).Some? ==> IsoTime.Valid(readTime(w).value))
  }

  lemma PrintedFormSuffices()
    ensures ReadsPrinted(w => UtcText.ReadUtc(w))
  {
  }

  function DocumentFromJson(j: Json, readTime: TimeReader): Option<Document>
  {
    if !j.Obj? then None
    else
      var m := j.members;
      if && m.Keys <= {"schema_version", "generated_at", "redaction_status", "content_sha256", "content"}
         && ("schema_version" in m ==> m["schema_version"] == Int(1))
         && ("redaction_status" in m ==> m["redaction_status"] == Str("secrets_excluded"))
         && "generated_at" in m && m["generated_at"].Str? && readTime(m["generated_at"].s).Some?
         && DigestField(m)
         && "content" in m && ContentFromJson(m["content"]).Some?
      then Some(Document(readTime(m["generated_at"].s).value, OptionOf(m, "content_sha256"),
                         ContentFromJson(m["content"]).value))
      else None
  }

  // Every item of the list was read and is among those kept, and there are no others; without a list there is none.
  ghost predicate ItemsKept<T>(m: Fields, key: string, from: Json -> Option<T>, xs: seq<T>)
  {
    if key !in m then xs == []
    else
      && m[key].Arr? && |xs| == |m[key].items|
      && forall i :: 0 <= i < |xs| ==> from(m[key].items[i]).Some? && from(m[key].items[i]).value in xs
  }

  lemma ListKeepsItems<T>(m: Fields, key: string, limit: nat, from: Json -> Option<T>, xs: seq<T>)
    requires ListFrom(m, key, limit, from).Some? && multiset(xs) == multiset(ListFrom(m, key, limit, from).value)
    ensures ItemsKept(m, key, from, xs)
  {
    var ys := ListFrom(m, key, limit, from).value;
    assert |multiset(xs)| == |xs| && |multiset(ys)| == |ys|;
    if key in m {
      forall i | 0 <= i < |ys| ensures from(m[key].items[i]).Some? && from(m[key].items[i]).value in xs {
        assert ys[i] in multiset(ys);
      }
    }
  }

  // Validation keeps every item of every collection.
  lemma ContentKeepsItems(j: Json)
    requires ContentFromJson(j).Some?
    ensures var m, c := j.members, ContentFromJson(j).value;
      && (forall key :: key in m ==> key in ContentToJson(c).members)
      && ItemsKept(m, "sources", SourceFromJson, c.sources)
      && ItemsKept(m, "limitations", LimitationFromJson, c.limitations)
      && ItemsKept(m, "devices", DeviceFromJson, c.devices)
      && ItemsKept(m, "networks", NetworkFromJson, c.networks)
      && ItemsKept(m, "wlans", WlanFromJson, c.wlans)
      && ItemsKept(m, "firewall", FirewallFromJson, c.firewall)
  {
    var m, c := j.members, ContentFromJson(j).value;
    NormaliseIsIdempotent(ContentRead(m));
    ListKeepsItems(m, "sources", 256, SourceFromJson, c.sources);
    ListKeepsItems(m, "limitations", 1000, LimitationFromJson, c.limitations);
    ListKeepsItems(m, "devices", 10000, DeviceFromJson, c.devices);
    ListKeepsItems(m, "networks", 5000, NetworkFromJson, c.networks);
    ListKeepsItems(m, "wlans", 5000, WlanFromJson, c.wlans);
    ListKeepsItems(m, "firewall", 10000, FirewallFromJson, c.firewall);
  }

  // The collections before they are sorted.
  function ContentRead(m: Fields): Content
    requires ContentFromJson(Obj(m)).Some?
  {
    Content(ListFrom(m, "sources", 256, SourceFromJson).value,
            ListFrom(m, "limitations", 1000, LimitationFromJson).value,
            ListFrom(m, "devices", 10000, DeviceFromJson).value,
            ListFrom(m, "networks", 5000, NetworkFromJson).value,
            ListFrom(m, "wlans", 5000, WlanFromJson).value,
            ListFrom(m, "firewall", 10000, FirewallFromJson).value)
  }

  // And of a document every field.
  lemma DocumentKeepsFields(j: Json, readTime: TimeReader)
    requires DocumentFromJson(j, readTime).Some?
    ensures var m, d := j.members, DocumentFromJson(j, readTime).value;
      && "generated_at" in m && m["generated_at"].Str? && Some(d.generatedAt) == readTime(m["generated_at"].s)
      && "content" in m && Some(d.content) == ContentFromJson(m["content"])
      && PartOf(j, DocumentFields(m["generated_at"].s, d.contentSha256, m["content"]))
  {
  }

  // ---- Validating what was dumped gives the same record back, exactly for records within the limits.

  lemma SourceReadsBack(x: SourceScope)
    ensures SourceFromJson(SourceToJson(x)) == if ValidSource(x) then Some(x) else None
  {
    var m := SourceToJson(x).members;
    assert m["source"] == Str(x.source) && m["device_name"] == Str(x.deviceName) && m["site"] == Str(x.site);
    assert m["mode"] == Str(x.mode) && m["status"] == Str(x.status);
  }

  lemma LimitationReadsBack(x: SnapshotLimitation)
    ensures LimitationFromJson(LimitationToJson(x)) == if ValidLimitation(x) then Some(x) else None
  {
    var m := LimitationToJson(x).members;
    assert m["source"] == Str(x.source) && m["device_name"] == Str(x.deviceName) && m["site"] == Str(x.site);
    assert m["code"] == Str(x.code) && m["summary"] == Str(x.summary);
  }

  lemma DeviceReadsBack(x: DeviceSnapshot)
    ensures DeviceFromJson(DeviceToJson(x)) == if ValidDevice(x) then Some(x) else None
  {
    var m := DeviceToJson(x).members;
    assert m["id"] == Str(x.id) && m["name"] == Str(x.name) && m["service"] == Str(x.service);
    assert m["controller"] == Str(x.controller) && m["site"] == Str(x.site);
    assert m["kind"] == Nullable(x.kind) && m["model"] == Nullable(x.model) && m["state"] == Nullable(x.state);
  }

  lemma NetworkReadsBack(x: NetworkSnapshot)
    ensures NetworkFromJson(NetworkToJson(x)) == if ValidNetwork(x) then Some(x) else None
  {
    var m := NetworkToJson(x).members;
    assert m["id"] == Str(x.id) && m["name"] == Str(x.name);
    assert m["controller"] == Str(x.controller) && m["site"] == Str(x.site);
    assert m["purpose"] == Nullable(x.purpose) && m["subnet"] == Nullable(x.subnet);
    assert m["vlan"] == if x.vlan.None? then Null else Int(x.vlan.value);
  }

  lemma WlanReadsBack(x: WlanSnapshot)
    ensures WlanFromJson(WlanToJson(x)) == if ValidWlan(x) then Some(x) else None
  {
    var m := WlanToJson(x).members;
    assert m["id"] == Str(x.id) && m["name"] == Str(x.name);
    assert m["controller"] == Str(x.controller) && m["site"] == Str(x.site);
    assert m["enabled"] == Bool(x.enabled) && m["security"] == Nullable(x.security) && m["hidden"] == Bool(x.hidden);
  }

  lemma FirewallReadsBack(x: FirewallSnapshot)
    ensures FirewallFromJson(FirewallToJson(x)) == if ValidFirewall(x) then Some(x) else None
  {
    var m := FirewallToJson(x).members;
    assert m["id"] == Str(x.id) && m["name"] == Str(x.name);
    assert m["controller"] == Str(x.controller) && m["site"] == Str(x.site);
    assert m["kind"] == Str(x.kind) && m["action"] == Nullable(x.action) && m["enabled"] == Bool(x.enabled);
  }

  lemma {:induction false} ListReadsBack<T>(xs: seq<T>, to: T -> Json, from: Json -> Option<T>)
    requires forall i :: 0 <= i < |xs| ==> from(to(xs[i])) == Some(xs[i])
    ensures AllFrom(Map(xs, to), from) == Some(xs)
  {
    if xs != [] {
      ListReadsBack(xs[1..], to, from);
      assert Map(xs, to)[1..] == Map(xs[1..], to);
      assert xs == [xs[0]] + xs[1..];
    }
  }

  lemma CollectionReadsBack<T(!new)>(m: Fields, key: string, xs: seq<T>, limit: nat, to: T -> Json,
                                     from: Json -> Option<T>, valid: T -> bool)
    requires key in m && m[key] == Arr(Map(xs, to)) && AllValid(xs, limit, valid)
    requires forall x :: valid(x) ==> from(to(x)) == Some(x)
    ensures ListFrom(m, key, limit, from) == Some(xs)
  {
    ListReadsBack(xs, to, from);
  }

  lemma InventoryReadsBack(m: Fields, c: Content)
    requires WithinLimits(c) && m == ContentToJson(c).members
    ensures ListFrom(m, "devices", 10000, DeviceFromJson) == Some(c.devices)
    ensures ListFrom(m, "networks", 5000, NetworkFromJson) == Some(c.networks)
    ensures ListFrom(m, "wlans", 5000, WlanFromJson) == Some(c.wlans)
  {
    assert ListFrom(m, "devices", 10000, DeviceFromJson) == Some(c.devices) by {
      forall x { DeviceReadsBack(x); }
      CollectionReadsBack(m, "devices", c.devices, 10000, DeviceToJson, DeviceFromJson, ValidDevice);
    }
    assert ListFrom(m, "networks", 5000, NetworkFromJson) == Some(c.networks) by {
      forall x { NetworkReadsBack(x); }
      CollectionReadsBack(m, "networks", c.networks, 5000, NetworkToJson, NetworkFromJson, ValidNetwork);
    }
    assert ListFrom(m, "wlans", 5000, WlanFromJson) == Some(c.wlans) by {
      forall x { WlanReadsBack(x); }
      CollectionReadsBack(m, "wlans", c.wlans, 5000, WlanToJson, WlanFromJson, ValidWlan);
    }
  }

  lemma ScopesReadBack(m: Fields, c: Content)
    requires WithinLimits(c) && m == ContentToJson(c).members
    ensures ListFrom(m, "sources", 256, SourceFromJson) == Some(c.sources)
    ensures ListFrom(m, "limitations", 1000, LimitationFromJson) == Some(c.limitations)
    ensures ListFrom(m, "firewall", 10000, FirewallFromJson) == Some(c.firewall)
  {
    assert ListFrom(m, "sources", 256, SourceFromJson) == Some(c.sources) by {
      forall x { SourceReadsBack(x); }
      CollectionReadsBack(m, "sources", c.sources, 256, SourceToJson, SourceFromJson, ValidSource);
    }
    assert ListFrom(m, "limitations", 1000, LimitationFromJson) == Some(c.limitations) by {
      forall x { LimitationReadsBack(x); }
      CollectionReadsBack(m, "limitations", c.limitations, 1000, LimitationToJson, LimitationFromJson, ValidLimitation);
    }
    assert ListFrom(m, "firewall", 10000, FirewallFromJson) == Some(c.firewall) by {
      forall x { FirewallReadsBack(x); }
      CollectionReadsBack(m, "firewall", c.firewall, 10000, FirewallToJson, FirewallFromJson, ValidFirewall);
    }
  }

  // Missing collections are empty.
  lemma ContentDefaults()
    ensures ContentFromJson(Obj(map[])) == Some(Content([], [], [], [], [], []))
  {
    TupleOrder();
  }

  lemma ContentReadsBack(c: Content)
    requires ValidContent(c)
    ensures ContentFromJson(ContentToJson(c)) == Some(c)
  {
    ScopesReadBack(ContentToJson(c).members, c);
    InventoryReadsBack(ContentToJson(c).members, c);
  }

  lemma DocumentFieldsReadBack(time: string, t: IsoTime.DateTime, digest: Option<string>, j: Json, c: Content,
                               readTime: TimeReader)
    requires ContentFromJson(j) == Some(c) && readTime(time) == Some(t)
    requires digest.Some? ==> IsDigest(digest.value)
    ensures DocumentFromJson(DocumentFields(time, digest, j), readTime) == Some(Document(t, digest, c))
  {
    var m := DocumentFields(time, digest, j).members;
    assert m["schema_version"] == Int(1) && m["redaction_status"] == Str("secrets_excluded");
    assert m["generated_at"] == Str(time) && m["content_sha256"] == Nullable(digest) && m["content"] == j;
  }

  lemma DocumentReadsBack(d: Document, readTime: TimeReader)
    requires ValidDocument(d) && ReadsPrinted(readTime)
    ensures DocumentFromJson(DocumentToJson(d), readTime) == Some(d)
  {
    ContentReadsBack(d.content);
    UtcText.UtcReadsBack(d.generatedAt);
    DocumentFieldsReadBack(UtcText.PrintUtc(d.generatedAt), d.generatedAt, d.contentSha256,
                           ContentToJson(d.content), d.content, readTime);
  }

  lemma FieldsMayBeMissing(time: string, t: IsoTime.DateTime, digest: Option<string>, j: Json, c: Content,
                           readTime: TimeReader)
    requires ContentFromJson(j) == Some(c) && readTime(time) == Some(t)
    requires digest.Some? ==> IsDigest(digest.value)
    ensures var m := DocumentFields(time, digest, j).members - {"schema_version", "redaction_status"};
      && DocumentFromJson(Obj(m), readTime) == Some(Document(t, digest, c))
      && (digest.None? ==> DocumentFromJson(Obj(m - {"content_sha256"}), readTime) == Some(Document(t, digest, c)))
  {
    var m := DocumentFields(time, digest, j).members;
    assert m["generated_at"] == Str(time) && m["content_sha256"] == Nullable(digest) && m["content"] == j;
  }

  // A document may leave out its constant fields, and a checksum it does not have.
  lemma DocumentDefaults(d: Document, readTime: TimeReader)
    requires ValidDocument(d) && ReadsPrinted(readTime)
    ensures var m := DocumentToJson(d).members - {"schema_version", "redaction_status"};
      && DocumentFromJson(Obj(m), readTime) == Some(d)
      && (d.contentSha256.None? ==> DocumentFromJson(Obj(m - {"content_sha256"}), readTime) == Some(d))
  {
    ContentReadsBack(d.content);
    UtcText.UtcReadsBack(d.generatedAt);
    FieldsMayBeMissing(UtcText.PrintUtc(d.generatedAt), d.generatedAt, d.contentSha256,
                       ContentToJson(d.content), d.content, readTime);
  }

  // ---- What validation lets through is within the limits.

  lemma CollectionIsValid<T>(m: Fields, key: string, limit: nat, from: Json -> Option<T>, valid: T -> bool)
    requires ListFrom(m, key, limit, from).Some?
    requires forall j :: from(j).Some? ==> valid(from(j).value)
    ensures AllValid(ListFrom(m, key, limit, from).value, limit, valid)
  {
  }

  lemma {:induction false} SortedStaysValid<T>(xs: seq<T>, limit: nat, valid: T -> bool, key: T -> seq<string>)
    requires AllValid(xs, limit, valid)
    ensures AllValid(SortBy(xs, key, TupleLess), limit, valid)
  {
    TupleOrder();
    SortBySorts(xs, key, TupleLess);
    var ys := SortBy(xs, key, TupleLess);
    assert |ys| == |multiset(ys)| == |multiset(xs)| == |xs|;
    forall i | 0 <= i < |ys| ensures valid(ys[i]) {
      assert ys[i] in multiset(xs);
      var k :| 0 <= k < |xs| && xs[k] == ys[i];
    }
  }

  lemma NormalisedIsValid(c: Content)
    requires WithinLimits(c) && Normalise(c).Some?
    ensures ValidContent(Normalise(c).value)
  {
    NormaliseIsIdempotent(c);
    SortedStaysValid(c.sources, 256, ValidSource, SourceId);
    SortedStaysValid(c.limitations, 1000, ValidLimitation, LimitationId);
    SortedStaysValid(c.devices, 10000, ValidDevice, DeviceId);
    SortedStaysValid(c.networks, 5000, ValidNetwork, NetworkId);
    SortedStaysValid(c.wlans, 5000, ValidWlan, WlanId);
    SortedStaysValid(c.firewall, 10000, ValidFirewall, FirewallId);
  }

  lemma ContentIsValid(j: Json)
    requires ContentFromJson(j).Some?
    ensures ValidContent(ContentFromJson(j).value)
  {
    var m := j.members;
    CollectionIsValid(m, "sources", 256, SourceFromJson, ValidSource);
    CollectionIsValid(m, "limitations", 1000, LimitationFromJson, ValidLimitation);
    CollectionIsValid(m, "devices", 10000, DeviceFromJson, ValidDevice);
    CollectionIsValid(m, "networks", 5000, NetworkFromJson, ValidNetwork);
    CollectionIsValid(m, "wlans", 5000, WlanFromJson, ValidWlan);
    CollectionIsValid(m, "firewall", 10000, FirewallFromJson, ValidFirewall);
    NormalisedIsValid(Content(ListFrom(m, "sources", 256, SourceFromJson).value,
                              ListFrom(m, "limitations", 1000, LimitationFromJson).value,
                              ListFrom(m, "devices", 10000, DeviceFromJson).value,
                              ListFrom(m, "networks", 5000, NetworkFromJson).value,
                              ListFrom(m, "wlans", 5000, WlanFromJson).value,
                              ListFrom(m, "firewall", 10000, FirewallFromJson).value));
  }

  // ---- The checksum

  // `hash` is the hexadecimal SHA-256 of bytes; only its form is used.
  type Hash = Utf8.Bytes -> string

  ghost predicate GivesDigests(hash: Hash)
  {
    forall b :: IsDigest(hash(b))
  }

  function Canonical(j: Json): Utf8.Bytes
  {
    Utf8.Encode(Print(j))
  }

  function Checksum(c: Content, hash: Hash): string
  {
    hash(Canonical(StableFields(ContentToJson(c))))
  }

  function Seal(d: Document, hash: Hash): Document
  {
    d.(contentSha256 := Some(Checksum(d.content, hash)))
  }

  function Written(d: Document): Utf8.Bytes
    requires IsoTime.Valid(d.generatedAt)
  {
    Canonical(DocumentToJson(d)) + [10]
  }

  function Encode(d: Document, hash: Hash): Utf8.Bytes
    requires IsoTime.Valid(d.generatedAt)
  {
    Written(Seal(d, hash))
  }

  // Two contents with the same items get the same checksum, whatever order they were collected in and
  // whenever the documents were generated.
  lemma ChecksumForgetsOrderAndTime(a: Content, b: Content, timeA: IsoTime.DateTime, timeB: IsoTime.DateTime,
                                    hash: Hash)
    requires SameItems(a, b) && Normalise(a).Some?
    ensures Normalise(b).Some?
    ensures Seal(Document(timeA, None, Normalise(a).value), hash).contentSha256
      == Seal(Document(timeB, None, Normalise(b).value), hash).contentSha256
  {
    NormaliseForgetsOrder(a, b);
  }

  // What the checksum is taken over is the dumped document without its time and without the checksum.
  lemma ChecksumLeavesOutTimeAndItself(d: Document)
    requires IsoTime.Valid(d.generatedAt)
    ensures StableFields(ContentToJson(d.content))
      == Obj(DocumentToJson(d).members - {"generated_at", "content_sha256"})
  {
    assert DocumentToJson(d).members - {"generated_at", "content_sha256"}
        == StableFields(ContentToJson(d.content)).members;
  }

  lemma StableFieldsKeepContent(a: Json, b: Json)
    requires StableFields(a) == StableFields(b)
    ensures a == b
  {
    assert StableFields(a).members["content"] == a && StableFields(b).members["content"] == b;
  }

  // The bytes the checksum is taken over tell any two contents apart.
  lemma ChecksumCoversContent(a: Content, b: Content)
    requires ValidContent(a) && ValidContent(b)
    requires Canonical(StableFields(ContentToJson(a))) == Canonical(StableFields(ContentToJson(b)))
    ensures a == b
  {
    CanonicalIsInjective(StableFields(ContentToJson(a)), StableFields(ContentToJson(b)));
    StableFieldsKeepContent(ContentToJson(a), ContentToJson(b));
    ContentReadsBack(a);
    ContentReadsBack(b);
  }

  lemma CanonicalIsInjective(j: Json, k: Json)
    requires Canonical(j) == Canonical(k)
    ensures j == k
  {
    Utf8.TextReadsBack(Print(j));
    Utf8.TextReadsBack(Print(k));
    PrintIsInjective(j, k);
  }

  // ---- Reading

  datatype Verdict =
    | Verified(document: Document) | TooLarge | DuplicateKey(key: string) | Invalid | ChecksumMissing | ChecksumMismatch

  function Verify(data: Utf8.Bytes, hash: Hash, readTime: TimeReader): Verdict
  {
    if |data| > MAX_SNAPSHOT_BYTES then TooLarge
    else if Utf8.Decode(data).None? then Invalid
    else
      match Loads(Utf8.Decode(data).value)
      case Malformed => Invalid
      case Duplicate(k) => DuplicateKey(k)
      case Ok(j, _) => VerifyDocument(DocumentFromJson(j, readTime), hash)
  }

  function VerifyDocument(document: Option<Document>, hash: Hash): Verdict
  {
    match document
    case None => Invalid
    case Some(d) =>
      if d.contentSha256.None? then ChecksumMissing
      else if d.contentSha256.value != Checksum(d.content, hash) then ChecksumMismatch
      else Verified(d)
  }

  lemma WrittenLoads(j: Json)
    ensures Utf8.Decode(Canonical(j) + [10]) == Some(Print(j) + "\n")
    ensures Loads(Print(j) + "\n") == Ok(j, "")
  {
    LoadsReadsBack(j);
    Utf8.EncodeConcat(Print(j), "\n");
    assert ("\n")[1..] == "" && Utf8.Encode("\n") == [10];
    Utf8.TextReadsBack(Print(j) + "\n");
  }

  // A written document is accepted exactly when it fits and carries the checksum of its content, and
  // then it is the document that was written.
  lemma WrittenDocument(d: Document, hash: Hash, readTime: TimeReader)
    requires ValidDocument(d) && ReadsPrinted(readTime)
    ensures Verify(Written(d), hash, readTime)
      == if |Written(d)| > MAX_SNAPSHOT_BYTES then TooLarge
         else if d.contentSha256.None? then ChecksumMissing
         else if d != Seal(d, hash) then ChecksumMismatch
         else Verified(d)
  {
    WrittenLoads(DocumentToJson(d));
    DocumentReadsBack(d, readTime);
  }

  // verify_snapshot_bytes(encode_snapshot(d)) is the sealed document.
  lemma EncodedVerifies(d: Document, hash: Hash, readTime: TimeReader)
    requires ValidDocument(d) && GivesDigests(hash) && ReadsPrinted(readTime)
    ensures Verify(Encode(d, hash), hash, readTime)
      == if |Encode(d, hash)| > MAX_SNAPSHOT_BYTES then TooLarge else Verified(Seal(d, hash))
  {
    WrittenDocument(Seal(d, hash), hash, readTime);
  }

  // Whatever bytes were accepted, their document is valid and sealed, so encoding it again loses nothing.
  lemma AcceptedIsSealed(data: Utf8.Bytes, hash: Hash, readTime: TimeReader)
    requires Verify(data, hash, readTime).Verified? && ReadsPrinted(readTime)
    ensures var d := Verify(data, hash, readTime).document; ValidDocument(d) && Seal(d, hash) == d
  {
    ContentIsValid(Loads(Utf8.Decode(data).value).value.members["content"]);
  }

  // ---- Repeated keys

  // A JSON text in which some object, at whatever depth, repeats a key is refused for one such key.
  lemma RepeatedKeyIsRefused(t: JsonTexts.Tree, key: string, hash: Hash, readTime: TimeReader)
    requires JsonTexts.RepeatsKey(t, key)
    ensures var data := Utf8.Encode(JsonTexts.Text(t) + "\n"); var verdict := Verify(data, hash, readTime);
      if |data| > MAX_SNAPSHOT_BYTES then verdict.TooLarge?
      else verdict.DuplicateKey? && JsonTexts.RepeatsKey(t, verdict.key)
  {
    Utf8.TextReadsBack(JsonTexts.Text(t) + "\n");
    JsonTexts.TextLoads(t);
    JsonTexts.RefusedIffRepeats(t);
    assert JsonTexts.RefusalIsRepeat(t);
  }

  // The object hook of the parser.
  method RejectDuplicateKeys(pairs: seq<Pair>) returns (r: Parsed<map<string, Json>>)
    ensures r == ToDict(pairs)
  {
    var result: map<string, Json> := map[];
    var i := 0;
    while i < |pairs|
      invariant 0 <= i <= |pairs| && ToDict(pairs[..i]) == Ok(result, "")
    {
      assert pairs[..i + 1][..i] == pairs[..i];
      if pairs[i].key in result {
        DuplicateStays(pairs, i + 1);
        return Duplicate(pairs[i].key);
      }
      result := result[pairs[i].key := pairs[i].value];
      i := i + 1;
    }
    assert pairs[..i] == pairs;
    return Ok(result, "");
  }

  lemma {:induction false} DuplicateStays(pairs: seq<Pair>, n: nat)
    requires n <= |pairs| && ToDict(pairs[..n]).Duplicate?
    ensures ToDict(pairs) == ToDict(pairs[..n])
  {
    if n < |pairs| {
      var shorter := pairs[..|pairs| - 1];
      assert shorter[..n] == pairs[..n];
      DuplicateStays(shorter, n);
    } else {
      assert pairs[..n] == pairs;
    }
  }
}
