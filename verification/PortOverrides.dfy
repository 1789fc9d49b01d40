// Merging requested switch-port changes into a device's complete port_overrides collection.
module PortOverrides {
  import opened Common

  datatype Value = Null | Number(i: int) | Text(s: string) | Flag(b: bool)

  type Dict = map<string, Value>

  const INDEX := "port_idx"
  const WRITABLE := {"port_idx", "name", "native_networkconf_id", "poe_mode", "forward", "enabled",
                     "setting_preference"}

  // change.get("port_idx"): a missing index reads as None.
  function Index(d: Dict): Value { if INDEX in d then d[INDEX] else Null }

  // The same port index, or neither has one.
  predicate SameIndex(a: Dict, b: Dict)
  {
    if HasOwnIndex(a) then "port_idx" in b && b["port_idx"] == a["port_idx"] else !HasOwnIndex(b)
  }

  predicate HasOwnIndex(d: Dict)
  {
    "port_idx" in d && d["port_idx"] != Null
  }

  // Something besides the port index is requested.
  predicate Asks(change: Dict)
  {
    exists f :: f in change && f != "port_idx"
  }

  function Writable(change: Dict): Dict { change - {INDEX} }

  lemma AsksIffWritable(change: Dict)
    ensures Asks(change) <==> Writable(change) != map[]
  {
    if Writable(change) != map[] {
      var f :| f in Writable(change);
      assert f in change && f != "port_idx";
    }
    if f :| f in change && f != "port_idx" { assert f in Writable(change); }
  }

  // portTable or overrides is None when the controller sent something that is not a list.
  datatype Device = Device(hasId: bool, portTable: Option<seq<Dict>>, overrides: Option<seq<Dict>>)

  datatype PortError =
    | FieldNotWritable | NoStableId | NoPortTable | OverridesNotAList | DuplicateOverride | DuplicateRequest
    | NoSuchPort | NothingToChange

  datatype Result = Payload(overrides: seq<Dict>) | Refused(why: PortError)

  // ---- the simple overlay by port number ----

  function Find(changes: seq<Dict>, index: Value): (r: Option<nat>)
    ensures r.Some? ==> r.value < |changes| && Index(changes[r.value]) == index
    ensures r.None? ==> forall i :: 0 <= i < |changes| ==> Index(changes[i]) != index
  {
    if changes == [] then None
    else
      var last := |changes| - 1;
      if Index(changes[last]) == index then Some(last) else Find(changes[..last], index)
  }

  predicate DistinctRequests(changes: seq<Dict>)
  {
    forall i, j :: 0 <= i < j < |changes| ==> !SameIndex(changes[i], changes[j])
  }

  predicate DistinctOverrides(ds: seq<Dict>)
  {
    forall i, j :: 0 <= i < j < |ds| && HasOwnIndex(ds[i]) ==> !SameIndex(ds[i], ds[j])
  }

  function Overlaid(d: Dict, changes: seq<Dict>): Dict
  {
    var j := Find(changes, Index(d));
    if Index(d) != Null && j.Some? then d + Writable(changes[j.value]) else d
  }

  predicate HasIndex(ds: seq<Dict>, index: Value)
  {
    index != Null && exists i :: 0 <= i < |ds| && Index(ds[i]) == index
  }

  function NewEntry(change: Dict): Dict { map[INDEX := Index(change)] + Writable(change) }

  function Added(existing: seq<Dict>, changes: seq<Dict>): seq<Dict>
  {
    if changes == [] then []
    else
      var last := changes[|changes| - 1];
      Added(existing, changes[..|changes| - 1])
      + if Writable(last) != map[] && !HasIndex(existing, Index(last)) then [NewEntry(last)] else []
  }

  function Merged(existing: seq<Dict>, changes: seq<Dict>): seq<Dict>
  {
    seq(|existing|, i requires 0 <= i < |existing| => Overlaid(existing[i], changes)) + Added(existing, changes)
  }

  predicate InTable(table: seq<Dict>, change: Dict)
  {
    exists i :: 0 <= i < |table| && SameIndex(table[i], change)
  }

  predicate AnyWritable(changes: seq<Dict>)
  {
    exists i :: 0 <= i < |changes| && Asks(changes[i])
  }

  predicate Acceptable(changes: seq<Dict>, d: Device)
  {
    && (forall i :: 0 <= i < |changes| ==> changes[i].Keys <= WRITABLE)
    && d.hasId && d.portTable.Some? && d.portTable.value != [] && d.overrides.Some?
    && DistinctOverrides(d.overrides.value) && DistinctRequests(changes)
    && (forall i :: 0 <= i < |changes| ==> InTable(d.portTable.value, changes[i]))
    && AnyWritable(changes)
  }

  // ---- the list and position index ----

  method DistinctNonNull(ds: seq<Dict>) returns (ok: bool)
    ensures ok <==> DistinctOverrides(ds)
  {
    var seen: set<Value> := {};
    var i := 0;
    while i < |ds|
      invariant 0 <= i <= |ds|
      invariant forall v :: v in seen <==> v != Null && exists j :: 0 <= j < i && Index(ds[j]) == v
      invariant DistinctOverrides(ds[..i])
    {
      if Index(ds[i]) != Null {
        if Index(ds[i]) in seen { return false; }
        seen := seen + {Index(ds[i])};
      }
      i := i + 1;
    }
    assert ds[..i] == ds;
    return true;
  }

  lemma {:induction false} AddedNeedsRequest(existing: seq<Dict>, changes: seq<Dict>, index: Value)
    requires Find(changes, index).None?
    ensures forall i :: 0 <= i < |Added(existing, changes)| ==> Index(Added(existing, changes)[i]) != index
  {
    if changes != [] { AddedNeedsRequest(existing, changes[..|changes| - 1], index); }
  }

  // One more change either overlays the one entry with its index or is appended.
  lemma MergeStep(existing: seq<Dict>, changes: seq<Dict>, i: nat)
    requires i < |changes| && DistinctRequests(changes) && DistinctOverrides(existing)
    ensures var before, after, c := Merged(existing, changes[..i]), Merged(existing, changes[..i + 1]), changes[i];
      && (!HasIndex(existing, Index(c)) ==> after == before + if Writable(c) == map[] then [] else [NewEntry(c)])
      && (HasIndex(existing, Index(c)) ==> forall p :: 0 <= p < |existing| && Index(existing[p]) == Index(c) ==>
            after == before[p := before[p] + Writable(c)])
  {
    var c, init, more := changes[i], changes[..i], changes[..i + 1];
    assert more[..i] == init && more[i] == c;
    assert Find(init, Index(c)).None?;
    forall p | 0 <= p < |existing|
      ensures Overlaid(existing[p], more) ==
        if Index(existing[p]) == Index(c) && Index(c) != Null then Overlaid(existing[p], init) + Writable(c)
        else Overlaid(existing[p], init)
    {}
  }

  // `positions` finds every existing entry by its index, and otherwise only indexes already requested.
  ghost predicate Positioned(existing: seq<Dict>, done: seq<Dict>, positions: map<Value, nat>)
  {
    && (forall v :: v in positions ==> HasIndex(existing, v) || Find(done, v).Some?)
    && (forall p :: 0 <= p < |existing| && Index(existing[p]) != Null ==>
          Index(existing[p]) in positions && positions[Index(existing[p])] == p)
  }

  method ApplyChange(existing: seq<Dict>, changes: seq<Dict>, i: nat, updated: seq<Dict>, positions: map<Value, nat>)
    returns (updated': seq<Dict>, positions': map<Value, nat>)
    requires i < |changes| && DistinctRequests(changes) && DistinctOverrides(existing)
    requires Writable(changes[i]) != map[]
    requires updated == Merged(existing, changes[..i]) && Positioned(existing, changes[..i], positions)
    ensures updated' == Merged(existing, changes[..i + 1]) && Positioned(existing, changes[..i + 1], positions')
  {
    var index := Index(changes[i]);
    MergeStep(existing, changes, i);
    assert changes[..i + 1][..i] == changes[..i];
    assert Find(changes[..i], index).None?;
    if index in positions {
      var p := positions[index];
      updated', positions' := updated[p := updated[p] + Writable(changes[i])], positions;
    } else {
      updated', positions' := updated + [NewEntry(changes[i])], positions[index := |updated|];
    }
  }

  lemma EmptyChange(existing: seq<Dict>, changes: seq<Dict>, i: nat, positions: map<Value, nat>)
    requires i < |changes| && DistinctRequests(changes) && DistinctOverrides(existing)
    requires Writable(changes[i]) == map[] && Positioned(existing, changes[..i], positions)
    ensures Merged(existing, changes[..i + 1]) == Merged(existing, changes[..i])
    ensures Positioned(existing, changes[..i + 1], positions)
  {
    MergeStep(existing, changes, i);
    assert changes[..i + 1][..i] == changes[..i];
    var before := Merged(existing, changes[..i]);
    if HasIndex(existing, Index(changes[i])) {
      var p :| 0 <= p < |existing| && Index(existing[p]) == Index(changes[i]);
      assert before[p] + Writable(changes[i]) == before[p];
    }
  }

  lemma OneMoreWritable(changes: seq<Dict>, i: nat)
    requires i < |changes|
    ensures AnyWritable(changes[..i + 1]) <==> AnyWritable(changes[..i]) || Writable(changes[i]) != map[]
  {
    AsksIffWritable(changes[i]);
    assert changes[..i + 1][i] == changes[i];
    forall j | 0 <= j < i ensures changes[..i + 1][j] == changes[..i][j] {}
  }

  method Positions(existing: seq<Dict>) returns (positions: map<Value, nat>)
    requires DistinctOverrides(existing)
    ensures Positioned(existing, [], positions) && Merged(existing, []) == existing
  {
    positions := map p | 0 <= p < |existing| && Index(existing[p]) != Null :: Index(existing[p]) := p;
  }

  // The loop over the requested changes; None when one of them names a port that does not exist.
  method MergeChanges(table: seq<Dict>, existing: seq<Dict>, changes: seq<Dict>)
    returns (merged: Option<seq<Dict>>, validChanges: nat)
    requires DistinctRequests(changes) && DistinctOverrides(existing)
    ensures merged.Some? <==> forall i :: 0 <= i < |changes| ==> InTable(table, changes[i])
    ensures merged.Some? ==> merged.value == Merged(existing, changes)
    ensures merged.Some? ==> (validChanges > 0 <==> AnyWritable(changes))
  {
    var updated := existing;
    var positions := Positions(existing);
    validChanges := 0;
    var i := 0;
    assert changes[..i] == [];
    while i < |changes|
      invariant 0 <= i <= |changes|
      invariant updated == Merged(existing, changes[..i]) && Positioned(existing, changes[..i], positions)
      invariant forall j :: 0 <= j < i ==> InTable(table, changes[j])
      invariant validChanges > 0 <==> AnyWritable(changes[..i])
    {
      if !InTable(table, changes[i]) { return None, validChanges; }
      OneMoreWritable(changes, i);
      if Writable(changes[i]) == map[] {
        EmptyChange(existing, changes, i, positions);
      } else {
        validChanges := validChanges + 1;
        updated, positions := ApplyChange(existing, changes, i, updated, positions);
      }
      i := i + 1;
    }
    assert changes[..i] == changes;
    return Some(updated), validChanges;
  }

  // What each refusal says about the request.
  predicate Applies(why: PortError, changes: seq<Dict>, d: Device)
  {
    match why
    case FieldNotWritable => exists i :: 0 <= i < |changes| && !(changes[i].Keys <= WRITABLE)
    case NoStableId => !d.hasId
    case NoPortTable => d.portTable.None? || d.portTable.value == []
    case OverridesNotAList => d.overrides.None?
    case DuplicateOverride => d.overrides.Some? && !DistinctOverrides(d.overrides.value)
    case DuplicateRequest => !DistinctRequests(changes)
    case NoSuchPort =>
      d.portTable.Some? && exists i :: 0 <= i < |changes| && !InTable(d.portTable.value, changes[i])
    case NothingToChange => !AnyWritable(changes)
  }

  // A request is acceptable exactly when no reason to refuse it applies.
  lemma AcceptableIffNothingApplies(changes: seq<Dict>, d: Device)
    ensures Acceptable(changes, d) <==> forall why :: !Applies(why, changes, d)
  {
    if !Acceptable(changes, d) {
      assert || Applies(FieldNotWritable, changes, d) || Applies(NoStableId, changes, d)
             || Applies(NoPortTable, changes, d) || Applies(OverridesNotAList, changes, d)
             || Applies(DuplicateOverride, changes, d) || Applies(DuplicateRequest, changes, d)
             || Applies(NoSuchPort, changes, d) || Applies(NothingToChange, changes, d);
    }
  }

  method UpdateDevicePorts(changes: seq<Dict>, device: Device) returns (r: Result)
    ensures r.Payload? <==> Acceptable(changes, device)
    ensures r.Payload? ==> r.overrides == Merged(device.overrides.value, changes)
    ensures r.Refused? ==> Applies(r.why, changes, device)
  {
    if exists i :: 0 <= i < |changes| && !(changes[i].Keys <= WRITABLE) { return Refused(FieldNotWritable); }
    if !device.hasId { return Refused(NoStableId); }
    if device.portTable.None? || device.portTable.value == [] { return Refused(NoPortTable); }
    if device.overrides.None? { return Refused(OverridesNotAList); }
    var distinct := DistinctNonNull(device.overrides.value);
    if !distinct { return Refused(DuplicateOverride); }
    if !DistinctRequests(changes) { return Refused(DuplicateRequest); }
    var merged, validChanges := MergeChanges(device.portTable.value, device.overrides.value, changes);
    if merged.None? { return Refused(NoSuchPort); }
    if validChanges == 0 { return Refused(NothingToChange); }
    return Payload(merged.value);
  }

  // ---- what the overlay means ----

  // Existing entries keep their place, their index and every field that was not requested.
  lemma ExistingEntriesKeepUnrequested(existing: seq<Dict>, changes: seq<Dict>, p: nat, f: string)
    requires p < |existing|
    ensures p < |Merged(existing, changes)| && SameIndex(Merged(existing, changes)[p], existing[p])
    ensures !HasOwnIndex(existing[p]) ==> Merged(existing, changes)[p] == existing[p]
    ensures f == "port_idx" || Unrequested(existing[p], changes, f) ==>
      var d := Merged(existing, changes)[p]; (f in d <==> f in existing[p]) && (f in d ==> d[f] == existing[p][f])
  {}

  // No change with the index of this entry has the field.
  predicate Unrequested(d: Dict, changes: seq<Dict>, f: string)
  {
    forall i :: 0 <= i < |changes| && SameIndex(changes[i], d) ==> f !in changes[i]
  }

  ghost predicate FromRequest(d: Dict, changes: seq<Dict>)
  {
    exists j :: 0 <= j < |changes| && d == NewEntry(changes[j]) && Writable(changes[j]) != map[]
  }

  lemma {:induction false} AddedComesFrom(existing: seq<Dict>, changes: seq<Dict>, i: nat)
    requires i < |Added(existing, changes)|
    ensures FromRequest(Added(existing, changes)[i], changes)
    ensures !HasIndex(existing, Index(Added(existing, changes)[i]))
  {
    var last := |changes| - 1;
    var a0 := Added(existing, changes[..last]);
    if i < |a0| {
      AddedComesFrom(existing, changes[..last], i);
      var j :| 0 <= j < last && a0[i] == NewEntry(changes[..last][j]) && Writable(changes[..last][j]) != map[];
      assert Added(existing, changes)[i] == NewEntry(changes[j]);
    } else {
      assert Added(existing, changes)[i] == NewEntry(changes[last]);
    }
  }

  lemma {:induction false} AddedDistinct(existing: seq<Dict>, changes: seq<Dict>)
    requires DistinctRequests(changes)
    ensures DistinctRequests(Added(existing, changes))
  {
    if changes != [] {
      var last := |changes| - 1;
      AddedDistinct(existing, changes[..last]);
      AddedNeedsRequest(existing, changes[..last], Index(changes[last]));
    }
  }

  lemma {:induction false} AddedHas(existing: seq<Dict>, changes: seq<Dict>, j: nat)
    requires j < |changes| && Writable(changes[j]) != map[] && !HasIndex(existing, Index(changes[j]))
    ensures NewEntry(changes[j]) in Added(existing, changes)
  {
    if j < |changes| - 1 { AddedHas(existing, changes[..|changes| - 1], j); }
  }

  // Port indexes stay unique.
  lemma IndexesStayUnique(existing: seq<Dict>, changes: seq<Dict>)
    requires DistinctOverrides(existing) && DistinctRequests(changes)
    ensures DistinctOverrides(Merged(existing, changes))
  {
    AddedDistinct(existing, changes);
    var m := Merged(existing, changes);
    forall i, j | 0 <= i < j < |m| && Index(m[i]) != Null ensures Index(m[i]) != Index(m[j]) {
      if i < |existing| <= j {
        AddedComesFrom(existing, changes, j - |existing|);
        assert HasIndex(existing, Index(m[i]));
      }
    }
  }

  predicate IsJust(d: Dict, change: Dict)
  {
    && d.Keys == change.Keys + {"port_idx"} && SameIndex(d, change)
    && forall f :: f in change && f != "port_idx" ==> d[f] == change[f]
  }

  lemma NewEntryIsJust(change: Dict)
    ensures IsJust(NewEntry(change), change)
  {
  }

  // A new entry has the port index and the requested fields that may be written, and nothing else.
  lemma NewEntriesHaveOnlyRequested(existing: seq<Dict>, changes: seq<Dict>, p: nat)
    requires |existing| <= p < |Merged(existing, changes)|
    ensures exists j :: 0 <= j < |changes| && IsJust(Merged(existing, changes)[p], changes[j])
  {
    var a := Added(existing, changes);
    AddedComesFrom(existing, changes, p - |existing|);
    var j :| 0 <= j < |changes| && a[p - |existing|] == NewEntry(changes[j]) && Writable(changes[j]) != map[];
    NewEntryIsJust(changes[j]);
    assert Merged(existing, changes)[p] == NewEntry(changes[j]);
  }

  predicate InForce(d: Dict, change: Dict)
  {
    SameIndex(d, change) && forall f :: f in change && f != "port_idx" ==> f in d && d[f] == change[f]
  }

  lemma OverlaidInForce(d: Dict, change: Dict)
    requires Index(d) == Index(change)
    ensures InForce(d + Writable(change), change)
  {
  }

  // Every requested field is in force afterwards, in an entry with the requested index.
  lemma RequestedFieldsAreSet(existing: seq<Dict>, changes: seq<Dict>, j: nat)
    requires DistinctRequests(changes) && j < |changes| && Asks(changes[j])
    ensures exists p :: 0 <= p < |Merged(existing, changes)| && InForce(Merged(existing, changes)[p], changes[j])
  {
    var m := Merged(existing, changes);
    AsksIffWritable(changes[j]);
    if HasIndex(existing, Index(changes[j])) {
      var p :| 0 <= p < |existing| && Index(existing[p]) == Index(changes[j]);
      assert m[p] == existing[p] + Writable(changes[j]);
      OverlaidInForce(existing[p], changes[j]);
    } else {
      var a := Added(existing, changes);
      AddedHas(existing, changes, j);
      var q :| 0 <= q < |a| && a[q] == NewEntry(changes[j]);
      assert m[|existing| + q] == NewEntry(changes[j]);
      NewEntryIsJust(changes[j]);
    }
  }

  predicate NoNullRequest(changes: seq<Dict>)
  {
    forall i :: 0 <= i < |changes| && Asks(changes[i]) ==> HasOwnIndex(changes[i])
  }

  lemma {:induction false} NothingAdded(existing: seq<Dict>, changes: seq<Dict>)
    requires forall i :: 0 <= i < |changes| && Writable(changes[i]) != map[] ==> HasIndex(existing, Index(changes[i]))
    ensures Added(existing, changes) == []
  {
    if changes != [] {
      var init := changes[..|changes| - 1];
      assert forall i :: 0 <= i < |init| ==> init[i] == changes[i];
      NothingAdded(existing, init);
    }
  }

  lemma {:induction false} SomethingAdded(existing: seq<Dict>, changes: seq<Dict>, j: nat)
    requires j < |changes| && Writable(changes[j]) != map[] && Index(changes[j]) == Null
    ensures Added(existing, changes) != []
  {
    if j < |changes| - 1 { SomethingAdded(existing, changes[..|changes| - 1], j); }
  }

  lemma OverlayTwice(d: Dict, changes: seq<Dict>)
    ensures Overlaid(Overlaid(d, changes), changes) == Overlaid(d, changes)
  {}

  lemma NewEntryTwice(changes: seq<Dict>, j: nat)
    requires j < |changes| && DistinctRequests(changes)
    ensures Overlaid(NewEntry(changes[j]), changes) == NewEntry(changes[j])
  {
    assert Index(NewEntry(changes[j])) == Index(changes[j]);
  }

  lemma EntriesAreFixed(existing: seq<Dict>, changes: seq<Dict>)
    requires DistinctRequests(changes)
    ensures var m := Merged(existing, changes); forall p :: 0 <= p < |m| ==> Overlaid(m[p], changes) == m[p]
  {
    var m := Merged(existing, changes);
    forall p | 0 <= p < |m| ensures Overlaid(m[p], changes) == m[p] {
      if p < |existing| {
        OverlayTwice(existing[p], changes);
      } else {
        AddedComesFrom(existing, changes, p - |existing|);
        var j :| 0 <= j < |changes| && m[p] == NewEntry(changes[j]);
        NewEntryTwice(changes, j);
      }
    }
  }

  lemma RepeatAddsNothing(existing: seq<Dict>, changes: seq<Dict>)
    requires DistinctRequests(changes) && NoNullRequest(changes)
    ensures Added(Merged(existing, changes), changes) == []
  {
    var m := Merged(existing, changes);
    forall i | 0 <= i < |changes| && Writable(changes[i]) != map[] ensures HasIndex(m, Index(changes[i])) {
      AsksIffWritable(changes[i]);
      RequestedFieldsAreSet(existing, changes, i);
    }
    NothingAdded(m, changes);
  }

  // Repeating a request changes nothing, exactly when no change is made without a port index. A port
  // table with an entry that has no index lets such a change through, and each repetition appends it
  // again.
  lemma RepeatingChangesNothingIffIndexed(existing: seq<Dict>, changes: seq<Dict>)
    requires DistinctRequests(changes)
    ensures Merged(Merged(existing, changes), changes) == Merged(existing, changes) <==> NoNullRequest(changes)
  {
    var m := Merged(existing, changes);
    EntriesAreFixed(existing, changes);
    if NoNullRequest(changes) {
      RepeatAddsNothing(existing, changes);
    } else {
      var j :| 0 <= j < |changes| && Asks(changes[j]) && !HasOwnIndex(changes[j]);
      AsksIffWritable(changes[j]);
      SomethingAdded(m, changes, j);
      assert |Merged(m, changes)| > |m|;
    }
  }

  // An accepted request that is not idempotent.
  lemma UnindexedRequestRepeats()
    ensures var changes, device := [map["name" := Text("uplink")]], Device(true, Some([map[]]), Some([]));
      Acceptable(changes, device) && !NoNullRequest(changes)
  {
    var changes, device := [map["name" := Text("uplink")]], Device(true, Some([map[]]), Some([]));
    assert "name" in Writable(changes[0]);
    assert Index(device.portTable.value[0]) == Index(changes[0]);
  }
}
