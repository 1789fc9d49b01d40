// ORDER BY due time, id LIMIT n: what both the scheduler and the webhook queue select.
module DueOrder {

  // ORDER BY compares (due time, id).
  predicate Precedes(timeA: int, a: nat, timeB: int, b: nat)
  {
    timeA < timeB || (timeA == timeB && a < b)
  }

  predicate Distinct(ids: seq<nat>)
  {
    forall i, j :: 0 <= i < j < |ids| ==> ids[i] != ids[j]
  }

  // `ids` are the first `limit` of the due rows; `due` maps each to its due time.
  ghost predicate First(due: map<nat, int>, limit: nat, ids: seq<nat>)
  {
    && |ids| <= limit && Distinct(ids)
    && (forall i :: 0 <= i < |ids| ==> ids[i] in due)
    && (forall i, j :: 0 <= i < j < |ids| ==> Precedes(due[ids[i]], ids[i], due[ids[j]], ids[j]))
    && (forall e :: e in due && e !in ids ==>
          |ids| == limit && forall i :: 0 <= i < |ids| ==> Precedes(due[ids[i]], ids[i], due[e], e))
  }

  method SelectFirst(due: map<nat, int>, limit: nat) returns (ids: seq<nat>)
    ensures First(due, limit, ids)
  {
    ids := [];
    var rest := due.Keys;
    while |ids| < limit && rest != {}
      invariant |ids| <= limit && Distinct(ids)
      invariant forall i :: 0 <= i < |ids| ==> ids[i] in due
      invariant forall i, j :: 0 <= i < j < |ids| ==> Precedes(due[ids[i]], ids[i], due[ids[j]], ids[j])
      invariant forall e :: e in rest <==> e in due && e !in ids
      invariant forall e, i :: e in rest && 0 <= i < |ids| ==> Precedes(due[ids[i]], ids[i], due[e], e)
      decreases |rest|
    {
      var first :| first in rest;
      var others := rest - {first};
      while others != {}
        invariant first in rest && others <= rest
        invariant forall e :: e in rest && e !in others && e != first ==> Precedes(due[first], first, due[e], e)
        decreases |others|
      {
        var e :| e in others;
        if e != first && Precedes(due[e], e, due[first], first) { first := e; }
        others := others - {e};
      }
      ids, rest := ids + [first], rest - {first};
    }
  }

  // The answer is determined by the rows.
  lemma {:induction false} FirstIsUnique(due: map<nat, int>, limit: nat, a: seq<nat>, b: seq<nat>)
    requires First(due, limit, a) && First(due, limit, b)
    ensures a == b
  {
    var k := 0;
    while k < |a| && k < |b| && a[k] == b[k]
      invariant 0 <= k <= |a| && k <= |b| && a[..k] == b[..k]
    {
      k := k + 1;
    }
    if k < |a| {
      NotElsewhere(due, limit, a, b, k);
      if k < |b| { NotElsewhere(due, limit, b, a, k); }
    } else if k < |b| {
      NotElsewhere(due, limit, b, a, k);
    }
  }

  // Past a common prefix, what a has next either comes later in b, or b is full.
  lemma NotElsewhere(due: map<nat, int>, limit: nat, a: seq<nat>, b: seq<nat>, k: nat)
    requires First(due, limit, a) && First(due, limit, b) && k < |a| && k <= |b| && a[..k] == b[..k]
    ensures k < |b| && (a[k] == b[k] || Precedes(due[b[k]], b[k], due[a[k]], a[k]))
  {
    if a[k] in b {
      var j :| 0 <= j < |b| && b[j] == a[k];
      assert forall i :: 0 <= i < k ==> a[i] == a[..k][i] == b[..k][i] == b[i];
    }
  }

  function Members(ids: seq<nat>): set<nat>
  {
    set id | id in ids
  }

  lemma {:induction false} DistinctSize(ids: seq<nat>)
    requires Distinct(ids)
    ensures |Members(ids)| == |ids|
  {
    if ids != [] {
      var last := |ids| - 1;
      DistinctSize(ids[..last]);
      assert ids == ids[..last] + [ids[last]] && ids[last] !in ids[..last];
      assert Members(ids) == Members(ids[..last]) + {ids[last]};
    }
  }
}
