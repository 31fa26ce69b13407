/** The view as it is stored, an array sorted by UUID, and the map it stands for. */
module ViewIndex {
  import opened Types
  import opened Protocol

  predicate Sorted(view: seq<NodeState>) {
    forall i, j | 0 <= i < j < |view| :: view[i].info.uuid < view[j].info.uuid
  }

  predicate Distinct(view: seq<NodeState>) {
    forall i, j | 0 <= i < j < |view| :: view[i].info.uuid != view[j].info.uuid
  }

  /** Linear lookup: the position of `u`, or -1. */
  function Lookup(view: seq<NodeState>, u: Uuid): (i: int)
    ensures -1 <= i < |view|
    ensures i >= 0 ==> view[i].info.uuid == u
    ensures i < 0 ==> forall j | 0 <= j < |view| :: view[j].info.uuid != u
  {
    if view == [] then -1
    else if view[|view| - 1].info.uuid == u then |view| - 1
    else Lookup(view[..|view| - 1], u)
  }

  /** The map that a sorted array stands for. */
  ghost function ViewMap(view: seq<NodeState>): (m: View)
    requires Sorted(view)
    ensures forall i | 0 <= i < |view| :: view[i].info.uuid in m && m[view[i].info.uuid] == view[i]
    ensures forall u | u in m :: Lookup(view, u) >= 0
  {
    map i | 0 <= i < |view| :: view[i].info.uuid := view[i]
  }

  /** bsearch(): on a sorted view it finds what linear lookup finds. */
  method BinarySearch(view: seq<NodeState>, u: Uuid) returns (i: int)
    requires Sorted(view)
    ensures i == Lookup(view, u)
    ensures if i < 0 then u !in ViewMap(view) else i < |view| && u in ViewMap(view) && ViewMap(view)[u] == view[i]
  {
    var lo, hi := 0, |view|;
    while lo < hi
      invariant 0 <= lo <= hi <= |view|
      invariant forall j | 0 <= j < lo :: view[j].info.uuid < u
      invariant forall j | hi <= j < |view| :: u < view[j].info.uuid
    {
      var mid := (lo + hi) / 2;
      if view[mid].info.uuid == u {
        return mid;
      } else if view[mid].info.uuid < u {
        lo := mid + 1;
      } else {
        hi := mid;
      }
    }
    return -1;
  }

  /** qsort() on records with different UUIDs: the same records in ascending order. */
  method Qsort(s: seq<NodeState>) returns (r: seq<NodeState>)
    requires Distinct(s)
    ensures Sorted(r) && |r| == |s| && forall x :: x in r <==> x in s
  {
    r := [];
    for i := 0 to |s|
      invariant Sorted(r) && |r| == i && forall x :: x in r <==> x in s[..i]
    {
      var j := |r|;
      while j > 0 && s[i].info.uuid < r[j - 1].info.uuid
        invariant 0 <= j <= |r|
        invariant forall k | j <= k < |r| :: s[i].info.uuid < r[k].info.uuid
      {
        j := j - 1;
      }
      if j > 0 {
        assert r[j - 1] in r;
        var k :| 0 <= k < i && s[..i][k] == r[j - 1];
        assert s[k].info.uuid != s[i].info.uuid;
      }
      Inserted(r, j, s[i]);
      r := r[..j] + [s[i]] + r[j..];
      assert s[..i + 1] == s[..i] + [s[i]];
    }
    assert s[..|s|] == s;
  }

  lemma Inserted(r: seq<NodeState>, j: nat, x: NodeState)
    requires j <= |r| && Sorted(r)
    requires j > 0 ==> r[j - 1].info.uuid < x.info.uuid
    requires forall k | j <= k < |r| :: x.info.uuid < r[k].info.uuid
    ensures Sorted(r[..j] + [x] + r[j..])
    ensures forall y :: y in r[..j] + [x] + r[j..] <==> y == x || y in r
  {
    var s := r[..j] + [x] + r[j..];
    assert r == r[..j] + r[j..];
    InsertedSorted(r, j, x);
  }

  lemma InsertedSorted(r: seq<NodeState>, j: nat, x: NodeState)
    requires j <= |r| && Sorted(r)
    requires j > 0 ==> r[j - 1].info.uuid < x.info.uuid
    requires forall k | j <= k < |r| :: x.info.uuid < r[k].info.uuid
    ensures Sorted(r[..j] + [x] + r[j..])
  {
    var s := r[..j] + [x] + r[j..];
    forall a, b | 0 <= a < b < |s|
      ensures s[a].info.uuid < s[b].info.uuid
    {
      var ra, rb := if a < j then a else a - 1, if b < j then b else b - 1;
      assert a != j ==> s[a] == r[ra];
      assert b != j ==> s[b] == r[rb];
      assert a < j && b == j ==> r[a].info.uuid <= r[j - 1].info.uuid;
    }
  }

  // ---------- Changes to the array as changes to the map ----------

  lemma Updated(view: seq<NodeState>, i: nat, r: NodeState)
    requires Sorted(view) && i < |view| && r.info.uuid == view[i].info.uuid
    ensures Sorted(view[i := r]) && ViewMap(view[i := r]) == ViewMap(view)[r.info.uuid := r]
  {
    hide ViewMap, Lookup;
    var m, m' := ViewMap(view[i := r]), ViewMap(view)[r.info.uuid := r];
    forall u | u in m
      ensures u in m' && m'[u] == m[u]
    {
      var k := Lookup(view[i := r], u);
      assert view[k].info.uuid == u;
    }
    forall u | u in m'
      ensures u in m
    {
      var k := Lookup(view, u);
      assert view[i := r][k].info.uuid == u;
    }
  }

  lemma Added(view: seq<NodeState>, r: NodeState, s: seq<NodeState>)
    requires Sorted(view) && r.info.uuid !in ViewMap(view)
    requires Sorted(s) && |s| == |view| + 1 && forall x :: x in s <==> x in view + [r]
    ensures ViewMap(s) == ViewMap(view)[r.info.uuid := r]
    ensures s[|view|].info.uuid == Greatest(ViewMap(s).Keys)
  {
    hide ViewMap, Lookup;
    var m, m' := ViewMap(s), ViewMap(view)[r.info.uuid := r];
    forall u | u in m
      ensures u in m' && m'[u] == m[u]
    {
      var k := Lookup(s, u);
      assert s[k] in view + [r];
      if s[k] != r {
        var i :| 0 <= i < |view| && view[i] == s[k];
      }
    }
    forall u | u in m'
      ensures u in m
    {
      if u != r.info.uuid {
        var i := Lookup(view, u);
        assert view[i] in view + [r] && view[i] in s;
        var k :| 0 <= k < |s| && s[k] == view[i];
      } else {
        assert r in view + [r] && r in s;
        var k :| 0 <= k < |s| && s[k] == r;
      }
    }
    LastIsGreatest(s);
  }

  lemma LastIsGreatest(view: seq<NodeState>)
    requires Sorted(view) && view != []
    ensures view[|view| - 1].info.uuid == Greatest(ViewMap(view).Keys)
  {
    hide ViewMap, Lookup;
    assert view[|view| - 1].info.uuid in ViewMap(view);
    var k := Lookup(view, Greatest(ViewMap(view).Keys));
  }

  lemma MembersEnd(s: set<Uuid>)
    requires s != {}
    ensures Members(s) == Members(s - {Greatest(s)}) + [Greatest(s)]
  {
    hide Greatest;
  }

  function Uuids(view: seq<NodeState>): (ks: seq<Uuid>)
    ensures |ks| == |view| && forall i | 0 <= i < |view| :: ks[i] == view[i].info.uuid
  {
    seq(|view|, i requires 0 <= i < |view| => view[i].info.uuid)
  }

  lemma UuidsEnd(view: seq<NodeState>)
    requires view != []
    ensures Uuids(view) == Uuids(view[..|view| - 1]) + [view[|view| - 1].info.uuid]
  {
  }

  lemma {:induction false} MembersInOrder(view: seq<NodeState>)
    requires Sorted(view)
    ensures Members(ViewMap(view).Keys) == Uuids(view)
    decreases |view|
  {
    hide ViewMap, Lookup, Greatest, Members, Uuids;
    if view == [] {
      NoKeys();
    } else {
      LastIsGreatest(view);
      FrontKeys(view);
      MembersEnd(ViewMap(view).Keys);
      MembersInOrder(view[..|view| - 1]);
      UuidsEnd(view);
    }
  }

  /** The records of the array in order are the members of the map in order, and as many. */
  lemma InOrder(view: seq<NodeState>)
    requires Sorted(view)
    ensures Members(ViewMap(view).Keys) == Uuids(view) && |ViewMap(view)| == |view|
  {
    hide ViewMap, Lookup, Members, Uuids;
    MembersInOrder(view);
    assert |ViewMap(view).Keys| == |ViewMap(view)|;
  }

  lemma NoKeys()
    ensures ViewMap([]) == map[]
  {
  }

  lemma FrontKeys(view: seq<NodeState>)
    requires Sorted(view) && view != []
    ensures ViewMap(view[..|view| - 1]).Keys == ViewMap(view).Keys - {view[|view| - 1].info.uuid}
  {
    hide ViewMap, Lookup;
    var front, keys := view[..|view| - 1], ViewMap(view).Keys;
    forall u | u in ViewMap(front).Keys
      ensures u in keys && u != view[|view| - 1].info.uuid
    {
      var k := Lookup(front, u);
      assert view[k].info.uuid == u;
    }
    forall u | u in keys && u != view[|view| - 1].info.uuid
      ensures u in ViewMap(front).Keys
    {
      var k := Lookup(view, u);
      assert front[k].info.uuid == u;
    }
  }

  lemma AgedAll(view: seq<NodeState>, now: Time, view': seq<NodeState>)
    requires Sorted(view) && |view'| == |view|
    requires forall i | 0 <= i < |view| :: view'[i] == AgeRecord(view[i], now)
    ensures Sorted(view') && ViewMap(view') == Aged(ViewMap(view), now)
  {
    hide ViewMap, Lookup, AgeRecord, Sorted;
    HalfwayAged(view, now, view', |view|);
    forall u | u in ViewMap(view)
      ensures ViewMap(view')[u] == AgeRecord(ViewMap(view)[u], now)
    {
      AgedAt(view, now, view', u);
    }
  }

  lemma AgedAt(view: seq<NodeState>, now: Time, view': seq<NodeState>, u: Uuid)
    requires Sorted(view) && Sorted(view') && |view'| == |view| && u in ViewMap(view)
    requires forall i | 0 <= i < |view| :: view'[i] == AgeRecord(view[i], now)
    ensures u in ViewMap(view') && ViewMap(view')[u] == AgeRecord(ViewMap(view)[u], now)
  {
    hide ViewMap, Lookup, Sorted;
    var k := Lookup(view, u);
    assert view'[k].info.uuid == u;
  }

  lemma HalfwayAged(view: seq<NodeState>, now: Time, view': seq<NodeState>, i: nat)
    requires Sorted(view) && |view'| == |view| && i <= |view|
    requires forall j | 0 <= j < |view| :: view'[j] == if j < i then AgeRecord(view[j], now) else view[j]
    ensures Sorted(view') && Halfway(ViewMap(view), now, ViewMap(view'))
  {
    hide ViewMap, Lookup;
    assert forall j | 0 <= j < |view| :: view'[j].info.uuid == view[j].info.uuid;
    forall u | u in ViewMap(view)
      ensures u in ViewMap(view')
      ensures ViewMap(view')[u] == ViewMap(view)[u] || ViewMap(view')[u] == AgeRecord(ViewMap(view)[u], now)
    {
      var k := Lookup(view, u);
      assert view'[k].info.uuid == u;
    }
    forall u | u in ViewMap(view')
      ensures u in ViewMap(view)
    {
      var k := Lookup(view', u);
      assert view[k].info.uuid == u;
    }
  }

  // ---------- Probe orders as rounds ----------

  predicate InRange(view: seq<NodeState>, idx: seq<nat>) {
    forall i | 0 <= i < |idx| :: idx[i] < |view|
  }

  /** The UUIDs at the given positions. */
  function Names(view: seq<NodeState>, idx: seq<nat>): (ks: seq<Uuid>)
    requires InRange(view, idx)
    ensures |ks| == |idx| && forall i | 0 <= i < |idx| :: ks[i] == view[idx[i]].info.uuid
  {
    seq(|idx|, i requires 0 <= i < |idx| => view[idx[i]].info.uuid)
  }

  predicate IsPermutation(idx: seq<nat>) {
    NoDuplicates(idx) && forall i | 0 <= i < |idx| :: idx[i] < |idx|
  }

  /** Numbers below `n` that are all different and as many as `n` include every number below `n`. */
  lemma {:induction false} Pigeonhole(idx: seq<nat>, n: nat, x: nat)
    requires NoDuplicates(idx) && |idx| == n && x < n && forall i | 0 <= i < n :: idx[i] < n
    ensures x in idx
    decreases n
  {
    if idx[n - 1] != x {
      // Put the last number in the place of n - 1, if that occurs before it.
      var rest := seq(n - 1, i requires 0 <= i < n - 1 => if idx[i] == n - 1 then idx[n - 1] else idx[i]);
      var y := if x == n - 1 then idx[n - 1] else x;
      Pigeonhole(rest, n - 1, y);
      var i :| 0 <= i < |rest| && rest[i] == y;
      assert x == n - 1 ==> idx[i] == n - 1;
      assert x < n - 1 ==> idx[i] == x;
    }
  }

  lemma PermutationIsRound(view: seq<NodeState>, idx: seq<nat>)
    requires Sorted(view) && IsPermutation(idx) && |idx| == |view|
    ensures InRange(view, idx) && IsRound(ViewMap(view), Names(view, idx))
  {
    hide ViewMap, Lookup;
    var ks := Names(view, idx);
    assert NoDuplicates(ks) by {
      forall i, j | 0 <= i < j < |ks|
        ensures ks[i] != ks[j]
      {
        assert idx[i] != idx[j];
      }
    }
    forall u
      ensures u in ks <==> u in ViewMap(view)
    {
      if u in ViewMap(view) {
        var k := Lookup(view, u);
        Pigeonhole(idx, |view|, k);
        var i :| 0 <= i < |idx| && idx[i] == k;
        assert ks[i] == u;
      }
    }
  }
}
