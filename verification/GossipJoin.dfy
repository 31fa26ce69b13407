/**
 Merging gossip is a join: whatever the order and however often records are repeated, a member ends at the
 lexicographic maximum of (incarnation, status) over what was known and what was read. The exception is a
 record that is UNKNOWN, which nothing at its own incarnation can change.
 */
module GossipJoin {
  import opened Types
  import opened Protocol
  import opened NodeFacts

  /** What competes for the record of `u`: the record in the view and the records that were read. */
  predicate Candidate(view: View, g: seq<NodeInfo>, u: Uuid, c: NodeInfo) {
    (u in view && c == view[u].info) || (c in g && c.uuid == u)
  }

  /** `r` is at the maximum, a candidate put it there, and unless it is DEAD it is as recent as any of them. */
  ghost predicate IsJoin(view: View, g: seq<NodeInfo>, u: Uuid, r: NodeInfo) {
    && (forall c | Candidate(view, g, u, c) :: c.Key() <= r.Key())
    && (exists c | Candidate(view, g, u, c) :: c.Key() == r.Key() && c.lastSeen == r.lastSeen)
    && (r.status != Dead ==> forall c | Candidate(view, g, u, c) && c.Key() == r.Key() :: c.lastSeen <= r.lastSeen)
  }

  lemma MergeIsJoin(r: NodeState, x: NodeInfo)
    requires (r.info.status != Unknown || x.incarnation > r.info.incarnation) && x.Sane()
    ensures var m := MergeRecord(r, x).info;
            && m.status != Unknown && r.info.Key() <= m.Key() && x.Key() <= m.Key()
            && (|| (m.Key() == r.info.Key() && m.lastSeen == r.info.lastSeen)
                || (m.Key() == x.Key() && m.lastSeen == x.lastSeen))
            && (m.status != Dead && m.Key() == r.info.Key() ==> r.info.lastSeen <= m.lastSeen)
            && (m.status != Dead && m.Key() == x.Key() ==> x.lastSeen <= m.lastSeen)
  {
  }

  lemma KeyDetermines(a: NodeInfo, b: NodeInfo)
    requires a.Key() == b.Key()
    ensures a.incarnation == b.incarnation && a.status == b.status
  {
  }

  /** Joining with one record and then with the rest is joining with all of them. */
  lemma JoinStep(view: View, x: NodeInfo, rest: seq<NodeInfo>, u: Uuid, view': View, r: NodeInfo)
    requires u in view ==> view[u].info.uuid == u
    requires u in view && x.uuid == u ==> view[u].info.status != Unknown || x.incarnation > view[u].info.incarnation
    requires x.Sane()
    requires x.uuid != u ==> (u in view' <==> u in view) && (u in view ==> view'[u] == view[u])
    requires x.uuid == u ==> u in view' && view'[u] == if u in view then MergeRecord(view[u], x) else NodeState(x, [])
    requires IsJoin(view', rest, u, r)
    ensures IsJoin(view, [x] + rest, u, r)
  {
    var g := [x] + rest;
    assert forall c :: c in g <==> c == x || c in rest;
    var w :| Candidate(view', rest, u, w) && w.Key() == r.Key() && w.lastSeen == r.lastSeen;
    if x.uuid == u {
      if u in view {
        MergeIsJoin(view[u], x);
        assert Candidate(view, g, u, view[u].info);
      }
      assert Candidate(view, g, u, x);
      assert Candidate(view', rest, u, view'[u].info);
      forall c | Candidate(view, g, u, c)
        ensures c.Key() <= r.Key()
        ensures r.status != Dead && c.Key() == r.Key() ==> c.lastSeen <= r.lastSeen
      {
        if c in rest {
          assert Candidate(view', rest, u, c);
        } else if c.Key() == r.Key() {
          KeyDetermines(view'[u].info, r);
        }
      }
      if w in rest && w.uuid == u {
        assert Candidate(view, g, u, w);
      }
    } else {
      assert forall c :: Candidate(view, g, u, c) <==> Candidate(view', rest, u, c);
    }
  }

  lemma ReadNone(n: Node, g: seq<NodeInfo>)
    requires n.life.Up? && Read(n.uuid, g) == []
    ensures Gossip(n, g).view == n.view
  {
    if |g| > 0 {
      var m := GossipOne(n, g[0]);
      assert Gossip(n, g) == Gossip(m, g[1..]) == m;
    }
  }

  lemma ReadOne(n: Node, g: seq<NodeInfo>, u: Uuid)
    requires n.life.Up? && WellFormed(n) && u != n.uuid && Read(n.uuid, g) != []
    ensures |g| > 0 && g[0].Sane() && Read(n.uuid, g) == [g[0]] + Read(n.uuid, g[1..])
    ensures var x, m := g[0], GossipOne(n, g[0]);
            && Gossip(n, g) == Gossip(m, g[1..]) && m.life.Up? && WellFormed(m) && m.uuid == n.uuid
            && (x.uuid != u ==> (u in m.view <==> u in n.view) && (u in n.view ==> m.view[u] == n.view[u]))
            && (x.uuid == u ==>
                  u in m.view && m.view[u] == if u in n.view then MergeRecord(n.view[u], x) else NodeState(x, []))
            && (u in m.view && m.view[u].info.status == Unknown ==> u in n.view && n.view[u].info == m.view[u].info)
  {
  }

  lemma {:induction false} KnownIsJoin(n: Node, g: seq<NodeInfo>, u: Uuid)
    requires n.life.Up? && WellFormed(n) && u != n.uuid
    requires u in n.view ==> n.view[u].info.status != Unknown
    ensures u in Gossip(n, g).view <==> exists c :: Candidate(n.view, Read(n.uuid, g), u, c)
    ensures u in Gossip(n, g).view ==> IsJoin(n.view, Read(n.uuid, g), u, Gossip(n, g).view[u].info)
    decreases |g|
  {
    hide Gossip, GossipOne, Read;
    var r := Read(n.uuid, g);
    if r == [] {
      ReadNone(n, g);
      assert u in n.view ==> Candidate(n.view, r, u, n.view[u].info);
    } else {
      ReadOne(n, g, u);
      var m, rest := GossipOne(n, g[0]), Read(n.uuid, g[1..]);
      KnownIsJoin(m, g[1..], u);
      if u in Gossip(n, g).view {
        JoinStep(n.view, g[0], rest, u, m.view, Gossip(n, g).view[u].info);
      } else {
        GossipGrows(m, g[1..]);
        assert u !in n.view && g[0].uuid != u;
        assert forall c :: Candidate(n.view, r, u, c) ==> Candidate(m.view, rest, u, c);
      }
    }
  }

  /** The record of `u` is UNKNOWN and nothing that was read is newer. */
  predicate Stuck(view: View, g: seq<NodeInfo>, u: Uuid) {
    && u in view && view[u].info.status == Unknown
    && forall x | x in g && x.uuid == u :: x.incarnation <= view[u].info.incarnation
  }

  lemma {:induction false} StuckStays(n: Node, g: seq<NodeInfo>, u: Uuid)
    requires n.life.Up? && WellFormed(n) && u != n.uuid && Stuck(n.view, Read(n.uuid, g), u)
    ensures u in Gossip(n, g).view && Gossip(n, g).view[u].info == n.view[u].info
    decreases |g|
  {
    hide Gossip, GossipOne, Read;
    if Read(n.uuid, g) == [] {
      ReadNone(n, g);
    } else {
      ReadOne(n, g, u);
      assert g[0] in Read(n.uuid, g) && forall x | x in Read(n.uuid, g[1..]) :: x in Read(n.uuid, g);
      StuckStays(GossipOne(n, g[0]), g[1..], u);
    }
  }

  lemma {:induction false} UnstuckIsJoin(n: Node, g: seq<NodeInfo>, u: Uuid)
    requires n.life.Up? && WellFormed(n) && u != n.uuid && u in n.view && n.view[u].info.status == Unknown
    requires !Stuck(n.view, Read(n.uuid, g), u)
    ensures u in Gossip(n, g).view && IsJoin(n.view, Read(n.uuid, g), u, Gossip(n, g).view[u].info)
    decreases |g|
  {
    hide Gossip, GossipOne, Read;
    var r := Read(n.uuid, g);
    assert r != [];
    ReadOne(n, g, u);
    var x, m, rest := g[0], GossipOne(n, g[0]), Read(n.uuid, g[1..]);
    assert forall y :: y in r <==> y == x || y in rest;
    GossipGrows(m, g[1..]);
    if x.uuid == u && x.incarnation > n.view[u].info.incarnation {
      KnownIsJoin(m, g[1..], u);
      JoinStep(n.view, x, rest, u, m.view, Gossip(n, g).view[u].info);
    } else {
      assert m.view[u].info == n.view[u].info;
      UnstuckIsJoin(m, g[1..], u);
      Skipped(n.view, x, rest, u, m.view, Gossip(n, g).view[u].info);
    }
  }

  /** A record that is not newer than an UNKNOWN one does not count, if some other is newer. */
  lemma Skipped(view: View, x: NodeInfo, rest: seq<NodeInfo>, u: Uuid, view': View, r: NodeInfo)
    requires u in view && u in view' && view'[u].info == view[u].info && view[u].info.status == Unknown
    requires x.uuid == u ==> x.incarnation <= view[u].info.incarnation
    requires !Stuck(view', rest, u) && IsJoin(view', rest, u, r)
    ensures IsJoin(view, [x] + rest, u, r)
  {
    var g := [x] + rest;
    assert forall c :: c in g <==> c == x || c in rest;
    var y :| y in rest && y.uuid == u && y.incarnation > view[u].info.incarnation;
    assert Candidate(view', rest, u, y);
    assert forall c :: Candidate(view, g, u, c) ==> Candidate(view', rest, u, c) || (c == x && x.uuid == u);
    assert forall c :: Candidate(view', rest, u, c) ==> Candidate(view, g, u, c);
  }

  /**
   For any view, any gossip and any member but the node itself, the record after the loop is the join, except
   if the old one is UNKNOWN, nothing read about the member is newer and something is as new.
   */
  lemma GossipIsJoin(n: Node, g: seq<NodeInfo>, u: Uuid)
    requires n.life.Up? && WellFormed(n) && u != n.uuid
    ensures var r, view := Read(n.uuid, g), Gossip(n, g).view;
            && (u in view <==> exists c :: Candidate(n.view, r, u, c))
            && (u in view ==>
                  (IsJoin(n.view, r, u, view[u].info) <==>
                   (Stuck(n.view, r, u) ==>
                      forall x | x in r && x.uuid == u :: x.incarnation < n.view[u].info.incarnation)))
  {
    hide Gossip, Read, IsJoin;
    var r := Read(n.uuid, g);
    if u in n.view && n.view[u].info.status == Unknown {
      assert Candidate(n.view, r, u, n.view[u].info);
      if Stuck(n.view, r, u) {
        StuckStays(n, g, u);
        ReadSane(n.uuid, g);
        UnknownJoinIff(n.view, r, u);
      } else {
        UnstuckIsJoin(n, g, u);
      }
    } else {
      KnownIsJoin(n, g, u);
    }
  }

  lemma {:induction false} ReadSane(self: Uuid, g: seq<NodeInfo>)
    ensures forall x | x in Read(self, g) :: x.Sane()
  {
    if Read(self, g) != [] {
      ReadSane(self, g[1..]);
    }
  }

  lemma UnknownJoinIff(view: View, g: seq<NodeInfo>, u: Uuid)
    requires Stuck(view, g, u) && forall x | x in g :: x.Sane()
    ensures IsJoin(view, g, u, view[u].info) <==>
            forall x | x in g && x.uuid == u :: x.incarnation < view[u].info.incarnation
  {
    assert Candidate(view, g, u, view[u].info);
    assert forall x | x in g && x.uuid == u :: Candidate(view, g, u, x);
  }

  predicate SameElements(g: seq<NodeInfo>, g': seq<NodeInfo>) {
    (forall x | x in g :: x in g') && (forall x | x in g' :: x in g)
  }

  /** Order and repetition do not matter, except for the time of a DEAD record. */
  lemma OrderIrrelevant(n: Node, g: seq<NodeInfo>, g': seq<NodeInfo>, u: Uuid)
    requires n.life.Up? && WellFormed(n) && u != n.uuid
    requires SameElements(Read(n.uuid, g), Read(n.uuid, g'))
    ensures u in Gossip(n, g).view <==> u in Gossip(n, g').view
    ensures u in Gossip(n, g).view ==>
              var a, b := Gossip(n, g).view[u].info, Gossip(n, g').view[u].info;
              a.incarnation == b.incarnation && a.status == b.status && (a.status != Dead ==> a.lastSeen == b.lastSeen)
  {
    hide Gossip, Read;
    GossipIsJoin(n, g, u);
    GossipIsJoin(n, g', u);
    var r, r' := Read(n.uuid, g), Read(n.uuid, g');
    assert forall c :: Candidate(n.view, r, u, c) <==> Candidate(n.view, r', u, c);
    if Stuck(n.view, r, u) {
      StuckStays(n, g, u);
      StuckStays(n, g', u);
    } else if u in Gossip(n, g).view {
      var a, b := Gossip(n, g).view[u].info, Gossip(n, g').view[u].info;
      assert a.Key() == b.Key();
      KeyDetermines(a, b);
    }
  }

  // ---------- The time of a DEAD record ----------

  /** Records that a node handles wherever they stand in a list. */
  predicate AllReadable(self: Uuid, g: seq<NodeInfo>) {
    forall x | x in g :: x.Sane() && !(x.uuid == self && x.status == Dead)
  }

  lemma {:induction false} ReadAll(self: Uuid, g: seq<NodeInfo>)
    requires AllReadable(self, g)
    ensures Read(self, g) == g
  {
    if |g| > 0 {
      assert g[0] in g;
      ReadAll(self, g[1..]);
    }
  }

  lemma {:induction false} DeadKeepsTime(n: Node, g: seq<NodeInfo>, u: Uuid)
    requires WellFormed(n) && u in n.view && n.view[u].info.status == Dead
    requires forall x | x in g && x.uuid == u :: x.Key() <= n.view[u].info.Key()
    ensures u in Gossip(n, g).view && Gossip(n, g).view[u].info == n.view[u].info
    decreases |g|
  {
    if |g| > 0 && n.life.Up? {
      var m := GossipOne(n, g[0]);
      assert g[0] in g && m.view[u].info == n.view[u].info;
      GossipGrows(n, [g[0]]);
      DeadKeepsTime(m, g[1..], u);
    }
  }

  /** The record `r` gives way to the claim `c`. */
  predicate Beaten(r: NodeInfo, c: NodeInfo) {
    r.Key() < c.Key() && (r.status == Unknown ==> r.incarnation < c.incarnation)
  }

  /** A DEAD record takes its time from the first of the winning records. */
  lemma {:induction false} FirstDeadWins(n: Node, a: seq<NodeInfo>, c: NodeInfo, g: seq<NodeInfo>)
    requires n.life.Up? && WellFormed(n) && c.uuid != n.uuid && c.Sane() && c.status == Dead
    requires c.uuid in n.view ==> Beaten(n.view[c.uuid].info, c)
    requires AllReadable(n.uuid, a) && forall x | x in a && x.uuid == c.uuid :: x.Key() < c.Key()
    requires forall x | x in g && x.uuid == c.uuid :: x.Key() <= c.Key()
    ensures c.uuid in Gossip(n, a + [c] + g).view
    ensures Gossip(n, a + [c] + g).view[c.uuid].info.lastSeen == c.lastSeen
    decreases |a|
  {
    var all := a + [c] + g;
    if a == [] {
      assert all[0] == c && all[1..] == g;
      HeadWins(n, c, g);
    } else {
      var m := GossipOne(n, a[0]);
      assert a[0] in a && all[0] == a[0] && all[1..] == a[1..] + [c] + g;
      GossipGrows(n, [a[0]]);
      FirstDeadWins(m, a[1..], c, g);
    }
  }

  lemma HeadWins(n: Node, c: NodeInfo, g: seq<NodeInfo>)
    requires n.life.Up? && WellFormed(n) && c.uuid != n.uuid && c.Sane() && c.status == Dead
    requires c.uuid in n.view ==> Beaten(n.view[c.uuid].info, c)
    requires forall x | x in g && x.uuid == c.uuid :: x.Key() <= c.Key()
    ensures var m := Gossip(GossipOne(n, c), g); c.uuid in m.view && m.view[c.uuid].info.lastSeen == c.lastSeen
  {
    var m := GossipOne(n, c);
    GossipGrows(n, [c]);
    assert m.view[c.uuid].info.Key() == c.Key() && m.view[c.uuid].info.lastSeen == c.lastSeen;
    KeyDetermines(m.view[c.uuid].info, c);
    DeadKeepsTime(m, g, c.uuid);
  }

  /** A candidate that no other exceeds. */
  ghost predicate Winner(view: View, g: seq<NodeInfo>, u: Uuid, c: NodeInfo) {
    Candidate(view, g, u, c) && forall x | Candidate(view, g, u, x) :: x.Key() <= c.Key()
  }

  /**
   The record in the view is UNKNOWN and no claim is newer, or it is one of the winners, or the winners are not
   DEAD or agree on the time.
   */
  ghost predicate TimeSettled(view: View, g: seq<NodeInfo>, u: Uuid) {
    || Stuck(view, g, u)
    || (u in view && Winner(view, g, u, view[u].info))
    || forall c, x | Winner(view, g, u, c) && Winner(view, g, u, x) :: c.status == Dead ==> c.lastSeen == x.lastSeen
  }

  ghost predicate TimeOrderFree(n: Node, g: seq<NodeInfo>, u: Uuid) {
    forall g' | SameElements(g, g') ::
      && (u in Gossip(n, g').view <==> u in Gossip(n, g).view)
      && (u in Gossip(n, g).view ==>
            Gossip(n, g').view[u].info.lastSeen == Gossip(n, g).view[u].info.lastSeen)
  }

  /** The record after the loop is at the key of the winners, with the time of one of them. */
  lemma WinnerOf(n: Node, g: seq<NodeInfo>, u: Uuid) returns (c: NodeInfo)
    requires n.life.Up? && WellFormed(n) && u != n.uuid && AllReadable(n.uuid, g) && !Stuck(n.view, g, u)
    requires u in Gossip(n, g).view
    ensures Winner(n.view, g, u, c)
    ensures var r := Gossip(n, g).view[u].info; r.Key() == c.Key() && r.status == c.status && r.lastSeen == c.lastSeen
  {
    hide Gossip, Read;
    ReadAll(n.uuid, g);
    GossipIsJoin(n, g, u);
    var r := Gossip(n, g).view[u].info;
    c :| Candidate(n.view, g, u, c) && c.Key() == r.Key() && c.lastSeen == r.lastSeen;
    KeyDetermines(c, r);
  }

  lemma SettledTime(n: Node, g: seq<NodeInfo>, g': seq<NodeInfo>, u: Uuid)
    requires n.life.Up? && WellFormed(n) && u != n.uuid && AllReadable(n.uuid, g) && SameElements(g, g')
    requires TimeSettled(n.view, g, u)
    ensures u in Gossip(n, g').view <==> u in Gossip(n, g).view
    ensures u in Gossip(n, g).view ==>
              Gossip(n, g').view[u].info.lastSeen == Gossip(n, g).view[u].info.lastSeen
  {
    hide Gossip, Read;
    ReadAll(n.uuid, g);
    ReadAll(n.uuid, g');
    OrderIrrelevant(n, g, g', u);
    if Stuck(n.view, g, u) {
      StuckStays(n, g, u);
    } else if u in Gossip(n, g).view && Gossip(n, g).view[u].info.status == Dead {
      assert forall x :: Candidate(n.view, g', u, x) <==> Candidate(n.view, g, u, x);
      var c := WinnerOf(n, g, u);
      var x := WinnerOf(n, g', u);
      assert Winner(n.view, g, u, x);
      if u in n.view && Winner(n.view, g, u, n.view[u].info) {
        OldRecordWins(n, g, u, c);
        OldRecordWins(n, g', u, x);
      }
    }
  }

  lemma OldRecordWins(n: Node, g: seq<NodeInfo>, u: Uuid, c: NodeInfo)
    requires WellFormed(n) && Winner(n.view, g, u, c) && c.status == Dead
    requires u in n.view && Winner(n.view, g, u, n.view[u].info)
    ensures u in Gossip(n, g).view && Gossip(n, g).view[u].info == n.view[u].info
  {
    hide Gossip;
    KeyDetermines(n.view[u].info, c);
    assert forall x | x in g && x.uuid == u :: Candidate(n.view, g, u, x);
    DeadKeepsTime(n, g, u);
  }

  lemma UnsettledTime(n: Node, g: seq<NodeInfo>, u: Uuid) returns (g': seq<NodeInfo>)
    requires n.life.Up? && WellFormed(n) && u != n.uuid && AllReadable(n.uuid, g)
    requires !TimeSettled(n.view, g, u)
    ensures SameElements(g, g') && u in Gossip(n, g).view && u in Gossip(n, g').view
    ensures Gossip(n, g').view[u].info.lastSeen != Gossip(n, g).view[u].info.lastSeen
  {
    hide Gossip, Read, IsJoin;
    ReadAll(n.uuid, g);
    var c, x :| Winner(n.view, g, u, c) && Winner(n.view, g, u, x) && c.status == Dead && c.lastSeen != x.lastSeen;
    KeyDetermines(c, x);
    GossipIsJoin(n, g, u);
    var first := if c.lastSeen == Gossip(n, g).view[u].info.lastSeen then x else c;
    assert forall y | y in g && y.uuid == u :: Candidate(n.view, g, u, y);
    assert u in n.view ==> Candidate(n.view, g, u, n.view[u].info);
    FirstDeadWins(n, [], first, g);
    g' := [first] + g;
    assert g' == [] + [first] + g;
  }

  /** Exactly when the order of the gossip cannot change the time recorded for `u`. */
  lemma TimeOrderFreeIff(n: Node, g: seq<NodeInfo>, u: Uuid)
    requires n.life.Up? && WellFormed(n) && u != n.uuid && AllReadable(n.uuid, g)
    ensures TimeOrderFree(n, g, u) <==> TimeSettled(n.view, g, u)
  {
    hide Gossip, TimeSettled;
    if TimeSettled(n.view, g, u) {
      forall g' | SameElements(g, g')
        ensures u in Gossip(n, g').view <==> u in Gossip(n, g).view
        ensures u in Gossip(n, g).view ==>
                  Gossip(n, g').view[u].info.lastSeen == Gossip(n, g).view[u].info.lastSeen
      {
        SettledTime(n, g, g', u);
      }
    } else {
      var g' := UnsettledTime(n, g, u);
    }
  }
}
