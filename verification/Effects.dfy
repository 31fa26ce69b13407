/**
 What one step does to each record and what it sends, in full: the record that a JOIN or an ACK adds, the witness
 of every member, the records a message leaves alone, and every packet with its destination and contents.
 */
module Effects {
  import opened Types
  import opened Protocol
  import opened NodeFacts
  import GossipJoin

  // ---------- The order of a receive step ----------

  /** The event without its gossip. */
  function Bare(e: Event): Event {
    e.(gossip := [])
  }

  /** The gossip of a PING, and of an ACK for another node, is read after everything else; no other is read. */
  lemma GossipComesLast(n: Node, e: Event, src: Address)
    ensures Process(n, e, src) == Gossip(Process(n, Bare(e), src), Considered(n, e))
  {
    hide AckSlot;
  }

  function Considered(n: Node, e: Event): seq<NodeInfo> {
    if e.body.Ping? || (e.body.Ack? && e.body.ackUuid != n.uuid) then e.gossip else []
  }

  // ---------- Records that are added ----------

  /** A JOIN of a new node adds exactly this record, and a JOIN of any other changes what the notice does. */
  lemma JoinAdds(n: Node, e: Event, src: Address)
    requires n.life.Up? && e.body.Join? && !Notice(n, e.hdr).life.Aborted?
    ensures var u, a, n1, n' := e.body.joinUuid, e.body.joinAddr, Notice(n, e.hdr), Process(n, e, src);
            if u == n.uuid || u in n.view then n' == n1
            else if e.hdr.time <= 0 then n' == n1.(life := Aborted)
            else
              && n'.life.Up? && n'.view.Keys == n.view.Keys + {u} && n'.incarnation == n.incarnation && n'.pending == []
              && n'.view[u] == NodeState(NodeInfo(u, e.hdr.time, 0, Alive, if a == [] then src else a), [])
              && forall v | v in n.view :: n'.view[v] == n1.view[v]
  {
  }

  predicate Below(u: Uuid, view: View) {
    exists v | v in view :: u < v
  }

  predicate IsGreatest(view: View, v: Uuid) {
    v in view && forall w | w in view :: w <= v
  }

  /**
   Before its gossip is read, an ACK for an unknown node adds a record seen at the time of the ACK, at
   incarnation 0 and the address it came from. It is ALIVE if it is the greatest, and else UNKNOWN, and the
   greatest is cleared in its place.
   */
  lemma AckAdds(n: Node, e: Event, src: Address)
    requires n.life.Up? && WellFormed(n) && e.body.Ack? && e.body.ackUuid != n.uuid && e.body.ackUuid !in n.view
    requires !Notice(n, e.hdr).life.Aborted?
    ensures var u, old_, new_ := e.body.ackUuid, Notice(n, e.hdr).view, Process(n, Bare(e), src).view;
            && new_.Keys == n.view.Keys + {u}
            && new_[u] == NodeState(NodeInfo(u, e.hdr.time, 0, if Below(u, n.view) then Unknown else Alive, src), [])
            && forall v | v in n.view ::
                 new_[v] == if u < v && IsGreatest(n.view, v) then Cleared(old_[v]) else old_[v]
  {
    var n1, u := Notice(n, e.hdr), e.body.ackUuid;
    assert n1.view.Keys == n.view.Keys;
    var slot := AckSlot(n1.view, u);
    assert slot == u <==> !Below(u, n.view);
    assert forall v | v in n.view :: v == slot <==> u < v && IsGreatest(n.view, v);
  }

  /** A suspicion, or the lack of any status, is over: the record is ALIVE and has no witness. */
  function Cleared(r: NodeState): NodeState {
    if r.info.status == Suspect || r.info.status == Unknown then
      NodeState(NodeInfo(r.info.uuid, r.info.lastSeen, r.info.incarnation, Alive, r.info.addr), [])
    else r
  }

  /** Before its gossip is read, an ACK for a known node clears its record and no other. */
  lemma AckClears(n: Node, e: Event, src: Address)
    requires n.life.Up? && WellFormed(n) && e.body.Ack? && e.body.ackUuid in n.view
    requires !Notice(n, e.hdr).life.Aborted?
    ensures var u, old_, new_ := e.body.ackUuid, Notice(n, e.hdr).view, Process(n, Bare(e), src).view;
            && new_.Keys == n.view.Keys && new_[u] == Cleared(old_[u])
            && forall v | v in n.view && v != u :: new_[v] == old_[v]
  {
    hide AckSlot;
    assert Notice(n, e.hdr).view.Keys == n.view.Keys;
  }

  /** Before its gossip is read, a PING does nothing but have its sender noticed. */
  lemma PingNotices(n: Node, e: Event, src: Address)
    requires e.body.Ping?
    ensures Process(n, Bare(e), src) == Notice(n, e.hdr)
  {
  }

  /** A PING_REQ suspects a known node on behalf of its source, whatever the status, and changes nothing else. */
  lemma PingReqMarks(n: Node, e: Event, src: Address, u: Uuid)
    requires e.body == PingReq(u) && !Notice(n, e.hdr).life.Aborted?
    ensures var n1, n' := Notice(n, e.hdr), Process(n, e, src);
            if u !in n.view then n' == n1
            else
              && n' == n1.(view := n'.view) && n'.view.Keys == n.view.Keys
              && (forall v | v in n.view && v != u :: n'.view[v] == n1.view[v])
              && var r := n1.view[u].info;
                 n'.view[u] == NodeState(NodeInfo(r.uuid, r.lastSeen, r.incarnation, Suspect, r.addr), src)
  {
    assert Notice(n, e.hdr).view.Keys == n.view.Keys;
  }

  /** A LEAVE marks the known node that it names DEAD and ends the probe round, and changes nothing else. */
  lemma LeaveMarks(n: Node, e: Event, src: Address, u: Uuid)
    requires WellFormed(n) && e.body == Leave(u) && !Notice(n, e.hdr).life.Aborted?
    ensures var n1, n' := Notice(n, e.hdr), Process(n, e, src);
            if u !in n.view then n' == n1
            else
              && n' == n1.(view := n'.view, pending := []) && n'.view.Keys == n.view.Keys
              && (forall v | v in n.view && v != u :: n'.view[v] == n1.view[v])
              && var r := n1.view[u].info;
                 n'.view[u] == NodeState(NodeInfo(r.uuid, r.lastSeen, r.incarnation, Dead, r.addr),
                                         n1.view[u].witnessAddr)
  {
    assert Notice(n, e.hdr).view.Keys == n.view.Keys;
  }

  /** An effective heartbeat changes statuses alone, by how long a member has not been heard from. */
  lemma RecordsAge(n: Node, i: Input, n': Node, outs: seq<Packet>, u: Uuid)
    requires Step(n, i, n', outs) && i.Tick? && Effective(n, i.now) && u in n.view
    ensures u in n'.view && n'.view.Keys == n.view.Keys
    ensures var r, silent := n.view[u].info, i.now - n.view[u].info.lastSeen;
            var s := if r.status == Alive && silent >= 60 then Suspect
                     else if r.status == Suspect && silent >= 120 then Dead else r.status;
            n'.view[u] == NodeState(NodeInfo(r.uuid, r.lastSeen, r.incarnation, s, r.addr), n.view[u].witnessAddr)
  {
    hide BeatSends, NextProbe, RoundFor;
  }

  // ---------- Witnesses ----------

  /** A claim about the node that outranks its record, or is at the incarnation of one that is DEAD or UNKNOWN. */
  predicate DropsWitness(r: NodeInfo, x: NodeInfo) {
    x.uuid == r.uuid &&
    (|| x.incarnation > r.incarnation
     || (x.incarnation == r.incarnation
         && (x.status.Rank() > r.status.Rank() || r.status == Dead || r.status == Unknown)))
  }

  predicate SomeDrops(r: NodeInfo, g: seq<NodeInfo>) {
    exists x | x in g :: DropsWitness(r, x)
  }

  lemma MergeWitness(r: NodeState, x: NodeInfo)
    requires x.uuid == r.info.uuid
    ensures var m := MergeRecord(r, x);
            && m.info.uuid == r.info.uuid
            && m.witnessAddr == (if DropsWitness(r.info, x) then [] else r.witnessAddr)
            && (!DropsWitness(r.info, x) ==>
                  m.info.incarnation == r.info.incarnation && m.info.status == r.info.status)
  {
  }

  /** The witness of a member after gossip: none if a claim that was read drops it, and else the old one. */
  lemma {:induction false} GossipWitness(n: Node, g: seq<NodeInfo>, u: Uuid)
    requires n.life.Up? && WellFormed(n) && u in n.view
    ensures u in Gossip(n, g).view
    ensures Gossip(n, g).view[u].witnessAddr
         == if SomeDrops(n.view[u].info, Read(n.uuid, g)) then [] else n.view[u].witnessAddr
    decreases |g|
  {
    hide MergeRecord;
    if |g| > 0 {
      var m, r, rest := GossipOne(n, g[0]), Read(n.uuid, g), Read(n.uuid, g[1..]);
      if !m.life.Up? {
        assert Gossip(m, g[1..]) == m && r == [];
      } else {
        assert r == [g[0]] + rest;
        GossipGrows(n, [g[0]]);
        assert [g[0]][1..] == [] && Gossip(n, [g[0]]) == Gossip(m, []) == m;
        GossipWitness(m, g[1..], u);
        if g[0].uuid == u {
          MergeWitness(n.view[u], g[0]);
        } else {
          assert m.view[u] == n.view[u];
        }
        DropsHead(n.view[u].info, g[0], rest);
        SameClaims(n.view[u].info, m.view[u].info, rest);
      }
    }
  }

  lemma DropsHead(r: NodeInfo, x: NodeInfo, rest: seq<NodeInfo>)
    ensures SomeDrops(r, [x] + rest) <==> DropsWitness(r, x) || SomeDrops(r, rest)
  {
    assert forall y :: y in [x] + rest <==> y == x || y in rest;
  }

  /** Only the incarnation and the status of a record decide what drops its witness. */
  lemma SameClaims(r: NodeInfo, s: NodeInfo, g: seq<NodeInfo>)
    requires r.uuid == s.uuid
    ensures r.incarnation == s.incarnation && r.status == s.status ==> (SomeDrops(r, g) <==> SomeDrops(s, g))
  {
    if r.incarnation == s.incarnation && r.status == s.status {
      assert forall x :: DropsWitness(r, x) <==> DropsWitness(s, x);
    }
  }

  lemma {:induction false} NewWithoutWitness(n: Node, g: seq<NodeInfo>, u: Uuid)
    requires WellFormed(n) && u !in n.view && u in Gossip(n, g).view
    ensures Gossip(n, g).view[u].witnessAddr == []
    decreases |g|
  {
    if |g| > 0 && n.life.Up? {
      var m := GossipOne(n, g[0]);
      GossipGrows(n, [g[0]]);
      if u in m.view {
        if m.life.Up? {
          GossipWitness(m, g[1..], u);
        }
      } else {
        NewWithoutWitness(m, g[1..], u);
      }
    }
  }

  /** The witness of a member when the gossip of the event comes to be read. */
  ghost function HandledWitness(n: Node, e: Event, src: Address, u: Uuid): Address
    requires u in n.view
  {
    var r := Notice(n, e.hdr).view[u];
    match e.body
    case PingReq(t) => if t == u then src else r.witnessAddr
    case Ack(x) => if x != n.uuid && AckSlot(n.view, x) == u then Cleared(r).witnessAddr else r.witnessAddr
    case _ => r.witnessAddr
  }

  lemma BareWitness(n: Node, e: Event, src: Address, u: Uuid)
    requires n.life.Up? && WellFormed(n) && u in n.view && !Notice(n, e.hdr).life.Aborted?
    ensures u in Process(n, Bare(e), src).view
    ensures Process(n, Bare(e), src).view[u].witnessAddr == HandledWitness(n, e, src, u)
    ensures Notice(n, e.hdr).view[u].witnessAddr == n.view[u].witnessAddr
  {
    assert Notice(n, e.hdr).view.Keys == n.view.Keys;
    assert e.body.Ack? ==> AckSlot(Notice(n, e.hdr).view, e.body.ackUuid) == AckSlot(n.view, e.body.ackUuid);
  }

  lemma BareNew(n: Node, e: Event, src: Address, u: Uuid)
    requires WellFormed(n) && u !in n.view && u in Process(n, Bare(e), src).view
    ensures Process(n, Bare(e), src).view[u].witnessAddr == []
  {
    assert Notice(n, e.hdr).view.Keys == n.view.Keys;
  }

  /**
   The witness of every member after a step: a PING_REQ that names it leaves its source, an ACK that clears it
   and gossip that outranks it leave none, a new member has none, and nothing else changes it.
   */
  lemma StepWitness(n: Node, i: Input, n': Node, outs: seq<Packet>, u: Uuid)
    requires WellFormed(n) && Step(n, i, n', outs) && u in n'.view
    ensures u !in n.view ==> n'.view[u].witnessAddr == []
    ensures u in n.view && (!i.Deliver? || Notice(n, i.e.hdr).life.Aborted?) ==>
              n'.view[u].witnessAddr == n.view[u].witnessAddr
    ensures u in n.view && i.Deliver? && !Notice(n, i.e.hdr).life.Aborted? ==>
              var view := Process(n, Bare(i.e), i.src).view;
              u in view && n'.view[u].witnessAddr ==
                           if SomeDrops(view[u].info, Read(n.uuid, Considered(n, i.e))) then []
                           else HandledWitness(n, i.e, i.src, u)
  {
    hide Gossip, Replies, BeatSends, Handle, AckSlot, Read;
    if i.Deliver? && !Notice(n, i.e.hdr).life.Aborted? {
      hide Process;
      var m, g := Process(n, Bare(i.e), i.src), Considered(n, i.e);
      GossipComesLast(n, i.e, i.src);
      BareGrows(n, i.e, i.src);
      StillUp(n, i.e, i.src);
      if u in n.view {
        BareWitness(n, i.e, i.src, u);
      } else if u in m.view {
        BareNew(n, i.e, i.src, u);
      } else {
        NewWithoutWitness(m, g, u);
      }
      if g == [] {
        NoGossip(m);
      } else if u in m.view {
        GossipWitness(m, g, u);
      }
    }
  }

  lemma StillUp(n: Node, e: Event, src: Address)
    requires n.life.Up? && !Notice(n, e.hdr).life.Aborted?
    ensures Considered(n, e) != [] ==> Process(n, Bare(e), src).life.Up?
    ensures Process(n, Bare(e), src).uuid == n.uuid
  {
  }

  lemma NoGossip(n: Node)
    ensures Gossip(n, []) == n && Read(n.uuid, []) == []
  {
  }

  lemma BareGrows(n: Node, e: Event, src: Address)
    requires WellFormed(n)
    ensures WellFormed(Process(n, Bare(e), src)) && Grows(n, Process(n, Bare(e), src))
  {
    hide Handle, Notice;
    NoticeGrows(n, e.hdr);
    HandleGrows(Notice(n, e.hdr), Bare(e), src);
  }

  // ---------- Records that are left alone ----------

  /** The header is behind the record of its sender, or at the incarnation of one that is DEAD. */
  predicate Stale(r: NodeInfo, h: Header) {
    h.incarnation < r.incarnation || (h.incarnation == r.incarnation && r.status == Dead)
  }

  /** The message can have an effect on the record of the member `u`. */
  ghost predicate Concerns(n: Node, e: Event, u: Uuid)
    requires u in n.view
  {
    || (e.hdr.uuid == u && !Stale(n.view[u].info, e.hdr))
    || e.body == PingReq(u) || e.body == Leave(u)
    || (e.body.Ack? && AckSlot(n.view, e.body.ackUuid) == u
        && (n.view[u].info.status == Suspect || n.view[u].info.status == Unknown))
    || exists x | x in Considered(n, e) :: x.uuid == u
  }

  lemma {:induction false} GossipLeaves(n: Node, g: seq<NodeInfo>, u: Uuid)
    requires u in n.view && forall x | x in g :: x.uuid != u
    ensures u in Gossip(n, g).view && Gossip(n, g).view[u] == n.view[u]
    decreases |g|
  {
    if |g| > 0 && n.life.Up? {
      assert g[0] in g;
      GossipLeaves(GossipOne(n, g[0]), g[1..], u);
    }
  }

  lemma BareLeaves(n: Node, e: Event, src: Address, u: Uuid)
    requires n.life.Up? && WellFormed(n) && u in n.view && !Concerns(n, e, u)
    ensures u in Process(n, Bare(e), src).view && Process(n, Bare(e), src).view[u] == n.view[u]
  {
    var n1 := Notice(n, e.hdr);
    assert n1.view.Keys == n.view.Keys && n1.view[u] == n.view[u];
    assert e.body.Ack? ==> AckSlot(n1.view, e.body.ackUuid) == AckSlot(n.view, e.body.ackUuid);
  }

  /** A stale header, and a message about others, leave the whole record as it was. */
  lemma LeavesAlone(n: Node, e: Event, src: Address, u: Uuid)
    requires n.life.Up? && WellFormed(n) && u in n.view && !Concerns(n, e, u)
    ensures u in Process(n, e, src).view && Process(n, e, src).view[u] == n.view[u]
  {
    hide Process, Gossip, AckSlot;
    GossipComesLast(n, e, src);
    BareLeaves(n, e, src, u);
    GossipLeaves(Process(n, Bare(e), src), Considered(n, e), u);
  }

  /** A record keeps its address for ever. */
  lemma AddressesStay(n: Node, i: Input, n': Node, outs: seq<Packet>, u: Uuid)
    requires WellFormed(n) && Step(n, i, n', outs) && u in n.view
    ensures u in n'.view && n'.view[u].info.addr == n.view[u].info.addr
  {
    hide Gossip, Replies, BeatSends, AckSlot;
    if i.Deliver? {
      hide Process;
      GossipComesLast(n, i.e, i.src);
      BareAddress(n, i.e, i.src, u);
      GossipAddress(Process(n, Bare(i.e), i.src), Considered(n, i.e), u);
    }
  }

  lemma BareAddress(n: Node, e: Event, src: Address, u: Uuid)
    requires WellFormed(n) && u in n.view
    ensures var m := Process(n, Bare(e), src).view; u in m && m[u].info.addr == n.view[u].info.addr
  {
    assert Notice(n, e.hdr).view.Keys == n.view.Keys;
  }

  lemma {:induction false} GossipAddress(n: Node, g: seq<NodeInfo>, u: Uuid)
    requires u in n.view
    ensures u in Gossip(n, g).view && Gossip(n, g).view[u].info.addr == n.view[u].info.addr
    decreases |g|
  {
    if |g| > 0 && n.life.Up? {
      GossipAddress(GossipOne(n, g[0]), g[1..], u);
    }
  }

  /** A member that gossip adds has the address of the first claim about it. */
  lemma {:induction false} FirstClaimNames(n: Node, a: seq<NodeInfo>, c: NodeInfo, g: seq<NodeInfo>)
    requires n.life.Up? && WellFormed(n) && c.uuid != n.uuid && c.uuid !in n.view && c.Sane()
    requires GossipJoin.AllReadable(n.uuid, a) && forall x | x in a :: x.uuid != c.uuid
    ensures c.uuid in Gossip(n, a + [c] + g).view && Gossip(n, a + [c] + g).view[c.uuid].info.addr == c.addr
    decreases |a|
  {
    var all := a + [c] + g;
    if a == [] {
      assert all[0] == c && all[1..] == g;
      GossipAddress(GossipOne(n, c), g, c.uuid);
    } else {
      var m := GossipOne(n, a[0]);
      assert a[0] in a && all[0] == a[0] && all[1..] == a[1..] + [c] + g;
      GossipGrows(n, [a[0]]);
      FirstClaimNames(m, a[1..], c, g);
    }
  }

  // ---------- Answers ----------

  /** The event is from `n` and its gossip is of `view`: all of it if that is below ten records, and else ten. */
  predicate Carries(n: Node, view: View, e: Event) {
    && e.hdr.uuid == n.uuid && e.hdr.incarnation == n.incarnation && |e.gossip| == Min(|view|, 10)
    && (forall i | 0 <= i < |e.gossip| :: e.gossip[i].uuid in view && e.gossip[i] == view[e.gossip[i].uuid].info)
    && (|view| < 10 ==> forall u | u in view :: view[u].info in e.gossip)
  }

  lemma BuiltCarries(n: Node, b: Body, e: Event)
    requires Built(n, b, e)
    ensures Carries(n, n.view, e) && e.body == b
  {
    hide Members;
    if |n.view| < 10 {
      forall u | u in n.view
        ensures n.view[u].info in e.gossip
      {
        var ks := Members(n.view.Keys);
        assert u in ks && |ks| == |n.view.Keys| == |n.view|;
        var i :| 0 <= i < |ks| && ks[i] == u;
        assert e.gossip[i] == n.view[u].info;
      }
    }
  }

  /** Exactly one packet, to `dst`, with this body and gossip of this view. */
  predicate OnlySends(n: Node, view: View, b: Body, dst: Address, outs: seq<Packet>) {
    |outs| == 1 && outs[0].dst == dst && outs[0].event.body == b && Carries(n, view, outs[0].event)
  }

  lemma SentOneIs(n: Node, m: Node, b: Body, dst: Address, outs: seq<Packet>)
    requires SentOne(m, b, dst, outs) && m.uuid == n.uuid && m.incarnation == n.incarnation
    ensures OnlySends(n, m.view, b, dst, outs)
  {
    hide GossipOf;
    BuiltCarries(m, b, outs[0].event);
  }

  /** Everything an event other than a JOIN is answered by. */
  lemma AnswersAre(n: Node, e: Event, src: Address, outs: seq<Packet>)
    requires n.life.Up? && WellFormed(n) && Replies(n, e, src, outs) && !Notice(n, e.hdr).life.Aborted?
    requires !e.body.Join?
    ensures match e.body
            case Ping => OnlySends(n, Notice(n, e.hdr).view, Ack(n.uuid), src, outs)
            case PingReq(u) =>
              if u in n.view then OnlySends(n, Process(n, e, src).view, Ping, n.view[u].info.addr, outs) else outs == []
            case Leave(u) => OnlySends(n, Process(n, e, src).view, Ack(n.uuid), src, outs)
            case Ack(u) =>
              var old_ := Notice(n, e.hdr).view;
              if u == n.uuid then outs == []
              else if u in n.view then
                if old_[u].info.status == Suspect && old_[u].witnessAddr != []
                then OnlySends(n, old_, Ack(u), old_[u].witnessAddr, outs) else outs == []
              else
                forall v | IsGreatest(n.view, v) ::
                  if u < v && old_[v].info.status == Suspect && old_[v].witnessAddr != []
                  then OnlySends(n, old_[u := NodeState(NodeInfo(u, e.hdr.time, 0, Unknown, src), [])], Ack(u),
                                 old_[v].witnessAddr, outs)
                  else outs == []
  {
    hide GossipOf, Gossip, Built, Carries;
    var n1 := Notice(n, e.hdr);
    assert n1.view.Keys == n.view.Keys && n1.uuid == n.uuid && n1.incarnation == n.incarnation;
    match e.body
    case Ping => SentOneIs(n, n1, Ack(n.uuid), src, outs);
    case PingReq(u) =>
      if u in n.view {
        assert n1.view[u].info.addr == n.view[u].info.addr;
        SentOneIs(n, Handle(n1, e, src), Ping, n.view[u].info.addr, outs);
      }
    case Leave(u) => SentOneIs(n, Handle(n1, e, src), Ack(n.uuid), src, outs);
    case Ack(u) =>
      if u != n.uuid {
        var slot := AckSlot(n1.view, u);
        if Relays(n1, u, e.hdr, src) {
          SentOneIs(n, AckKnown(n1, u, e.hdr, src), Ack(u), n1.view[slot].witnessAddr, outs);
        }
        if u !in n.view {
          forall v | IsGreatest(n.view, v)
            ensures u < v <==> slot == v
          {
            assert v in n1.view.Keys + {u} && u in n1.view.Keys + {u};
          }
        }
      }
  }

  /** A listing of all members, each once. */
  predicate Lists(ks: seq<Uuid>, view: View) {
    NoDuplicates(ks) && |ks| == |view| && (forall i | 0 <= i < |ks| :: ks[i] in view) && forall u | u in view :: u in ks
  }

  /**
   A JOIN of a new node is passed on once to every member, the new one among them, with its address filled in
   and otherwise as it came, and is answered by one ACK; a JOIN of any other node is not answered.
   */
  lemma JoinAnswersAre(n: Node, e: Event, src: Address, outs: seq<Packet>) returns (ks: seq<Uuid>)
    requires n.life.Up? && WellFormed(n) && Replies(n, e, src, outs) && !Notice(n, e.hdr).life.Aborted?
    requires e.body.Join?
    ensures var u, a, view := e.body.joinUuid, e.body.joinAddr, Process(n, e, src).view;
            if u == n.uuid || u in n.view || e.hdr.time <= 0 then outs == []
            else
              && Lists(ks, view) && |outs| == |view| + 1
              && (forall i | 0 <= i < |ks| ::
                    outs[i] == Packet(view[ks[i]].info.addr,
                                      Event(e.hdr, Join(u, if a == [] then src else a), e.gossip)))
              && OnlySends(n, view, Ack(n.uuid), src, outs[|view|..])
  {
    hide GossipOf, Gossip, Built, Carries, Members;
    var n1 := Notice(n, e.hdr);
    assert n1.view.Keys == n.view.Keys && n1.uuid == n.uuid && n1.incarnation == n.incarnation;
    var n2, u := Handle(n1, e, src), e.body.joinUuid;
    ks := Members(n2.view.Keys);
    if u != n.uuid && u !in n.view && e.hdr.time > 0 {
      assert |ks| == |n2.view.Keys| == |n2.view|;
      assert forall i | 0 <= i < |ks| :: ks[i] in ks;
      SentOneIs(n, n2, Ack(n.uuid), src, outs[|n2.view|..]);
    }
  }

  // ---------- Heartbeats ----------

  /** A heartbeat has an effect exactly if there is a member and the last one with an effect is two seconds back. */
  lemma BeatsIff(n: Node, i: Input, n': Node, outs: seq<Packet>)
    requires Step(n, i, n', outs) && i.Tick?
    ensures if n.view != map[] && i.now >= n.lastHeartbeat + 2 then n'.lastHeartbeat == i.now
            else n' == n && outs == []
  {
    hide AskedAll, PingReqSent, Aged, NextProbe, RoundFor;
  }

  /** The member of `ks` that is `k` after the position `start`, around the end. */
  function After(ks: seq<Uuid>, start: nat, k: nat): Uuid
    requires ks != []
  {
    ks[(start + k) % |ks|]
  }

  /** The member is ALIVE when the ageing loop, which goes by UUID, is at `t`. */
  predicate AliveThen(view: View, now: Time, t: Uuid, v: Uuid) {
    && v in view && v != t && view[v].info.status == Alive
    && (v < t ==> view[v].info.lastSeen > now - 60)
  }

  /** The members to ask about `t`: those ALIVE then among the places start + 1 to min(size, 5) after the start. */
  ghost predicate ToAsk(view: View, now: Time, t: Uuid, ks: seq<Uuid>, start: nat, v: Uuid)
    requires ks != []
  {
    AliveThen(view, now, t, v) && exists k: nat | start < k <= Min(|ks|, 5) :: After(ks, start, k) == v
  }

  lemma AskedGoesTo(n: Node, now: Time, t: Uuid, start: nat, at: seq<nat>, outs: seq<Packet>, k: nat)
    requires n.view != map[] && AskedAt(n, now, t, start, at, outs) && k < |outs|
    ensures |at| == |outs| && at[k] < |Members(n.view.Keys)|
    ensures var v := Members(n.view.Keys)[at[k]];
            v in n.view && outs[k].dst == n.view[v].info.addr && outs[k].event.body == PingReq(t)
    ensures Carries(n, AgedUpTo(n.view, now, t), outs[k].event)
  {
    hide Members, GossipOf, NoDuplicates, InWindow, Carries;
    var ks := Members(n.view.Keys);
    assert ks[at[k]] in ks;
    var m := n.(view := AgedUpTo(n.view, now, t));
    BuiltCarries(m, PingReq(t), outs[k].event);
    CarriesFor(m, n, m.view, outs[k].event);
  }

  lemma CarriesFor(n: Node, m: Node, view: View, e: Event)
    requires Carries(n, view, e) && m.uuid == n.uuid && m.incarnation == n.incarnation
    ensures Carries(m, view, e)
  {
  }

  lemma AskedSizes(n: Node, now: Time, t: Uuid, start: nat, at: seq<nat>, outs: seq<Packet>)
    requires n.view != map[] && AskedAt(n, now, t, start, at, outs)
    ensures Members(n.view.Keys) != [] && start < |Members(n.view.Keys)| && NoDuplicates(at) && |at| == |outs|
  {
    hide Members, GossipOf, NoDuplicates, InWindow, AgedUpTo;
  }

  /** The PING_REQs of one suspicion, by members. */
  lemma AskedMembers(n: Node, now: Time, t: Uuid, outs: seq<Packet>)
    returns (ks: seq<Uuid>, start: nat, asked: seq<Uuid>)
    requires n.view != map[] && AskedAbout(n, now, t, outs)
    requires t in n.view && n.view[t].info.status == Alive && n.view[t].info.lastSeen <= now - 60
    ensures ks == Members(n.view.Keys) && ks != [] && start < |ks|
    ensures NoDuplicates(asked) && |asked| == |outs|
    ensures forall v :: v in asked <==> ToAsk(n.view, now, t, ks, start, v)
    ensures forall k | 0 <= k < |outs| ::
              asked[k] in n.view && outs[k].dst == n.view[asked[k]].info.addr && outs[k].event.body == PingReq(t)
    ensures forall k | 0 <= k < |outs| :: Carries(n, AgedUpTo(n.view, now, t), outs[k].event)
  {
    hide Members, NoDuplicates, ToAsk, AskedAt, Carries, AgedUpTo;
    ks := Members(n.view.Keys);
    var at: seq<nat>;
    start :| AskedFrom(n, now, t, start, outs);
    at :| AskedAt(n, now, t, start, at, outs);
    AskedSizes(n, now, t, start, at, outs);
    forall k | 0 <= k < |outs|
      ensures at[k] < |ks| && ks[at[k]] in n.view && outs[k].dst == n.view[ks[at[k]]].info.addr
      ensures outs[k].event.body == PingReq(t) && Carries(n, AgedUpTo(n.view, now, t), outs[k].event)
    {
      AskedGoesTo(n, now, t, start, at, outs, k);
    }
    asked := seq(|at|, i requires 0 <= i < |at| => ks[at[i]]);
    DistinctNames(ks, at, asked);
    forall v
      ensures v in asked <==> ToAsk(n.view, now, t, ks, start, v)
    {
      AskedIff(n, now, t, start, at, outs, asked, v);
    }
  }

  lemma AskedIff(n: Node, now: Time, t: Uuid, start: nat, at: seq<nat>, outs: seq<Packet>, asked: seq<Uuid>, v: Uuid)
    requires n.view != map[] && AskedAt(n, now, t, start, at, outs) && |asked| == |at|
    requires Members(n.view.Keys) != []
    requires forall i | 0 <= i < |at| :: asked[i] == Members(n.view.Keys)[at[i]]
    requires t in n.view && n.view[t].info.status == Alive && n.view[t].info.lastSeen <= now - 60
    ensures v in asked <==> ToAsk(n.view, now, t, Members(n.view.Keys), start, v)
  {
    hide Members, Built, NoDuplicates, InWindow, AgedUpTo;
    var ks := Members(n.view.Keys);
    if v in asked {
      var i :| 0 <= i < |asked| && asked[i] == v;
      assert at[i] in at && ks[at[i]] in ks;
      AliveIff(n.view, now, t, v);
      WindowPlace(ks, start, at[i]);
    }
    if ToAsk(n.view, now, t, ks, start, v) {
      var k: nat :| start < k <= Min(|ks|, 5) && After(ks, start, k) == v;
      var j: nat := (start + k) % |ks|;
      InPlace(start, |ks|, k);
      AliveIff(n.view, now, t, v);
      assert j in at;
      var i :| 0 <= i < |at| && at[i] == j;
      assert asked[i] == v;
    }
  }

  lemma AliveIff(view: View, now: Time, t: Uuid, v: Uuid)
    requires v in view && t in view && view[t].info.status == Alive && view[t].info.lastSeen <= now - 60
    ensures AgedUpTo(view, now, t)[v].info.status == Alive <==> AliveThen(view, now, t, v)
  {
  }

  lemma DistinctNames(ks: seq<Uuid>, at: seq<nat>, asked: seq<Uuid>)
    requires Ascending(ks) && NoDuplicates(at) && |asked| == |at|
    requires forall i | 0 <= i < |at| :: at[i] < |ks| && asked[i] == ks[at[i]]
    ensures NoDuplicates(asked)
  {
    forall i, j | 0 <= i < j < |asked|
      ensures asked[i] != asked[j]
    {
      assert at[i] < at[j] || at[j] < at[i];
    }
  }

  lemma WindowPlace(ks: seq<Uuid>, start: nat, j: nat)
    requires ks != [] && InWindow(start, |ks|, j) && j < |ks|
    ensures exists k: nat | start < k <= Min(|ks|, 5) :: After(ks, start, k) == ks[j]
  {
    var k: nat :| start < k <= Min(|ks|, MAX_PING_REQ) && j == Slot(start, k, |ks|);
    assert After(ks, start, k) == ks[j];
  }

  lemma InPlace(start: nat, n: nat, k: nat)
    requires n > 0 && start < k <= Min(n, 5)
    ensures InWindow(start, n, (start + k) % n)
  {
    assert (start + k) % n == Slot(start, k, n);
  }

  /** Where the PING_REQs about `ts[i]` are in those about all of `ts`. */
  lemma {:induction false} Segment(n: Node, now: Time, ts: seq<Uuid>, outs: seq<Packet>, i: nat)
    returns (first: nat, last: nat)
    requires n.view != map[] && AskedAll(n, now, ts, outs) && i < |ts| && NoDuplicates(ts)
    ensures first <= last <= |outs| && AskedAbout(n, now, ts[i], outs[first..last])
    ensures forall k | 0 <= k < |outs| && !(first <= k < last) :: outs[k].event.body != PingReq(ts[i])
    decreases |ts|
  {
    hide AskedAbout;
    var end := |ts| - 1;
    var c: nat :| c <= |outs| && AskedAbout(n, now, ts[end], outs[c..]) && AskedAll(n, now, ts[..end], outs[..c]);
    if i == end {
      first, last := c, |outs|;
      assert outs[c..] == outs[first..last];
      AllName(n, now, ts[..end], outs[..c]);
      forall k | 0 <= k < c
        ensures outs[k].event.body != PingReq(ts[i])
      {
        assert outs[..c][k] == outs[k];
      }
    } else {
      first, last := Segment(n, now, ts[..end], outs[..c], i);
      assert outs[..c][first..last] == outs[first..last];
      AboutNames(n, now, ts[end], outs[c..]);
      forall k | 0 <= k < |outs| && !(first <= k < last)
        ensures outs[k].event.body != PingReq(ts[i])
      {
        if k < c {
          assert outs[..c][k] == outs[k];
        } else {
          assert outs[c..][k - c] == outs[k];
        }
      }
    }
  }

  lemma AboutNames(n: Node, now: Time, t: Uuid, outs: seq<Packet>)
    requires n.view != map[] && AskedAbout(n, now, t, outs)
    ensures forall k | 0 <= k < |outs| :: outs[k].event.body == PingReq(t)
  {
    hide GossipOf, Members, InWindow, AgedUpTo;
    var start :| AskedFrom(n, now, t, start, outs);
    var asked :| AskedAt(n, now, t, start, asked, outs);
  }

  lemma {:induction false} AllName(n: Node, now: Time, ts: seq<Uuid>, outs: seq<Packet>)
    requires n.view != map[] && AskedAll(n, now, ts, outs)
    ensures forall k | 0 <= k < |outs| :: outs[k].event.body.PingReq? && outs[k].event.body.target in ts
    decreases |ts|
  {
    hide AskedAbout;
    if ts != [] {
      var end := |ts| - 1;
      var c: nat :| c <= |outs| && AskedAbout(n, now, ts[end], outs[c..]) && AskedAll(n, now, ts[..end], outs[..c]);
      AllName(n, now, ts[..end], outs[..c]);
      AboutNames(n, now, ts[end], outs[c..]);
      forall k | 0 <= k < |outs|
        ensures outs[k].event.body.PingReq? && outs[k].event.body.target in ts
      {
        if k < c {
          assert outs[..c][k] == outs[k];
        } else {
          assert outs[c..][k - c] == outs[k];
        }
      }
    }
  }

  /**
   In an effective heartbeat, a member that has not been heard from for 60 seconds becomes SUSPECT, and the
   PING_REQs that name it are exactly one to each member to ask, for some start; in a view of at most five, a
   start of 0 means all that are ALIVE then.
   */
  lemma RequestsAre(n: Node, i: Input, n': Node, outs: seq<Packet>, t: Uuid)
    returns (ks: seq<Uuid>, start: nat, first: nat, asked: seq<Uuid>)
    requires WellFormed(n) && Step(n, i, n', outs) && i.Tick? && Effective(n, i.now)
    requires t in n.view && n.view[t].info.status == Alive && n.view[t].info.lastSeen <= i.now - 60
    ensures t in n'.view && n'.view[t].info == n.view[t].info.(status := Suspect)
    ensures ks == Members(n.view.Keys) && ks != [] && start < |ks| && NoDuplicates(asked)
    ensures forall v :: v in asked <==> ToAsk(n.view, i.now, t, ks, start, v)
    ensures first + |asked| <= |outs|
    ensures forall k | 0 <= k < |asked| ::
              && asked[k] in n.view && outs[first + k].dst == n.view[asked[k]].info.addr
              && outs[first + k].event.body == PingReq(t)
              && Carries(n, AgedUpTo(n.view, i.now, t), outs[first + k].event)
    ensures forall k | 0 <= k < |outs| && !(first <= k < first + |asked|) :: outs[k].event.body != PingReq(t)
    ensures start == 0 && |ks| <= 5 ==> forall v | AliveThen(n.view, i.now, t, v) :: v in asked
  {
    hide AskedAll, AskedAbout, AskedAt, Members, GossipOf, ToAsk, Step, Beat, BeatSends, Carries, AgedUpTo;
    BeatAges(n, i, n', outs, t);
    var suspects := Members(NewlySuspect(n.view, i.now));
    var p := BeatRequests(n, i, n', outs);
    var reqs := outs[p..];
    assert t in suspects;
    var j :| 0 <= j < |suspects| && suspects[j] == t;
    var f, l := Segment(n, i.now, suspects, reqs, j);
    first := p + f;
    ks, start, asked := AskedMembers(n, i.now, t, reqs[f..l]);
    forall k | 0 <= k < |asked|
      ensures outs[first + k].dst == n.view[asked[k]].info.addr && outs[first + k].event.body == PingReq(t)
      ensures Carries(n, AgedUpTo(n.view, i.now, t), outs[first + k].event)
    {
      assert reqs[f..l][k] == reqs[f + k] == outs[first + k];
    }
    forall k | 0 <= k < |outs| && !(first <= k < first + |asked|)
      ensures outs[k].event.body != PingReq(t)
    {
      if k >= p {
        assert outs[k] == reqs[k - p];
      }
    }
    if start == 0 && |ks| <= 5 {
      forall v | AliveThen(n.view, i.now, t, v)
        ensures v in asked
      {
        EverybodyInWindow(n.view, i.now, t, ks, v);
      }
    }
  }

  /** An effective heartbeat sends at most one PING, and then all PING_REQs. */
  lemma BeatRequests(n: Node, i: Input, n': Node, outs: seq<Packet>) returns (p: nat)
    requires Step(n, i, n', outs) && i.Tick? && Effective(n, i.now)
    ensures p <= |outs| && p <= 1 && AskedAll(n, i.now, Members(NewlySuspect(n.view, i.now)), outs[p..])
    ensures forall k | 0 <= k < p :: outs[k].event.body == Ping
  {
    hide AskedAll, PingReqSent, Members, GossipOf, NextProbe, RoundFor, Aged;
    var probe := NextProbe(n.view, i.round).0;
    p := if probe.Some? && probe.value in n.view then 1 else 0;
    assert p == 1 ==> outs[..1] == [outs[0]];
  }

  lemma BeatAges(n: Node, i: Input, n': Node, outs: seq<Packet>, t: Uuid)
    requires Step(n, i, n', outs) && i.Tick? && Effective(n, i.now)
    requires t in n.view && n.view[t].info.status == Alive && n.view[t].info.lastSeen <= i.now - 60
    ensures t in n'.view && n'.view[t].info == n.view[t].info.(status := Suspect)
    ensures t in NewlySuspect(n.view, i.now)
  {
    hide BeatSends, NextProbe, RoundFor;
  }

  lemma EverybodyInWindow(view: View, now: Time, t: Uuid, ks: seq<Uuid>, v: Uuid)
    requires 0 < |ks| <= 5 && v in ks && AliveThen(view, now, t, v)
    ensures ToAsk(view, now, t, ks, 0, v)
  {
    var j :| 0 <= j < |ks| && ks[j] == v;
    var k := if j == 0 then |ks| else j;
    assert After(ks, 0, k) == v;
  }

  // ---------- Joining and leaving ----------

  /** A LEAVE without gossip goes to min(size, 5) different members, and a request to join to the given address. */
  lemma RequestsToOthers(n: Node, i: Input, n': Node, outs: seq<Packet>) returns (rs: seq<Uuid>)
    requires Step(n, i, n', outs) && (i.AskLeave? || i.AskJoin?)
    ensures n' == n && forall k | 0 <= k < |outs| ::
              && outs[k].event.hdr.uuid == n.uuid && outs[k].event.hdr.incarnation == n.incarnation
              && outs[k].event.gossip == []
    ensures i.AskJoin? ==> |outs| == 1 && outs[0].dst == i.dst && outs[0].event.body == Join(n.uuid, [])
    ensures i.AskLeave? ==>
              && |rs| == |outs| == Min(|n.view|, 5) && NoDuplicates(rs)
              && forall k | 0 <= k < |rs| ::
                   rs[k] in n.view && outs[k].dst == n.view[rs[k]].info.addr && outs[k].event.body == Leave(0)
  {
    rs := [];
    if i.AskLeave? {
      rs :| |rs| == |outs| && NoDuplicates(rs)
            && forall k | 0 <= k < |outs| :: rs[k] in n.view && outs[k].dst == n.view[rs[k]].info.addr;
    }
  }
}
