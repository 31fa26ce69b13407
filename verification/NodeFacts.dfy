/** What every step of one node keeps, whatever it is sent. */
module NodeFacts {
  import opened Types
  import opened Protocol

  /** The view is indexed by UUID and does not contain its owner. */
  predicate WellFormed(n: Node) {
    n.uuid !in n.view && forall u | u in n.view :: n.view[u].info.uuid == u
  }

  /** Members are never forgotten and no record's incarnation goes back. */
  predicate Grows(n: Node, n': Node) {
    && n'.uuid == n.uuid
    && (forall u | u in n.view :: u in n'.view && n.view[u].info.incarnation <= n'.view[u].info.incarnation)
  }

  lemma {:induction false} GossipGrows(n: Node, g: seq<NodeInfo>)
    requires WellFormed(n)
    ensures WellFormed(Gossip(n, g)) && Grows(n, Gossip(n, g))
    decreases |g|
  {
    if |g| > 0 && n.life.Up? {
      var m := GossipOne(n, g[0]);
      assert WellFormed(m) && Grows(n, m);
      GossipGrows(m, g[1..]);
    }
  }

  lemma HandleSelf(n: Node, e: Event, src: Address)
    ensures Handle(n, e, src).uuid == n.uuid && Handle(n, e, src).incarnation == n.incarnation
  {
  }

  lemma HandleGrows(n: Node, e: Event, src: Address)
    requires WellFormed(n)
    ensures WellFormed(Handle(n, e, src)) && Grows(n, Handle(n, e, src))
  {
  }

  lemma NoticeGrows(n: Node, h: Header)
    requires WellFormed(n)
    ensures WellFormed(Notice(n, h)) && Grows(n, Notice(n, h))
  {
  }

  /** Over any step the UUID set of a view only grows, incarnations never decrease, the owner stays out. */
  lemma StepGrows(n: Node, i: Input, n': Node, outs: seq<Packet>)
    requires WellFormed(n) && Step(n, i, n', outs)
    ensures WellFormed(n') && Grows(n, n')
  {
    hide Gossip, Replies, BeatSends, Handle, Notice;
    match i
    case Deliver(e, src) =>
      var n1 := Notice(n, e.hdr);
      NoticeGrows(n, e.hdr);
      HandleGrows(n1, e, src);
      GossipGrows(Handle(n1, e, src), e.gossip);
    case Tick(now, round) =>
    case AskJoin(dst) =>
    case AskLeave =>
  }

  // ---------- The gossip a node reads ----------

  /** The leading records of a gossip list that are handled before the node exits or aborts. */
  function Read(self: Uuid, g: seq<NodeInfo>): (r: seq<NodeInfo>)
    ensures r <= g
  {
    if |g| == 0 || !g[0].Sane() || (g[0].uuid == self && g[0].status == Dead) then []
    else [g[0]] + Read(self, g[1..])
  }

  function CountSuspect(self: Uuid, g: seq<NodeInfo>): nat {
    if |g| == 0 then 0
    else (if g[0].uuid == self && g[0].status == Suspect then 1 else 0) + CountSuspect(self, g[1..])
  }

  /** How many SUSPECT records about itself a node handles in a step. */
  function SelfSuspicions(n: Node, i: Input): nat {
    if i.Deliver? && !Notice(n, i.e.hdr).life.Aborted? && ReadsGossip(n, i.e)
    then CountSuspect(n.uuid, Read(n.uuid, i.e.gossip)) else 0
  }

  lemma ModAdd(a: nat, b: nat)
    ensures (a % INCARNATIONS + b) % INCARNATIONS == (a + b) % INCARNATIONS
  {
    assert a == INCARNATIONS * (a / INCARNATIONS) + a % INCARNATIONS;
  }

  lemma {:induction false} GossipIncarnation(n: Node, g: seq<NodeInfo>)
    requires n.life.Up?
    ensures Gossip(n, g).incarnation == (n.incarnation + CountSuspect(n.uuid, Read(n.uuid, g))) % INCARNATIONS
    decreases |g|
  {
    if |g| > 0 {
      var m := GossipOne(n, g[0]);
      if m.life.Up? {
        var rest := Read(n.uuid, g[1..]);
        assert Read(n.uuid, g)[1..] == rest;
        GossipIncarnation(m, g[1..]);
        ModAdd(n.incarnation + 1, CountSuspect(n.uuid, rest));
      } else {
        assert Gossip(m, g[1..]) == m;
      }
    }
  }

  lemma ProcessIncarnation(n: Node, e: Event, src: Address)
    requires n.life.Up?
    ensures Process(n, e, src).incarnation == (n.incarnation + SelfSuspicions(n, Deliver(e, src))) % INCARNATIONS
  {
    hide Gossip, CountSuspect, Read;
    var n1 := Notice(n, e.hdr);
    if !n1.life.Aborted? && ReadsGossip(n, e) {
      assert Handle(n1, e, src).life.Up?;
      GossipIncarnation(Handle(n1, e, src), e.gossip);
    }
  }

  /** A node's own incarnation counts, modulo 2^32, the suspicions about itself that it has read. */
  lemma StepIncarnation(n: Node, i: Input, n': Node, outs: seq<Packet>)
    requires Step(n, i, n', outs)
    ensures n'.incarnation == (n.incarnation + SelfSuspicions(n, i)) % INCARNATIONS
  {
    hide Process, Replies, BeatSends;
    if i.Deliver? {
      ProcessIncarnation(n, i.e, i.src);
    }
  }

  // ---------- Where records and messages come from ----------

  type Caps = map<Uuid, nat>

  /** A claim about a node of `ids`, at an incarnation within the cap for that node if it has one. */
  predicate Within(u: Uuid, incarnation: nat, ids: set<Uuid>, caps: Caps) {
    u in ids && (u in caps ==> incarnation <= caps[u])
  }

  predicate ViewWithin(view: View, ids: set<Uuid>, caps: Caps) {
    forall u | u in view :: Within(u, view[u].info.incarnation, ids, caps)
  }

  predicate InfosWithin(g: seq<NodeInfo>, ids: set<Uuid>, caps: Caps) {
    forall i | 0 <= i < |g| :: Within(g[i].uuid, g[i].incarnation, ids, caps)
  }

  predicate EventWithin(e: Event, ids: set<Uuid>, caps: Caps) {
    && Within(e.hdr.uuid, e.hdr.incarnation, ids, caps)
    && InfosWithin(e.gossip, ids, caps)
    && |e.gossip| <= MAX_GOSSIP
    && (e.body.Ack? ==> e.body.ackUuid in ids)
    && (e.body.Join? ==> e.body.joinUuid == e.hdr.uuid && e.gossip == [])
    && (e.body.Leave? ==> e.body.leaveUuid == 0)
  }

  lemma {:induction false} GossipWithin(n: Node, g: seq<NodeInfo>, ids: set<Uuid>, caps: Caps)
    requires ViewWithin(n.view, ids, caps) && InfosWithin(g, ids, caps)
    ensures ViewWithin(Gossip(n, g).view, ids, caps)
    decreases |g|
  {
    if |g| > 0 && n.life.Up? {
      GossipWithin(GossipOne(n, g[0]), g[1..], ids, caps);
    }
  }

  lemma BuiltWithin(n: Node, b: Body, e: Event, ids: set<Uuid>, caps: Caps)
    requires Built(n, b, e) && !b.Join? && !b.Leave? && ViewWithin(n.view, ids, caps)
    requires Within(n.uuid, n.incarnation, ids, caps)
    requires b.Ack? ==> b.ackUuid in ids
    ensures EventWithin(e, ids, caps)
  {
  }

  lemma HandleWithin(n: Node, e: Event, src: Address, ids: set<Uuid>, caps: Caps)
    requires ViewWithin(n.view, ids, caps) && EventWithin(e, ids, caps)
    ensures ViewWithin(Handle(n, e, src).view, ids, caps)
  {
  }

  lemma AckKnownWithin(n: Node, u: Uuid, h: Header, src: Address, ids: set<Uuid>, caps: Caps)
    requires ViewWithin(n.view, ids, caps) && u in ids
    ensures ViewWithin(AckKnown(n, u, h, src).view, ids, caps)
  {
  }

  lemma JoinRepliesWithin(n: Node, e: Event, src: Address, outs: seq<Packet>, k: nat, ids: set<Uuid>, caps: Caps)
    requires e.body.Join? && JoinReplies(n, e, src, outs) && k < |outs|
    requires ViewWithin(n.view, ids, caps) && EventWithin(e, ids, caps)
    requires Within(n.uuid, n.incarnation, ids, caps)
    ensures EventWithin(outs[k].event, ids, caps)
  {
    hide GossipOf;
    if k == |n.view| {
      BuiltWithin(n, Ack(n.uuid), outs[k].event, ids, caps);
    }
  }

  lemma RepliesWithin(n: Node, e: Event, src: Address, outs: seq<Packet>, k: nat, ids: set<Uuid>, caps: Caps)
    requires Replies(n, e, src, outs) && k < |outs|
    requires ViewWithin(Notice(n, e.hdr).view, ids, caps) && EventWithin(e, ids, caps)
    requires Within(n.uuid, n.incarnation, ids, caps) && (e.body.Ack? ==> e.body.ackUuid in ids)
    ensures EventWithin(outs[k].event, ids, caps)
  {
    var n1 := Notice(n, e.hdr);
    var n2 := Handle(n1, e, src);
    HandleWithin(n1, e, src, ids, caps);
    HandleSelf(n1, e, src);
    hide Handle, JoinReplies, GossipOf, ViewWithin, EventWithin;
    match e.body
    case Ping => BuiltWithin(n1, Ack(n.uuid), outs[k].event, ids, caps);
    case PingReq(u) => BuiltWithin(n2, Ping, outs[k].event, ids, caps);
    case Ack(u) =>
      AckKnownWithin(n1, u, e.hdr, src, ids, caps);
      BuiltWithin(AckKnown(n1, u, e.hdr, src), Ack(u), outs[k].event, ids, caps);
    case Join(u, a) => JoinRepliesWithin(n2, e, src, outs, k, ids, caps);
    case Leave(u) => BuiltWithin(n2, Ack(n.uuid), outs[k].event, ids, caps);
  }

  lemma DeliverWithin(n: Node, e: Event, src: Address, n': Node, outs: seq<Packet>, ids: set<Uuid>, caps: Caps)
    requires WellFormed(n) && Step(n, Deliver(e, src), n', outs)
    requires ViewWithin(n.view, ids, caps) && EventWithin(e, ids, caps)
    requires Within(n.uuid, n.incarnation, ids, caps)
    ensures ViewWithin(n'.view, ids, caps)
    ensures forall k | 0 <= k < |outs| :: EventWithin(outs[k].event, ids, caps)
  {
    hide Handle, Gossip, Replies;
    var n1 := Notice(n, e.hdr);
    HandleWithin(n1, e, src, ids, caps);
    GossipWithin(Handle(n1, e, src), e.gossip, ids, caps);
    forall k | 0 <= k < |outs|
      ensures EventWithin(outs[k].event, ids, caps)
    {
      RepliesWithin(n, e, src, outs, k, ids, caps);
    }
  }

  lemma PingReqBuilt(n: Node, now: Time, p: Packet) returns (u: Uuid, mid: View)
    requires PingReqSent(n, now, p)
    ensures Halfway(n.view, now, mid) && Built(n.(view := mid), PingReq(u), p.event)
  {
    var v: Uuid;
    u, v, mid :|
      && u in NewlySuspect(n.view, now) && v in n.view && v != u
      && n.view[v].info.status == Alive && p.dst == n.view[v].info.addr
      && Halfway(n.view, now, mid) && Built(n.(view := mid), PingReq(u), p.event);
  }

  lemma PingReqWithin(n: Node, now: Time, p: Packet, ids: set<Uuid>, caps: Caps)
    requires PingReqSent(n, now, p)
    requires ViewWithin(n.view, ids, caps) && Within(n.uuid, n.incarnation, ids, caps)
    ensures EventWithin(p.event, ids, caps)
  {
    hide PingReqSent, AskedAll, GossipOf, EventWithin;
    var u, mid := PingReqBuilt(n, now, p);
    BuiltWithin(n.(view := mid), PingReq(u), p.event, ids, caps);
  }

  lemma TickWithin(n: Node, now: Time, round: seq<Uuid>, n': Node, outs: seq<Packet>, ids: set<Uuid>, caps: Caps)
    requires Step(n, Tick(now, round), n', outs)
    requires ViewWithin(n.view, ids, caps) && Within(n.uuid, n.incarnation, ids, caps)
    ensures ViewWithin(n'.view, ids, caps)
    ensures forall k | 0 <= k < |outs| :: EventWithin(outs[k].event, ids, caps)
  {
    hide PingReqSent, AskedAll, GossipOf, RoundFor, EventWithin;
    forall k | 0 <= k < |outs|
      ensures EventWithin(outs[k].event, ids, caps)
    {
      if PingReqSent(n, now, outs[k]) {
        PingReqWithin(n, now, outs[k], ids, caps);
      } else {
        assert k == 0 && outs[..1][0] == outs[0];
        BuiltWithin(n, Ping, outs[k].event, ids, caps);
      }
    }
  }

  /** Records and messages a step creates stay within the same identities and caps as its inputs. */
  lemma StepWithin(n: Node, i: Input, n': Node, outs: seq<Packet>, ids: set<Uuid>, caps: Caps)
    requires WellFormed(n) && Step(n, i, n', outs)
    requires ViewWithin(n.view, ids, caps) && Within(n.uuid, n.incarnation, ids, caps)
    requires i.Deliver? ==> EventWithin(i.e, ids, caps)
    ensures ViewWithin(n'.view, ids, caps)
    ensures forall k | 0 <= k < |outs| :: EventWithin(outs[k].event, ids, caps)
  {
    hide Process, Replies, Beat, BeatSends;
    match i
    case Deliver(e, src) => DeliverWithin(n, e, src, n', outs, ids, caps);
    case Tick(now, round) => TickWithin(n, now, round, n', outs, ids, caps);
    case AskJoin(dst) =>
    case AskLeave =>
  }
}
