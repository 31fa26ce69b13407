/**
 Addresses in a cluster whose packets arrive where they are sent. Every record of a node that is up holds the
 address of its own node, exactly as long as no ACK that introduces a node is passed on to the witness of
 another one, with gossip that leaves out the new record. In a cluster of at most ten nodes it always is so.
 */
module Addresses {
  import opened Types
  import opened Protocol
  import opened NodeFacts
  import opened Cluster

  /** The address of every node; no two are the same and none is empty. */
  type Directory = d: map<Uuid, Address> | ValidDirectory(d) witness map[]

  predicate ValidDirectory(d: map<Uuid, Address>) {
    && (forall p | p in d :: d[p] != [])
    && (forall p, q | p in d && q in d :: d[p] == d[q] ==> p == q)
  }

  /** A pair of an address and a node that whoever lives at the address knows, if it is up. */
  type Known = iset<(Address, Uuid)>

  predicate InfoTrue(x: NodeInfo, d: Directory) {
    x.uuid in d && x.addr == d[x.uuid]
  }

  /** Records hold true addresses, and a witness that is up knows the node it is a witness for. */
  ghost predicate ViewTrue(view: View, d: Directory, known: Known) {
    forall u | u in view ::
      InfoTrue(view[u].info, d) && (view[u].witnessAddr != [] ==> (view[u].witnessAddr, u) in known)
  }

  predicate InfosTrue(g: seq<NodeInfo>, d: Directory) {
    forall i | 0 <= i < |g| :: InfoTrue(g[i], d)
  }

  ghost predicate BodyTrue(sender: Uuid, dst: Address, b: Body, d: Directory, known: Known) {
    match b
    case Join(u, a) => u in d && (a == d[u] || (a == [] && u == sender))
    case Ack(u) => u == sender || (dst, u) in known || (u in d && dst == d[u])
    case PingReq(u) => sender in d && (d[sender], u) in known
    case _ => true
  }

  ghost predicate PacketTrue(sender: Uuid, dst: Address, e: Event, d: Directory, known: Known) {
    BodyTrue(sender, dst, e.body, d, known) && InfosTrue(e.gossip, d)
  }

  /** An ACK that stops whoever it is sent to, or is for that node itself, before its claims can do harm. */
  ghost predicate Stops(dst: Address, e: Event, d: Directory) {
    e.body.Ack? && forall q | q in d && d[q] == dst :: Read(q, e.gossip) != e.gossip
  }

  /** A packet that cannot make a node that is up hold a wrong address. */
  ghost predicate Harmless(sender: Uuid, dst: Address, e: Event, d: Directory, known: Known) {
    PacketTrue(sender, dst, e, d, known) || Stops(dst, e, d)
  }

  /** The node, which is up, knows exactly what `known` says of its address. */
  ghost predicate Agrees(n: Node, d: Directory, known: Known) {
    n.uuid in d && forall u: Uuid :: (d[n.uuid], u) in known <==> u in n.view
  }

  /** What is known after a step of one node is what was known before and what the node knows now. */
  ghost predicate Learned(n: Node, n': Node, d: Directory, known: Known, known': Known) {
    n.uuid in d && forall w: Address, u: Uuid ::
      (w, u) in known' <==> (w, u) in known || (w == d[n.uuid] && (u in n'.view || !n'.life.Up?))
  }

  ghost predicate AllHarmless(sender: Uuid, outs: seq<Packet>, d: Directory, known: Known) {
    forall k | 0 <= k < |outs| :: Harmless(sender, outs[k].dst, outs[k].event, d, known)
  }

  /**
   The ACK introduces a node here and is passed on, not to a witness for that node, but to one that is up, does
   not know it, and is neither the node itself nor this one; and the gossip of the copy does not stop it.
   */
  ghost predicate Misleads(n: Node, i: Input, outs: seq<Packet>, d: Directory, known: Known) {
    i.Deliver? && i.e.body.Ack? && n.uuid in d &&
    var n1, u := Notice(n, i.e.hdr), i.e.body.ackUuid;
    && !n1.life.Aborted? && u !in n1.view && Relays(n1, u, i.e.hdr, i.src)
    && var w := n1.view[AckSlot(n1.view, u)].witnessAddr;
       && u in d && w != d[u] && w != d[n.uuid] && (w, u) !in known
       && |outs| == 1 && !Stops(w, outs[0].event, d)
  }

  // ---------- One step ----------

  lemma {:induction false} GossipTrue(n: Node, g: seq<NodeInfo>, d: Directory, known: Known)
    requires WellFormed(n) && ViewTrue(n.view, d, known) && InfosTrue(g, d)
    ensures ViewTrue(Gossip(n, g).view, d, known)
    decreases |g|
  {
    if |g| > 0 && n.life.Up? {
      GossipGrows(n, [g[0]]);
      GossipTrue(GossipOne(n, g[0]), g[1..], d, known);
    }
  }

  lemma NoticeTrue(n: Node, h: Header, d: Directory, known: Known)
    requires ViewTrue(n.view, d, known)
    ensures ViewTrue(Notice(n, h).view, d, known) && Notice(n, h).view.Keys == n.view.Keys
    ensures Notice(n, h).uuid == n.uuid
  {
  }

  /** `n` receives an event that `sender` sent to it. */
  lemma HandleTrue(n: Node, e: Event, sender: Uuid, d: Directory, known: Known)
    requires WellFormed(n) && ViewTrue(n.view, d, known) && Agrees(n, d, known) && sender in d
    requires PacketTrue(sender, d[n.uuid], e, d, known)
    ensures ViewTrue(Handle(n, e, d[sender]).view, d, known)
  {
    hide Greatest;
    if e.body.Ack? && e.body.ackUuid != n.uuid {
      AckTrue(n, e, sender, d, known);
    }
  }

  /** Whoever sends an ACK to a node that does not know the node it is for, sends its own. */
  lemma AckTrue(n: Node, e: Event, sender: Uuid, d: Directory, known: Known)
    requires WellFormed(n) && ViewTrue(n.view, d, known) && Agrees(n, d, known) && sender in d
    requires PacketTrue(sender, d[n.uuid], e, d, known) && e.body.Ack? && e.body.ackUuid != n.uuid
    ensures e.body.ackUuid !in n.view ==> e.body.ackUuid == sender
    ensures ViewTrue(AckKnown(n, e.body.ackUuid, e.hdr, d[sender]).view, d, known)
  {
  }

  lemma BuiltTrue(n: Node, b: Body, dst: Address, e: Event, d: Directory, known: Known)
    requires Built(n, b, e) && ViewTrue(n.view, d, known) && BodyTrue(n.uuid, dst, b, d, known)
    ensures PacketTrue(n.uuid, dst, e, d, known)
  {
  }

  lemma LearnedGrows(n: Node, n': Node, d: Directory, known: Known, known': Known)
    requires Learned(n, n', d, known, known')
    ensures known <= known'
  {
    forall t | t in known
      ensures t in known'
    {
      assert t == (t.0, t.1);
    }
  }

  lemma AckLearns(n: Node, e: Event, src: Address)
    requires WellFormed(n) && e.body.Ack? && e.body.ackUuid != n.uuid && !Notice(n, e.hdr).life.Aborted?
    ensures e.body.ackUuid in Process(n, e, src).view
  {
    hide Gossip, Notice;
    var n1 := Notice(n, e.hdr);
    NoticeGrows(n, e.hdr);
    HandleGrows(n1, e, src);
    GossipGrows(Handle(n1, e, src), e.gossip);
  }

  /** Gossip that is not read to its end leaves the node stopped, and any other leaves it up. */
  lemma {:induction false} GossipStopsIff(n: Node, g: seq<NodeInfo>)
    requires n.life.Up?
    ensures Gossip(n, g).life.Up? <==> Read(n.uuid, g) == g
    decreases |g|
  {
    if |g| > 0 {
      var m := GossipOne(n, g[0]);
      if m.life.Up? {
        GossipStopsIff(m, g[1..]);
        assert Read(n.uuid, g) == [g[0]] + Read(n.uuid, g[1..]);
        assert g == [g[0]] + g[1..];
      } else {
        assert Gossip(m, g[1..]) == m;
      }
    }
  }

  lemma {:induction false} UnusableStops(self: Uuid, g: seq<NodeInfo>, k: nat)
    requires k < |g| && !g[k].Sane()
    ensures Read(self, g) != g
  {
    if k > 0 {
      UnusableStops(self, g[1..], k - 1);
      assert ([g[0]] + Read(self, g[1..]))[1..] == Read(self, g[1..]);
    }
  }

  /** The gossip of a copy stops whoever reads it, or says nothing of the node that is introduced. */
  lemma CopyTrue(n: Node, e: Event, u: Uuid, h: Header, src: Address, d: Directory, known: Known)
    requires WellFormed(n) && ViewTrue(n.view, d, known) && u !in n.view && e.body.Ack?
    requires GossipOf(AckKnown(n, u, h, src).view, e.gossip)
    ensures InfosTrue(e.gossip, d) || forall dst :: Stops(dst, e, d)
  {
    if k: nat :| k < |e.gossip| && e.gossip[k].uuid == u {
      assert !e.gossip[k].Sane();
      forall q
        ensures Read(q, e.gossip) != e.gossip
      {
        UnusableStops(q, e.gossip, k);
      }
    }
  }

  /** An ACK that is passed on does no harm exactly if it does not mislead. */
  lemma RelayHarmlessIff(n: Node, e: Event, src: Address, outs: seq<Packet>, d: Directory, known: Known, known': Known)
    requires WellFormed(n) && ViewTrue(n.view, d, known) && Agrees(n, d, known) && e.body.Ack? && e.body.ackUuid in d
    requires Learned(n, Process(n, e, src), d, known, known')
    requires !Notice(n, e.hdr).life.Aborted? && Relays(Notice(n, e.hdr), e.body.ackUuid, e.hdr, src)
    requires Replies(n, e, src, outs)
    ensures AllHarmless(n.uuid, outs, d, known') <==> !Misleads(n, Deliver(e, src), outs, d, known)
  {
    hide Handle, Notice, GossipOf, InfosTrue, ViewTrue, Process, Relays, AckKnown, Stops;
    var n1, u := Notice(n, e.hdr), e.body.ackUuid;
    NoticeGrows(n, e.hdr);
    NoticeTrue(n, e.hdr, d, known);
    RelaySlot(n1, u, e.hdr, src, d, known);
    AckLearns(n, e, src);
    LearnedGrows(n, Process(n, e, src), d, known, known');
    if u in n1.view {
      TrueGrows(n1.view, 0, [], e, d, known, known');
      BuiltTrue(n1, Ack(u), outs[0].dst, outs[0].event, d, known');
    } else {
      CopyTrue(n1, outs[0].event, u, e.hdr, src, d, known);
    }
  }

  lemma RelaySlot(n: Node, u: Uuid, h: Header, src: Address, d: Directory, known: Known)
    requires Relays(n, u, h, src) && ViewTrue(n.view, d, known)
    ensures AckSlot(n.view, u) in n.view && u != n.uuid && AckKnown(n, u, h, src).uuid == n.uuid
    ensures u in n.view ==> AckKnown(n, u, h, src) == n && (n.view[AckSlot(n.view, u)].witnessAddr, u) in known
  {
  }

  lemma JoinRepliesTrue(n: Node, e: Event, sender: Uuid, outs: seq<Packet>, k: nat, d: Directory, known: Known)
    requires e.body.Join? && sender in d && JoinReplies(n, e, d[sender], outs) && k < |outs|
    requires ViewTrue(n.view, d, known) && (exists dst :: PacketTrue(sender, dst, e, d, known))
    ensures PacketTrue(n.uuid, outs[k].dst, outs[k].event, d, known)
  {
    hide GossipOf;
    if k == |n.view| {
      BuiltTrue(n, Ack(n.uuid), outs[k].dst, outs[k].event, d, known);
    }
  }

  lemma RepliesTrue(n: Node, e: Event, sender: Uuid, outs: seq<Packet>, k: nat, d: Directory, known: Known)
    requires WellFormed(n) && ViewTrue(n.view, d, known) && Agrees(n, d, known) && sender in d
    requires PacketTrue(sender, d[n.uuid], e, d, known)
    requires Replies(n, e, d[sender], outs) && k < |outs| && !e.body.Ack?
    ensures PacketTrue(n.uuid, outs[k].dst, outs[k].event, d, known)
  {
    hide Handle, Notice, GossipOf, InfosTrue, JoinReplies, AckKnown, Relays, ViewTrue;
    var n1 := Notice(n, e.hdr);
    var n2 := Handle(n1, e, d[sender]);
    NoticeGrows(n, e.hdr);
    NoticeTrue(n, e.hdr, d, known);
    HandleTrue(n1, e, sender, d, known);
    HandleSelf(n1, e, d[sender]);
    match e.body
    case Ping => BuiltTrue(n1, Ack(n.uuid), outs[k].dst, outs[k].event, d, known);
    case PingReq(u) => BuiltTrue(n2, Ping, outs[k].dst, outs[k].event, d, known);
    case Join(u, a) => JoinRepliesTrue(n2, e, sender, outs, k, d, known);
    case Leave(u) => BuiltTrue(n2, Ack(n.uuid), outs[k].dst, outs[k].event, d, known);
  }

  lemma DeliverTrue(n: Node, e: Event, sender: Uuid, d: Directory, known: Known)
    requires n.life.Up? && WellFormed(n) && ViewTrue(n.view, d, known) && Agrees(n, d, known) && sender in d
    requires Harmless(sender, d[n.uuid], e, d, known) && Process(n, e, d[sender]).life.Up?
    ensures ViewTrue(Process(n, e, d[sender]).view, d, known)
  {
    hide Handle, Notice, Gossip, InfosTrue, ViewTrue, BodyTrue, Read;
    var n1 := Notice(n, e.hdr);
    NoticeGrows(n, e.hdr);
    NoticeTrue(n, e.hdr, d, known);
    if PacketTrue(sender, d[n.uuid], e, d, known) {
      HandleGrows(n1, e, d[sender]);
      HandleTrue(n1, e, sender, d, known);
      GossipTrue(Handle(n1, e, d[sender]), e.gossip, d, known);
    } else {
      StoppedTrue(n, e, d[sender]);
    }
  }

  /** A node that is up after an ACK whose gossip it does not read to its end has ignored it. */
  lemma StoppedTrue(n: Node, e: Event, src: Address)
    requires n.life.Up? && e.body.Ack? && Read(n.uuid, e.gossip) != e.gossip && Process(n, e, src).life.Up?
    ensures Process(n, e, src) == Notice(n, e.hdr)
  {
    hide Gossip, Read, AckSlot;
    var n1 := Notice(n, e.hdr);
    if !n1.life.Aborted? && e.body.ackUuid != n.uuid {
      HandleSelf(n1, e, src);
      GossipStopsIff(Handle(n1, e, src), e.gossip);
    }
  }

  lemma HalfwayTrue(n: Node, now: Time, mid: View, d: Directory, known: Known)
    requires ViewTrue(n.view, d, known) && Halfway(n.view, now, mid)
    ensures ViewTrue(mid, d, known)
  {
  }

  lemma PingReqTrue(n: Node, now: Time, p: Packet, d: Directory, known: Known)
    requires ViewTrue(n.view, d, known) && Agrees(n, d, known) && PingReqSent(n, now, p)
    ensures PacketTrue(n.uuid, p.dst, p.event, d, known)
  {
    hide GossipOf, ViewTrue, InfosTrue;
    var u, v, mid :|
      && u in NewlySuspect(n.view, now) && v in n.view && v != u
      && n.view[v].info.status == Alive && p.dst == n.view[v].info.addr
      && Halfway(n.view, now, mid) && Built(n.(view := mid), PingReq(u), p.event);
    HalfwayTrue(n, now, mid, d, known);
    BuiltTrue(n.(view := mid), PingReq(u), p.dst, p.event, d, known);
  }

  lemma TickTrue(n: Node, now: Time, round: seq<Uuid>, outs: seq<Packet>, k: nat, d: Directory, known: Known)
    requires ViewTrue(n.view, d, known) && Agrees(n, d, known) && BeatSends(n, now, round, outs) && k < |outs|
    ensures PacketTrue(n.uuid, outs[k].dst, outs[k].event, d, known)
  {
    hide PingReqSent, AskedAll, GossipOf, ViewTrue, InfosTrue;
    if PingReqSent(n, now, outs[k]) {
      PingReqTrue(n, now, outs[k], d, known);
    } else {
      assert outs[..1] == [outs[0]];
      BuiltTrue(n, Ping, outs[k].dst, outs[k].event, d, known);
    }
  }

  lemma RepliesHarmlessIff(n: Node, e: Event, sender: Uuid, outs: seq<Packet>, d: Directory,
                           known: Known, known': Known)
    requires WellFormed(n) && ViewTrue(n.view, d, known) && Agrees(n, d, known) && sender in d
    requires Harmless(sender, d[n.uuid], e, d, known) && Replies(n, e, d[sender], outs)
    requires e.body.Ack? ==> e.body.ackUuid in d
    requires Learned(n, Process(n, e, d[sender]), d, known, known')
    ensures AllHarmless(n.uuid, outs, d, known') <==> !Misleads(n, Deliver(e, d[sender]), outs, d, known)
  {
    hide Process, Handle, Notice, ViewTrue, PacketTrue, Built, JoinReplies, Relays;
    LearnedGrows(n, Process(n, e, d[sender]), d, known, known');
    if e.body.Ack? {
      if outs != [] {
        RelayHarmlessIff(n, e, d[sender], outs, d, known, known');
      }
    } else {
      forall k | 0 <= k < |outs|
        ensures PacketTrue(n.uuid, outs[k].dst, outs[k].event, d, known')
      {
        RepliesTrue(n, e, sender, outs, k, d, known);
        TrueGrows(map[], n.uuid, outs[k].dst, outs[k].event, d, known, known');
      }
    }
  }

  /**
   If all is well before a step, the view is well after it if the node is up, and what it sends is harmless
   exactly if the step misleads nobody.
   */
  lemma StepHarmlessIff(n: Node, i: Input, n': Node, outs: seq<Packet>, sender: Uuid, d: Directory,
                        known: Known, known': Known)
    requires WellFormed(n) && Step(n, i, n', outs) && ViewTrue(n.view, d, known) && Agrees(n, d, known)
    requires i.Deliver? ==> sender in d && i.src == d[sender] && Harmless(sender, d[n.uuid], i.e, d, known)
    requires i.Deliver? && i.e.body.Ack? ==> i.e.body.ackUuid in d
    requires Learned(n, n', d, known, known')
    ensures n'.life.Up? ==> ViewTrue(n'.view, d, known')
    ensures AllHarmless(n.uuid, outs, d, known') <==> !Misleads(n, i, outs, d, known)
  {
    hide Process, Replies, BeatSends, ViewTrue, Beat, RoundFor, Misleads, PacketTrue, JoinSent, LeaveSent, Stops;
    LearnedGrows(n, n', d, known, known');
    match i
    case Deliver(e, src) =>
      if n'.life.Up? {
        DeliverTrue(n, e, sender, d, known);
      }
      TrueGrows(n'.view, 0, [], e, d, known, known');
      RepliesHarmlessIff(n, e, sender, outs, d, known, known');
    case _ =>
      OwnStepTrue(n, i, n', outs, d, known);
      forall k | 0 <= k < |outs|
        ensures PacketTrue(n.uuid, outs[k].dst, outs[k].event, d, known')
      {
        TrueGrows(map[], n.uuid, outs[k].dst, outs[k].event, d, known, known');
      }
      TrueGrows(n'.view, 0, [], Event(Header(0, 0, 0), Ping, []), d, known, known');
      NotMisled(n, i, outs, d, known);
  }

  lemma NotMisled(n: Node, i: Input, outs: seq<Packet>, d: Directory, known: Known)
    requires !i.Deliver?
    ensures !Misleads(n, i, outs, d, known)
  {
  }

  lemma OwnStepTrue(n: Node, i: Input, n': Node, outs: seq<Packet>, d: Directory, known: Known)
    requires !i.Deliver? && Step(n, i, n', outs) && ViewTrue(n.view, d, known) && Agrees(n, d, known)
    ensures ViewTrue(n'.view, d, known)
    ensures forall k | 0 <= k < |outs| :: PacketTrue(n.uuid, outs[k].dst, outs[k].event, d, known)
  {
    hide BeatSends, Beat, RoundFor, PacketTrue, ViewTrue, GossipOf;
    if i.Tick? {
      BeatTrue(n, i.now, i.round, d, known);
    }
    forall k | 0 <= k < |outs|
      ensures PacketTrue(n.uuid, outs[k].dst, outs[k].event, d, known)
    {
      if i.Tick? {
        TickTrue(n, i.now, i.round, outs, k, d, known);
      } else {
        BareTrue(n.uuid, outs[k].dst, outs[k].event, d, known);
      }
    }
  }

  lemma BareTrue(p: Uuid, dst: Address, e: Event, d: Directory, known: Known)
    requires p in d && e.gossip == [] && (e.body == Join(p, []) || e.body.Leave?)
    ensures PacketTrue(p, dst, e, d, known)
  {
  }

  lemma BeatTrue(n: Node, now: Time, round: seq<Uuid>, d: Directory, known: Known)
    requires ViewTrue(n.view, d, known)
    ensures ViewTrue(Beat(n, now, round).view, d, known)
  {
    if Effective(n, now) {
      HalfwayTrue(n, now, Aged(n.view, now), d, known);
    }
  }

  // ---------- A cluster ----------

  ghost predicate KnowsAt(s: System, d: Directory, w: Address, u: Uuid) {
    exists q | q in s.nodes && q in d :: d[q] == w && (u in s.nodes[q].view || !s.nodes[q].life.Up?)
  }

  ghost function KnownIn(s: System, d: Directory): Known {
    iset p: (Address, Uuid) | KnowsAt(s, d, p.0, p.1)
  }

  /** An event is received from a node that sent it before, at the address it was sent to. */
  ghost predicate Routed(acts: seq<Action>, d: Directory, j: nat)
    requires j < |acts|
  {
    acts[j].input.Deliver? ==>
      exists i, k | 0 <= i < j && 0 <= k < |acts[i].outs| :: Sent(acts, d, i, k, j)
  }

  ghost predicate Sent(acts: seq<Action>, d: Directory, i: nat, k: nat, j: nat)
    requires i < j < |acts| && k < |acts[i].outs| && acts[j].input.Deliver?
  {
    && acts[i].p in d && acts[j].p in d
    && acts[j].input.e == OnWire(acts[i].outs[k].event)
    && acts[i].outs[k].dst == d[acts[j].p] && acts[j].input.src == d[acts[i].p]
  }

  ghost predicate NodesTrue(s: System, d: Directory) {
    forall p | p in s.nodes && s.nodes[p].life.Up? :: ViewTrue(s.nodes[p].view, d, KnownIn(s, d))
  }

  ghost predicate SentHarmless(acts: seq<Action>, m: nat, d: Directory, known: Known)
    requires m <= |acts|
  {
    forall i, k | 0 <= i < m && 0 <= k < |acts[i].outs| ::
      Harmless(acts[i].p, acts[i].outs[k].dst, acts[i].outs[k].event, d, known)
  }

  lemma KnownMeans(s: System, d: Directory, w: Address, u: Uuid)
    ensures (w, u) in KnownIn(s, d) <==> KnowsAt(s, d, w, u)
  {
  }

  lemma KnownAgrees(s: System, d: Directory, p: Uuid)
    requires p in s.nodes && p in d && s.nodes[p].uuid == p && s.nodes[p].life.Up?
    ensures Agrees(s.nodes[p], d, KnownIn(s, d))
  {
    hide KnownIn;
    forall u: Uuid
      ensures (d[p], u) in KnownIn(s, d) <==> u in s.nodes[p].view
    {
      KnownMeans(s, d, d[p], u);
      if KnowsAt(s, d, d[p], u) {
        var q :| q in s.nodes && q in d && d[q] == d[p] && (u in s.nodes[q].view || !s.nodes[q].life.Up?);
        assert q == p;
      }
    }
  }

  lemma KnownLearned(s: System, a: Action, s': System, d: Directory)
    requires Next(s, a, s') && NodeOk(s, a.p) && a.p in d && s.nodes[a.p].life.Up?
    ensures Learned(s.nodes[a.p], s'.nodes[a.p], d, KnownIn(s, d), KnownIn(s', d))
  {
    hide Step, KnownIn, Wire, SelfSuspicions;
    NextGrows(s, a, s', a.p);
    forall w: Address, u: Uuid
      ensures (w, u) in KnownIn(s', d) <==>
              (w, u) in KnownIn(s, d) || (w == d[a.p] && (u in s'.nodes[a.p].view || !s'.nodes[a.p].life.Up?))
    {
      KnownMeans(s, d, w, u);
      KnownMeans(s', d, w, u);
    }
  }

  lemma TrueGrows(view: View, p: Uuid, dst: Address, e: Event, d: Directory, known: Known, known': Known)
    requires known <= known'
    ensures ViewTrue(view, d, known) ==> ViewTrue(view, d, known')
    ensures PacketTrue(p, dst, e, d, known) ==> PacketTrue(p, dst, e, d, known')
    ensures Harmless(p, dst, e, d, known) ==> Harmless(p, dst, e, d, known')
  {
  }

  lemma OnWireHarmless(p: Uuid, dst: Address, e: Event, d: Directory, known: Known)
    requires Harmless(p, dst, e, d, known)
    ensures Harmless(p, dst, OnWire(e), d, known)
  {
  }

  lemma ActsUp(s: System, a: Action, s': System)
    requires Next(s, a, s') && Inv(s)
    ensures s.nodes[a.p].life.Up?
    ensures a.input.Deliver? && a.input.e.body.Ack? ==> a.input.e.body.ackUuid in s.nodes.Keys
  {
    hide Process, Replies, Beat, BeatSends, Wire, SelfSuspicions, NodeOk, Within;
    assert a.input.Deliver? ==> EventOk(s, a.input.e);
  }

  lemma ActionHarmlessIff(s: System, acts: seq<Action>, j: nat, s': System, d: Directory)
    requires j < |acts| && Inv(s) && Next(s, acts[j], s') && s.nodes.Keys == d.Keys
    requires NodesTrue(s, d) && SentHarmless(acts, j, d, KnownIn(s, d)) && Routed(acts, d, j)
    ensures KnownIn(s, d) <= KnownIn(s', d)
    ensures s'.nodes[acts[j].p].life.Up? ==> ViewTrue(s'.nodes[acts[j].p].view, d, KnownIn(s', d))
    ensures AllHarmless(acts[j].p, acts[j].outs, d, KnownIn(s', d)) <==>
            !Misleads(s.nodes[acts[j].p], acts[j].input, acts[j].outs, d, KnownIn(s, d))
  {
    hide Step, KnownIn, Harmless, AllHarmless, ViewTrue, Misleads, SelfSuspicions, Wire, EventOk, ViewWithin;
    var a, known, known' := acts[j], KnownIn(s, d), KnownIn(s', d);
    var n := s.nodes[a.p];
    assert NodeOk(s, a.p);
    ActsUp(s, a, s');
    KnownAgrees(s, d, a.p);
    KnownLearned(s, a, s', d);
    LearnedGrows(n, s'.nodes[a.p], d, known, known');
    if a.input.Deliver? {
      var i, k :| 0 <= i < j && 0 <= k < |acts[i].outs| && Sent(acts, d, i, k, j);
      OnWireHarmless(acts[i].p, acts[i].outs[k].dst, acts[i].outs[k].event, d, known);
      StepHarmlessIff(n, a.input, s'.nodes[a.p], a.outs, acts[i].p, d, known, known');
    } else {
      StepHarmlessIff(n, a.input, s'.nodes[a.p], a.outs, a.p, d, known, known');
    }
  }

  lemma NextHarmlessIff(s: System, acts: seq<Action>, j: nat, s': System, d: Directory)
    requires j < |acts| && Inv(s) && Next(s, acts[j], s') && s.nodes.Keys == d.Keys
    requires NodesTrue(s, d) && SentHarmless(acts, j, d, KnownIn(s, d)) && Routed(acts, d, j)
    ensures NodesTrue(s', d)
    ensures SentHarmless(acts, j + 1, d, KnownIn(s', d)) <==>
            !Misleads(s.nodes[acts[j].p], acts[j].input, acts[j].outs, d, KnownIn(s, d))
  {
    hide Step, KnownIn, Harmless, ViewTrue, Misleads, Routed, SelfSuspicions, Wire, Inv;
    var known, known' := KnownIn(s, d), KnownIn(s', d);
    var none := Event(Header(0, 0, 0), Ping, []);
    ActionHarmlessIff(s, acts, j, s', d);
    forall p | p in s'.nodes && s'.nodes[p].life.Up?
      ensures ViewTrue(s'.nodes[p].view, d, known')
    {
      TrueGrows(s'.nodes[p].view, 0, [], none, d, known, known');
    }
    forall i, k | 0 <= i < j && 0 <= k < |acts[i].outs|
      ensures Harmless(acts[i].p, acts[i].outs[k].dst, acts[i].outs[k].event, d, known')
    {
      TrueGrows(map[], acts[i].p, acts[i].outs[k].dst, acts[i].outs[k].event, d, known, known');
    }
  }

  ghost predicate TrueAt(ss: seq<System>, acts: seq<Action>, d: Directory, m: nat)
    requires m < |ss| && m <= |acts|
  {
    NodesTrue(ss[m], d) && SentHarmless(acts, m, d, KnownIn(ss[m], d))
  }

  ghost predicate MisledAt(ss: seq<System>, acts: seq<Action>, d: Directory, j: nat)
    requires j < |ss| && j < |acts|
  {
    acts[j].p in ss[j].nodes && Misleads(ss[j].nodes[acts[j].p], acts[j].input, acts[j].outs, d, KnownIn(ss[j], d))
  }

  /**
   In a run whose packets arrive where they were sent, every view of a node that is up holds the true address of
   every member, its witnesses know whom they are witnesses for, and no message on the way can change that,
   exactly as long as no step misleads.
   */
  lemma {:induction false} AddressesTrueIff(ss: seq<System>, acts: seq<Action>, m: nat, d: Directory)
    requires Run(ss, acts) && m <= |acts| && ss[0].nodes.Keys == d.Keys
    requires forall j: nat | j < m :: Routed(acts, d, j)
    ensures ss[m].nodes.Keys == d.Keys
    ensures (forall j: nat | j <= m :: TrueAt(ss, acts, d, j)) <==> (forall j: nat | j < m :: !MisledAt(ss, acts, d, j))
    decreases m
  {
    hide Next, Init, Inv, Misleads, Routed, NodesTrue, SentHarmless, KnownIn;
    if m == 0 {
      EmptyTrue(ss[0], acts, d);
    } else {
      AddressesTrueIff(ss, acts, m - 1, d);
      InvRun(ss, acts, m - 1);
      CapsRise(ss[m - 1], acts[m - 1], ss[m]);
      Actor(ss[m - 1], acts[m - 1], ss[m]);
      if TrueAt(ss, acts, d, m - 1) {
        NextHarmlessIff(ss[m - 1], acts, m - 1, ss[m], d);
        assert TrueAt(ss, acts, d, m) <==> !MisledAt(ss, acts, d, m - 1);
      } else {
        assert exists j: nat | j < m - 1 :: MisledAt(ss, acts, d, j);
      }
    }
  }

  lemma EmptyTrue(s: System, acts: seq<Action>, d: Directory)
    requires Init(s)
    ensures NodesTrue(s, d) && SentHarmless(acts, 0, d, KnownIn(s, d))
  {
  }

  // ---------- Small clusters ----------

  /** A view that is sent whole carries the record that the ACK introduces. */
  lemma WholeCopyStops(n: Node, u: Uuid, h: Header, src: Address, e: Event, dst: Address, d: Directory)
    requires u !in n.view && |n.view| + 1 < MAX_GOSSIP && e.body.Ack?
    requires GossipOf(AckKnown(n, u, h, src).view, e.gossip)
    ensures Stops(dst, e, d)
  {
    hide Members;
    var view := AckKnown(n, u, h, src).view;
    assert |view| == |n.view| + 1;
    assert u in Members(view.Keys);
    var k :| 0 <= k < |view| && Members(view.Keys)[k] == u;
    assert !e.gossip[k].Sane();
    forall q
      ensures Read(q, e.gossip) != e.gossip
    {
      UnusableStops(q, e.gossip, k);
    }
  }

  lemma SmallMisleadsNobody(n: Node, i: Input, n': Node, outs: seq<Packet>, d: Directory, known: Known)
    requires WellFormed(n) && Step(n, i, n', outs) && n.view.Keys <= d.Keys && n.uuid in d && |d| <= MAX_GOSSIP
    ensures !Misleads(n, i, outs, d, known)
  {
    hide Process, GossipOf, Beat, BeatSends, Stops, Handle, Relays, AckSlot, AckKnown, Notice;
    if Misleads(n, i, outs, d, known) {
      var n1, u := Notice(n, i.e.hdr), i.e.body.ackUuid;
      NoticeKeys(n, i.e.hdr);
      RelaysOther(n1, u, i.e.hdr, i.src);
      SmallView(n1, u, d);
      WholeCopyStops(n1, u, i.e.hdr, i.src, outs[0].event, outs[0].dst, d);
    }
  }

  lemma NoticeKeys(n: Node, h: Header)
    ensures Notice(n, h).view.Keys == n.view.Keys && Notice(n, h).uuid == n.uuid
  {
  }

  lemma SmallView(n: Node, u: Uuid, d: Directory)
    requires n.uuid !in n.view && u !in n.view && u != n.uuid
    requires n.view.Keys <= d.Keys && u in d && n.uuid in d && |d| <= MAX_GOSSIP
    ensures |n.view| + 1 < MAX_GOSSIP
  {
    var more := n.view.Keys + {u, n.uuid};
    SubsetSize(more, d.Keys);
    assert |more| == |n.view.Keys| + 2 && |n.view| == |n.view.Keys| && |d| == |d.Keys|;
  }

  lemma RelaysOther(n: Node, u: Uuid, h: Header, src: Address)
    requires Relays(n, u, h, src)
    ensures u != n.uuid
  {
  }

  /**
   In every run of at most ten nodes whose packets arrive where they were sent, every node that is up holds the
   true address of every member.
   */
  lemma {:induction false} SmallClustersTrue(ss: seq<System>, acts: seq<Action>, m: nat, d: Directory, p: Uuid, u: Uuid)
    requires Run(ss, acts) && m <= |acts| && ss[0].nodes.Keys == d.Keys && |d| <= MAX_GOSSIP
    requires forall j: nat | j < m :: Routed(acts, d, j)
    requires p in ss[m].nodes && ss[m].nodes[p].life.Up? && u in ss[m].nodes[p].view
    ensures u in d && ss[m].nodes[p].view[u].info.addr == d[u]
  {
    hide Next, Init, Inv, Routed, SentHarmless, KnownIn, Misleads;
    forall j: nat | j < m
      ensures !MisledAt(ss, acts, d, j)
    {
      NotMisledAt(ss, acts, d, j);
    }
    AddressesTrueIff(ss, acts, m, d);
    assert TrueAt(ss, acts, d, m);
    RecordsNamed(ss, acts, m, p);
  }

  lemma NotMisledAt(ss: seq<System>, acts: seq<Action>, d: Directory, j: nat)
    requires Run(ss, acts) && j < |acts| && ss[0].nodes.Keys == d.Keys && |d| <= MAX_GOSSIP
    ensures !MisledAt(ss, acts, d, j)
  {
    hide Init, Inv, Misleads, Step, KnownIn, Wire, SelfSuspicions;
    SameNodes(ss, acts, j);
    Actor(ss[j], acts[j], ss[j + 1]);
    RecordsNamed(ss, acts, j, acts[j].p);
    var s, a := ss[j], acts[j];
    assert Next(s, a, ss[j + 1]);
    SmallMisleadsNobody(s.nodes[a.p], a.input, ss[j + 1].nodes[a.p], a.outs, d, KnownIn(s, d));
  }

  lemma {:induction false} SameNodes(ss: seq<System>, acts: seq<Action>, j: nat)
    requires Run(ss, acts) && j < |ss|
    ensures ss[j].nodes.Keys == ss[0].nodes.Keys
  {
    hide Next;
    if j > 0 {
      SameNodes(ss, acts, j - 1);
      CapsRise(ss[j - 1], acts[j - 1], ss[j]);
    }
  }

  lemma RecordsNamed(ss: seq<System>, acts: seq<Action>, j: nat, p: Uuid)
    requires Run(ss, acts) && j < |ss| && p in ss[j].nodes
    ensures WellFormed(ss[j].nodes[p]) && ss[j].nodes[p].uuid == p && ss[j].nodes[p].view.Keys <= ss[j].nodes.Keys
  {
    hide Next;
    ViewsGrow(ss, acts, j, j, p);
  }

  // ---------- The failure ----------

  lemma {:induction false} GossipKeepsAddress(n: Node, g: seq<NodeInfo>, u: Uuid)
    requires u in n.view
    ensures u in Gossip(n, g).view && Gossip(n, g).view[u].info.addr == n.view[u].info.addr
    decreases |g|
  {
    if |g| > 0 && n.life.Up? {
      GossipKeepsAddress(GossipOne(n, g[0]), g[1..], u);
    }
  }

  /** A node that is up, does not know `u` and receives an ACK for it stays up and holds the address it came from. */
  lemma TakesAddress(q: Node, e: Event, src: Address)
    requires q.life.Up? && e.body.Ack? && e.body.ackUuid != q.uuid && e.body.ackUuid !in q.view
    requires Read(q.uuid, e.gossip) == e.gossip && !Notice(q, e.hdr).life.Aborted?
    ensures var q' := Process(q, e, src);
            q'.life.Up? && e.body.ackUuid in q'.view && q'.view[e.body.ackUuid].info.addr == src
  {
    hide Gossip, Read, AckSlot;
    var q1, u := Notice(q, e.hdr), e.body.ackUuid;
    var q2 := Handle(q1, e, src);
    HandleSelf(q1, e, src);
    assert q2.life.Up? && u in q2.view && q2.view[u].info.addr == src;
    GossipStopsIff(q2, e.gossip);
    GossipKeepsAddress(q2, e.gossip, u);
  }

  /**
   What a misleading ACK does: whoever receives it, unless it fails an assert on noticing the sender, stays up
   and takes the address of the sender for that of the new node.
   */
  lemma MisledTakesWrongAddress(n: Node, i: Input, n': Node, outs: seq<Packet>, q: Node, d: Directory, known: Known)
    requires WellFormed(n) && Step(n, i, n', outs) && Misleads(n, i, outs, d, known)
    requires WellFormed(q) && Agrees(q, d, known) && q.life.Up? && outs[0].dst == d[q.uuid]
    ensures var u, e := i.e.body.ackUuid, OnWire(outs[0].event);
            var q' := Process(q, e, d[n.uuid]);
            && (q'.life.Up? <==> !Notice(q, e.hdr).life.Aborted?)
            && (q'.life.Up? ==> u in q'.view && q'.view[u].info.addr == d[n.uuid] != d[u])
  {
    hide GossipOf, Gossip, Handle, Relays, AckSlot, Read;
    var e, u := OnWire(outs[0].event), i.e.body.ackUuid;
    NoticeGrows(n, i.e.hdr);
    RelaysOther(Notice(n, i.e.hdr), u, i.e.hdr, i.src);
    assert e.body == Ack(u) && u != q.uuid && u !in q.view && Read(q.uuid, e.gossip) == e.gossip;
    if !Notice(q, e.hdr).life.Aborted? {
      TakesAddress(q, e, d[n.uuid]);
    }
  }
}
