/**
 The asserts of swim_state_notice(), swim_process_gossip() and swim_process_join(). They can fail: an ACK
 that introduces a node below a known one leaves its record UNKNOWN. Without such ACKs, and with positive
 clock readings, they never do.
 */
module Health {
  import opened Types
  import opened Protocol
  import opened NodeFacts
  import opened Cluster

  predicate SaneView(view: View) {
    forall u | u in view :: view[u].info.Sane()
  }

  predicate SaneInfos(g: seq<NodeInfo>) {
    forall i | 0 <= i < |g| :: g[i].Sane()
  }

  /** An event that no assert of its receiver objects to. */
  predicate SaneEvent(e: Event) {
    e.hdr.time > 0 && SaneInfos(e.gossip)
  }

  predicate Healthy(s: System) {
    && (forall p | p in s.nodes :: !s.nodes[p].life.Aborted? && SaneView(s.nodes[p].view))
    && (forall e | e in s.net :: SaneEvent(e))
  }

  /** An ACK for a node that is unknown here and below some known node in UUID order. */
  predicate IntroducesBelow(n: Node, e: Event) {
    && e.body.Ack? && e.body.ackUuid != n.uuid && e.body.ackUuid !in n.view
    && exists v | v in n.view :: e.body.ackUuid < v
  }

  predicate BadAck(n: Node, i: Input) {
    i.Deliver? && IntroducesBelow(n, i.e)
  }

  /** Clocks whose reading is positive once it has been on the wire. */
  predicate ClocksPositive(outs: seq<Packet>) {
    forall k | 0 <= k < |outs| :: OnWire(outs[k].event).hdr.time > 0
  }

  lemma NoticeSane(n: Node, h: Header)
    requires n.life.Up? && SaneView(n.view) && h.time > 0
    ensures Notice(n, h).life.Up? && SaneView(Notice(n, h).view)
    ensures Notice(n, h).uuid == n.uuid && Notice(n, h).view.Keys == n.view.Keys
  {
  }

  lemma {:induction false} GossipSane(n: Node, g: seq<NodeInfo>)
    requires n.life.Up? && SaneView(n.view) && SaneInfos(g)
    ensures !Gossip(n, g).life.Aborted? && SaneView(Gossip(n, g).view)
    decreases |g|
  {
    if |g| > 0 {
      var m := GossipOne(n, g[0]);
      if m.life.Up? {
        GossipSane(m, g[1..]);
      } else {
        assert Gossip(m, g[1..]) == m;
      }
    }
  }

  lemma {:induction false} GossipAbortsIff(n: Node, g: seq<NodeInfo>)
    requires n.life.Up?
    ensures Gossip(n, g).life.Aborted? <==> |Read(n.uuid, g)| < |g| && !g[|Read(n.uuid, g)|].Sane()
    decreases |g|
  {
    if |g| > 0 {
      var m := GossipOne(n, g[0]);
      if m.life.Up? {
        GossipAbortsIff(m, g[1..]);
        assert Read(n.uuid, g) == [g[0]] + Read(n.uuid, g[1..]);
      } else {
        assert Gossip(m, g[1..]) == m;
      }
    }
  }

  /**
   The record of the sender is unusable, the event is a JOIN of a new node without a positive time, or the
   gossip is read and the record that ends the loop is unusable.
   */
  predicate Fails(n: Node, i: Input) {
    && i.Deliver?
    && (|| (i.e.hdr.uuid in n.view && !n.view[i.e.hdr.uuid].info.Sane())
        || (i.e.body.Join? && i.e.body.joinUuid != n.uuid && i.e.body.joinUuid !in n.view && i.e.hdr.time <= 0)
        || (ReadsGossip(n, i.e) && |Read(n.uuid, i.e.gossip)| < |i.e.gossip|
            && !i.e.gossip[|Read(n.uuid, i.e.gossip)|].Sane()))
  }

  /** Exactly when an assert fails in a step. */
  lemma AbortsIff(n: Node, i: Input, n': Node, outs: seq<Packet>)
    requires WellFormed(n) && Step(n, i, n', outs)
    ensures n'.life.Aborted? <==> Fails(n, i)
  {
    hide Gossip, Replies, BeatSends, Read;
    if i.Deliver? {
      var n1 := Notice(n, i.e.hdr);
      HandleSelf(n1, i.e, i.src);
      if n1.life.Up? && ReadsGossip(n, i.e) {
        GossipAbortsIff(Handle(n1, i.e, i.src), i.e.gossip);
      }
    }
  }

  /** Exactly an ACK that introduces a node below a known one leaves an unusable record. */
  lemma HandleSane(n: Node, e: Event, src: Address)
    requires n.life.Up? && SaneView(n.view) && SaneEvent(e)
    ensures Handle(n, e, src).life.Up?
    ensures SaneView(Handle(n, e, src).view) <==> !IntroducesBelow(n, e)
    ensures IntroducesBelow(n, e) ==>
              var v := Handle(n, e, src).view;
              e.body.ackUuid in v && v[e.body.ackUuid].info.status == Unknown && v[e.body.ackUuid].info.incarnation == 0
  {
    if e.body.Ack? && e.body.ackUuid != n.uuid && e.body.ackUuid !in n.view {
      var u, slot := e.body.ackUuid, AckSlot(n.view, e.body.ackUuid);
      var r := Handle(n, e, src).view[u];
      if IntroducesBelow(n, e) {
        assert slot != u;
        assert r.info.status == Unknown;
      } else {
        assert slot == u;
        assert r.info.Sane();
      }
    }
  }

  /** An UNKNOWN record at incarnation 0 is mended only by gossip at a higher incarnation. */
  lemma {:induction false} GossipMends(n: Node, g: seq<NodeInfo>, u: Uuid)
    requires n.life.Up? && u != n.uuid && u in n.view
    requires n.view[u].info.status == Unknown && n.view[u].info.incarnation == 0 && n.view[u].info.lastSeen > 0
    ensures u in Gossip(n, g).view
    ensures Gossip(n, g).view[u].info.Sane() <==>
              exists x | x in Read(n.uuid, g) :: x.uuid == u && x.incarnation > 0
    decreases |g|
  {
    if |g| > 0 {
      var m := GossipOne(n, g[0]);
      if !m.life.Up? {
        assert Gossip(m, g[1..]) == m;
        assert Read(n.uuid, g) == [];
      } else {
        var rest := Read(n.uuid, g[1..]);
        assert Read(n.uuid, g) == [g[0]] + rest;
        if g[0].uuid == u && g[0].incarnation > 0 {
          assert g[0] in Read(n.uuid, g);
          GossipKeepsSane(m, g[1..], u);
        } else {
          GossipMends(m, g[1..], u);
          assert forall x | x in Read(n.uuid, g) :: x == g[0] || x in rest;
        }
      }
    }
  }

  lemma {:induction false} GossipKeepsSane(n: Node, g: seq<NodeInfo>, u: Uuid)
    requires u in n.view && n.view[u].info.Sane()
    ensures u in Gossip(n, g).view && Gossip(n, g).view[u].info.Sane()
    decreases |g|
  {
    if |g| > 0 && n.life.Up? {
      GossipKeepsSane(GossipOne(n, g[0]), g[1..], u);
    }
  }

  /** The ACK's own gossip makes up for the unusable record it introduces. */
  predicate Mended(n: Node, e: Event) {
    e.body.Ack? && exists x | x in Read(n.uuid, e.gossip) :: x.uuid == e.body.ackUuid && x.incarnation > 0
  }

  lemma {:induction false} GossipSaneElsewhere(n: Node, g: seq<NodeInfo>, u: Uuid)
    requires n.life.Up? && SaneInfos(g) && forall v | v in n.view && v != u :: n.view[v].info.Sane()
    ensures !Gossip(n, g).life.Aborted?
    ensures forall v | v in Gossip(n, g).view && v != u :: Gossip(n, g).view[v].info.Sane()
    decreases |g|
  {
    if |g| > 0 {
      var m := GossipOne(n, g[0]);
      if m.life.Up? {
        GossipSaneElsewhere(m, g[1..], u);
      } else {
        assert Gossip(m, g[1..]) == m;
      }
    }
  }

  lemma ProcessSane(n: Node, e: Event, src: Address)
    requires n.life.Up? && WellFormed(n) && SaneView(n.view) && SaneEvent(e)
    ensures !Process(n, e, src).life.Aborted?
    ensures SaneView(Process(n, e, src).view) <==> (IntroducesBelow(n, e) ==> Mended(n, e))
  {
    var n1 := Notice(n, e.hdr);
    NoticeSane(n, e.hdr);
    HandleSane(n1, e, src);
    HandleSelf(n1, e, src);
    if IntroducesBelow(n, e) {
      IntroducedRecord(n1, e, src);
      hide Handle, Gossip;
      var n2, u := Handle(n1, e, src), e.body.ackUuid;
      GossipMends(n2, e.gossip, u);
      GossipSaneElsewhere(n2, e.gossip, u);
    } else {
      hide Handle, Gossip;
      GossipSane(Handle(n1, e, src), e.gossip);
    }
  }

  lemma IntroducedRecord(n: Node, e: Event, src: Address)
    requires SaneView(n.view) && SaneEvent(e) && IntroducesBelow(n, e)
    ensures e.body.ackUuid in Handle(n, e, src).view
    ensures Handle(n, e, src).view[e.body.ackUuid].info.lastSeen > 0
    ensures forall v | v in Handle(n, e, src).view && v != e.body.ackUuid :: Handle(n, e, src).view[v].info.Sane()
  {
  }

  lemma BuiltSane(n: Node, b: Body, e: Event)
    requires Built(n, b, e) && SaneView(n.view)
    ensures SaneInfos(e.gossip)
  {
  }

  lemma RepliesSane(n: Node, e: Event, src: Address, outs: seq<Packet>, k: nat)
    requires n.life.Up? && SaneView(n.view) && SaneEvent(e) && !IntroducesBelow(n, e)
    requires Replies(n, e, src, outs) && k < |outs|
    ensures SaneInfos(outs[k].event.gossip)
  {
    hide Handle, Notice, GossipOf, SaneInfos, Relays, AckSlot, AckKnown;
    var n1 := Notice(n, e.hdr);
    var n2 := Handle(n1, e, src);
    NoticeSane(n, e.hdr);
    HandleSane(n1, e, src);
    match e.body
    case Ping => BuiltSane(n1, Ack(n.uuid), outs[k].event);
    case PingReq(u) => BuiltSane(n2, Ping, outs[k].event);
    case Ack(u) =>
      RelaySane(n1, u, e, src);
      BuiltSane(AckKnown(n1, u, e.hdr, src), Ack(u), outs[k].event);
    case Join(u, a) =>
      if k == |n2.view| {
        BuiltSane(n2, Ack(n2.uuid), outs[k].event);
      }
    case Leave(u) => BuiltSane(n2, Ack(n.uuid), outs[k].event);
  }

  lemma RelaySane(n: Node, u: Uuid, e: Event, src: Address)
    requires SaneView(n.view) && e.body == Ack(u) && !IntroducesBelow(n, e) && Relays(n, u, e.hdr, src)
    ensures SaneView(AckKnown(n, u, e.hdr, src).view)
  {
    assert AckSlot(n.view, u) == u;
  }

  lemma PingReqSane(n: Node, now: Time, p: Packet)
    requires SaneView(n.view) && PingReqSent(n, now, p)
    ensures SaneInfos(p.event.gossip)
  {
    hide PingReqSent, AskedAll, GossipOf;
    var u, mid := PingReqBuilt(n, now, p);
    BuiltSane(n.(view := mid), PingReq(u), p.event);
  }

  lemma TickSane(n: Node, now: Time, round: seq<Uuid>, outs: seq<Packet>, k: nat)
    requires SaneView(n.view) && BeatSends(n, now, round, outs) && k < |outs|
    ensures SaneInfos(outs[k].event.gossip)
  {
    hide PingReqSent, AskedAll, GossipOf, SaneInfos;
    if PingReqSent(n, now, outs[k]) {
      PingReqSane(n, now, outs[k]);
    } else {
      assert outs[..1] == [outs[0]];
      BuiltSane(n, Ping, outs[k].event);
    }
  }

  predicate SanePackets(outs: seq<Packet>) {
    forall k | 0 <= k < |outs| :: SaneInfos(outs[k].event.gossip)
  }

  predicate Mentions(g: seq<NodeInfo>, u: Uuid) {
    exists i | 0 <= i < |g| :: g[i].uuid == u
  }

  /** Some message carries the record of `u`. */
  predicate Spreads(outs: seq<Packet>, u: Uuid) {
    exists k | 0 <= k < |outs| :: Mentions(outs[k].event.gossip, u)
  }

  /** A copy of a bad ACK that is passed on is usable exactly if its gossip leaves out the new record. */
  lemma BadRelay(n: Node, e: Event, src: Address, outs: seq<Packet>)
    requires n.life.Up? && SaneView(n.view) && WellFormed(n) && SaneEvent(e) && IntroducesBelow(n, e)
    requires Replies(n, e, src, outs)
    ensures SanePackets(outs) <==> !Spreads(outs, e.body.ackUuid)
  {
    hide Handle, Gossip, SaneInfos, Mentions, GossipOf, Relays, AckSlot;
    var n1, u := Notice(n, e.hdr), e.body.ackUuid;
    NoticeSane(n, e.hdr);
    NoticeGrows(n, e.hdr);
    var m := AckKnown(n1, u, e.hdr, src);
    if outs != [] {
      AllButOne(m, outs[0].event, u);
    }
  }

  lemma AllButOne(n: Node, e: Event, u: Uuid)
    requires WellFormed(n) && GossipOf(n.view, e.gossip)
    requires u in n.view && !n.view[u].info.Sane() && forall v | v in n.view && v != u :: n.view[v].info.Sane()
    ensures SaneInfos(e.gossip) <==> !Mentions(e.gossip, u)
  {
  }

  /** What a step brings about that some later assert objects to, or may. */
  ghost predicate Spoils(n: Node, i: Input, outs: seq<Packet>) {
    BadAck(n, i) && (!Mended(n, i.e) || Spreads(outs, i.e.body.ackUuid))
  }

  /**
   From a usable view no assert fails. The view stays usable exactly if no bad ACK goes unmended by its own
   gossip, and what is sent is usable exactly if it does not spread the record that a bad ACK introduces.
   */
  lemma StepSane(n: Node, i: Input, n': Node, outs: seq<Packet>)
    requires WellFormed(n) && SaneView(n.view) && Step(n, i, n', outs)
    requires i.Deliver? ==> SaneEvent(i.e)
    ensures !n'.life.Aborted?
    ensures SaneView(n'.view) <==> (BadAck(n, i) ==> Mended(n, i.e))
    ensures SanePackets(outs) <==> !(BadAck(n, i) && Spreads(outs, i.e.body.ackUuid))
  {
    hide Process, Replies, BeatSends, SaneInfos, Spreads;
    match i
    case Deliver(e, src) =>
      ProcessSane(n, e, src);
      if !BadAck(n, i) {
        forall k | 0 <= k < |outs|
          ensures SaneInfos(outs[k].event.gossip)
        {
          RepliesSane(n, e, src, outs, k);
        }
      } else {
        BadRelay(n, e, src, outs);
      }
    case Tick(now, round) =>
      forall k | 0 <= k < |outs|
        ensures SaneInfos(outs[k].event.gossip)
      {
        TickSane(n, now, round, outs, k);
      }
    case AskJoin(dst) => assert SaneInfos([]) by { EmptySane(); }
    case AskLeave => assert SaneInfos([]) by { EmptySane(); }
  }

  lemma EmptySane()
    ensures SaneInfos([])
  {
  }

  lemma WireSane(s: System, a: Action, s': System)
    requires s'.net == s.net + Wire(a.outs)
    requires forall e | e in s.net :: SaneEvent(e)
    ensures (forall e | e in s'.net :: SaneEvent(e)) <==> ClocksPositive(a.outs) && SanePackets(a.outs)
  {
    if ClocksPositive(a.outs) && SanePackets(a.outs) {
      forall e | e in s'.net
        ensures SaneEvent(e)
      {
        if e !in s.net {
          var k :| 0 <= k < |a.outs| && e == OnWire(a.outs[k].event);
        }
      }
    }
    if forall e | e in s'.net :: SaneEvent(e) {
      forall k | 0 <= k < |a.outs|
        ensures OnWire(a.outs[k].event).hdr.time > 0 && SaneInfos(a.outs[k].event.gossip)
      {
        assert OnWire(a.outs[k].event) in s'.net;
      }
    }
  }

  /** From a healthy state no step aborts, and every view stays usable exactly if no bad ACK goes unmended. */
  lemma NextUsable(s: System, a: Action, s': System)
    requires Inv(s) && Healthy(s) && Next(s, a, s')
    ensures forall p | p in s'.nodes :: !s'.nodes[p].life.Aborted?
    ensures forall p | p in s'.nodes && p != a.p :: SaneView(s'.nodes[p].view)
    ensures SaneView(s'.nodes[a.p].view) <==>
            (BadAck(s.nodes[a.p], a.input) ==> Mended(s.nodes[a.p], a.input.e))
  {
    hide Step, BadAck, Mended, SaneInfos, SaneView, SanePackets, Spreads, Wire, SelfSuspicions, ViewWithin,
         EventWithin, CapsOf, OnWire, EventOk;
    assert NodeOk(s, a.p);
    StepSane(s.nodes[a.p], a.input, s'.nodes[a.p], a.outs);
  }

  /** A step from a healthy state leads to a healthy one exactly if its clocks are positive and it spoils nothing. */
  lemma NextHealthyIff(s: System, a: Action, s': System)
    requires Inv(s) && Healthy(s) && Next(s, a, s')
    ensures Healthy(s') <==> ClocksPositive(a.outs) && !Spoils(s.nodes[a.p], a.input, a.outs)
  {
    hide Step, BadAck, Mended, SanePackets, Spreads, SaneView, SaneEvent, ClocksPositive, Wire, SelfSuspicions,
         ViewWithin, EventWithin, CapsOf, OnWire, EventOk;
    NextUsable(s, a, s');
    assert NodeOk(s, a.p);
    StepSane(s.nodes[a.p], a.input, s'.nodes[a.p], a.outs);
    WireSane(s, a, s');
  }

  ghost predicate SpoiledAt(ss: seq<System>, acts: seq<Action>, j: nat)
    requires j < |ss| && j < |acts|
  {
    acts[j].p in ss[j].nodes && Spoils(ss[j].nodes[acts[j].p], acts[j].input, acts[j].outs)
  }

  /**
   In every run no assert has failed, every record is usable and every message under way is, exactly as long
   as all clock readings are positive and no step has spoiled anything.
   */
  lemma {:induction false} AssertsHoldIff(ss: seq<System>, acts: seq<Action>, m: nat)
    requires Run(ss, acts) && m < |ss|
    ensures (forall j: nat | j <= m :: Healthy(ss[j])) <==>
            (forall j: nat | j < m :: ClocksPositive(acts[j].outs) && !SpoiledAt(ss, acts, j))
    decreases m
  {
    hide Next, Spoils, ClocksPositive, Healthy;
    if m == 0 {
      assert Healthy(ss[0]) by { FreshHealthy(ss[0]); }
    } else {
      AssertsHoldIff(ss, acts, m - 1);
      InvRun(ss, acts, m - 1);
      Actor(ss[m - 1], acts[m - 1], ss[m]);
      if Healthy(ss[m - 1]) {
        NextHealthyIff(ss[m - 1], acts[m - 1], ss[m]);
        assert Healthy(ss[m]) <==> ClocksPositive(acts[m - 1].outs) && !SpoiledAt(ss, acts, m - 1);
      }
    }
  }

  ghost predicate FailsAt(ss: seq<System>, acts: seq<Action>, j: nat)
    requires j < |ss| && j < |acts|
  {
    acts[j].p in ss[j].nodes && Fails(ss[j].nodes[acts[j].p], acts[j].input)
  }

  predicate NobodyAborted(s: System) {
    forall p | p in s.nodes :: !s.nodes[p].life.Aborted?
  }

  lemma NextAbortsIff(s: System, a: Action, s': System)
    requires Inv(s) && Next(s, a, s')
    ensures NobodyAborted(s') <==> NobodyAborted(s) && !Fails(s.nodes[a.p], a.input)
  {
    hide Fails, Wire, SelfSuspicions, ViewWithin, EventWithin, CapsOf, EventOk, Process, Replies, Beat, BeatSends;
    assert NodeOk(s, a.p);
    var n, n' := s.nodes[a.p], s'.nodes[a.p];
    AbortsIff(n, a.input, n', a.outs);
    assert n' == s'.nodes[a.p] && !n.life.Aborted?;
    if NobodyAborted(s') {
      forall p | p in s.nodes
        ensures !s.nodes[p].life.Aborted?
      {
        assert p in s'.nodes && (p != a.p ==> s'.nodes[p] == s.nodes[p]);
      }
    }
  }

  /** In every run no assert has failed exactly if no step met the condition for it. */
  lemma {:induction false} NobodyAbortedIff(ss: seq<System>, acts: seq<Action>, m: nat)
    requires Run(ss, acts) && m < |ss|
    ensures NobodyAborted(ss[m]) <==> forall j: nat | j < m :: !FailsAt(ss, acts, j)
    decreases m
  {
    hide Next, Fails, NobodyAborted;
    if m == 0 {
      assert NobodyAborted(ss[0]) by { FreshNodes(ss[0]); }
    } else {
      NobodyAbortedIff(ss, acts, m - 1);
      InvRun(ss, acts, m - 1);
      Actor(ss[m - 1], acts[m - 1], ss[m]);
      NextAbortsIff(ss[m - 1], acts[m - 1], ss[m]);
      assert NobodyAborted(ss[m]) <==> NobodyAborted(ss[m - 1]) && !FailsAt(ss, acts, m - 1);
    }
  }

  lemma FreshNodes(s: System)
    requires Init(s)
    ensures NobodyAborted(s)
  {
  }

  lemma FreshHealthy(s: System)
    requires Init(s)
    ensures Healthy(s)
  {
  }
}
