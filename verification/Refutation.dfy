/** A suspected node overtakes the suspicion, and the refutation cannot be undone by old gossip. */
module Refutation {
  import opened Types
  import opened Protocol
  import opened NodeFacts
  import opened Cluster

  /** The step reads a SUSPECT record about the node itself, at incarnation `k`. */
  predicate ReadsSuspicion(n: Node, i: Input, k: Incarnation) {
    && i.Deliver? && !Notice(n, i.e.hdr).life.Aborted? && ReadsGossip(n, i.e)
    && exists info | info in Read(n.uuid, i.e.gossip) ::
         info.uuid == n.uuid && info.status == Suspect && info.incarnation == k
  }

  lemma {:induction false} SuspicionCounts(self: Uuid, g: seq<NodeInfo>, info: NodeInfo)
    requires info in g && info.uuid == self && info.status == Suspect
    ensures CountSuspect(self, g) >= 1
  {
    if g[0] != info {
      SuspicionCounts(self, g[1..], info);
    }
  }

  lemma ReplyHeader(n: Node, e: Event, src: Address, outs: seq<Packet>, o: nat)
    requires Replies(n, e, src, outs) && o < |outs|
    requires e.body.Join? ==> e.body.joinUuid == e.hdr.uuid
    ensures outs[o].event.hdr.uuid == n.uuid ==> outs[o].event.hdr.incarnation == n.incarnation
  {
    hide GossipOf, Handle;
    HandleSelf(Notice(n, e.hdr), e, src);
    match e.body
    case Join(u, a) =>
    case _ =>
  }

  /** A message that names its sender in the header carries the sender's incarnation at the start of the step. */
  lemma OwnHeader(n: Node, i: Input, n': Node, outs: seq<Packet>, o: nat)
    requires Step(n, i, n', outs) && o < |outs| && outs[o].event.hdr.uuid == n.uuid
    requires i.Deliver? && i.e.body.Join? ==> i.e.body.joinUuid == i.e.hdr.uuid
    ensures outs[o].event.hdr.incarnation == n.incarnation
  {
    hide Process, Replies, GossipOf;
    if i.Deliver? {
      ReplyHeader(n, i.e, i.src, outs, o);
    } else if i.Tick? && o == 0 {
      assert outs[..1] == [outs[0]];
    }
  }

  lemma SuspicionRead(n: Node, i: Input, k: Incarnation) returns (j: nat)
    requires ReadsSuspicion(n, i, k)
    ensures SelfSuspicions(n, i) >= 1
    ensures j < |i.e.gossip| && i.e.gossip[j].uuid == n.uuid && i.e.gossip[j].incarnation == k
  {
    var r := Read(n.uuid, i.e.gossip);
    var info :| info in r && info.uuid == n.uuid && info.status == Suspect && info.incarnation == k;
    SuspicionCounts(n.uuid, r, info);
    j :| 0 <= j < |r| && r[j] == info;
  }

  lemma SuspicionOvertaken(s: System, a: Action, s': System, k: Incarnation)
    requires Inv(s) && Next(s, a, s') && ReadsSuspicion(s.nodes[a.p], a.input, k)
    requires s.suspicions[a.p] < INCARNATIONS
    ensures s'.suspicions[a.p] > k
  {
    hide Step, SelfSuspicions, Read;
    assert NodeOk(s, a.p) && EventOk(s, a.input.e);
    var j := SuspicionRead(s.nodes[a.p], a.input, k);
    assert Within(a.p, k, s.nodes.Keys, CapsOf(s));
  }

  /** Once `p` has read a suspicion of itself at incarnation `k`, every header it sends later exceeds `k`. */
  lemma LaterHeadersExceed(ss: seq<System>, acts: seq<Action>, i: nat, k: Incarnation, j: nat, o: nat)
    requires Run(ss, acts) && i < j < |acts| && acts[j].p == acts[i].p && o < |acts[j].outs|
    requires acts[i].p in ss[i].nodes && ReadsSuspicion(ss[i].nodes[acts[i].p], acts[i].input, k)
    requires acts[j].p in ss[j].suspicions && ss[j].suspicions[acts[j].p] < INCARNATIONS
    requires acts[j].outs[o].event.hdr.uuid == acts[j].p
    ensures acts[j].outs[o].event.hdr.incarnation > k
  {
    hide Step, ReadsSuspicion;
    var p := acts[i].p;
    InvRun(ss, acts, i);
    InvRun(ss, acts, j);
    ViewsGrow(ss, acts, i, i + 1, p);
    ViewsGrow(ss, acts, i + 1, j, p);
    SuspicionOvertaken(ss[i], acts[i], ss[i + 1], k);
    assert NodeOk(ss[j], p) && Next(ss[j], acts[j], ss[j + 1]);
    assert acts[j].input.Deliver? ==> EventOk(ss[j], acts[j].input.e);
    OwnHeader(ss[j].nodes[p], acts[j].input, ss[j + 1].nodes[p], acts[j].outs, o);
  }

  lemma ProcessLearns(n: Node, e: Event, src: Address, k: Incarnation)
    requires WellFormed(n) && e.hdr.uuid in n.view && n.view[e.hdr.uuid].info.Sane()
    requires e.hdr.incarnation > k
    ensures e.hdr.uuid in Process(n, e, src).view
    ensures Process(n, e, src).view[e.hdr.uuid].info.incarnation > k
  {
    hide Handle, Gossip;
    NoticeGrows(n, e.hdr);
    HandleGrows(Notice(n, e.hdr), e, src);
    GossipGrows(Handle(Notice(n, e.hdr), e, src), e.gossip);
  }

  lemma NextLearns(s: System, a: Action, s': System, k: Incarnation)
    requires Inv(s) && Next(s, a, s') && a.input.Deliver?
    requires a.input.e.hdr.uuid in s.nodes[a.p].view && s.nodes[a.p].view[a.input.e.hdr.uuid].info.Sane()
    requires a.input.e.hdr.incarnation > k
    ensures a.input.e.hdr.uuid in s'.nodes[a.p].view
    ensures s'.nodes[a.p].view[a.input.e.hdr.uuid].info.incarnation > k
  {
    hide Process, Replies;
    assert NodeOk(s, a.p);
    ProcessLearns(s.nodes[a.p], a.input.e, a.input.src, k);
  }

  /**
   End to end: `p` reads a suspicion of itself at `k` in step i and sends a message in a later step j;
   in step l a node that knows `p` receives it. From then on gossip about `p` at any incarnation up to
   `k`, whatever its status and time, leaves that node as it is.
   */
  lemma RefutationIsFinal(ss: seq<System>, acts: seq<Action>, i: nat, k: Incarnation, j: nat, o: nat,
                          l: nat, m: nat, info: NodeInfo)
    requires Run(ss, acts) && i < j < |acts| && l < m < |ss| && l < |acts|
    requires acts[j].p == acts[i].p && o < |acts[j].outs| && acts[j].outs[o].event.hdr.uuid == acts[i].p
    requires acts[i].p in ss[i].nodes && ReadsSuspicion(ss[i].nodes[acts[i].p], acts[i].input, k)
    requires acts[j].p in ss[j].suspicions && ss[j].suspicions[acts[j].p] < INCARNATIONS
    requires acts[l].input.Deliver? && acts[l].input.e == OnWire(acts[j].outs[o].event)
    requires acts[l].p in ss[l].nodes && acts[i].p in ss[l].nodes[acts[l].p].view
    requires ss[l].nodes[acts[l].p].view[acts[i].p].info.Sane()
    requires info.Sane() && info.uuid == acts[i].p && info.incarnation <= k
    ensures acts[l].p in ss[m].nodes && GossipOne(ss[m].nodes[acts[l].p], info) == ss[m].nodes[acts[l].p]
  {
    hide Step, ReadsSuspicion, GossipOne;
    var p, q := acts[i].p, acts[l].p;
    LaterHeadersExceed(ss, acts, i, k, j, o);
    InvRun(ss, acts, l);
    NextLearns(ss[l], acts[l], ss[l + 1], k);
    ViewsGrow(ss, acts, l + 1, m, q);
    StaleGossip(ss[m].nodes[q], info);
  }

  lemma StaleGossip(n: Node, info: NodeInfo)
    requires WellFormed(n) && info.Sane() && info.uuid in n.view
    requires info.incarnation < n.view[info.uuid].info.incarnation
    ensures GossipOne(n, info) == n
  {
    assert n.view[info.uuid := n.view[info.uuid]] == n.view;
  }
}
