/**
 A cluster: nodes around a network. The network holds every event ever sent, in the form a receiver
 decodes; any of them can reach any node, any number of times, in any order, or never.
 */
module Cluster {
  import opened Types
  import opened Protocol
  import opened NodeFacts
  import Codec

  /** `suspicions` counts, for each node, the SUSPECT records about itself that it has read. */
  datatype System = System(nodes: map<Uuid, Node>, net: set<Event>, suspicions: map<Uuid, nat>)

  /** Node `p` takes a step and sends `outs`. */
  datatype Action = Action(p: Uuid, input: Input, outs: seq<Packet>)

  predicate Init(s: System) {
    && s.suspicions.Keys == s.nodes.Keys && s.net == {}
    && forall p | p in s.nodes ::
         s.suspicions[p] == 0 && s.nodes[p] == Node(p, 0, map[], [], s.nodes[p].lastHeartbeat, Up)
  }

  function Wire(outs: seq<Packet>): set<Event> {
    set k | 0 <= k < |outs| :: OnWire(outs[k].event)
  }

  ghost predicate Next(s: System, a: Action, s': System) {
    && a.p in s.nodes && a.p in s'.nodes && a.p in s.suspicions
    && (a.input.Deliver? ==> a.input.e in s.net)
    && Step(s.nodes[a.p], a.input, s'.nodes[a.p], a.outs)
    && s'.nodes == s.nodes[a.p := s'.nodes[a.p]]
    && s'.net == s.net + Wire(a.outs)
    && s'.suspicions == s.suspicions[a.p := s.suspicions[a.p] + SelfSuspicions(s.nodes[a.p], a.input)]
  }

  ghost predicate Run(ss: seq<System>, acts: seq<Action>) {
    && |ss| == |acts| + 1 && Init(ss[0])
    && forall i | 0 <= i < |acts| :: Next(ss[i], acts[i], ss[i + 1])
  }

  // ---------- The global invariant ----------

  /** The number of suspicions a node has read caps every claim about its incarnation, until it wraps. */
  function CapsOf(s: System): Caps {
    map p | p in s.suspicions && s.suspicions[p] < INCARNATIONS :: s.suspicions[p]
  }

  predicate NodeOk(s: System, p: Uuid)
    requires p in s.nodes
  {
    && p in s.suspicions && s.nodes[p].uuid == p && WellFormed(s.nodes[p])
    && s.nodes[p].incarnation == s.suspicions[p] % INCARNATIONS
    && ViewWithin(s.nodes[p].view, s.nodes.Keys, CapsOf(s))
  }

  predicate EventOk(s: System, e: Event) {
    EventWithin(e, s.nodes.Keys, CapsOf(s)) && OnWire(e) == e
  }

  predicate Inv(s: System) {
    (forall p | p in s.nodes :: NodeOk(s, p)) && (forall e | e in s.net :: EventOk(s, e))
  }

  lemma Actor(s: System, a: Action, s': System)
    requires Next(s, a, s')
    ensures a.p in s.nodes
  {
    hide Step;
  }

  lemma CapsRise(s: System, a: Action, s': System)
    requires Next(s, a, s')
    ensures s'.nodes.Keys == s.nodes.Keys
    ensures forall u | u in CapsOf(s') :: u in CapsOf(s) && CapsOf(s)[u] <= CapsOf(s')[u]
  {
    hide Step;
  }

  lemma WithinRises(view: View, e: Event, s: System, a: Action, s': System)
    requires Next(s, a, s')
    ensures ViewWithin(view, s.nodes.Keys, CapsOf(s)) ==> ViewWithin(view, s'.nodes.Keys, CapsOf(s'))
    ensures EventWithin(e, s.nodes.Keys, CapsOf(s)) ==> EventWithin(e, s'.nodes.Keys, CapsOf(s'))
  {
    hide Step;
    CapsRise(s, a, s');
  }

  lemma NextGrows(s: System, a: Action, s': System, q: Uuid)
    requires Next(s, a, s') && q in s.nodes && NodeOk(s, q)
    ensures q in s'.nodes && WellFormed(s'.nodes[q]) && Grows(s.nodes[q], s'.nodes[q])
    ensures q in s'.suspicions && s.suspicions[q] <= s'.suspicions[q]
  {
    hide Step;
    if q == a.p {
      StepGrows(s.nodes[q], a.input, s'.nodes[q], a.outs);
    }
  }

  lemma InvIncarnation(s: System, a: Action, s': System)
    requires Next(s, a, s') && NodeOk(s, a.p)
    ensures s'.nodes[a.p].incarnation == s'.suspicions[a.p] % INCARNATIONS
  {
    hide Step, Process, SelfSuspicions;
    StepIncarnation(s.nodes[a.p], a.input, s'.nodes[a.p], a.outs);
    ModAdd(s.suspicions[a.p], SelfSuspicions(s.nodes[a.p], a.input));
  }

  lemma InvWithin(s: System, a: Action, s': System)
    requires Inv(s) && Next(s, a, s')
    ensures ViewWithin(s'.nodes[a.p].view, s'.nodes.Keys, CapsOf(s'))
    ensures forall k | 0 <= k < |a.outs| :: EventOk(s', OnWire(a.outs[k].event))
  {
    hide Step, ViewWithin, InfosWithin;
    var n := s.nodes[a.p];
    assert NodeOk(s, a.p);
    assert a.input.Deliver? ==> EventOk(s, a.input.e);
    WithinRises(n.view, if a.input.Deliver? then a.input.e else Event(Header(0, 0, 0), Ping, []), s, a, s');
    StepWithin(n, a.input, s'.nodes[a.p], a.outs, s'.nodes.Keys, CapsOf(s'));
  }

  lemma InvStep(s: System, a: Action, s': System)
    requires Inv(s) && Next(s, a, s')
    ensures Inv(s')
  {
    hide Step, EventWithin, ViewWithin, WellFormed;
    assert NodeOk(s, a.p);
    NextGrows(s, a, s', a.p);
    InvIncarnation(s, a, s');
    InvWithin(s, a, s');
    forall p | p in s'.nodes
      ensures NodeOk(s', p)
    {
      if p != a.p {
        assert NodeOk(s, p);
        WithinRises(s.nodes[p].view, Event(Header(0, 0, 0), Ping, []), s, a, s');
      }
    }
    forall e | e in s'.net
      ensures EventOk(s', e)
    {
      if e in s.net {
        WithinRises(map[], e, s, a, s');
      }
    }
  }

  lemma {:induction false} InvRun(ss: seq<System>, acts: seq<Action>, i: nat)
    requires Run(ss, acts) && i < |ss|
    ensures Inv(ss[i])
    decreases i
  {
    if i > 0 {
      InvRun(ss, acts, i - 1);
      InvStep(ss[i - 1], acts[i - 1], ss[i]);
    }
  }

  /**
   In every reachable state, a node's own incarnation is the number of suspicions about itself it has
   read, and no view, header or gossip record claims a higher one for it (until 2^32 suspicions wrap it).
   */
  lemma IncarnationsAreOwned(ss: seq<System>, acts: seq<Action>, i: nat, p: Uuid)
    requires Run(ss, acts) && i < |ss| && p in ss[i].nodes
    ensures p in ss[i].suspicions && ss[i].nodes[p].incarnation == ss[i].suspicions[p] % 0x1_0000_0000
    ensures ss[i].suspicions[p] < 0x1_0000_0000 ==>
              var own := ss[i].nodes[p].incarnation;
              && own == ss[i].suspicions[p]
              && (forall q | q in ss[i].nodes && p in ss[i].nodes[q].view ::
                    ss[i].nodes[q].view[p].info.incarnation <= own)
              && (forall e | e in ss[i].net && e.hdr.uuid == p :: e.hdr.incarnation <= own)
              && (forall e, k | e in ss[i].net && 0 <= k < |e.gossip| && e.gossip[k].uuid == p ::
                    e.gossip[k].incarnation <= own)
  {
    InvRun(ss, acts, i);
    assert NodeOk(ss[i], p);
    if ss[i].suspicions[p] < INCARNATIONS {
      assert CapsOf(ss[i])[p] == ss[i].suspicions[p];
      forall q | q in ss[i].nodes && p in ss[i].nodes[q].view
        ensures ss[i].nodes[q].view[p].info.incarnation <= ss[i].nodes[p].incarnation
      {
        assert NodeOk(ss[i], q);
      }
      forall e, k | e in ss[i].net && 0 <= k < |e.gossip| && e.gossip[k].uuid == p
        ensures e.gossip[k].incarnation <= ss[i].nodes[p].incarnation
      {
        assert EventOk(ss[i], e);
      }
    }
  }

  /** Over a run members are never forgotten, incarnations never go back, owners stay out of their views. */
  lemma {:induction false} ViewsGrow(ss: seq<System>, acts: seq<Action>, i: nat, j: nat, q: Uuid)
    requires Run(ss, acts) && i <= j < |ss| && q in ss[i].nodes
    ensures q in ss[j].nodes && WellFormed(ss[j].nodes[q]) && Grows(ss[i].nodes[q], ss[j].nodes[q])
    ensures ss[j].nodes[q].uuid == q && ss[j].nodes[q].view.Keys <= ss[j].nodes.Keys - {q}
    ensures q in ss[i].suspicions && q in ss[j].suspicions && ss[i].suspicions[q] <= ss[j].suspicions[q]
    decreases j
  {
    hide Next;
    InvRun(ss, acts, i);
    InvRun(ss, acts, j);
    assert NodeOk(ss[i], q);
    if i < j {
      ViewsGrow(ss, acts, i, j - 1, q);
      InvRun(ss, acts, j - 1);
      NextGrows(ss[j - 1], acts[j - 1], ss[j], q);
    }
    assert NodeOk(ss[j], q);
  }

  /** Whatever the network of a reachable state holds is decoded as it is, whatever else is in the buffer. */
  lemma NetworkDecodes(ss: seq<System>, acts: seq<Action>, i: nat, e: Event, rest: seq<byte>)
    requires Run(ss, acts) && i < |ss| && e in ss[i].net
    requires |Codec.EventBytes(e)| + |rest| == MAX_PACKET_SIZE
    ensures Codec.ParseEvent(Codec.EventBytes(e) + rest) == Codec.Got(e, |Codec.EventBytes(e)|)
  {
    hide Next;
    InvRun(ss, acts, i);
    assert EventOk(ss[i], e);
    Codec.RoundTrip(e, rest);
  }

  /** Whether noticing a message takes its sender's record to ALIVE. */
  predicate Clears(r: NodeInfo, h: Header) {
    r.Sane() && (h.incarnation > r.incarnation || (h.incarnation == r.incarnation && r.status != Dead))
  }

  /**
   Receiving `e` is noticing its sender, except that a member with the null UUID is marked DEAD; any other
   sender that is a member is ALIVE afterwards exactly if it was or is revived.
   */
  ghost predicate OnlyNotices(n: Node, e: Event, src: Address) {
    var noticed, view, p := Notice(n, e.hdr), Process(n, e, src).view, e.hdr.uuid;
    && view.Keys == n.view.Keys
    && (view == noticed.view <==> 0 !in n.view || noticed.life.Aborted? || IsDead(noticed.view, 0))
    && (forall u :: IsDead(view, u) <==>
                      IsDead(noticed.view, u) || (u == 0 && 0 in n.view && !noticed.life.Aborted?))
    && (p in n.view && p != 0 ==>
          (view[p].info.status == Alive <==> n.view[p].info.status == Alive || Clears(n.view[p].info, e.hdr)))
  }

  lemma NullLeave(n: Node, e: Event, src: Address)
    requires WellFormed(n) && e.body == Leave(0)
    ensures OnlyNotices(n, e, src)
  {
  }

  /** A LEAVE never names its sender: it changes what any message from the sender would, and the null UUID. */
  lemma LeaveNamesNobody(ss: seq<System>, acts: seq<Action>, i: nat, e: Event, q: Uuid, src: Address)
    requires Run(ss, acts) && i < |ss| && e in ss[i].net && e.body.Leave? && q in ss[i].nodes
    ensures OnlyNotices(ss[i].nodes[q], e, src)
  {
    hide Next, OnlyNotices;
    InvRun(ss, acts, i);
    assert EventOk(ss[i], e) && NodeOk(ss[i], q);
    NullLeave(ss[i].nodes[q], e, src);
  }
}
