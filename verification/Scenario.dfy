/** Nodes, messages and steps from which the runs of AssertFailure and AddressFailure are put together. */
module Scenario {
  import opened Types
  import opened Protocol
  import opened NodeFacts
  import opened Cluster

  function Idle(p: Uuid, view: View): Node {
    Node(p, 0, view, [], 0, Up)
  }

  /** The request of node `q` to join, sent at time `t`, and the copy of it that is passed on. */
  function JoinFrom(q: Uuid, t: Time): Event {
    Event(Header(q, t, 0), Join(q, []), [])
  }

  function JoinFor(q: Uuid, t: Time, a: Address): Event {
    Event(Header(q, t, 0), Join(q, a), [])
  }

  function Joined(q: Uuid, t: Time, a: Address): NodeInfo {
    NodeInfo(q, t, 0, Alive, a)
  }

  function AckFrom(p: Uuid, g: seq<NodeInfo>): Event {
    Event(Header(p, 1, 0), Ack(p), g)
  }

  /** A view of one member without a witness. */
  function Only(info: NodeInfo): View {
    map[info.uuid := NodeState(info, [])]
  }

  lemma MembersOfOne(u: Uuid)
    ensures Members({u}) == [u]
  {
    var ks := Members({u});
    assert u in ks && |ks| == 1;
  }

  lemma MembersOfTwo(u: Uuid, v: Uuid)
    requires u < v
    ensures Members({u, v}) == [u, v]
  {
    var ks := Members({u, v});
    assert |{u, v}| == 2 && u in ks && v in ks;
    assert ks[0] < ks[1] && ks[0] in ks && ks[1] in ks;
  }

  /** Some gossip can always be attached. */
  lemma SomeGossip(view: View) returns (g: seq<NodeInfo>)
    requires forall u | u in view :: view[u].info.uuid == u
    ensures GossipOf(view, g)
  {
    hide Members;
    var ks := Members(view.Keys);
    assert |ks| == |view.Keys| == |view| && forall i | 0 <= i < |ks| :: ks[i] in ks;
    g := seq(Min(|view|, MAX_GOSSIP), i requires 0 <= i < |ks| => view[ks[i]].info);
  }

  /** A JOIN can always be passed on and answered. */
  lemma SomeReplies(n: Node, e: Event, src: Address) returns (outs: seq<Packet>)
    requires e.body.Join? && forall u | u in n.view :: n.view[u].info.uuid == u
    ensures JoinReplies(n, e, src, outs)
  {
    hide Members, GossipOf;
    var ks := Members(n.view.Keys);
    var g := SomeGossip(n.view);
    assert |ks| == |n.view.Keys| == |n.view| && forall i | 0 <= i < |ks| :: ks[i] in ks;
    var copies := seq(|n.view|, i requires 0 <= i < |ks| => Packet(n.view[ks[i]].info.addr, ForwardedJoin(e, src)));
    var ack := Packet(src, Event(Header(n.uuid, 1, n.incarnation), Ack(n.uuid), g));
    outs := copies + [ack];
    assert outs[|n.view|..] == [ack];
  }

  lemma WelcomeReplies(p: Uuid, q: Uuid, t: Time, a: Address)
    ensures JoinReplies(Idle(p, Only(Joined(q, t, a))), JoinFrom(q, t), a,
                        [Packet(a, JoinFor(q, t, a)), Packet(a, AckFrom(p, [Joined(q, t, a)]))])
  {
    hide Members;
    var ack := Packet(a, AckFrom(p, [Joined(q, t, a)]));
    var outs, view := [Packet(a, JoinFor(q, t, a)), ack], Only(Joined(q, t, a));
    MembersOfOne(q);
    assert view.Keys == {q} && |view| == 1;
    assert GossipOf(view, [Joined(q, t, a)]);
    assert outs[1..] == [ack];
  }

  /** A node without a view answers a request to join. */
  lemma Welcomes(p: Uuid, q: Uuid, t: Time, a: Address)
    requires p != q && t > 0
    ensures Step(Idle(p, map[]), Deliver(JoinFrom(q, t), a), Idle(p, Only(Joined(q, t, a))),
                 [Packet(a, JoinFor(q, t, a)), Packet(a, AckFrom(p, [Joined(q, t, a)]))])
  {
    var n := Idle(p, map[]);
    WelcomeReplies(p, q, t, a);
    assert Notice(n, JoinFrom(q, t).hdr) == n;
    assert Handle(n, JoinFrom(q, t), a) == Idle(p, Only(Joined(q, t, a)));
    hide Handle, Notice, Gossip, JoinReplies;
  }

  lemma AsksToJoin(q: Uuid, t: Time, view: View, dst: Address)
    ensures Step(Idle(q, view), AskJoin(dst), Idle(q, view), [Packet(dst, JoinFrom(q, t))])
  {
  }

  lemma GossipAboutSelf(view: View, x: NodeInfo)
    requires x.Sane() && x.status == Alive
    ensures Gossip(Idle(x.uuid, view), [x]) == Idle(x.uuid, view)
  {
    assert GossipOne(Idle(x.uuid, view), x) == Idle(x.uuid, view);
    assert [x][1..] == [];
  }

  function After(s: System, a: Action, n: Node): System
    requires a.p in s.nodes && a.p in s.suspicions
  {
    System(s.nodes[a.p := n], s.net + Wire(a.outs),
           s.suspicions[a.p := s.suspicions[a.p] + SelfSuspicions(s.nodes[a.p], a.input)])
  }

  /** A run extended by one step, from a state whose network holds what the step needs. */
  lemma Take(ss: seq<System>, acts: seq<Action>, a: Action, n: Node) returns (ss': seq<System>)
    requires Run(ss, acts) && a.p in ss[|acts|].nodes
    requires a.input.Deliver? ==> a.input.e in ss[|acts|].net
    requires Step(ss[|acts|].nodes[a.p], a.input, n, a.outs)
    ensures Run(ss', acts + [a]) && ss' == ss + [ss'[|acts| + 1]]
    ensures ss'[|acts| + 1].net == ss[|acts|].net + Wire(a.outs)
    ensures ss'[|acts| + 1].nodes == ss[|acts|].nodes[a.p := n]
  {
    var s := ss[|acts|];
    assert a.p in s.suspicions by {
      InvRun(ss, acts, |acts|);
      assert NodeOk(s, a.p);
    }
    hide Step, SelfSuspicions, Init;
    assert Next(s, a, After(s, a, n));
    ss' := ss + [After(s, a, n)];
  }

  lemma OnWireAlready(dst: Address, e: Event, outs: seq<Packet>)
    requires Packet(dst, e) in outs && 0 <= e.hdr.time < 0x1_0000_0000
    ensures e in Wire(outs)
  {
    assert OnWire(e) == e;
  }
}
