/** A run of three nodes in which an assert of swim_state_notice() fails. */
module AssertFailure {
  import opened Types
  import opened Protocol
  import opened Cluster
  import opened Scenario

  const INFO2 := Joined(2, 1, [2])
  const INFO3 := Joined(3, 1, [3])
  const JOIN2 := JoinFrom(2, 1)
  const ACK1 := AckFrom(1, [INFO2])
  const ACK3 := AckFrom(3, [INFO2])
  /** The record of node 1 stays UNKNOWN, because node 3 occupies the last slot. */
  const BROKEN: View := Only(INFO3)[1 := NodeState(NodeInfo(1, 1, 0, Unknown, [1]), [])]

  lemma LearnsOf3()
    ensures Step(Idle(2, map[]), Deliver(ACK3, [3]), Idle(2, Only(INFO3)), [])
  {
    var n := Idle(2, map[]);
    assert Notice(n, ACK3.hdr) == n;
    assert AckSlot(n.view, 3) == 3;
    assert Handle(n, ACK3, [3]) == Idle(2, Only(INFO3));
    GossipAboutSelf(Only(INFO3), INFO2);
  }

  lemma LearnsOf1()
    ensures Step(Idle(2, Only(INFO3)), Deliver(ACK1, [1]), Idle(2, BROKEN), [])
  {
    var n := Idle(2, Only(INFO3));
    assert Notice(n, ACK1.hdr) == n;
    assert 3 in n.view.Keys + {1} && AckSlot(n.view, 1) == 3;
    assert AckKnown(n, 1, ACK1.hdr, [1]).view == BROKEN;
    assert RefuteRecord(BROKEN[3]) == BROKEN[3] && BROKEN[3 := BROKEN[3]] == BROKEN;
    assert Handle(n, ACK1, [1]) == Idle(2, BROKEN);
    GossipAboutSelf(BROKEN, INFO2);
  }

  lemma Stops()
    ensures Step(Idle(2, BROKEN), Deliver(ACK1, [1]), Idle(2, BROKEN).(life := Aborted), [])
  {
    assert Notice(Idle(2, BROKEN), ACK1.hdr) == Idle(2, BROKEN).(life := Aborted);
  }

  /** Node 2 asks node `p` to let it join, and is answered. */
  lemma Meets(ss: seq<System>, acts: seq<Action>, p: Uuid, a: Address, view: View)
    returns (ss': seq<System>, acts': seq<Action>)
    requires Run(ss, acts) && p != 2 && 2 in ss[|acts|].nodes && p in ss[|acts|].nodes
    requires ss[|acts|].nodes[2] == Idle(2, view) && ss[|acts|].nodes[p] == Idle(p, map[])
    ensures Run(ss', acts') && AckFrom(p, [INFO2]) in ss'[|acts'|].net
    ensures ss'[|acts'|].nodes == ss[|acts|].nodes[p := Idle(p, Only(INFO2))]
  {
    hide Step, Next, Wire;
    var ask, answer := [Packet(a, JOIN2)], [Packet([2], JoinFor(2, 1, [2])), Packet([2], AckFrom(p, [INFO2]))];
    AsksToJoin(2, 1, view, a);
    OnWireAlready(a, JOIN2, ask);
    ss' := Take(ss, acts, Action(2, AskJoin(a), ask), Idle(2, view));
    acts' := acts + [Action(2, AskJoin(a), ask)];
    assert ss'[|acts'|].nodes == ss[|acts|].nodes;
    Welcomes(p, 2, 1, [2]);
    OnWireAlready([2], AckFrom(p, [INFO2]), answer);
    ss' := Take(ss', acts', Action(p, Deliver(JOIN2, [2]), answer), Idle(p, Only(INFO2)));
    acts' := acts' + [Action(p, Deliver(JOIN2, [2]), answer)];
  }

  /** Node 2 asks nodes 3 and 1 to let it join; the second message it gets from node 1 stops it. */
  lemma AssertsCanFail() returns (ss: seq<System>, acts: seq<Action>)
    ensures Run(ss, acts) && 2 in ss[|acts|].nodes && ss[|acts|].nodes[2].life.Aborted?
  {
    var a3, a1 := Action(2, Deliver(ACK3, [3]), []), Action(2, Deliver(ACK1, [1]), []);
    var nodes := map[1 := Idle(1, map[]), 2 := Idle(2, map[]), 3 := Idle(3, map[])];
    ss, acts := [System(nodes, {}, map[1 := 0, 2 := 0, 3 := 0])], [];
    assert Run(ss, acts);
    hide Step, Run, Wire;
    ss, acts := Meets(ss, acts, 3, [3], map[]);
    LearnsOf3();
    ss := Take(ss, acts, a3, Idle(2, Only(INFO3)));
    acts := acts + [a3];
    ss, acts := Meets(ss, acts, 1, [1], Only(INFO3));
    LearnsOf1();
    ss := Take(ss, acts, a1, Idle(2, BROKEN));
    acts := acts + [a1];
    Stops();
    ss := Take(ss, acts, a1, Idle(2, BROKEN).(life := Aborted));
    acts := acts + [a1];
  }
}
