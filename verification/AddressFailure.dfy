/**
 A run of eleven nodes, with packets that arrive where they are sent, in which a node that is up comes to hold a
 wrong address.
 */
module AddressFailure {
  import opened Types
  import opened Protocol
  import opened NodeFacts
  import opened Cluster
  import opened Addresses
  import opened Scenario
  import GossipJoin

  /** The nodes 1 to `k`, each at an address of one byte. */
  function Homes(k: Uuid): Directory
    requires k <= 11
  {
    map q: Uuid | 1 <= q <= k :: [q]
  }

  const DIRECTORY := Homes(11)

  const INFO2 := Joined(2, 100, [2])
  const INFO11 := Joined(11, 1, [11])
  const SUSPECT11 := INFO11.(status := Suspect)
  const NEW1 := NodeInfo(1, 1, 0, Unknown, [1])
  const JOIN2 := JoinFrom(2, 100)
  const PING3 := Event(Header(3, 61, 0), Ping, [INFO2, INFO11])
  const PINGREQ3 := Event(Header(3, 61, 0), PingReq(11), [INFO2, SUSPECT11])
  const ACK1 := AckFrom(1, [INFO2])
  const TEN: seq<NodeInfo> := seq(10, _ => SUSPECT11)
  /** The ACK of node 1 as node 2 passes it on; all ten draws of its gossip take the same record. */
  const COPY := Event(Header(2, 61, 0), Ack(1), TEN)

  /** The members 3 to `k`, as they asked to join. */
  function Crowd(k: Uuid): View
    requires k <= 11
  {
    map q: Uuid | 3 <= q <= k :: NodeState(Joined(q, 1, [q]), [])
  }

  const BOTH: View := map[2 := NodeState(INFO2, []), 11 := NodeState(INFO11, [])]
  const AGED: View := map[2 := NodeState(INFO2, []), 11 := NodeState(SUSPECT11, [])]
  const NOTICED: View := Crowd(11)[3 := NodeState(Joined(3, 61, [3]), [])]
  const WITNESSED: View := NOTICED[11 := NodeState(SUSPECT11, [3])]
  const TEN_MEMBERS: View := WITNESSED[1 := NodeState(NEW1, [])]
  const LEARNED: View := TEN_MEMBERS[11 := NodeState(INFO11, [])]
  const PROBED := Node(3, 0, AGED, [11], 61, Up)

  // ---------- Steps ----------

  /** Node 2, whatever it knows, answers the request of a new node to join. */
  lemma HearsJoin(view: View, q: Uuid) returns (outs: seq<Packet>)
    requires WellFormed(Idle(2, view)) && 3 <= q <= 11 && q !in view
    ensures Step(Idle(2, view), Deliver(JoinFrom(q, 1), [q]),
                 Idle(2, view[q := NodeState(Joined(q, 1, [q]), [])]), outs)
  {
    hide JoinReplies, Gossip;
    var n, n' := Idle(2, view), Idle(2, view[q := NodeState(Joined(q, 1, [q]), [])]);
    outs := SomeReplies(n', JoinFrom(q, 1), [q]);
    assert Notice(n, JoinFrom(q, 1).hdr) == n;
    assert Handle(n, JoinFrom(q, 1), [q]) == n';
  }

  lemma GossipOfTwo(view: View, a: NodeInfo, b: NodeInfo)
    requires a.uuid < b.uuid && view.Keys == {a.uuid, b.uuid}
    requires view[a.uuid].info == a && view[b.uuid].info == b
    ensures GossipOf(view, [a, b]) && |view| == 2
  {
    hide Members;
    MembersOfTwo(a.uuid, b.uuid);
    assert |view| == |view.Keys| == |{a.uuid, b.uuid}| == 2;
  }

  /** Node 3, which knows node 11, answers node 2's request to join. */
  lemma Welcomes2() returns (outs: seq<Packet>)
    ensures Step(Idle(3, Only(INFO11)), Deliver(JOIN2, [2]), Idle(3, BOTH), outs)
  {
    hide JoinReplies, Gossip;
    var n := Idle(3, Only(INFO11));
    outs := SomeReplies(Idle(3, BOTH), JOIN2, [2]);
    assert Notice(n, JOIN2.hdr) == n;
    assert Handle(n, JOIN2, [2]) == Idle(3, BOTH);
  }

  const BEAT3 := [Packet([2], PING3), Packet([2], PINGREQ3)]

  lemma Ages()
    ensures IsRound(BOTH, [2, 11]) && NextProbe(BOTH, [2, 11]) == (Some(2), [11]) && Aged(BOTH, 61) == AGED
  {
  }

  /** In a view of two, of which the second is suspected, a start of 0 asks the first. */
  lemma AsksFirst(n: Node, now: Time, a: Uuid, b: Uuid, mid: View, p: Packet)
    requires a < b && n.view.Keys == {a, b} && a in mid && b in mid && AgedUpTo(n.view, now, b) == mid
    requires mid[a].info.status == Alive && mid[b].info.status == Suspect
    requires p.dst == mid[a].info.addr && Built(n.(view := mid), PingReq(b), p.event)
    ensures a in n.view && AskedAt(n, now, b, 0, [0], [p])
  {
    hide Members, InWindow, Built, AgedUpTo;
    assert a in n.view.Keys;
    MembersOfTwo(a, b);
    WindowOfTwo();
  }

  lemma AsksMember2()
    ensures 2 in BOTH && AskedAt(Idle(3, BOTH), 61, 11, 0, [0], [Packet([2], PINGREQ3)])
  {
    hide GossipOf, AskedAt;
    assert BOTH.Keys == {2, 11};
    GossipOfTwo(AGED, INFO2, SUSPECT11);
    assert AgedUpTo(BOTH, 61, 11) == AGED;
    AsksFirst(Idle(3, BOTH), 61, 2, 11, AGED, Packet([2], PINGREQ3));
  }

  lemma WindowOfTwo()
    ensures InWindow(0, 2, 0)
  {
    assert 0 == Slot(0, 2, 2);
  }

  lemma AsksOnce()
    ensures 2 in BOTH && AskedAll(Idle(3, BOTH), 61, Members(NewlySuspect(BOTH, 61)), [Packet([2], PINGREQ3)])
  {
    hide Members, GossipOf, AskedAt;
    var n, outs := Idle(3, BOTH), [Packet([2], PINGREQ3)];
    assert NewlySuspect(BOTH, 61) == {11};
    MembersOfOne(11);
    AsksMember2();
    assert outs[0..] == outs && outs[..0] == [] && [11][..0] == [];
    assert AskedFrom(n, 61, 11, 0, outs[0..]);
    assert AskedAbout(n, 61, 11, outs[0..]) && AskedAll(n, 61, [11][..0], outs[..0]);
  }

  /** After 60 seconds node 3 suspects node 11 and asks node 2 to probe it. */
  lemma Suspects11()
    ensures Step(Idle(3, BOTH), Tick(61, [2, 11]), PROBED, BEAT3)
  {
    hide GossipOf, PingReqSent, Aged, NextProbe, IsRound, NewlySuspect, AskedAll, Members;
    Ages();
    Asks2();
    AsksOnce();
    assert BEAT3[1..] == [Packet([2], PINGREQ3)];
    GossipOfTwo(BOTH, INFO2, INFO11);
    assert BEAT3[..1] == [Packet([2], PING3)];
  }

  lemma Asks2()
    ensures PingReqSent(Idle(3, BOTH), 61, Packet([2], PINGREQ3))
  {
    GossipOfTwo(AGED, INFO2, SUSPECT11);
    hide GossipOf;
    assert 11 in NewlySuspect(BOTH, 61) && Halfway(BOTH, 61, AGED);
    assert Built(Idle(3, BOTH).(view := AGED), PingReq(11), PINGREQ3);
  }

  /** Node 2 records node 3 as the witness for node 11. */
  lemma HasWitness() returns (outs: seq<Packet>)
    ensures Step(Idle(2, Crowd(11)), Deliver(PINGREQ3, [3]), Idle(2, WITNESSED), outs)
  {
    hide GossipOf, Gossip;
    var n := Idle(2, Crowd(11));
    assert NoticeRecord(n.view[3], 61, 0) == NodeState(Joined(3, 61, [3]), []);
    assert Notice(n, PINGREQ3.hdr) == Idle(2, NOTICED);
    assert Handle(Idle(2, NOTICED), PINGREQ3, [3]) == Idle(2, WITNESSED);
    var g := SomeGossip(WITNESSED);
    outs := [Packet([11], Event(Header(2, 61, 0), Ping, g))];
  }

  lemma {:induction false} CrowdSize(k: Uuid)
    requires 2 <= k <= 11
    ensures |Crowd(k)| == k - 2
  {
    if k > 2 {
      CrowdSize(k - 1);
      assert Crowd(k) == Crowd(k - 1)[k := NodeState(Joined(k, 1, [k]), [])];
    }
  }

  lemma CopyOf()
    ensures GossipOf(TEN_MEMBERS, TEN)
  {
    hide Members;
    CrowdSize(11);
    assert WITNESSED.Keys == Crowd(11).Keys;
    assert |WITNESSED| == |WITNESSED.Keys| == |Crowd(11).Keys| == |Crowd(11)|;
    assert |TEN_MEMBERS| == |WITNESSED| + 1;
  }

  /** Node 2 takes the last slot for that of node 1, and passes the ACK on to the witness for node 11. */
  lemma PassesOn()
    ensures Step(Idle(2, WITNESSED), Deliver(ACK1, [1]), Idle(2, LEARNED), [Packet([3], COPY)])
  {
    hide GossipOf;
    var n := Idle(2, WITNESSED);
    assert Notice(n, ACK1.hdr) == n;
    assert 11 in n.view.Keys + {1} && AckSlot(n.view, 1) == 11;
    assert AckKnown(n, 1, ACK1.hdr, [1]) == Idle(2, TEN_MEMBERS);
    CopyOf();
    assert Handle(n, ACK1, [1]) == Idle(2, LEARNED);
    GossipAboutSelf(LEARNED, INFO2);
  }

  /** Node 3 takes the address of node 2 for that of node 1, and goes on. */
  lemma IsMisled() returns (n: Node)
    ensures Step(PROBED, Deliver(COPY, [2]), n, [])
    ensures n.life.Up? && 1 in n.view && n.view[1].info.addr == [2]
  {
    hide Gossip, Handle, Process;
    n := Process(PROBED, COPY, [2]);
    var n1 := Notice(PROBED, COPY.hdr);
    assert n1.view.Keys == {2, 11} && n1.view[11] == NodeState(SUSPECT11, []);
    assert 11 in n1.view.Keys + {1} && AckSlot(n1.view, 1) == 11;
    assert !Relays(n1, 1, COPY.hdr, [2]);
    GossipJoin.ReadAll(3, TEN);
    TakesAddress(PROBED, COPY, [2]);
  }

  // ---------- The run ----------

  function SentBy(a: Action): set<(Uuid, Packet)> {
    set k | 0 <= k < |a.outs| :: (a.p, a.outs[k])
  }

  ghost predicate WasSent(acts: seq<Action>, p: Uuid, x: Packet) {
    exists i, k | 0 <= i < |acts| && 0 <= k < |acts[i].outs| :: acts[i].p == p && acts[i].outs[k] == x
  }

  /** A run whose packets arrive where they are sent, up to `nodes`; all of `sent` has been sent in it. */
  ghost predicate RoutedRun(ss: seq<System>, acts: seq<Action>, nodes: map<Uuid, Node>, sent: set<(Uuid, Packet)>) {
    && Run(ss, acts) && ss[0].nodes.Keys == DIRECTORY.Keys && ss[|acts|].nodes == nodes
    && (forall j: nat | j < |acts| :: Routed(acts, DIRECTORY, j))
    && (forall x | x in sent :: WasSent(acts, x.0, x.1) && OnWire(x.1.event) in ss[|acts|].net)
  }

  lemma RoutedStays(acts: seq<Action>, a: Action, j: nat)
    requires j < |acts| && Routed(acts, DIRECTORY, j)
    ensures Routed(acts + [a], DIRECTORY, j)
  {
    var acts' := acts + [a];
    if acts[j].input.Deliver? {
      var i, k :| 0 <= i < j && 0 <= k < |acts[i].outs| && Sent(acts, DIRECTORY, i, k, j);
      assert acts'[i] == acts[i] && acts'[j] == acts[j];
      assert Sent(acts', DIRECTORY, i, k, j);
    }
  }

  lemma SentStays(acts: seq<Action>, a: Action, p: Uuid, x: Packet)
    requires WasSent(acts, p, x) || (p, x) in SentBy(a)
    ensures WasSent(acts + [a], p, x)
  {
    var acts' := acts + [a];
    if WasSent(acts, p, x) {
      var i, k :| 0 <= i < |acts| && 0 <= k < |acts[i].outs| && acts[i].p == p && acts[i].outs[k] == x;
      assert acts'[i] == acts[i];
    } else {
      var k :| 0 <= k < |a.outs| && (a.p, a.outs[k]) == (p, x);
      assert acts'[|acts|] == a;
    }
  }

  lemma RoutedHere(acts: seq<Action>, a: Action, from: Uuid)
    requires a.p in DIRECTORY && from in DIRECTORY && a.input.Deliver?
    requires a.input.src == DIRECTORY[from] && OnWire(a.input.e) == a.input.e
    requires WasSent(acts, from, Packet(DIRECTORY[a.p], a.input.e))
    ensures Routed(acts + [a], DIRECTORY, |acts|)
  {
    var x, acts' := Packet(DIRECTORY[a.p], a.input.e), acts + [a];
    var i, k :| 0 <= i < |acts| && 0 <= k < |acts[i].outs| && acts[i].p == from && acts[i].outs[k] == x;
    assert acts'[i] == acts[i] && acts'[|acts|] == a;
    assert Sent(acts', DIRECTORY, i, k, |acts|);
  }

  /** One more step of node `a.p`; what it receives was sent to it by node `from`. */
  lemma Extend(ss: seq<System>, acts: seq<Action>, nodes: map<Uuid, Node>, sent: set<(Uuid, Packet)>,
               a: Action, n: Node, from: Uuid)
    returns (ss': seq<System>, acts': seq<Action>)
    requires RoutedRun(ss, acts, nodes, sent) && a.p in nodes && Step(nodes[a.p], a.input, n, a.outs)
    requires a.input.Deliver? ==>
               && a.p in DIRECTORY && from in DIRECTORY && a.input.src == DIRECTORY[from]
               && OnWire(a.input.e) == a.input.e && (from, Packet(DIRECTORY[a.p], a.input.e)) in sent
    ensures RoutedRun(ss', acts', nodes[a.p := n], sent + SentBy(a))
  {
    hide Step, Next, Routed, WasSent;
    assert Run(ss, acts) && ss[|acts|].nodes == nodes;
    if a.input.Deliver? {
      assert WasSent(acts, from, Packet(DIRECTORY[a.p], a.input.e));
      RoutedHere(acts, a, from);
    } else {
      NotDelivered(acts, a);
    }
    ss' := Take(ss, acts, a, n);
    acts' := acts + [a];
    forall j: nat | j < |acts'|
      ensures Routed(acts', DIRECTORY, j)
    {
      if j < |acts| {
        RoutedStays(acts, a, j);
      }
    }
    forall x | x in sent + SentBy(a)
      ensures WasSent(acts', x.0, x.1) && OnWire(x.1.event) in ss'[|acts'|].net
    {
      SentStays(acts, a, x.0, x.1);
    }
  }

  lemma NotDelivered(acts: seq<Action>, a: Action)
    requires !a.input.Deliver?
    ensures Routed(acts + [a], DIRECTORY, |acts|)
  {
  }

  /** Node `q` asks node `p` to let it join, and `p` hears it and answers by `outs`. */
  lemma Meets(ss: seq<System>, acts: seq<Action>, nodes: map<Uuid, Node>, sent: set<(Uuid, Packet)>,
              q: Uuid, t: Time, p: Uuid, n: Node, outs: seq<Packet>)
    returns (ss': seq<System>, acts': seq<Action>, sent': set<(Uuid, Packet)>)
    requires RoutedRun(ss, acts, nodes, sent) && p in DIRECTORY && q in DIRECTORY && p != q && p in nodes && q in nodes
    requires nodes[q] == Idle(q, nodes[q].view) && 0 <= t < 0x1_0000_0000
    requires Step(nodes[p], Deliver(JoinFrom(q, t), DIRECTORY[q]), n, outs)
    ensures RoutedRun(ss', acts', nodes[p := n], sent')
    ensures forall k | 0 <= k < |outs| :: (p, outs[k]) in sent'
  {
    hide Step, RoutedRun;
    var ask := Action(q, AskJoin(DIRECTORY[p]), [Packet(DIRECTORY[p], JoinFrom(q, t))]);
    var hear := Action(p, Deliver(JoinFrom(q, t), DIRECTORY[q]), outs);
    AsksToJoin(q, t, nodes[q].view, DIRECTORY[p]);
    ss', acts' := Extend(ss, acts, nodes, sent, ask, nodes[q], q);
    assert (q, ask.outs[0]) in SentBy(ask) && nodes[q := nodes[q]] == nodes;
    ss', acts' := Extend(ss', acts', nodes, sent + SentBy(ask), hear, n, q);
    sent' := sent + SentBy(ask) + SentBy(hear);
  }

  function AllIdle(): map<Uuid, Node> {
    map q: Uuid | 1 <= q <= 11 :: Idle(q, map[])
  }

  /** All nodes, of which only 1, 2 and 3 change. */
  function Nodes(n1: Node, n2: Node, n3: Node): map<Uuid, Node> {
    AllIdle()[1 := n1][2 := n2][3 := n3]
  }

  lemma NodeAt(n1: Node, n2: Node, n3: Node, q: Uuid)
    requires 1 <= q <= 11
    ensures q in DIRECTORY && DIRECTORY[q] == [q] && q in Nodes(n1, n2, n3)
    ensures Nodes(n1, n2, n3)[q]
         == if q == 1 then n1 else if q == 2 then n2 else if q == 3 then n3 else Idle(q, map[])
  {
  }

  lemma NodesChange(n1: Node, n2: Node, n3: Node, n: Node)
    ensures Nodes(n1, n2, n3)[1 := n] == Nodes(n, n2, n3)
    ensures Nodes(n1, n2, n3)[2 := n] == Nodes(n1, n, n3)
    ensures Nodes(n1, n2, n3)[3 := n] == Nodes(n1, n2, n)
  {
    hide AllIdle;
  }

  lemma NobodyChanged()
    ensures Nodes(Idle(1, map[]), Idle(2, map[]), Idle(3, map[])) == AllIdle() && AllIdle().Keys == DIRECTORY.Keys
  {
  }

  lemma Begins() returns (ss: seq<System>, acts: seq<Action>)
    ensures RoutedRun(ss, acts, Nodes(Idle(1, map[]), Idle(2, map[]), Idle(3, map[])), {})
  {
    hide Nodes, Homes;
    var nodes := AllIdle();
    ss, acts := [System(nodes, {}, map q | q in nodes :: 0)], [];
    NobodyChanged();
  }

  /** Node `k` asks node 2 to let it join. */
  lemma OneMore(ss: seq<System>, acts: seq<Action>, sent: set<(Uuid, Packet)>, k: Uuid)
    returns (ss': seq<System>, acts': seq<Action>, sent': set<(Uuid, Packet)>)
    requires 3 <= k <= 11
    requires RoutedRun(ss, acts, Nodes(Idle(1, map[]), Idle(2, Crowd(k - 1)), Idle(3, map[])), sent)
    ensures RoutedRun(ss', acts', Nodes(Idle(1, map[]), Idle(2, Crowd(k)), Idle(3, map[])), sent')
  {
    hide Step, RoutedRun, Nodes, Homes, Crowd;
    var n1, n2, n2', n3 := Idle(1, map[]), Idle(2, Crowd(k - 1)), Idle(2, Crowd(k)), Idle(3, map[]);
    CrowdGrows(k);
    var outs := HearsJoin(Crowd(k - 1), k);
    NodeAt(n1, n2, n3, k);
    NodeAt(n1, n2, n3, 2);
    NodesChange(n1, n2, n3, n2');
    ss', acts', sent' := Meets(ss, acts, Nodes(n1, n2, n3), sent, k, 1, 2, n2', outs);
  }

  lemma CrowdGrows(k: Uuid)
    requires 3 <= k <= 11
    ensures WellFormed(Idle(2, Crowd(k - 1))) && k !in Crowd(k - 1)
    ensures Crowd(k) == Crowd(k - 1)[k := NodeState(Joined(k, 1, [k]), [])]
  {
  }

  /** The nodes 3 to `k` ask node 2 to let them join. */
  lemma {:induction false} Gathers(k: Uuid) returns (ss: seq<System>, acts: seq<Action>, sent: set<(Uuid, Packet)>)
    requires 2 <= k <= 11
    ensures RoutedRun(ss, acts, Nodes(Idle(1, map[]), Idle(2, Crowd(k)), Idle(3, map[])), sent)
    decreases k
  {
    hide Step, RoutedRun, Nodes;
    if k == 2 {
      ss, acts := Begins();
      assert Crowd(2) == map[];
      sent := {};
    } else {
      ss, acts, sent := Gathers(k - 1);
      ss, acts, sent := OneMore(ss, acts, sent, k);
    }
  }

  /** Node 11 asks node 3 to let it join, and then node 2 does. */
  lemma MeetsTwo() returns (ss: seq<System>, acts: seq<Action>, sent: set<(Uuid, Packet)>)
    ensures RoutedRun(ss, acts, Nodes(Idle(1, map[]), Idle(2, Crowd(11)), Idle(3, BOTH)), sent)
  {
    hide Step, RoutedRun, Nodes, Crowd, Homes;
    var n1, n2 := Idle(1, map[]), Idle(2, Crowd(11));
    var n3, n3', n3'' := Idle(3, map[]), Idle(3, Only(INFO11)), Idle(3, BOTH);
    ss, acts, sent := Gathers(11);
    NodeAt(n1, n2, n3, 3);
    NodeAt(n1, n2, n3, 11);
    NodesChange(n1, n2, n3, n3');
    Welcomes(3, 11, 1, [11]);
    ss, acts, sent := Meets(ss, acts, Nodes(n1, n2, n3), sent, 11, 1, 3, n3',
                            [Packet([11], JoinFor(11, 1, [11])), Packet([11], AckFrom(3, [INFO11]))]);
    var outs := Welcomes2();
    NodeAt(n1, n2, n3', 2);
    NodeAt(n1, n2, n3', 3);
    NodesChange(n1, n2, n3', n3'');
    ss, acts, sent := Meets(ss, acts, Nodes(n1, n2, n3'), sent, 2, 100, 3, n3'', outs);
  }

  /** Node 2 comes to hold node 11 suspect with node 3 as the witness. */
  lemma FindsWitness() returns (ss: seq<System>, acts: seq<Action>, sent: set<(Uuid, Packet)>)
    ensures RoutedRun(ss, acts, Nodes(Idle(1, map[]), Idle(2, WITNESSED), PROBED), sent)
  {
    hide Step, RoutedRun, Nodes, Crowd, Homes;
    var n1, n2, n2', n3 := Idle(1, map[]), Idle(2, Crowd(11)), Idle(2, WITNESSED), Idle(3, BOTH);
    ss, acts, sent := MeetsTwo();
    var beat := Action(3, Tick(61, [2, 11]), BEAT3);
    NodeAt(n1, n2, n3, 2);
    NodeAt(n1, n2, n3, 3);
    NodesChange(n1, n2, n3, PROBED);
    Suspects11();
    ss, acts := Extend(ss, acts, Nodes(n1, n2, n3), sent, beat, PROBED, 3);
    sent := sent + SentBy(beat);
    assert (3, beat.outs[1]) in SentBy(beat);
    NodeAt(n1, n2, PROBED, 2);
    NodesChange(n1, n2, PROBED, n2');
    var outs := HasWitness();
    var told := Action(2, Deliver(PINGREQ3, [3]), outs);
    ss, acts := Extend(ss, acts, Nodes(n1, n2, PROBED), sent, told, n2', 3);
    sent := sent + SentBy(told);
  }

  /** Node 2 asks node 1 to let it join, and passes the answer on. */
  lemma Passes() returns (ss: seq<System>, acts: seq<Action>, sent: set<(Uuid, Packet)>)
    ensures RoutedRun(ss, acts, Nodes(Idle(1, Only(INFO2)), Idle(2, LEARNED), PROBED), sent)
    ensures (2, Packet([3], COPY)) in sent
  {
    hide Step, RoutedRun, Nodes, Crowd, Homes;
    var n1, n1', n2, n2' := Idle(1, map[]), Idle(1, Only(INFO2)), Idle(2, WITNESSED), Idle(2, LEARNED);
    var answer := [Packet([2], JoinFor(2, 100, [2])), Packet([2], ACK1)];
    ss, acts, sent := FindsWitness();
    Welcomes(1, 2, 100, [2]);
    NodeAt(n1, n2, PROBED, 1);
    NodeAt(n1, n2, PROBED, 2);
    NodesChange(n1, n2, PROBED, n1');
    ss, acts, sent := Meets(ss, acts, Nodes(n1, n2, PROBED), sent, 2, 100, 1, n1', answer);
    assert (1, answer[1]) in sent;
    NodeAt(n1', n2, PROBED, 2);
    NodesChange(n1', n2, PROBED, n2');
    var pass := Action(2, Deliver(ACK1, [1]), [Packet([3], COPY)]);
    PassesOn();
    ss, acts := Extend(ss, acts, Nodes(n1', n2, PROBED), sent, pass, n2', 1);
    sent := sent + SentBy(pass);
    assert (2, pass.outs[0]) in SentBy(pass);
  }

  lemma WholeRun() returns (ss: seq<System>, acts: seq<Action>, sent: set<(Uuid, Packet)>, nodes: map<Uuid, Node>)
    ensures RoutedRun(ss, acts, nodes, sent)
    ensures 3 in nodes && nodes[3].life.Up? && 1 in nodes[3].view && nodes[3].view[1].info.addr == [2]
  {
    hide Step, RoutedRun, Nodes, Crowd, Homes;
    nodes := Nodes(Idle(1, Only(INFO2)), Idle(2, LEARNED), PROBED);
    ss, acts, sent := Passes();
    var n3 := IsMisled();
    NodeAt(Idle(1, Only(INFO2)), Idle(2, LEARNED), PROBED, 2);
    NodeAt(Idle(1, Only(INFO2)), Idle(2, LEARNED), PROBED, 3);
    NodesChange(Idle(1, Only(INFO2)), Idle(2, LEARNED), PROBED, n3);
    var misled := Action(3, Deliver(COPY, [2]), []);
    ss, acts := Extend(ss, acts, nodes, sent, misled, n3, 2);
    sent, nodes := sent + SentBy(misled), nodes[3 := n3];
  }

  /**
   A step of a run of eleven nodes can mislead. The nodes 3 to 11 ask node 2 to let them join. Node 3 comes to
   know node 11 and node 2, to suspect node 11, and to ask node 2 to probe it. Node 2 then asks node 1 to let it
   join, and passes the answer on to node 3, with gossip that does not name node 1. Node 3 takes the address of
   node 2 for that of node 1, and is up.
   */
  lemma AddressesCanFail() returns (ss: seq<System>, acts: seq<Action>)
    ensures Run(ss, acts) && ss[0].nodes.Keys == DIRECTORY.Keys && |DIRECTORY| == MAX_GOSSIP + 1
    ensures forall j: nat | j < |acts| :: Routed(acts, DIRECTORY, j)
    ensures exists j: nat | j < |acts| :: MisledAt(ss, acts, DIRECTORY, j)
    ensures var nodes := ss[|acts|].nodes;
            && 3 in nodes && nodes[3].life.Up? && 1 in nodes[3].view
            && nodes[3].view[1].info.addr == DIRECTORY[2] != DIRECTORY[1]
  {
    hide RoutedRun, Next, Init, Routed, Misleads, NodesTrue, SentHarmless, KnownIn, WellFormed, Homes;
    HomeOf(1);
    HomeOf(2);
    HomesSize(11);
    assert |DIRECTORY| == |DIRECTORY.Keys|;
    var sent, nodes;
    ss, acts, sent, nodes := WholeRun();
    RoutedRunMeans(ss, acts, nodes, sent);
    AddressesTrueIff(ss, acts, |acts|, DIRECTORY);
    assert !TrueAt(ss, acts, DIRECTORY, |acts|) by { WrongIsFalse(ss[|acts|], 3, 1); }
  }

  lemma HomeOf(q: Uuid)
    requires 1 <= q <= 11
    ensures q in DIRECTORY && DIRECTORY[q] == [q]
  {
  }

  lemma HomesGrow(k: Uuid)
    requires 0 < k <= 11
    ensures Homes(k).Keys == Homes(k - 1).Keys + {k} && k !in Homes(k - 1)
  {
  }

  lemma {:induction false} HomesSize(k: Uuid)
    requires k <= 11
    ensures |Homes(k).Keys| == k
  {
    if k == 0 {
      assert Homes(0).Keys == {};
    } else {
      HomesSize(k - 1);
      HomesGrow(k);
      hide Homes;
    }
  }

  lemma RoutedRunMeans(ss: seq<System>, acts: seq<Action>, nodes: map<Uuid, Node>, sent: set<(Uuid, Packet)>)
    requires RoutedRun(ss, acts, nodes, sent)
    ensures Run(ss, acts) && ss[0].nodes.Keys == DIRECTORY.Keys && ss[|acts|].nodes == nodes
    ensures forall j: nat | j < |acts| :: Routed(acts, DIRECTORY, j)
    ensures forall p | p in nodes :: WellFormed(nodes[p])
  {
    hide Next, Routed;
    InvRun(ss, acts, |acts|);
    assert forall p | p in nodes :: NodeOk(ss[|acts|], p);
  }

  lemma WrongIsFalse(s: System, p: Uuid, u: Uuid)
    requires p in s.nodes && s.nodes[p].life.Up? && WellFormed(s.nodes[p]) && u in s.nodes[p].view && u in DIRECTORY
    requires s.nodes[p].view[u].info.addr != DIRECTORY[u]
    ensures !NodesTrue(s, DIRECTORY)
  {
  }
}
