/** Runs of a single node under arbitrary events, whether or not protocol nodes sent them. */
module NodeRuns {
  import opened Types
  import opened Protocol
  import opened NodeFacts
  import GossipJoin

  ghost predicate NodeRun(ns: seq<Node>, ins: seq<Input>, outs: seq<seq<Packet>>) {
    && |ns| == |ins| + 1 && |outs| == |ins| && WellFormed(ns[0])
    && forall i | 0 <= i < |ins| :: Step(ns[i], ins[i], ns[i + 1], outs[i])
  }

  lemma {:induction false} RunWellFormed(ns: seq<Node>, ins: seq<Input>, outs: seq<seq<Packet>>, i: nat)
    requires NodeRun(ns, ins, outs) && i < |ns|
    ensures WellFormed(ns[i])
    decreases i
  {
    hide Step;
    if i > 0 {
      RunWellFormed(ns, ins, outs, i - 1);
      StepGrows(ns[i - 1], ins[i - 1], ns[i], outs[i - 1]);
    }
  }

  // ---------- Death is sticky ----------

  predicate DeadAt(view: View, u: Uuid, k: Incarnation) {
    u in view && view[u].info.status == Dead && view[u].info.incarnation == k
  }

  predicate Newer(g: seq<NodeInfo>, u: Uuid, k: Incarnation) {
    exists x | x in g :: x.uuid == u && x.incarnation > k
  }

  /** A newer header from `u`, newer gossip about `u`, or a PING_REQ that names `u`. */
  predicate Revives(n: Node, i: Input, u: Uuid, k: Incarnation) {
    && i.Deliver? && !Notice(n, i.e.hdr).life.Aborted?
    && (|| (i.e.hdr.uuid == u && i.e.hdr.incarnation > k)
        || i.e.body == PingReq(u)
        || (ReadsGossip(n, i.e) && Newer(Read(n.uuid, i.e.gossip), u, k)))
  }

  lemma {:induction false} GossipAboutDead(n: Node, g: seq<NodeInfo>, u: Uuid, k: Incarnation)
    requires n.life.Up? && WellFormed(n) && u != n.uuid
    requires u in n.view && n.view[u].info.incarnation >= k
    requires n.view[u].info.incarnation == k ==> n.view[u].info.status == Dead
    ensures DeadAt(Gossip(n, g).view, u, k) <==>
            n.view[u].info.incarnation == k && !Newer(Read(n.uuid, g), u, k)
    decreases |g|
  {
    if |g| > 0 {
      var m, r := GossipOne(n, g[0]), Read(n.uuid, g);
      if m.life.Up? {
        var rest := Read(n.uuid, g[1..]);
        assert r == [g[0]] + rest;
        assert forall x :: x in r <==> x == g[0] || x in rest;
        GossipGrows(n, [g[0]]);
        GossipAboutDead(m, g[1..], u, k);
      } else {
        assert Gossip(m, g[1..]) == m && r == [];
      }
    }
  }

  lemma HandleAboutDead(n: Node, e: Event, src: Address, u: Uuid, k: Incarnation)
    requires WellFormed(n) && u in n.view && n.view[u].info.incarnation >= k
    requires n.view[u].info.incarnation == k ==> n.view[u].info.status == Dead
    ensures var r := Handle(n, e, src).view;
            && u in r && r[u].info.incarnation == n.view[u].info.incarnation
            && (r[u].info.incarnation == k ==> (r[u].info.status == Dead <==> e.body != PingReq(u)))
    ensures n.life.Up? && (e.body.Ping? || e.body.Ack?) ==> Handle(n, e, src).life.Up?
  {
  }

  /** A record that is DEAD at `k` is so after a step exactly if the step does not revive it. */
  lemma ProcessAboutDead(n: Node, e: Event, src: Address, u: Uuid, k: Incarnation)
    requires n.life.Up? && WellFormed(n) && DeadAt(n.view, u, k)
    ensures DeadAt(Process(n, e, src).view, u, k) <==> !Revives(n, Deliver(e, src), u, k)
  {
    var n1 := Notice(n, e.hdr);
    NoticeGrows(n, e.hdr);
    if !n1.life.Aborted? {
      HandleAboutDead(n1, e, src, u, k);
      HandleGrows(n1, e, src);
      HandleSelf(n1, e, src);
      hide Handle, Gossip, Read, Newer;
      if ReadsGossip(n, e) {
        GossipAboutDead(Handle(n1, e, src), e.gossip, u, k);
      }
    }
  }

  lemma StepAboutDead(n: Node, i: Input, n': Node, outs: seq<Packet>, u: Uuid, k: Incarnation)
    requires WellFormed(n) && Step(n, i, n', outs) && DeadAt(n.view, u, k)
    ensures DeadAt(n'.view, u, k) <==> !Revives(n, i, u, k)
  {
    hide Process, Replies, BeatSends;
    if i.Deliver? {
      ProcessAboutDead(n, i.e, i.src, u, k);
    }
  }

  /** Over any run of events and heartbeats, a DEAD record stays DEAD at its incarnation until revived. */
  lemma {:induction false} DeathIsSticky(ns: seq<Node>, ins: seq<Input>, outs: seq<seq<Packet>>,
                                         i: nat, j: nat, u: Uuid, k: Incarnation)
    requires NodeRun(ns, ins, outs) && i <= j < |ns| && DeadAt(ns[i].view, u, k)
    requires forall t | i <= t < j :: !Revives(ns[t], ins[t], u, k)
    ensures DeadAt(ns[j].view, u, k)
    decreases j
  {
    hide Step, Revives;
    if i < j {
      DeathIsSticky(ns, ins, outs, i, j - 1, u, k);
      RunWellFormed(ns, ins, outs, j - 1);
      StepAboutDead(ns[j - 1], ins[j - 1], ns[j], outs[j - 1], u, k);
    }
  }

  // ---------- Witnesses are conserved ----------

  function Witnesses(view: View): set<Uuid> {
    set u | u in view && view[u].witnessAddr != []
  }

  /** A PING_REQ about a known node. */
  predicate AsksAboutKnown(n: Node, i: Input) {
    i.Deliver? && i.e.body.PingReq? && !Notice(n, i.e.hdr).life.Aborted? && i.e.body.target in n.view
  }

  /** The ACKs sent in response to an ACK: these go to witnesses. */
  function Relayed(i: Input, outs: seq<Packet>): nat {
    if i.Deliver? && i.e.body.Ack? then |outs| else 0
  }

  lemma {:induction false} GossipWitnesses(n: Node, g: seq<NodeInfo>)
    ensures Witnesses(Gossip(n, g).view) <= Witnesses(n.view)
    decreases |g|
  {
    if |g| > 0 && n.life.Up? {
      assert Witnesses(GossipOne(n, g[0]).view) <= Witnesses(n.view);
      GossipWitnesses(GossipOne(n, g[0]), g[1..]);
    }
  }

  lemma NoticeWitnesses(n: Node, h: Header)
    ensures Witnesses(Notice(n, h).view) == Witnesses(n.view) && Notice(n, h).view.Keys == n.view.Keys
  {
  }

  lemma HandleWitnesses(n: Node, e: Event, src: Address)
    ensures var w, w' := Witnesses(n.view), Witnesses(Handle(n, e, src).view);
            match e.body
            case PingReq(u) => w' <= if u in n.view then w + {u} else w
            case Ack(u) =>
              var slot := AckSlot(n.view, u);
              if Relays(n, u, e.hdr, src) then slot in w && w' <= w - {slot} else w' <= w
            case _ => w' <= w
  {
  }

  /** A relay uses up a witness, and only a PING_REQ about a known node brings one. */
  lemma DeliverWitnesses(n: Node, e: Event, src: Address, outs: seq<Packet>)
    requires Replies(n, e, src, outs)
    ensures Relayed(Deliver(e, src), outs) + |Witnesses(Process(n, e, src).view)|
            <= |Witnesses(n.view)| + if AsksAboutKnown(n, Deliver(e, src)) then 1 else 0
  {
    hide Handle, Gossip, Notice, Witnesses, Relays, GossipOf;
    var n1 := Notice(n, e.hdr);
    NoticeWitnesses(n, e.hdr);
    if !n1.life.Aborted? {
      var n2, w := Handle(n1, e, src), Witnesses(n.view);
      HandleWitnesses(n1, e, src);
      GossipWitnesses(n2, e.gossip);
      var last := Witnesses(Process(n, e, src).view);
      SubsetSize(last, Witnesses(n2.view));
      match e.body
      case PingReq(u) => SubsetSize(last, if u in n.view then w + {u} else w);
      case Ack(u) => SubsetSize(last, if Relays(n1, u, e.hdr, src) then w - {AckSlot(n1.view, u)} else w);
      case _ => SubsetSize(last, w);
    }
  }

  lemma StepWitnesses(n: Node, i: Input, n': Node, outs: seq<Packet>)
    requires Step(n, i, n', outs)
    ensures Relayed(i, outs) + |Witnesses(n'.view)| <= |Witnesses(n.view)| + if AsksAboutKnown(n, i) then 1 else 0
  {
    hide Process, Replies, BeatSends, AsksAboutKnown;
    if i.Deliver? {
      DeliverWitnesses(n, i.e, i.src, outs);
    } else {
      assert Witnesses(n'.view) == Witnesses(n.view);
    }
  }

  /**
   The witness of a suspect node is told of an ACK exactly if the ACK comes from a third node or is stale:
   the node's own ACK at its current incarnation clears the suspicion before the handler looks for one.
   */
  lemma WitnessToldIff(n: Node, e: Event, src: Address, outs: seq<Packet>, u: Uuid)
    requires WellFormed(n) && e.body == Ack(u) && u in n.view && Replies(n, e, src, outs)
    requires n.view[u].info.status == Suspect && n.view[u].witnessAddr != []
    requires e.hdr.uuid in n.view ==> n.view[e.hdr.uuid].info.Sane()
    requires n.life.Up?
    ensures (|outs| == 1 && outs[0].dst == n.view[u].witnessAddr && outs[0].event.body == Ack(u)) <==>
            e.hdr.uuid != u || e.hdr.incarnation < n.view[u].info.incarnation
    ensures e.hdr.uuid == u && e.hdr.incarnation >= n.view[u].info.incarnation ==> outs == []
    ensures var r := Handle(Notice(n, e.hdr), e, src).view; u in r && r[u].info.status == Alive
  {
    hide GossipOf, Gossip;
  }

  /** After the gossip of such an ACK too, the record is ALIVE where it was exactly if no claim in it exceeds that. */
  lemma AliveAfterAckIff(n: Node, e: Event, src: Address, u: Uuid)
    requires WellFormed(n) && e.body == Ack(u) && u in n.view && n.view[u].info.status == Suspect
    requires e.hdr.uuid in n.view ==> n.view[e.hdr.uuid].info.Sane()
    requires n.life.Up?
    ensures var was, r := Notice(n, e.hdr).view[u].info, Process(n, e, src).view;
            && u in r
            && (r[u].info.status == Alive && r[u].info.incarnation == was.incarnation <==>
                forall x | x in Read(n.uuid, e.gossip) && x.uuid == u ::
                  x.Key() <= 4 * was.incarnation + Alive.Rank())
  {
    hide Gossip, Read;
    var n1 := Notice(n, e.hdr);
    NoticeGrows(n, e.hdr);
    var n2, g := Handle(n1, e, src), Read(n.uuid, e.gossip);
    HandleGrows(n1, e, src);
    HandleSelf(n1, e, src);
    assert n2.view[u].info.status == Alive && n2.view[u].info.incarnation == n1.view[u].info.incarnation;
    GossipGrows(n2, e.gossip);
    assert Process(n, e, src) == Gossip(n2, e.gossip);
    hide Process, Handle, Notice;
    GossipJoin.KnownIsJoin(n2, e.gossip, u);
    assert GossipJoin.Candidate(n2.view, g, u, n2.view[u].info);
    assert forall x | x in g && x.uuid == u :: GossipJoin.Candidate(n2.view, g, u, x);
  }

  function RelaysSoFar(ins: seq<Input>, outs: seq<seq<Packet>>, m: nat): nat
    requires m <= |ins| == |outs|
  {
    if m == 0 then 0 else RelaysSoFar(ins, outs, m - 1) + Relayed(ins[m - 1], outs[m - 1])
  }

  function RequestsSoFar(ns: seq<Node>, ins: seq<Input>, m: nat): nat
    requires m <= |ins| < |ns|
  {
    if m == 0 then 0 else RequestsSoFar(ns, ins, m - 1) + if AsksAboutKnown(ns[m - 1], ins[m - 1]) then 1 else 0
  }

  /** Witness ACKs relayed so far, and witnesses still waiting, never exceed the PING_REQs for known nodes. */
  lemma {:induction false} WitnessesConserved(ns: seq<Node>, ins: seq<Input>, outs: seq<seq<Packet>>, m: nat)
    requires NodeRun(ns, ins, outs) && m <= |ins|
    ensures RelaysSoFar(ins, outs, m) + |Witnesses(ns[m].view)|
            <= |Witnesses(ns[0].view)| + RequestsSoFar(ns, ins, m)
    decreases m
  {
    hide Step, AsksAboutKnown, Relayed, Witnesses;
    if m > 0 {
      WitnessesConserved(ns, ins, outs, m - 1);
      StepWitnesses(ns[m - 1], ins[m - 1], ns[m], outs[m - 1]);
    }
  }

  // ---------- Heartbeats alone ----------

  predicate Beats(n: Node, i: Input) {
    i.Tick? && Effective(n, i.now)
  }

  /** An effective heartbeat before step `m` whose time has reached `t`. */
  ghost predicate Reached(ns: seq<Node>, ins: seq<Input>, m: nat, t: int)
    requires m <= |ins| < |ns|
  {
    exists i :: 0 <= i < m && Beats(ns[i], ins[i]) && ins[i].now >= t
  }

  ghost predicate ReachedTwice(ns: seq<Node>, ins: seq<Input>, m: nat, t: int, t': int)
    requires m <= |ins| < |ns|
  {
    exists i, j :: 0 <= i < j < m && Beats(ns[i], ins[i]) && ins[i].now >= t && Beats(ns[j], ins[j]) && ins[j].now >= t'
  }

  lemma ReachedStep(ns: seq<Node>, ins: seq<Input>, m: nat, t: int, t': int)
    requires 0 < m <= |ins| < |ns|
    ensures var now := Beats(ns[m - 1], ins[m - 1]) && ins[m - 1].now >= t;
            Reached(ns, ins, m, t) <==> Reached(ns, ins, m - 1, t) || now
    ensures var now := Beats(ns[m - 1], ins[m - 1]) && ins[m - 1].now >= t';
            ReachedTwice(ns, ins, m, t, t') <==>
            ReachedTwice(ns, ins, m - 1, t, t') || (Reached(ns, ins, m - 1, t) && now)
  {
    hide Beats;
  }

  /**
   In a run of heartbeats alone, a record that is ALIVE and last seen at `t` stays ALIVE exactly until an
   effective heartbeat reaches t + 60, and is DEAD exactly after a later one reaches t + 120.
   */
  lemma {:induction false} HeartbeatsAlone(ns: seq<Node>, ins: seq<Input>, outs: seq<seq<Packet>>, m: nat, u: Uuid)
    requires NodeRun(ns, ins, outs) && m <= |ins| && forall i | 0 <= i < |ins| :: ins[i].Tick?
    requires u in ns[0].view && ns[0].view[u].info.status == Alive
    ensures u in ns[m].view && ns[m].view[u].info.lastSeen == ns[0].view[u].info.lastSeen
    ensures var t, s := ns[0].view[u].info.lastSeen, ns[m].view[u].info.status;
            && (s == Alive <==> !Reached(ns, ins, m, t + 60))
            && (s == Dead <==> ReachedTwice(ns, ins, m, t + 60, t + 120))
            && s != Unknown
    decreases m
  {
    hide BeatSends, RoundFor, NextProbe, Reached, ReachedTwice;
    if m > 0 {
      HeartbeatsAlone(ns, ins, outs, m - 1, u);
      assert Step(ns[m - 1], ins[m - 1], ns[m], outs[m - 1]);
      var t: int := ns[0].view[u].info.lastSeen;
      ReachedStep(ns, ins, m, t + 60, t + 120);
    } else {
      NothingReached(ns, ins, ns[0].view[u].info.lastSeen);
    }
  }

  lemma NothingReached(ns: seq<Node>, ins: seq<Input>, t: int)
    requires |ins| < |ns|
    ensures !Reached(ns, ins, 0, t + 60)
    ensures !ReachedTwice(ns, ins, 0, t + 60, t + 120)
  {
  }

  /** In such a run a record that starts SUSPECT becomes DEAD exactly when a heartbeat reaches t + 120. */
  lemma {:induction false} SuspectAlone(ns: seq<Node>, ins: seq<Input>, outs: seq<seq<Packet>>, m: nat, u: Uuid)
    requires NodeRun(ns, ins, outs) && m <= |ins| && forall i | 0 <= i < |ins| :: ins[i].Tick?
    requires u in ns[0].view && ns[0].view[u].info.status == Suspect
    ensures u in ns[m].view && ns[m].view[u].info.lastSeen == ns[0].view[u].info.lastSeen
    ensures ns[m].view[u].info.status ==
            if Reached(ns, ins, m, ns[0].view[u].info.lastSeen + 120) then Dead else Suspect
    decreases m
  {
    hide BeatSends, RoundFor, NextProbe, Reached;
    if m > 0 {
      SuspectAlone(ns, ins, outs, m - 1, u);
      assert Step(ns[m - 1], ins[m - 1], ns[m], outs[m - 1]);
      ReachedStep(ns, ins, m, ns[0].view[u].info.lastSeen + 120, 0);
    } else {
      NothingReached(ns, ins, ns[0].view[u].info.lastSeen + 60);
    }
  }

  /** The handler or the gossip of the message `e` itself undoes or overtakes the notice of its sender. */
  predicate Overtaken(n: Node, e: Event) {
    var p := e.hdr.uuid;
    || e.body == PingReq(p) || e.body == Leave(p)
    || (ReadsGossip(n, e) && exists x | x in Read(n.uuid, e.gossip) :: x.uuid == p && Overtakes(x, e.hdr))
  }

  /** The claim is above (incarnation of the header, ALIVE), or as high and later. */
  predicate Overtakes(x: NodeInfo, h: Header) {
    var key := 4 * h.incarnation + Alive.Rank();
    x.Key() > key || (x.Key() == key && x.lastSeen > h.time)
  }

  predicate HeardAt(view: View, h: Header) {
    h.uuid in view && var r := view[h.uuid].info;
    r.status == Alive && r.incarnation == h.incarnation && r.lastSeen == h.time
  }

  lemma GossipHeardIff(n: Node, g: seq<NodeInfo>, h: Header)
    requires n.life.Up? && WellFormed(n) && HeardAt(n.view, h)
    ensures HeardAt(Gossip(n, g).view, h) <==>
            !exists x | x in Read(n.uuid, g) :: x.uuid == h.uuid && Overtakes(x, h)
  {
    hide Gossip, Read;
    var p, r := h.uuid, Read(n.uuid, g);
    GossipGrows(n, g);
    GossipJoin.KnownIsJoin(n, g, p);
    assert GossipJoin.Candidate(n.view, r, p, n.view[p].info);
    assert forall x | x in r && x.uuid == p :: GossipJoin.Candidate(n.view, r, p, x);
    var last := Gossip(n, g).view[p].info;
    if last.Key() == n.view[p].info.Key() {
      GossipJoin.KeyDetermines(last, n.view[p].info);
    }
  }

  lemma HandleHeardIff(n: Node, e: Event, src: Address)
    requires WellFormed(n) && HeardAt(n.view, e.hdr)
    ensures HeardAt(Handle(n, e, src).view, e.hdr) <==> e.body != PingReq(e.hdr.uuid) && e.body != Leave(e.hdr.uuid)
    ensures e.body.Ping? || e.body.Ack? ==> Handle(n, e, src).life == n.life
  {
  }

  /** A message from a known node leaves its record as it says, unless the message itself overtakes it. */
  lemma HeardIff(n: Node, e: Event, src: Address)
    requires n.life.Up? && WellFormed(n) && e.hdr.uuid in n.view
    requires var r := n.view[e.hdr.uuid].info;
             && r.Sane() && e.hdr.incarnation >= r.incarnation
             && (r.status == Dead ==> e.hdr.incarnation > r.incarnation)
    ensures HeardAt(Process(n, e, src).view, e.hdr) <==> !Overtaken(n, e)
  {
    hide Handle, Gossip, Read, Overtakes;
    var n1 := Notice(n, e.hdr);
    NoticeGrows(n, e.hdr);
    HandleHeardIff(n1, e, src);
    HandleGrows(n1, e, src);
    HandleSelf(n1, e, src);
    if ReadsGossip(n, e) {
      GossipHeardIff(Handle(n1, e, src), e.gossip, e.hdr);
    }
  }

  lemma {:induction false} BeatsKeep(ns: seq<Node>, ins: seq<Input>, outs: seq<seq<Packet>>, m: nat, h: Header)
    requires NodeRun(ns, ins, outs) && m <= |ins| && forall i | 0 <= i < |ins| :: ins[i].Tick?
    ensures HeardAt(ns[m].view, h) ==> HeardAt(ns[0].view, h)
    decreases m
  {
    hide BeatSends, RoundFor, NextProbe;
    if m > 0 {
      BeatsKeep(ns, ins, outs, m - 1, h);
      assert Step(ns[m - 1], ins[m - 1], ns[m], outs[m - 1]);
    }
  }

  /**
   A message sent at time t, at an incarnation that is not behind its sender's record and does not find it DEAD
   there, leaves that record ALIVE and seen at t, exactly until an effective heartbeat reaches t + 60 and
   unless the message itself overtakes it.
   */
  lemma HeardFromIsAlive(n: Node, e: Event, src: Address,
                         ns: seq<Node>, ins: seq<Input>, outs: seq<seq<Packet>>, m: nat)
    requires n.life.Up? && WellFormed(n) && e.hdr.uuid in n.view
    requires var r := n.view[e.hdr.uuid].info;
             && r.Sane() && e.hdr.incarnation >= r.incarnation
             && (r.status == Dead ==> e.hdr.incarnation > r.incarnation)
    requires NodeRun(ns, ins, outs) && m <= |ins| && forall i | 0 <= i < |ins| :: ins[i].Tick?
    requires ns[0] == Process(n, e, src)
    ensures HeardAt(ns[m].view, e.hdr) <==> !Overtaken(n, e) && !Reached(ns, ins, m, e.hdr.time + 60)
  {
    hide Step, Reached, ReachedTwice, Process, Overtaken;
    HeardIff(n, e, src);
    BeatsKeep(ns, ins, outs, m, e.hdr);
    if HeardAt(ns[0].view, e.hdr) {
      HeartbeatsAlone(ns, ins, outs, m, e.hdr.uuid);
      BeatsKeepIncarnation(ns, ins, outs, m, e.hdr.uuid);
    }
  }

  lemma {:induction false} BeatsKeepIncarnation(ns: seq<Node>, ins: seq<Input>, outs: seq<seq<Packet>>, m: nat, u: Uuid)
    requires NodeRun(ns, ins, outs) && m <= |ins| && forall i | 0 <= i < |ins| :: ins[i].Tick?
    requires u in ns[0].view
    ensures u in ns[m].view && ns[m].view[u].info.incarnation == ns[0].view[u].info.incarnation
    decreases m
  {
    hide BeatSends, RoundFor, NextProbe;
    if m > 0 {
      BeatsKeepIncarnation(ns, ins, outs, m - 1, u);
      assert Step(ns[m - 1], ins[m - 1], ns[m], outs[m - 1]);
    }
  }

  lemma StepClock(n: Node, i: Input, n': Node, outs: seq<Packet>)
    requires Step(n, i, n', outs)
    ensures n'.lastHeartbeat == if Beats(n, i) then i.now else n.lastHeartbeat
  {
    hide Replies, BeatSends, Handle, Gossip;
    if i.Deliver? {
      ProcessClock(n, i.e, i.src);
    }
  }

  lemma ProcessClock(n: Node, e: Event, src: Address)
    ensures Process(n, e, src).lastHeartbeat == n.lastHeartbeat
  {
    var n1 := Notice(n, e.hdr);
    GossipClock(Handle(n1, e, src), e.gossip);
    assert Handle(n1, e, src).lastHeartbeat == n.lastHeartbeat;
    hide Gossip;
  }

  lemma {:induction false} GossipClock(n: Node, g: seq<NodeInfo>)
    ensures Gossip(n, g).lastHeartbeat == n.lastHeartbeat
    decreases |g|
  {
    if |g| > 0 && n.life.Up? {
      GossipClock(GossipOne(n, g[0]), g[1..]);
    }
  }

  /**
   After an effective heartbeat, whatever happens in between, the next one that is effective is the first that
   finds a member and comes at least two seconds later; so effective ones are two seconds apart.
   */
  lemma {:induction false} BeatsApart(ns: seq<Node>, ins: seq<Input>, outs: seq<seq<Packet>>, i: nat, j: nat)
    requires NodeRun(ns, ins, outs) && i < j < |ns| && Beats(ns[i], ins[i])
    ensures ns[j].lastHeartbeat >= ins[i].now
    ensures j < |ins| && Beats(ns[j], ins[j]) ==> ins[j].now >= ins[i].now + 2
    ensures (forall t | i < t < j :: !Beats(ns[t], ins[t])) ==> ns[j].lastHeartbeat == ins[i].now
    ensures j < |ins| && ins[j].Tick? && (forall t | i < t < j :: !Beats(ns[t], ins[t])) ==>
              (Beats(ns[j], ins[j]) <==> ns[j].view != map[] && ins[j].now >= ins[i].now + 2)
    decreases j
  {
    hide Step;
    StepClock(ns[j - 1], ins[j - 1], ns[j], outs[j - 1]);
    if i < j - 1 {
      BeatsApart(ns, ins, outs, i, j - 1);
    }
  }
}
