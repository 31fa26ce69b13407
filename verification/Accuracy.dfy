/** Nobody is declared dead without cause: for one step exactly when, and for a cluster where it began. */
module Accuracy {
  import opened Types
  import opened Protocol
  import opened NodeFacts
  import opened GossipJoin
  import opened Cluster

  // ---------- One step ----------

  /** The newest claim about `u` among `g` and the record `r` is a DEAD one, and it is in `g`. */
  predicate DeadClaimWins(g: seq<NodeInfo>, u: Uuid, r: NodeInfo) {
    exists x | x in g ::
      && x.uuid == u && x.status == Dead && r.Key() <= x.Key()
      && forall y | y in g && y.uuid == u :: y.Key() <= x.Key()
  }

  /** The step times `u` out: it is SUSPECT and was last seen 120 seconds before an effective heartbeat. */
  predicate TimesOut(n: Node, i: Input, u: Uuid) {
    && i.Tick? && Effective(n, i.now) && u in n.view
    && n.view[u].info.status == Suspect && n.view[u].info.lastSeen <= i.now - 120
  }

  /** A LEAVE that names `u`, a DEAD claim that wins, or a timeout. */
  ghost predicate Kills(n: Node, i: Input, u: Uuid) {
    match i
    case Deliver(e, src) =>
      var n1 := Notice(n, e.hdr);
      && !n1.life.Aborted?
      && (|| e.body == Leave(u)
          || (ReadsGossip(n, e) && u in Handle(n1, e, src).view &&
              DeadClaimWins(Read(n.uuid, e.gossip), u, Handle(n1, e, src).view[u].info)))
    case _ => TimesOut(n, i, u)
  }

  lemma GossipDies(n: Node, g: seq<NodeInfo>, u: Uuid)
    requires n.life.Up? && WellFormed(n) && u in n.view
    requires n.view[u].info.status != Dead && n.view[u].info.status != Unknown
    ensures u in Gossip(n, g).view
    ensures Gossip(n, g).view[u].info.status == Dead <==> DeadClaimWins(Read(n.uuid, g), u, n.view[u].info)
  {
    hide Gossip, Read;
    GossipIsJoin(n, g, u);
    GossipGrows(n, g);
    var r, old_, now_ := Read(n.uuid, g), n.view[u].info, Gossip(n, g).view[u].info;
    assert Candidate(n.view, r, u, old_);
    if now_.status == Dead {
      var x :| Candidate(n.view, r, u, x) && x.Key() == now_.Key() && x.lastSeen == now_.lastSeen;
      KeyDetermines(x, now_);
      assert x in r && x.uuid == u;
      assert forall y | y in r && y.uuid == u :: Candidate(n.view, r, u, y);
    }
    if DeadClaimWins(r, u, old_) {
      var x :| x in r && x.uuid == u && x.status == Dead && old_.Key() <= x.Key()
               && forall y | y in r && y.uuid == u :: y.Key() <= x.Key();
      assert Candidate(n.view, r, u, x);
      var w :| Candidate(n.view, r, u, w) && w.Key() == now_.Key();
      assert w.Key() <= x.Key();
      KeyDetermines(x, now_);
    }
  }

  lemma HandleKeeps(n: Node, e: Event, src: Address, u: Uuid)
    requires n.life.Up? && WellFormed(n) && u in n.view
    requires n.view[u].info.status != Dead && n.view[u].info.status != Unknown
    ensures u in Handle(n, e, src).view && Handle(n, e, src).view[u].info.status != Unknown
    ensures Handle(n, e, src).view[u].info.status == Dead <==> e.body == Leave(u)
    ensures e.body.Ping? || e.body.Ack? ==> Handle(n, e, src).life.Up?
  {
  }

  lemma ProcessDies(n: Node, e: Event, src: Address, u: Uuid)
    requires n.life.Up? && WellFormed(n) && u in n.view
    requires n.view[u].info.status != Dead && n.view[u].info.status != Unknown
    ensures u in Process(n, e, src).view
    ensures Process(n, e, src).view[u].info.status == Dead <==> Kills(n, Deliver(e, src), u)
  {
    var n1 := Notice(n, e.hdr);
    NoticeGrows(n, e.hdr);
    if !n1.life.Aborted? {
      assert n1.view[u].info.status != Dead && n1.view[u].info.status != Unknown;
      HandleKeeps(n1, e, src, u);
      HandleGrows(n1, e, src);
      HandleSelf(n1, e, src);
      hide Handle, Gossip, Read, DeadClaimWins;
      if ReadsGossip(n, e) {
        GossipDies(Handle(n1, e, src), e.gossip, u);
      }
    }
  }

  /** Exactly when a step makes a record DEAD that is ALIVE or SUSPECT. */
  lemma DiesIff(n: Node, i: Input, n': Node, outs: seq<Packet>, u: Uuid)
    requires WellFormed(n) && Step(n, i, n', outs)
    requires u in n.view && n.view[u].info.status != Dead && n.view[u].info.status != Unknown
    ensures u in n'.view && (n'.view[u].info.status == Dead <==> Kills(n, i, u))
  {
    hide Process, Replies, BeatSends, Handle, Notice, DeadClaimWins;
    if i.Deliver? {
      ProcessDies(n, i.e, i.src, u);
    }
  }

  // ---------- A cluster ----------

  /** A node at an incarnation. */
  type Claim = (Uuid, Incarnation)

  predicate Covered(x: NodeInfo, dead: set<Claim>) {
    x.status == Dead ==> (x.uuid, x.incarnation) in dead
  }

  predicate ViewCovered(view: View, dead: set<Claim>) {
    forall u | u in view :: Covered(view[u].info, dead)
  }

  predicate InfosCovered(g: seq<NodeInfo>, dead: set<Claim>) {
    forall i | 0 <= i < |g| :: Covered(g[i], dead)
  }

  /** The nodes that a step times out, at the incarnations it knew. */
  function TimedOut(n: Node, i: Input): set<Claim> {
    set u | u in n.view && TimesOut(n, i, u) :: (u, n.view[u].info.incarnation)
  }

  lemma {:induction false} GossipCovered(n: Node, g: seq<NodeInfo>, dead: set<Claim>)
    requires WellFormed(n) && ViewCovered(n.view, dead) && InfosCovered(g, dead)
    ensures ViewCovered(Gossip(n, g).view, dead)
    decreases |g|
  {
    if |g| > 0 && n.life.Up? {
      GossipGrows(n, [g[0]]);
      GossipCovered(GossipOne(n, g[0]), g[1..], dead);
    }
  }

  /** `e` carries no death claim beyond `dead`, and does not make `n` delete anyone. */
  predicate Harmless(n: Node, e: Event, dead: set<Claim>) {
    InfosCovered(e.gossip, dead) && (e.body.Leave? ==> e.body.leaveUuid !in n.view)
  }

  lemma HandleCovered(n: Node, e: Event, src: Address, dead: set<Claim>)
    requires WellFormed(n) && ViewCovered(n.view, dead) && Harmless(n, e, dead)
    ensures ViewCovered(Handle(n, e, src).view, dead)
  {
  }

  lemma BuiltCovered(n: Node, b: Body, e: Event, dead: set<Claim>)
    requires Built(n, b, e) && ViewCovered(n.view, dead)
    ensures InfosCovered(e.gossip, dead)
  {
  }

  lemma RepliesCovered(n: Node, e: Event, src: Address, outs: seq<Packet>, k: nat, dead: set<Claim>)
    requires WellFormed(n) && ViewCovered(n.view, dead) && Harmless(n, e, dead)
    requires Replies(n, e, src, outs) && k < |outs|
    ensures InfosCovered(outs[k].event.gossip, dead)
  {
    hide Handle, GossipOf, InfosCovered, JoinReplies, AckKnown, Relays;
    var n1 := Notice(n, e.hdr);
    var n2 := Handle(n1, e, src);
    NoticeGrows(n, e.hdr);
    NoticeCovered(n, e.hdr, dead);
    HandleCovered(n1, e, src, dead);
    HandleSelf(n1, e, src);
    match e.body
    case Ping => BuiltCovered(n1, Ack(n.uuid), outs[k].event, dead);
    case PingReq(u) => BuiltCovered(n2, Ping, outs[k].event, dead);
    case Ack(u) =>
      AckKnownCovered(n1, u, e.hdr, src, dead);
      BuiltCovered(AckKnown(n1, u, e.hdr, src), Ack(u), outs[k].event, dead);
    case Join(u, a) => JoinRepliesCovered(n2, e, src, outs, k, dead);
    case Leave(u) => BuiltCovered(n2, Ack(n.uuid), outs[k].event, dead);
  }

  lemma NoticeCovered(n: Node, h: Header, dead: set<Claim>)
    requires ViewCovered(n.view, dead)
    ensures ViewCovered(Notice(n, h).view, dead) && Notice(n, h).view.Keys == n.view.Keys
  {
  }

  lemma AckKnownCovered(n: Node, u: Uuid, h: Header, src: Address, dead: set<Claim>)
    requires ViewCovered(n.view, dead)
    ensures ViewCovered(AckKnown(n, u, h, src).view, dead)
  {
  }

  lemma JoinRepliesCovered(n: Node, e: Event, src: Address, outs: seq<Packet>, k: nat, dead: set<Claim>)
    requires e.body.Join? && JoinReplies(n, e, src, outs) && k < |outs|
    requires ViewCovered(n.view, dead) && InfosCovered(e.gossip, dead)
    ensures InfosCovered(outs[k].event.gossip, dead)
  {
    hide GossipOf, InfosCovered;
    if k == |n.view| {
      BuiltCovered(n, Ack(n.uuid), outs[k].event, dead);
    }
  }

  lemma TickCovered(n: Node, now: Time, round: seq<Uuid>, outs: seq<Packet>, k: nat, dead: set<Claim>)
    requires WellFormed(n) && ViewCovered(n.view, dead) && BeatSends(n, now, round, outs) && k < |outs|
    ensures InfosCovered(outs[k].event.gossip, dead + TimedOut(n, Tick(now, round)))
  {
    hide PingReqSent, AskedAll, GossipOf, InfosCovered;
    var dead' := dead + TimedOut(n, Tick(now, round));
    if PingReqSent(n, now, outs[k]) {
      var u, mid := PingReqBuilt(n, now, outs[k]);
      HalfwayCovered(n, now, round, mid, dead);
      BuiltCovered(n.(view := mid), PingReq(u), outs[k].event, dead');
    } else {
      assert outs[..1] == [outs[0]];
      BuiltCovered(n, Ping, outs[k].event, dead');
    }
  }

  lemma HalfwayCovered(n: Node, now: Time, round: seq<Uuid>, mid: View, dead: set<Claim>)
    requires WellFormed(n) && ViewCovered(n.view, dead) && Effective(n, now) && Halfway(n.view, now, mid)
    ensures ViewCovered(mid, dead + TimedOut(n, Tick(now, round)))
  {
    forall u | u in mid
      ensures Covered(mid[u].info, dead + TimedOut(n, Tick(now, round)))
    {
      if mid[u].info.status == Dead && n.view[u].info.status != Dead {
        assert TimesOut(n, Tick(now, round), u);
      }
    }
  }

  lemma ProcessCovered(n: Node, e: Event, src: Address, dead: set<Claim>)
    requires WellFormed(n) && ViewCovered(n.view, dead) && Harmless(n, e, dead)
    ensures ViewCovered(Process(n, e, src).view, dead)
  {
    hide Handle, Gossip, Notice, InfosCovered, ViewCovered;
    var n1 := Notice(n, e.hdr);
    NoticeGrows(n, e.hdr);
    NoticeCovered(n, e.hdr, dead);
    HandleGrows(n1, e, src);
    HandleCovered(n1, e, src, dead);
    GossipCovered(Handle(n1, e, src), e.gossip, dead);
  }

  /** A step adds no death claim to views and messages beyond those it times out itself. */
  lemma StepCovered(n: Node, i: Input, n': Node, outs: seq<Packet>, dead: set<Claim>)
    requires WellFormed(n) && Step(n, i, n', outs) && ViewCovered(n.view, dead)
    requires i.Deliver? ==> Harmless(n, i.e, dead)
    ensures ViewCovered(n'.view, dead + TimedOut(n, i))
    ensures forall k | 0 <= k < |outs| :: InfosCovered(outs[k].event.gossip, dead + TimedOut(n, i))
  {
    hide Process, Replies, BeatSends, InfosCovered, ViewCovered;
    match i
    case Deliver(e, src) =>
      ProcessCovered(n, e, src, dead);
      assert dead + TimedOut(n, i) == dead;
      forall k | 0 <= k < |outs|
        ensures InfosCovered(outs[k].event.gossip, dead)
      {
        RepliesCovered(n, e, src, outs, k, dead);
      }
    case Tick(now, round) =>
      CoveredMore(n.view, [], dead, TimedOut(n, i));
      if Effective(n, now) {
        HalfwayCovered(n, now, round, Aged(n.view, now), dead);
      }
      forall k | 0 <= k < |outs|
        ensures InfosCovered(outs[k].event.gossip, dead + TimedOut(n, i))
      {
        TickCovered(n, now, round, outs, k, dead);
      }
    case AskJoin(dst) =>
      CoveredMore(n.view, [], dead, TimedOut(n, i));
      NothingCovered(dead + TimedOut(n, i));
    case AskLeave =>
      CoveredMore(n.view, [], dead, TimedOut(n, i));
      NothingCovered(dead + TimedOut(n, i));
  }

  lemma NothingCovered(dead: set<Claim>)
    ensures InfosCovered([], dead)
  {
  }

  /** The timeouts of the first `m` steps of a run. */
  function AllTimedOut(ss: seq<System>, acts: seq<Action>, m: nat): set<Claim>
    requires m <= |acts| < |ss|
  {
    if m == 0 then {} else
    AllTimedOut(ss, acts, m - 1)
    + if acts[m - 1].p in ss[m - 1].nodes then TimedOut(ss[m - 1].nodes[acts[m - 1].p], acts[m - 1].input) else {}
  }

  predicate SystemCovered(s: System, dead: set<Claim>) {
    && (forall p | p in s.nodes :: ViewCovered(s.nodes[p].view, dead))
    && (forall e | e in s.net :: InfosCovered(e.gossip, dead))
  }

  lemma CoveredMore(view: View, g: seq<NodeInfo>, dead: set<Claim>, more: set<Claim>)
    ensures ViewCovered(view, dead) ==> ViewCovered(view, dead + more)
    ensures InfosCovered(g, dead) ==> InfosCovered(g, dead + more)
  {
  }

  lemma NextStepCovered(s: System, a: Action, s': System, dead: set<Claim>)
    requires Inv(s) && Next(s, a, s') && SystemCovered(s, dead) && 0 !in s.nodes
    ensures ViewCovered(s'.nodes[a.p].view, dead + TimedOut(s.nodes[a.p], a.input))
    ensures forall k | 0 <= k < |a.outs| ::
              InfosCovered(a.outs[k].event.gossip, dead + TimedOut(s.nodes[a.p], a.input))
  {
    hide Step, InfosWithin, SelfSuspicions, TimedOut, ViewCovered, InfosCovered, Wire;
    assert NodeOk(s, a.p) && (a.input.Deliver? ==> EventOk(s, a.input.e));
    assert 0 !in s.nodes[a.p].view;
    StepCovered(s.nodes[a.p], a.input, s'.nodes[a.p], a.outs, dead);
  }

  lemma NextCovered(s: System, a: Action, s': System, dead: set<Claim>)
    requires Inv(s) && Next(s, a, s') && SystemCovered(s, dead) && 0 !in s.nodes
    ensures SystemCovered(s', dead + TimedOut(s.nodes[a.p], a.input))
  {
    hide Step, Inv, SelfSuspicions, TimedOut, ViewCovered, InfosCovered;
    var more := TimedOut(s.nodes[a.p], a.input);
    NextStepCovered(s, a, s', dead);
    forall p | p in s'.nodes
      ensures ViewCovered(s'.nodes[p].view, dead + more)
    {
      CoveredMore(s'.nodes[p].view, [], dead, more);
    }
    forall e | e in s'.net
      ensures InfosCovered(e.gossip, dead + more)
    {
      if e in s.net {
        CoveredMore(map[], e.gossip, dead, more);
      } else {
        var k :| 0 <= k < |a.outs| && e == OnWire(a.outs[k].event);
      }
    }
  }

  lemma {:induction false} RunCovered(ss: seq<System>, acts: seq<Action>, m: nat)
    requires Run(ss, acts) && m <= |acts| && 0 !in ss[0].nodes
    ensures SystemCovered(ss[m], AllTimedOut(ss, acts, m)) && 0 !in ss[m].nodes
    decreases m
  {
    hide Next, Init, Inv, SystemCovered, TimedOut;
    if m > 0 {
      var a := acts[m - 1];
      RunCovered(ss, acts, m - 1);
      InvRun(ss, acts, m - 1);
      CapsRise(ss[m - 1], a, ss[m]);
      assert a.p in ss[m - 1].nodes by { Actor(ss[m - 1], a, ss[m]); }
      NextCovered(ss[m - 1], a, ss[m], AllTimedOut(ss, acts, m - 1));
    } else {
      NobodyDead(ss[0]);
    }
  }

  lemma NobodyDead(s: System)
    requires Init(s)
    ensures SystemCovered(s, {})
  {
  }

  lemma {:induction false} TimeoutStep(ss: seq<System>, acts: seq<Action>, m: nat, c: Claim) returns (j: nat)
    requires m <= |acts| < |ss| && c in AllTimedOut(ss, acts, m)
    ensures j < m && acts[j].p in ss[j].nodes
    ensures TimesOut(ss[j].nodes[acts[j].p], acts[j].input, c.0)
    ensures ss[j].nodes[acts[j].p].view[c.0].info.incarnation == c.1
    decreases m
  {
    if c in AllTimedOut(ss, acts, m - 1) {
      j := TimeoutStep(ss, acts, m - 1, c);
    } else {
      j := m - 1;
    }
  }

  /**
   Every death is rooted in a timeout: if in a reachable state a view holds `u` DEAD at incarnation k, or
   gossip under way says so, then in an earlier step some node whose own record of `u` was SUSPECT at k
   had an effective heartbeat 120 seconds or more after `u` was last seen. (No node has the null UUID.)
   */
  lemma DeathIsRooted(ss: seq<System>, acts: seq<Action>, m: nat, x: NodeInfo) returns (j: nat)
    requires Run(ss, acts) && m <= |acts| && 0 !in ss[0].nodes && x.status == Dead
    requires || (exists q, u :: q in ss[m].nodes && u in ss[m].nodes[q].view && ss[m].nodes[q].view[u].info == x)
             || (exists e :: e in ss[m].net && x in e.gossip)
    ensures j < m && acts[j].p in ss[j].nodes
    ensures TimesOut(ss[j].nodes[acts[j].p], acts[j].input, x.uuid)
    ensures ss[j].nodes[acts[j].p].view[x.uuid].info.incarnation == x.incarnation
  {
    hide Step, TimesOut;
    RunCovered(ss, acts, m);
    j := TimeoutStep(ss, acts, m, (x.uuid, x.incarnation));
  }

  lemma {:induction false} GossipExits(n: Node, g: seq<NodeInfo>) returns (x: NodeInfo)
    requires n.life.Up? && Gossip(n, g).life.Exited?
    ensures x in g && x.uuid == n.uuid && x.status == Dead
    decreases |g|
  {
    var m := GossipOne(n, g[0]);
    if m.life.Exited? {
      x := g[0];
    } else {
      x := GossipExits(m, g[1..]);
    }
  }

  lemma StepExits(n: Node, i: Input, n': Node, outs: seq<Packet>) returns (x: NodeInfo)
    requires Step(n, i, n', outs) && n'.life.Exited?
    ensures i.Deliver? && x in i.e.gossip && x.uuid == n.uuid && x.status == Dead
  {
    hide Replies, BeatSends, Gossip;
    var n1 := Notice(n, i.e.hdr);
    x := GossipExits(Handle(n1, i.e, i.src), i.e.gossip);
  }

  lemma NextExits(s: System, a: Action, s': System, p: Uuid) returns (x: NodeInfo)
    requires Inv(s) && Next(s, a, s') && p in s'.nodes && s'.nodes[p].life.Exited?
    requires p in s.nodes ==> !s.nodes[p].life.Exited?
    ensures x.uuid == p && x.status == Dead && exists e :: e in s.net && x in e.gossip
  {
    hide Step, SelfSuspicions, Wire, EventOk, ViewWithin;
    assert a.p == p && NodeOk(s, p);
    x := StepExits(s.nodes[p], a.input, s'.nodes[p], a.outs);
    assert a.input.e in s.net && x in a.input.e.gossip;
  }

  /** A node exits only if some node had timed it out before. */
  lemma {:induction false} ExitIsRooted(ss: seq<System>, acts: seq<Action>, m: nat, p: Uuid) returns (j: nat)
    requires Run(ss, acts) && m <= |acts| && 0 !in ss[0].nodes && p in ss[m].nodes && ss[m].nodes[p].life.Exited?
    ensures j < m && acts[j].p in ss[j].nodes && TimesOut(ss[j].nodes[acts[j].p], acts[j].input, p)
    decreases m
  {
    hide Next, TimesOut, Inv;
    assert m > 0;
    if p in ss[m - 1].nodes && ss[m - 1].nodes[p].life.Exited? {
      j := ExitIsRooted(ss, acts, m - 1, p);
    } else {
      InvRun(ss, acts, m - 1);
      var x := NextExits(ss[m - 1], acts[m - 1], ss[m], p);
      j := DeathIsRooted(ss, acts, m - 1, x);
    }
  }
}
