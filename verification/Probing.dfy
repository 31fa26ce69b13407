/** Round-robin probing: the gap bound over whole runs of a node. */
module Probing {
  import opened Types
  import opened Protocol
  import opened NodeFacts
  import opened NodeRuns
  import Effects

  /** What remains of a round names members, each once. */
  predicate ScheduleOk(n: Node) {
    NoDuplicates(n.pending) && forall u | u in n.pending :: u in n.view
  }

  // ---------- One probe ----------

  /** The target is never dead, and none is found only if all that is left of the round is dead. */
  lemma {:induction false} NextProbeFinds(view: View, round: seq<Uuid>)
    ensures var (t, rest) := NextProbe(view, round);
            if t.None? then rest == [] && forall u | u in round :: IsDead(view, u)
            else
              var k := |round| - |rest| - 1;
              && 0 <= k < |round| && round[k] == t.value && !IsDead(view, t.value) && rest == round[k + 1..]
              && forall i | 0 <= i < k :: IsDead(view, round[i])
  {
    if round != [] && IsDead(view, round[0]) {
      var (t, rest) := NextProbe(view, round[1..]);
      NextProbeFinds(view, round[1..]);
      if t.Some? {
        var k := |round| - |rest| - 1;
        forall i | 0 <= i < k
          ensures IsDead(view, round[i])
        {
          if i > 0 {
            assert round[i] == round[1..][i - 1];
          }
        }
      } else {
        forall u | u in round
          ensures IsDead(view, u)
        {
          assert u == round[0] || u in round[1..];
        }
      }
    }
  }

  lemma SuffixDistinct(s: seq<Uuid>, k: nat)
    requires NoDuplicates(s) && k <= |s|
    ensures NoDuplicates(s[k..]) && forall u | u in s[k..] :: u in s
  {
  }

  lemma TickSchedule(n: Node, now: Time, round: seq<Uuid>)
    requires ScheduleOk(n) && (Effective(n, now) ==> RoundFor(n, round))
    ensures ScheduleOk(Beat(n, now, round))
  {
    if Effective(n, now) {
      NextProbeFinds(n.view, round);
      var (t, rest) := NextProbe(n.view, round);
      assert NoDuplicates(round) && forall u | u in round :: u in n.view;
      SuffixDistinct(round, |round| - |rest|);
      hide NextProbe, NoDuplicates, RoundFor;
      assert Beat(n, now, round).pending == rest;
    }
  }

  /** Without an addition or a deletion, events leave the schedule alone; with one, they clear it. */
  predicate Disturbs(n: Node, i: Input, n': Node) {
    n'.view.Keys != n.view.Keys || (i.Deliver? && i.e.body.Leave? && i.e.body.leaveUuid in n.view)
  }

  lemma {:induction false} GossipSchedule(n: Node, g: seq<NodeInfo>)
    ensures n.view.Keys <= Gossip(n, g).view.Keys
    ensures Gossip(n, g).pending == if Gossip(n, g).view.Keys == n.view.Keys then n.pending else []
    decreases |g|
  {
    if |g| > 0 && n.life.Up? {
      var m := GossipOne(n, g[0]);
      assert n.view.Keys <= m.view.Keys;
      assert m.pending == if m.view.Keys == n.view.Keys then n.pending else [];
      GossipSchedule(m, g[1..]);
    }
  }

  lemma HandleSchedule(n: Node, e: Event, src: Address)
    requires n.uuid !in n.view
    ensures var n' := Handle(n, e, src);
            && n.view.Keys <= n'.view.Keys
            && (e.body.Leave? || (n'.pending == if n'.view.Keys == n.view.Keys then n.pending else []))
            && (e.body.Leave? ==> n'.view.Keys == n.view.Keys
                                  && n'.pending == if e.body.leaveUuid in n.view then [] else n.pending)
  {
  }

  lemma ProcessSchedule(n: Node, e: Event, src: Address)
    requires WellFormed(n)
    ensures var n' := Process(n, e, src);
            n'.pending == if Disturbs(n, Deliver(e, src), n') && !Notice(n, e.hdr).life.Aborted? then [] else n.pending
  {
    var n1 := Notice(n, e.hdr);
    assert n1.view.Keys == n.view.Keys && n1.pending == n.pending;
    if !n1.life.Aborted? {
      HandleSchedule(n1, e, src);
      GossipSchedule(Handle(n1, e, src), e.gossip);
      hide Handle, Gossip;
    }
  }

  lemma StepSchedule(n: Node, i: Input, n': Node, outs: seq<Packet>)
    requires WellFormed(n) && Step(n, i, n', outs) && ScheduleOk(n)
    ensures ScheduleOk(n')
    ensures !i.Tick? && !Disturbs(n, i, n') ==> n'.pending == n.pending && n'.view.Keys == n.view.Keys
  {
    StepGrows(n, i, n', outs);
    hide Process, Replies, BeatSends, Beat;
    match i
    case Deliver(e, src) => ProcessSchedule(n, e, src);
    case Tick(now, round) => TickSchedule(n, now, round);
    case AskJoin(dst) =>
    case AskLeave =>
  }

  // ---------- The gap ----------

  ghost function IndexOf(s: seq<Uuid>, u: Uuid): (i: nat)
    requires u in s
    ensures i < |s| && s[i] == u
  {
    var i :| 0 <= i < |s| && s[i] == u;
    i
  }

  /** An upper bound on the effective heartbeats up to and including the next one that probes `u`. */
  ghost function Wait(n: Node, u: Uuid): nat {
    if u in n.pending then IndexOf(n.pending, u) + 1 else |n.pending| + |n.view|
  }

  lemma DistinctIn(s: seq<Uuid>, ids: set<Uuid>)
    requires NoDuplicates(s) && forall u | u in s :: u in ids
    ensures |s| <= |ids|
  {
    if s != [] {
      var last := |s| - 1;
      assert s[last] in s;
      forall u | u in s[..last]
        ensures u in ids - {s[last]}
      {
        assert u in s;
      }
      DistinctIn(s[..last], ids - {s[last]});
    }
  }

  /** Twice the view size, less one, is always enough. */
  lemma WaitBounded(n: Node, u: Uuid)
    requires ScheduleOk(n) && u in n.view
    ensures Wait(n, u) <= 2 * |n.view| - 1
  {
    assert |n.view.Keys| == |n.view|;
    if u in n.pending {
      DistinctIn(n.pending, n.view.Keys);
    } else {
      DistinctIn(n.pending, n.view.Keys - {u});
    }
  }

  lemma WaitShrinks(n: Node, now: Time, round: seq<Uuid>, u: Uuid)
    requires ScheduleOk(n) && Effective(n, now) && RoundFor(n, round)
    requires u in n.view && !IsDead(n.view, u) && Target(n, now, round) != Some(u)
    ensures Wait(Beat(n, now, round), u) < Wait(n, u)
  {
    var (t, rest) := NextProbe(n.view, round);
    NextProbeFinds(n.view, round);
    hide NextProbe;
    var n' := Beat(n, now, round);
    assert n'.pending == rest && n'.view.Keys == n.view.Keys;
    assert |n'.view| == |n'.view.Keys| == |n.view|;
    if u in round {
      assert t.Some?;
      var k, i := |round| - |rest| - 1, IndexOf(round, u);
      assert i > k;
      assert rest[i - k - 1] == u;
      assert IndexOf(rest, u) == i - k - 1 by {
        assert round[k + 1 + IndexOf(rest, u)] == u;
      }
      if n.pending == [] {
        DistinctIn(round, n.view.Keys);
      }
    } else {
      assert n.pending == round;
      assert u !in rest;
    }
  }

  function BeatCount(n: Node, i: Input): nat {
    if Beats(n, i) then 1 else 0
  }

  function BeatsBetween(ns: seq<Node>, ins: seq<Input>, i: nat, j: nat): nat
    requires i <= j <= |ins| < |ns|
    decreases j
  {
    if i == j then 0 else BeatsBetween(ns, ins, i, j - 1) + BeatCount(ns[j - 1], ins[j - 1])
  }

  predicate Probes(n: Node, i: Input, u: Uuid) {
    i.Tick? && Target(n, i.now, i.round) == Some(u)
  }

  /** From step i to step j no member is added or deleted, and `u` is a member that is not DEAD. */
  predicate Steady(ns: seq<Node>, ins: seq<Input>, i: nat, j: nat, u: Uuid)
    requires i <= j <= |ins| < |ns|
  {
    && u in ns[i].view
    && forall t | i <= t < j :: !Disturbs(ns[t], ins[t], ns[t + 1]) && !IsDead(ns[t].view, u)
  }

  lemma StepWait(n: Node, i: Input, n': Node, outs: seq<Packet>, u: Uuid)
    requires WellFormed(n) && ScheduleOk(n) && Step(n, i, n', outs) && u in n.view
    requires !Disturbs(n, i, n') && !IsDead(n.view, u) && !Probes(n, i, u)
    ensures u in n'.view && |n'.view| == |n.view|
    ensures Wait(n', u) + BeatCount(n, i) <= Wait(n, u)
  {
    assert |n'.view| == |n'.view.Keys| == |n.view.Keys| == |n.view|;
    StepSchedule(n, i, n', outs);
    hide Process, Replies, BeatSends, Disturbs;
    if i.Tick? && Effective(n, i.now) {
      WaitShrinks(n, i.now, i.round, u);
    }
  }

  predicate Unprobed(ns: seq<Node>, ins: seq<Input>, i: nat, j: nat, u: Uuid)
    requires i <= j <= |ins| < |ns|
  {
    forall t | i <= t < j :: !Probes(ns[t], ins[t], u)
  }

  lemma SteadyStep(ns: seq<Node>, ins: seq<Input>, i: nat, j: nat, u: Uuid)
    requires i < j <= |ins| < |ns| && Steady(ns, ins, i, j, u) && Unprobed(ns, ins, i, j, u)
    ensures Steady(ns, ins, i, j - 1, u) && Unprobed(ns, ins, i, j - 1, u)
    ensures !Disturbs(ns[j - 1], ins[j - 1], ns[j]) && !IsDead(ns[j - 1].view, u) && !Probes(ns[j - 1], ins[j - 1], u)
  {
    hide Disturbs, IsDead, Probes;
  }

  lemma {:induction false} WaitRunsDown(ns: seq<Node>, ins: seq<Input>, outs: seq<seq<Packet>>, i: nat, j: nat, u: Uuid)
    requires NodeRun(ns, ins, outs) && ScheduleOk(ns[0]) && i <= j <= |ins| < |ns| && Steady(ns, ins, i, j, u)
    requires Unprobed(ns, ins, i, j, u)
    ensures u in ns[j].view
    ensures Wait(ns[j], u) + BeatsBetween(ns, ins, i, j) <= Wait(ns[i], u)
    decreases j
  {
    hide NodeRun, Steady, Unprobed, Disturbs, IsDead, BeatCount, Probes, Wait, ScheduleOk;
    SteadyMember(ns, ins, i, j, u);
    if i < j {
      SteadyStep(ns, ins, i, j, u);
      WaitRunsDown(ns, ins, outs, i, j - 1, u);
      StepDown(ns, ins, outs, j - 1, u);
    }
  }

  lemma StepDown(ns: seq<Node>, ins: seq<Input>, outs: seq<seq<Packet>>, t: nat, u: Uuid)
    requires NodeRun(ns, ins, outs) && ScheduleOk(ns[0]) && t < |ins| && u in ns[t].view
    requires !Disturbs(ns[t], ins[t], ns[t + 1]) && !IsDead(ns[t].view, u) && !Probes(ns[t], ins[t], u)
    ensures u in ns[t + 1].view
    ensures Wait(ns[t + 1], u) + BeatCount(ns[t], ins[t]) <= Wait(ns[t], u)
  {
    hide Step, Disturbs, IsDead, BeatCount, Probes, Wait, ScheduleOk, WellFormed;
    RunSchedule(ns, ins, outs, t);
    RunWellFormed(ns, ins, outs, t);
    StepWait(ns[t], ins[t], ns[t + 1], outs[t], u);
  }

  lemma {:induction false} RunSchedule(ns: seq<Node>, ins: seq<Input>, outs: seq<seq<Packet>>, i: nat)
    requires NodeRun(ns, ins, outs) && ScheduleOk(ns[0]) && i < |ns|
    ensures ScheduleOk(ns[i])
    decreases i
  {
    hide Step;
    if i > 0 {
      RunSchedule(ns, ins, outs, i - 1);
      RunWellFormed(ns, ins, outs, i - 1);
      StepSchedule(ns[i - 1], ins[i - 1], ns[i], outs[i - 1]);
    }
  }

  /**
   The gap bound. With N members, none added or deleted, a member that does not become DEAD is probed in
   every stretch of 2N - 1 effective heartbeats, for every shuffle and whatever other members do.
   */
  lemma ProbeGap(ns: seq<Node>, ins: seq<Input>, outs: seq<seq<Packet>>, i: nat, j: nat, u: Uuid)
    requires NodeRun(ns, ins, outs) && ScheduleOk(ns[0]) && i <= j <= |ins| && Steady(ns, ins, i, j, u)
    requires BeatsBetween(ns, ins, i, j) >= 2 * |ns[i].view| - 1
    ensures exists t | i <= t < j :: Probes(ns[t], ins[t], u) && PingsFirst(ns[t], outs[t], u)
  {
    hide Step, Steady, Wait, Probes, PingsFirst;
    assert u in ns[i].view by { SteadyMember(ns, ins, i, j, u); }
    RunSchedule(ns, ins, outs, i);
    WaitBounded(ns[i], u);
    if Unprobed(ns, ins, i, j, u) {
      WaitRunsDown(ns, ins, outs, i, j, u);
      WaitPositive(ns[j], u);
    } else {
      var t :| i <= t < j && Probes(ns[t], ins[t], u);
      StaysMember(ns, ins, outs, i, t, u);
      ProbePings(ns[t], ins[t], ns[t + 1], outs[t], u);
    }
  }

  /** The first packet is a PING to the address of `u`. */
  predicate PingsFirst(n: Node, outs: seq<Packet>, u: Uuid) {
    u in n.view && |outs| > 0 && outs[0].dst == n.view[u].info.addr && outs[0].event.body == Ping
  }

  /** A member that is probed is sent a PING, and nothing else in that heartbeat is a PING. */
  lemma ProbePings(n: Node, i: Input, n': Node, outs: seq<Packet>, u: Uuid)
    requires Step(n, i, n', outs) && Probes(n, i, u) && u in n.view
    ensures PingsFirst(n, outs, u) && Effects.Carries(n, n.view, outs[0].event)
    ensures forall k | 0 < k < |outs| :: outs[k].event.body != Ping
  {
    hide AskedAll, GossipOf, NextProbe, RoundFor, Aged;
    assert outs[..1] == [outs[0]];
    Effects.BuiltCarries(n, Ping, outs[0].event);
  }

  lemma {:induction false} StaysMember(ns: seq<Node>, ins: seq<Input>, outs: seq<seq<Packet>>, i: nat, t: nat, u: Uuid)
    requires NodeRun(ns, ins, outs) && i <= t < |ns| && u in ns[i].view
    ensures u in ns[t].view
    decreases t
  {
    hide Step;
    if i < t {
      StaysMember(ns, ins, outs, i, t - 1, u);
      RunWellFormed(ns, ins, outs, t - 1);
      StepGrows(ns[t - 1], ins[t - 1], ns[t], outs[t - 1]);
    }
  }

  lemma SteadyMember(ns: seq<Node>, ins: seq<Input>, i: nat, j: nat, u: Uuid)
    requires i <= j <= |ins| < |ns| && Steady(ns, ins, i, j, u)
    ensures u in ns[i].view
  {
  }

  lemma WaitPositive(n: Node, u: Uuid)
    requires u in n.view
    ensures Wait(n, u) > 0
  {
    assert |n.view.Keys| == |n.view| && n.view.Keys != {};
  }

  /** Whatever happens between two effective heartbeats, a round that is over stays over. */
  lemma {:induction false} StaysOver(ns: seq<Node>, ins: seq<Input>, outs: seq<seq<Packet>>, i: nat, j: nat)
    requires NodeRun(ns, ins, outs) && i <= j < |ns| && ns[i].pending == []
    requires forall t | i <= t < j :: !Beats(ns[t], ins[t])
    ensures ns[j].pending == []
    decreases j
  {
    hide Process, Replies, BeatSends, Beats, RoundFor, JoinSent, LeaveSent;
    if i < j {
      StaysOver(ns, ins, outs, i, j - 1);
      RunWellFormed(ns, ins, outs, j - 1);
      var n, input := ns[j - 1], ins[j - 1];
      assert Step(n, input, ns[j], outs[j - 1]);
      if input.Deliver? {
        ProcessSchedule(n, input.e, input.src);
      } else if input.Tick? {
        IdleBeat(n, input);
      }
    }
  }

  lemma IdleBeat(n: Node, i: Input)
    requires i.Tick? && !Beats(n, i)
    ensures Beat(n, i.now, i.round) == n
  {
  }

  /**
   If an effective heartbeat finds no target, the next effective one of the run finds one, provided that any
   member is not DEAD by then and whatever happens in between.
   */
  lemma NeverTwiceNone(ns: seq<Node>, ins: seq<Input>, outs: seq<seq<Packet>>, i: nat, j: nat, u: Uuid)
    requires NodeRun(ns, ins, outs) && i < j < |ins| && Beats(ns[i], ins[i]) && Beats(ns[j], ins[j])
    requires forall t | i < t < j :: !Beats(ns[t], ins[t])
    requires Target(ns[i], ins[i].now, ins[i].round).None?
    requires u in ns[j].view && !IsDead(ns[j].view, u)
    ensures Target(ns[j], ins[j].now, ins[j].round).Some?
  {
    hide NextProbe, BeatSends, Process, Replies, IsDead;
    assert Step(ns[i], ins[i], ns[i + 1], outs[i]) && Step(ns[j], ins[j], ns[j + 1], outs[j]);
    NextProbeFinds(ns[i].view, ins[i].round);
    StaysOver(ns, ins, outs, i + 1, j);
    NextProbeFinds(ns[j].view, ins[j].round);
  }
}
