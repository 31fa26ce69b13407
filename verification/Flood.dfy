/** JOIN flooding: every node forwards a JOIN for a given UUID at most once, so the flood is bounded. */
module Flood {
  import opened Types
  import opened Protocol
  import opened Cluster

  /** The positions in `outs` that hold a JOIN for `u`. */
  function JoinsFor(outs: seq<Packet>, u: Uuid): set<nat> {
    set k: nat | k < |outs| && outs[k].event.body.Join? && outs[k].event.body.joinUuid == u
  }

  /** How many copies of a JOIN for `u` a step passes on; a node's own request to join is not a copy. */
  function Copies(a: Action, u: Uuid): nat {
    if a.input.Deliver? then |JoinsFor(a.outs, u)| else 0
  }

  /** The copies of a JOIN for `u` passed on in the first `m` steps. */
  function TotalCopies(acts: seq<Action>, m: nat, u: Uuid): nat
    requires m <= |acts|
  {
    if m == 0 then 0 else TotalCopies(acts, m - 1, u) + Copies(acts[m - 1], u)
  }

  /** The nodes that still have to learn of `u`. */
  function Lacking(s: System, u: Uuid): set<Uuid> {
    set q | q in s.nodes && q != u && u !in s.nodes[q].view
  }

  lemma Subrange(s: set<nat>, n: nat)
    requires forall k | k in s :: k < n
    ensures |s| <= n
  {
    if n == 0 {
      assert s == {};
    } else {
      Subrange(s - {n - 1}, n - 1);
      assert s <= (s - {n - 1}) + {n - 1};
      assert |s| <= |(s - {n - 1}) + {n - 1}|;
    }
  }

  lemma ReplyForwards(n: Node, e: Event, src: Address, outs: seq<Packet>, k: nat)
    requires Replies(n, e, src, outs) && k < |outs| && outs[k].event.body.Join?
    ensures e.body.Join? && outs[k].event == ForwardedJoin(e, src)
    ensures e.body.joinUuid != n.uuid && e.body.joinUuid !in n.view
    ensures var n2 := Handle(Notice(n, e.hdr), e, src);
            k < |n2.view| && |outs| == |n2.view| + 1 && e.body.joinUuid in n2.view && n2 == Process(n, e, src)
  {
    hide GossipOf, Gossip, Members;
    match e.body
    case Join(u, a) =>
    case _ =>
  }

  /** A step that forwards a JOIN for `u` is at a node that did not know `u`, and now does. */
  lemma StepForwards(n: Node, i: Input, n': Node, outs: seq<Packet>, u: Uuid)
    requires Step(n, i, n', outs) && i.Deliver? && JoinsFor(outs, u) != {}
    ensures u != n.uuid && u !in n.view && u in n'.view
    ensures |JoinsFor(outs, u)| <= |n'.view|
  {
    hide Process, Replies, Handle;
    var k :| k in JoinsFor(outs, u);
    ReplyForwards(n, i.e, i.src, outs, k);
    forall j | j in JoinsFor(outs, u)
      ensures j < |n'.view|
    {
      ReplyForwards(n, i.e, i.src, outs, j);
    }
    Subrange(JoinsFor(outs, u), |n'.view|);
  }

  /** A step never makes a node lack `u` again; one that forwards uses up a node that lacked it. */
  lemma NextForwards(s: System, a: Action, s': System, u: Uuid)
    requires Inv(s) && Inv(s') && Next(s, a, s')
    ensures Lacking(s', u) <= Lacking(s, u)
    ensures Copies(a, u) > 0 ==> a.p in Lacking(s, u) - Lacking(s', u)
    ensures Copies(a, u) > 0 ==> Copies(a, u) <= |s.nodes| - 1
  {
    hide Step;
    forall q | q in s.nodes
      ensures q in s'.nodes && (u in s.nodes[q].view ==> u in s'.nodes[q].view)
    {
      assert NodeOk(s, q);
      NextGrows(s, a, s', q);
    }
    if Copies(a, u) > 0 {
      assert NodeOk(s, a.p) && NodeOk(s', a.p);
      var n' := s'.nodes[a.p];
      StepForwards(s.nodes[a.p], a.input, n', a.outs, u);
      SubsetSize(n'.view.Keys, s'.nodes.Keys - {a.p});
      assert |n'.view.Keys| == |n'.view|;
    }
  }

  /** In any run a node forwards a JOIN for `u` in at most one step. */
  lemma ForwardsOnce(ss: seq<System>, acts: seq<Action>, i: nat, j: nat, u: Uuid)
    requires Run(ss, acts) && i < j < |acts| && acts[i].p == acts[j].p
    requires Copies(acts[i], u) > 0
    ensures Copies(acts[j], u) == 0
  {
    hide Next, Copies, Inv;
    var p := acts[i].p;
    InvRun(ss, acts, i);
    InvRun(ss, acts, i + 1);
    InvRun(ss, acts, j);
    InvRun(ss, acts, j + 1);
    NextForwards(ss[i], acts[i], ss[i + 1], u);
    NextForwards(ss[j], acts[j], ss[j + 1], u);
    CapsRise(ss[i], acts[i], ss[i + 1]);
    ViewsGrow(ss, acts, i + 1, j, p);
  }

  /** `n` copies for each of `learned` nodes. */
  function Budget(learned: nat, n: nat): nat {
    learned * n
  }

  lemma Accumulate(t: nat, c: nat, d: nat, d': nat, n: nat)
    requires t <= Budget(d, n) && d <= d'
    requires c > 0 ==> d < d' && c <= n
    ensures t + c <= Budget(d', n)
  {
    var e := d' - d;
    assert d' * n == d * n + e * n;
    if c > 0 {
      assert e * n == n + (e - 1) * n;
    }
  }

  lemma LackingShrinks(s: System, a: Action, s': System, u: Uuid)
    requires Inv(s) && Inv(s') && Next(s, a, s')
    ensures |s'.nodes| == |s.nodes| && |s.nodes| >= 1
    ensures |Lacking(s', u)| <= |Lacking(s, u)|
    ensures Copies(a, u) > 0 ==> |Lacking(s', u)| < |Lacking(s, u)| && Copies(a, u) <= |s.nodes| - 1
  {
    hide Step, Copies;
    NextForwards(s, a, s', u);
    SubsetSize(Lacking(s', u), Lacking(s, u));
    if Copies(a, u) > 0 {
      SubsetSize(Lacking(s', u), Lacking(s, u) - {a.p});
    }
    CapsRise(s, a, s');
    assert |s.nodes.Keys| == |s.nodes| && |s'.nodes.Keys| == |s'.nodes|;
  }

  lemma FloodStep(ss: seq<System>, acts: seq<Action>, m: nat, u: Uuid)
    requires Run(ss, acts) && m < |acts|
    ensures |ss[m + 1].nodes| == |ss[m].nodes| && |ss[m].nodes| >= 1
    ensures |Lacking(ss[m + 1], u)| <= |Lacking(ss[m], u)|
    ensures Copies(acts[m], u) > 0 ==>
              |Lacking(ss[m + 1], u)| < |Lacking(ss[m], u)| && Copies(acts[m], u) <= |ss[m].nodes| - 1
  {
    hide Next, Inv, Lacking, Copies;
    InvRun(ss, acts, m);
    InvRun(ss, acts, m + 1);
    LackingShrinks(ss[m], acts[m], ss[m + 1], u);
  }

  lemma NobodyKnows(s: System, u: Uuid)
    requires Init(s)
    ensures Lacking(s, u) == s.nodes.Keys - {u}
  {
  }

  /**
   The flood is bounded: among n nodes, the copies of a JOIN for `u` passed on so far number at most
   n - 1 for every node that has learned of `u` since the start, where only `u` itself need not learn.
   */
  lemma {:induction false} FloodBounded(ss: seq<System>, acts: seq<Action>, m: nat, u: Uuid)
    requires Run(ss, acts) && m <= |acts|
    ensures |ss[m].nodes| == |ss[0].nodes| && |Lacking(ss[m], u)| <= |Lacking(ss[0], u)|
    ensures Lacking(ss[0], u) == ss[0].nodes.Keys - {u}
    ensures |acts| > 0 ==>
              |ss[0].nodes| >= 1 &&
              TotalCopies(acts, m, u) <= Budget(|Lacking(ss[0], u)| - |Lacking(ss[m], u)|, |ss[0].nodes| - 1)
    decreases m
  {
    hide Next, Copies, Inv, Lacking, Budget, Init;
    NobodyKnows(ss[0], u);
    if m > 0 {
      FloodBounded(ss, acts, m - 1, u);
      FloodStep(ss, acts, m - 1, u);
      var all := |Lacking(ss[0], u)|;
      Accumulate(TotalCopies(acts, m - 1, u), Copies(acts[m - 1], u),
                 all - |Lacking(ss[m - 1], u)|, all - |Lacking(ss[m], u)|, |ss[0].nodes| - 1);
    } else if |acts| > 0 {
      FloodStep(ss, acts, 0, u);
    }
  }
}
