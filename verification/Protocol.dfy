/**
 One node of the protocol, over a view that is a map. The state after a step is a function of the
 state before it; what is sent during a step is a predicate, because it depends on rand() and time().
 */
module Protocol {
  import opened Types

  /** A node runs, has exited after learning of its own death, or has failed an assert. */
  datatype Life = Up | Exited | Aborted

  type View = map<Uuid, NodeState>

  /** `pending` is the rest of the current probe round; it is empty when the schedule is stale. */
  datatype Node = Node(uuid: Uuid, incarnation: Incarnation, view: View, pending: seq<Uuid>,
                       lastHeartbeat: Time, life: Life)

  // ---------- The view in UUID order ----------

  lemma {:induction false} MaxExists(s: set<Uuid>) returns (k: Uuid)
    requires s != {}
    ensures k in s && forall j | j in s :: j <= k
    decreases |s|
  {
    var x :| x in s;
    k := x;
    if s != {x} {
      var m := MaxExists(s - {x});
      k := if x <= m then m else x;
      assert forall j | j in s :: j == x || j in s - {x};
    }
  }

  ghost function Greatest(s: set<Uuid>): (k: Uuid)
    requires s != {}
    ensures k in s && forall j | j in s :: j <= k
  {
    assert exists k :: k in s && forall j | j in s :: j <= k by {
      var k := MaxExists(s);
    }
    var k :| k in s && forall j | j in s :: j <= k;
    k
  }

  predicate Ascending(ks: seq<Uuid>) {
    forall i, j | 0 <= i < j < |ks| :: ks[i] < ks[j]
  }

  /** The members of a set of UUIDs in ascending order. */
  ghost function Members(s: set<Uuid>): (ks: seq<Uuid>)
    ensures |ks| == |s| && Ascending(ks)
    ensures forall u :: u in ks <==> u in s
  {
    if s == {} then [] else
    var k := Greatest(s);
    Members(s - {k}) + [k]
  }

  // ---------- Records ----------

  function NoticeRecord(r: NodeState, time: Time, incarnation: Incarnation): NodeState {
    if incarnation > r.info.incarnation then
      r.(info := r.info.(incarnation := incarnation, status := Alive, lastSeen := time))
    else if incarnation == r.info.incarnation && r.info.status != Dead then
      r.(info := r.info.(status := Alive, lastSeen := time))
    else r
  }

  function MergeRecord(r: NodeState, info: NodeInfo): NodeState {
    if info.incarnation > r.info.incarnation then
      NodeState(r.info.(incarnation := info.incarnation, lastSeen := info.lastSeen, status := info.status), [])
    else if info.incarnation < r.info.incarnation then r
    else if r.info.status == Dead || r.info.status == Unknown then r.(witnessAddr := [])
    else if info.status.Rank() > r.info.status.Rank() then
      NodeState(r.info.(status := info.status, lastSeen := info.lastSeen), [])
    else if info.status == r.info.status && r.info.lastSeen < info.lastSeen then
      r.(info := r.info.(lastSeen := info.lastSeen))
    else r
  }

  function RefuteRecord(r: NodeState): NodeState {
    if r.info.status == Suspect || r.info.status == Unknown
    then NodeState(r.info.(status := Alive), []) else r
  }

  function AgeRecord(r: NodeState, now: Time): NodeState {
    if r.info.status == Alive && r.info.lastSeen <= now - SUSPECT_AFTER then r.(info := r.info.(status := Suspect))
    else if r.info.status == Suspect && r.info.lastSeen <= now - DEAD_AFTER then r.(info := r.info.(status := Dead))
    else r
  }

  // ---------- State updates ----------

  function Add(n: Node, info: NodeInfo): Node {
    n.(view := n.view[info.uuid := NodeState(info, [])], pending := [])
  }

  function Del(n: Node, u: Uuid): Node {
    if u == n.uuid || u !in n.view then n
    else n.(view := n.view[u := n.view[u].(info := n.view[u].info.(status := Dead))], pending := [])
  }

  function MarkSuspect(n: Node, u: Uuid, src: Address): Node {
    if u !in n.view then n
    else n.(view := n.view[u := NodeState(n.view[u].info.(status := Suspect), src)])
  }

  function Notice(n: Node, h: Header): Node {
    if h.uuid !in n.view then n
    else if !n.view[h.uuid].info.Sane() then n.(life := Aborted)
    else n.(view := n.view[h.uuid := NoticeRecord(n.view[h.uuid], h.time, h.incarnation)])
  }

  function Merge(n: Node, info: NodeInfo): Node {
    if info.uuid == n.uuid then n
    else if info.uuid !in n.view then Add(n, info)
    else n.(view := n.view[info.uuid := MergeRecord(n.view[info.uuid], info)])
  }

  function GossipOne(n: Node, info: NodeInfo): Node {
    if !info.Sane() then n.(life := Aborted)
    else if info.uuid != n.uuid then Merge(n, info)
    else if info.status == Dead then n.(life := Exited)
    else if info.status == Suspect then n.(incarnation := (n.incarnation + 1) % INCARNATIONS)
    else n
  }

  function Gossip(n: Node, g: seq<NodeInfo>): Node
    decreases |g|
  {
    if |g| == 0 || !n.life.Up? then n else Gossip(GossipOne(n, g[0]), g[1..])
  }

  /** The slot swim_state_add() returns for a new record is the last one after sorting. */
  ghost function AckSlot(view: View, u: Uuid): (slot: Uuid)
    ensures u in view ==> slot == u
    ensures u !in view ==> slot == u || slot in view
  {
    if u in view then u else Greatest(view.Keys + {u})
  }

  function AckKnown(n: Node, u: Uuid, h: Header, src: Address): Node {
    if u in n.view then n else Add(n, NodeInfo(u, h.time, 0, Unknown, src))
  }

  function JoinAddress(joinAddr: Address, src: Address): Address {
    if |joinAddr| == 0 then src else joinAddr
  }

  /** The handler of an event up to, but without, the loop over its gossip; `n` has noticed the sender. */
  ghost function Handle(n: Node, e: Event, src: Address): Node {
    match e.body
    case Ping => n
    case PingReq(u) => MarkSuspect(n, u, src)
    case Ack(u) =>
      if u == n.uuid then n else
      var slot, m := AckSlot(n.view, u), AckKnown(n, u, e.hdr, src);
      m.(view := m.view[slot := RefuteRecord(m.view[slot])])
    case Join(u, a) =>
      if u == n.uuid || u in n.view then n
      else if e.hdr.time <= 0 then n.(life := Aborted)
      else Add(n, NodeInfo(u, e.hdr.time, 0, Alive, JoinAddress(a, src)))
    case Leave(u) => Del(n, u)
  }

  /** Only PING and an ACK for another node have their gossip read. */
  predicate ReadsGossip(n: Node, e: Event) {
    e.body.Ping? || (e.body.Ack? && e.body.ackUuid != n.uuid)
  }

  ghost function Process(n: Node, e: Event, src: Address): Node {
    var n1 := Notice(n, e.hdr);
    if n1.life.Aborted? then n1 else
    var n2 := Handle(n1, e, src);
    if ReadsGossip(n, e) then Gossip(n2, e.gossip) else n2
  }

  // ---------- Messages ----------

  /** What swim_fill_gossip() may attach, given a view. */
  ghost predicate GossipOf(view: View, g: seq<NodeInfo>) {
    && |g| == Min(|view|, MAX_GOSSIP)
    && (forall i | 0 <= i < |g| :: g[i].uuid in view && g[i] == view[g[i].uuid].info)
    && (|view| < MAX_GOSSIP ==> forall i | 0 <= i < |g| :: g[i].uuid == Members(view.Keys)[i])
  }

  predicate Stamped(n: Node, e: Event) {
    e.hdr.uuid == n.uuid && e.hdr.incarnation == n.incarnation
  }

  ghost predicate Built(n: Node, b: Body, e: Event) {
    Stamped(n, e) && e.body == b && GossipOf(n.view, e.gossip)
  }

  ghost predicate SentOne(n: Node, b: Body, dst: Address, outs: seq<Packet>) {
    |outs| == 1 && outs[0].dst == dst && Built(n, b, outs[0].event)
  }

  function ForwardedJoin(e: Event, src: Address): Event
    requires e.body.Join?
  {
    e.(body := Join(e.body.joinUuid, JoinAddress(e.body.joinAddr, src)))
  }

  /** One copy of the event to every member in view order, then an ACK to the sender. */
  ghost predicate JoinReplies(n: Node, e: Event, src: Address, outs: seq<Packet>)
    requires e.body.Join?
  {
    && |outs| == |n.view| + 1
    && (forall i | 0 <= i < |n.view| ::
          outs[i] == Packet(n.view[Members(n.view.Keys)[i]].info.addr, ForwardedJoin(e, src)))
    && SentOne(n, Ack(n.uuid), src, outs[|n.view|..])
  }

  /** Whether an ACK for `u` is passed on, and the record whose witness gets it. */
  ghost predicate Relays(n: Node, u: Uuid, h: Header, src: Address) {
    u != n.uuid &&
    var r := AckKnown(n, u, h, src).view[AckSlot(n.view, u)];
    r.info.status == Suspect && r.witnessAddr != []
  }

  ghost predicate Replies(n: Node, e: Event, src: Address, outs: seq<Packet>) {
    var n1 := Notice(n, e.hdr);
    var n2 := Handle(n1, e, src);
    if n1.life.Aborted? then outs == [] else
    match e.body
    case Ping => SentOne(n1, Ack(n.uuid), src, outs)
    case PingReq(u) => if u in n1.view then SentOne(n2, Ping, n1.view[u].info.addr, outs) else outs == []
    case Ack(u) =>
      if Relays(n1, u, e.hdr, src) then
        SentOne(AckKnown(n1, u, e.hdr, src), Ack(u), n1.view[AckSlot(n1.view, u)].witnessAddr, outs)
      else outs == []
    case Join(u, a) =>
      if u == n.uuid || u in n1.view || n2.life.Aborted? then outs == [] else JoinReplies(n2, e, src, outs)
    case Leave(u) => SentOne(n2, Ack(n.uuid), src, outs)
  }

  // ---------- Heartbeat ----------

  predicate Effective(n: Node, now: Time) {
    n.view != map[] && n.lastHeartbeat + HEARTBEAT_INTERVAL < now
  }

  predicate NoDuplicates<T(==)>(s: seq<T>) {
    forall i, j | 0 <= i < j < |s| :: s[i] != s[j]
  }

  /** A round covers every member exactly once. */
  ghost predicate IsRound(view: View, round: seq<Uuid>) {
    NoDuplicates(round) && (forall u :: u in round <==> u in view)
  }

  ghost predicate RoundFor(n: Node, round: seq<Uuid>) {
    if n.pending != [] then round == n.pending else IsRound(n.view, round)
  }

  predicate IsDead(view: View, u: Uuid) {
    u in view && view[u].info.status == Dead
  }

  /** The first member of the round that is not dead, and what remains after it. */
  function NextProbe(view: View, round: seq<Uuid>): (Option<Uuid>, seq<Uuid>) {
    if round == [] then (None, [])
    else if IsDead(view, round[0]) then NextProbe(view, round[1..])
    else (Some(round[0]), round[1..])
  }

  function Aged(view: View, now: Time): View {
    map u | u in view :: AgeRecord(view[u], now)
  }

  function Beat(n: Node, now: Time, round: seq<Uuid>): Node {
    if !Effective(n, now) then n
    else n.(view := Aged(n.view, now), pending := NextProbe(n.view, round).1, lastHeartbeat := now)
  }

  function Target(n: Node, now: Time, round: seq<Uuid>): Option<Uuid> {
    if Effective(n, now) then NextProbe(n.view, round).0 else None
  }

  /** A view in the middle of the ageing loop. */
  predicate Halfway(view: View, now: Time, mid: View) {
    mid.Keys == view.Keys && forall u | u in view :: mid[u] == view[u] || mid[u] == AgeRecord(view[u], now)
  }

  /** The members a heartbeat starts to suspect. */
  function NewlySuspect(view: View, now: Time): set<Uuid> {
    set u | u in view && view[u].info.status == Alive && view[u].info.lastSeen <= now - SUSPECT_AFTER
  }

  /** A PING_REQ about a newly suspect member `u`, to another member `v` that is alive. */
  ghost predicate PingReqSent(n: Node, now: Time, p: Packet) {
    exists u, v, mid ::
      && u in NewlySuspect(n.view, now) && v in n.view && v != u
      && n.view[v].info.status == Alive && p.dst == n.view[v].info.addr
      && Halfway(n.view, now, mid) && Built(n.(view := mid), PingReq(u), p.event)
  }

  /** The `k`-th position after `start`, around the end of a view of `n` records. */
  function Slot(start: nat, k: nat, n: nat): nat
    requires n > 0
  {
    (start + k) % n
  }

  /** The positions that a suspicion starting at `start` may ask, of `n`. */
  ghost predicate InWindow(start: nat, n: nat, j: nat)
    requires n > 0
  {
    InTail(start, start, n, j)
  }

  /** The part of the window above `sent`. */
  ghost predicate InTail(start: nat, sent: nat, n: nat, j: nat)
    requires n > 0
  {
    exists k: nat :: sent < k <= Min(n, MAX_PING_REQ) && j == Slot(start, k, n)
  }

  /** The view when the ageing loop has passed the member `t`. */
  function AgedUpTo(view: View, now: Time, t: Uuid): View {
    map u | u in view :: if u <= t then AgeRecord(view[u], now) else view[u]
  }

  /** PING_REQs about `t` to the members at the positions `asked`: those in the window that are ALIVE then. */
  ghost predicate AskedAt(n: Node, now: Time, t: Uuid, start: nat, asked: seq<nat>, outs: seq<Packet>)
    requires n.view != map[]
  {
    var mid, ks := AgedUpTo(n.view, now, t), Members(n.view.Keys);
    && start < |ks| && NoDuplicates(asked) && |outs| == |asked|
    && (forall j: nat :: j in asked <==> j < |ks| && mid[ks[j]].info.status == Alive && InWindow(start, |ks|, j))
    && (forall k | 0 <= k < |asked| ::
          && asked[k] < |ks| && outs[k].dst == mid[ks[asked[k]]].info.addr
          && Built(n.(view := mid), PingReq(t), outs[k].event))
  }

  ghost predicate AskedFrom(n: Node, now: Time, t: Uuid, start: nat, outs: seq<Packet>)
    requires n.view != map[]
  {
    exists asked :: AskedAt(n, now, t, start, asked, outs)
  }

  /** The PING_REQs about one member, for some random start. */
  ghost predicate AskedAbout(n: Node, now: Time, t: Uuid, outs: seq<Packet>)
    requires n.view != map[]
  {
    exists start :: AskedFrom(n, now, t, start, outs)
  }

  /** The PING_REQs about all of `ts`, in that order. */
  ghost predicate AskedAll(n: Node, now: Time, ts: seq<Uuid>, outs: seq<Packet>)
    requires n.view != map[]
    decreases |ts|
  {
    if ts == [] then outs == [] else
    exists c: nat | c <= |outs| ::
      AskedAbout(n, now, ts[|ts| - 1], outs[c..]) && AskedAll(n, now, ts[..|ts| - 1], outs[..c])
  }

  ghost predicate BeatSends(n: Node, now: Time, round: seq<Uuid>, outs: seq<Packet>) {
    if !Effective(n, now) then outs == [] else
    var t := NextProbe(n.view, round).0;
    var k := if t.Some? && t.value in n.view then 1 else 0;
    && |outs| >= k
    && (k == 1 ==> SentOne(n, Ping, n.view[t.value].info.addr, outs[..1]))
    && (forall i | k <= i < |outs| :: PingReqSent(n, now, outs[i]))
    && AskedAll(n, now, Members(NewlySuspect(n.view, now)), outs[k..])
  }

  // ---------- Joining and leaving ----------

  predicate JoinSent(n: Node, dst: Address, outs: seq<Packet>) {
    && |outs| == 1 && outs[0].dst == dst && Stamped(n, outs[0].event)
    && outs[0].event.body == Join(n.uuid, []) && outs[0].event.gossip == []
  }

  /** LEAVE goes to min(view size, 5) different members; its `leaveUuid` is never filled in. */
  ghost predicate LeaveSent(n: Node, outs: seq<Packet>) {
    && |outs| == Min(|n.view|, MAX_LEAVE)
    && (exists rs: seq<Uuid> ::
          && |rs| == |outs| && NoDuplicates(rs)
          && forall i | 0 <= i < |outs| :: rs[i] in n.view && outs[i].dst == n.view[rs[i]].info.addr)
    && (forall i | 0 <= i < |outs| ::
          Stamped(n, outs[i].event) && outs[i].event.body == Leave(0) && outs[i].event.gossip == [])
  }

  // ---------- Steps ----------

  datatype Input =
    | Deliver(e: Event, src: Address)
    | Tick(now: Time, round: seq<Uuid>)
    | AskJoin(dst: Address)
    | AskLeave

  ghost predicate Step(n: Node, i: Input, n': Node, outs: seq<Packet>) {
    n.life.Up? &&
    match i
    case Deliver(e, src) => n' == Process(n, e, src) && Replies(n, e, src, outs)
    case Tick(now, round) =>
      (Effective(n, now) ==> RoundFor(n, round)) && n' == Beat(n, now, round) && BeatSends(n, now, round, outs)
    case AskJoin(dst) => n' == n && JoinSent(n, dst, outs)
    case AskLeave => n' == n && LeaveSent(n, outs)
  }
}
