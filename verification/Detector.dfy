/**
 The failure detector as it runs: one object whose methods update the view array, the probe schedule and
 the counters in place, and collect what they send. Every method is proved against Protocol.
 */
module Detector {
  import opened Types
  import opened Protocol
  import opened NodeFacts
  import opened Shuffle
  import opened ViewIndex
  import opened Probing

  /** The rest of the probe round, by name; nothing if the schedule is not for this view. */
  function Schedule(view: seq<NodeState>, order: seq<nat>, pos: nat, size: nat): seq<Uuid> {
    if size == |view| == |order| && pos <= size && InRange(view, order[pos..]) then Names(view, order[pos..]) else []
  }

  lemma SameSchedule(view: seq<NodeState>, view': seq<NodeState>, order: seq<nat>, pos: nat, size: nat)
    requires |view'| == |view| && forall i | 0 <= i < |view| :: view'[i].info.uuid == view[i].info.uuid
    ensures Schedule(view', order, pos, size) == Schedule(view, order, pos, size)
  {
    hide Names;
  }

  lemma StaleSchedule(view: seq<NodeState>, order: seq<nat>, pos: nat)
    ensures Schedule(view, order, pos, 0) == []
  {
  }

  /** time(): any reading of the clock. */
  method Clock() returns (t: Time)
  {
    t := *;
  }

  class Swim {
    const uuid: Uuid
    var incarnation: Incarnation
    var view: seq<NodeState>
    var capacity: nat
    var order: array<nat>
    var pos: nat
    var size: nat
    var lastHeartbeat: Time
    var life: Life
    var outbox: seq<Packet>
    /** All that rand() has returned. */
    ghost var drawn: seq<nat>

    /** The view is sorted, fits its capacity and does not hold its owner; the schedule is stale or a permutation. */
    ghost predicate Valid()
      reads this, order
    {
      && Sorted(view) && |view| <= capacity && capacity > 0
      && Lookup(view, uuid) < 0
      && (size == 0 || (size == |view| == order.Length && pos <= size && IsPermutation(order[..])))
    }

    ghost function Abs(): Node
      requires Valid()
      reads this, order
    {
      Node(uuid, incarnation, ViewMap(view), Schedule(view, order[..], pos, size), lastHeartbeat, life)
    }

    constructor (uuid: Uuid, now: Time)
      ensures Valid() && Abs() == Node(uuid, 0, map[], [], now, Up) && outbox == []
    {
      this.uuid := uuid;
      incarnation, view, capacity := 0, [], 32;
      order, pos, size := new nat[0], 0, 0;
      lastHeartbeat, life, outbox, drawn := now, Up, [], [];
    }

    /** What a valid object stands for meets the assumptions made of nodes elsewhere. */
    lemma AbsOk()
      requires Valid()
      ensures WellFormed(Abs()) && ScheduleOk(Abs())
    {
      hide ViewMap, Lookup, Names;
      if size != 0 {
        assert forall i | 0 <= i < size :: order[..][i] == order[i];
        SuffixNames(view, order[..], pos);
      }
    }

    // ---------- The view ----------

    method GetNode(u: Uuid) returns (i: int)
      requires Valid()
      ensures i == Lookup(view, u)
      ensures if i < 0 then u !in Abs().view else i < |view| && u in Abs().view && Abs().view[u] == view[i]
    {
      i := BinarySearch(view, u);
    }

    /** A write to the record at position `i`. */
    method SetRecord(i: nat, r: NodeState)
      requires Valid() && i < |view| && r.info.uuid == view[i].info.uuid
      modifies this`view
      ensures Valid() && view == old(view)[i := r]
      ensures Abs() == old(Abs()).(view := old(Abs()).view[r.info.uuid := r])
    {
      hide ViewMap, Lookup, Schedule, IsPermutation;
      Updated(view, i, r);
      SameSchedule(view, view[i := r], order[..], pos, size);
      LookupSame(view, view[i := r], uuid);
      view := view[i := r];
    }

    /** Grows the array if it is full, appends the record, sorts, and returns the slot it was appended to. */
    method Add(info: NodeInfo) returns (slot: nat)
      requires Valid() && info.uuid != uuid && Lookup(view, info.uuid) < 0
      modifies this`view, this`capacity, this`size
      ensures Valid() && Abs() == Protocol.Add(old(Abs()), info)
      ensures capacity == if old(|view|) < old(capacity) then old(capacity) else 2 * old(capacity)
      ensures slot == old(|view|) == |view| - 1 && view[slot].info.uuid == Greatest(Abs().view.Keys)
      ensures view[slot] == NodeState(info, []) <==> forall u | u in old(Abs()).view :: u < info.uuid
    {
      hide ViewMap, Lookup, Schedule, IsPermutation, Greatest, Sorted, Distinct;
      if |view| >= capacity {
        capacity := 2 * capacity;
      }
      slot := |view|;
      var r := NodeState(info, []);
      ghost var was := view;
      AppendDistinct(view, r);
      view := Qsort(view + [r]);
      size := 0;
      AddedTo(was, r, view, uuid);
      StaleSchedule(view, order[..], pos);
    }

    /** Marks a record DEAD and makes the schedule stale; `i` is -1 if there is none. */
    method Del(u: Uuid) returns (i: int)
      requires Valid()
      modifies this`view, this`size
      ensures Valid() && Abs() == Protocol.Del(old(Abs()), u)
      ensures i == if u == uuid then -1 else Lookup(old(view), u)
    {
      hide ViewMap, Lookup, Schedule, IsPermutation, Sorted;
      if u == uuid {
        return -1;
      }
      i := GetNode(u);
      if i >= 0 {
        SetRecord(i, view[i].(info := view[i].info.(status := Dead)));
        size := 0;
        StaleSchedule(view, order[..], pos);
      }
    }

    method MarkSuspect(u: Uuid, src: Address) returns (i: int)
      requires Valid()
      modifies this`view
      ensures Valid() && Abs() == Protocol.MarkSuspect(old(Abs()), u, src)
      ensures i == Lookup(old(view), u) && |view| == |old(view)|
      ensures i >= 0 ==> view[i].info.addr == old(view)[i].info.addr
    {
      i := GetNode(u);
      if i >= 0 {
        SetRecord(i, NodeState(view[i].info.(status := Suspect), src));
      }
    }

    method Notice(h: Header)
      requires Valid() && life.Up?
      modifies this`view, this`life
      ensures Valid() && Abs() == Protocol.Notice(old(Abs()), h)
    {
      hide ViewMap, Lookup, Schedule, IsPermutation, Sorted;
      var i := GetNode(h.uuid);
      if i >= 0 {
        var r := view[i];
        if !(r.info.lastSeen > 0 && r.info.status != Unknown) {
          life := Aborted;
        } else if h.incarnation > r.info.incarnation {
          SetRecord(i, r.(info := r.info.(incarnation := h.incarnation, status := Alive, lastSeen := h.time)));
        } else if h.incarnation == r.info.incarnation {
          if r.info.status == Dead {
            SameMap(Abs().view, h.uuid);
          } else {
            SetRecord(i, r.(info := r.info.(status := Alive, lastSeen := h.time)));
          }
        } else {
          SameMap(Abs().view, h.uuid);
        }
      }
    }

    method Merge(info: NodeInfo)
      requires Valid()
      modifies this`view, this`capacity, this`size
      ensures Valid() && Abs() == Protocol.Merge(old(Abs()), info)
    {
      hide ViewMap, Lookup, Schedule, IsPermutation, Sorted, Greatest;
      if info.uuid == uuid {
        return;
      }
      var i := GetNode(info.uuid);
      if i < 0 {
        var slot := Add(info);
        return;
      }
      var r := view[i];
      SameMap(Abs().view, info.uuid);
      if info.incarnation > r.info.incarnation {
        SetRecord(i, NodeState(r.info.(incarnation := info.incarnation, lastSeen := info.lastSeen,
                                       status := info.status), []));
      } else if info.incarnation == r.info.incarnation {
        if r.info.status == Alive || r.info.status == Suspect {
          if info.status.Rank() > r.info.status.Rank() {
            SetRecord(i, NodeState(r.info.(status := info.status, lastSeen := info.lastSeen), []));
          } else if info.status == r.info.status && r.info.lastSeen < info.lastSeen {
            SetRecord(i, r.(info := r.info.(lastSeen := info.lastSeen)));
          }
        } else {
          SetRecord(i, r.(witnessAddr := []));
        }
      }
    }

    /** rand(): any non-negative number. */
    method Rand() returns (r: nat)
      modifies this`drawn
      ensures drawn == old(drawn) + [r]
    {
      r := *;
      drawn := drawn + [r];
    }

    // ---------- Sending ----------

    /** All records of a small view in order, or ten picked at random. */
    method FillGossip() returns (g: seq<NodeInfo>)
      requires Valid()
      modifies this`drawn
      ensures GossipOf(Abs().view, g)
      ensures old(drawn) <= drawn && Picked(view, drawn[|old(drawn)|..], g)
    {
      hide ViewMap, Lookup, Schedule, IsPermutation, Sorted, GossipOf;
      g := [];
      if |view| < MAX_GOSSIP {
        for i := 0 to |view|
          invariant |g| == i && forall k | 0 <= k < i :: g[k] == view[k].info
        {
          g := g + [view[i].info];
        }
        WholeView(view, g);
      } else {
        ghost var from: seq<nat> := [];
        for i := 0 to MAX_GOSSIP
          modifies this`drawn
          invariant |g| == |from| == i && forall k | 0 <= k < i :: from[k] < |view| && g[k] == view[from[k]].info
          invariant |drawn| == |old(drawn)| + i && old(drawn) <= drawn
          invariant forall k | 0 <= k < i :: from[k] == drawn[|old(drawn)| + k] % |view|
        {
          var r := Rand();
          g, from := g + [view[r % |view|].info], from + [r % |view|];
        }
        SampledView(view, from, g);
      }
    }

    /** swim_send_ack(), swim_send_ping() and swim_send_ping_req(), which differ in the body only. */
    method Send(b: Body, dst: Address)
      requires Valid()
      modifies this`outbox, this`drawn
      ensures |outbox| == |old(outbox)| + 1 && outbox[..|old(outbox)|] == old(outbox)
      ensures SentOne(Abs(), b, dst, outbox[|old(outbox)|..])
      ensures old(drawn) <= drawn && Picked(view, drawn[|old(drawn)|..], outbox[|old(outbox)|].event.gossip)
    {
      var g := FillGossip();
      var t := Clock();
      outbox := outbox + [Packet(dst, Event(Header(uuid, t, incarnation), b, g))];
    }

    // ---------- Receiving ----------

    method ProcessGossip(g: seq<NodeInfo>)
      requires Valid() && life.Up?
      modifies this`incarnation, this`view, this`capacity, this`size, this`life
      ensures Valid() && Abs() == Gossip(old(Abs()), g)
    {
      hide ViewMap, Lookup, Schedule, IsPermutation, Sorted;
      var i := 0;
      while i < |g| && life.Up?
        invariant 0 <= i <= |g| && Valid()
        invariant Gossip(old(Abs()), g) == Gossip(Abs(), g[i..])
      {
        ghost var before := Abs();
        var info := g[i];
        assert g[i..][0] == info && g[i..][1..] == g[i + 1..];
        if !(info.lastSeen > 0 && info.status != Unknown) {
          life := Aborted;
        } else if info.uuid == uuid {
          if info.status == Dead {
            life := Exited;
          } else if info.status == Suspect {
            incarnation := (incarnation + 1) % INCARNATIONS;
          }
        } else {
          Merge(info);
        }
        assert Abs() == GossipOne(before, info);
        i := i + 1;
      }
    }

    method ProcessPing(e: Event, src: Address)
      requires Valid() && life.Up? && e.body.Ping?
      modifies this`incarnation, this`view, this`capacity, this`size, this`life, this`outbox, this`drawn
      ensures Valid() && Abs() == Gossip(old(Abs()), e.gossip)
      ensures |outbox| >= |old(outbox)| && outbox[..|old(outbox)|] == old(outbox)
      ensures SentOne(old(Abs()), Ack(uuid), src, outbox[|old(outbox)|..])
    {
      hide ViewMap, Lookup, Schedule, IsPermutation, Sorted, GossipOf, Gossip;
      Send(Ack(uuid), src);
      ProcessGossip(e.gossip);
    }

    method ProcessPingReq(e: Event, src: Address)
      requires Valid() && e.body.PingReq?
      modifies this`view, this`outbox, this`drawn
      ensures Valid() && Abs() == Protocol.MarkSuspect(old(Abs()), e.body.target, src)
      ensures |outbox| >= |old(outbox)| && outbox[..|old(outbox)|] == old(outbox)
      ensures var n, u, outs := old(Abs()), e.body.target, outbox[|old(outbox)|..];
              if u in n.view then SentOne(Abs(), Ping, n.view[u].info.addr, outs) else outs == []
    {
      hide ViewMap, Lookup, Schedule, IsPermutation, Sorted, GossipOf;
      var i := MarkSuspect(e.body.target, src);
      if i >= 0 {
        Send(Ping, view[i].info.addr);
      }
    }

    method ProcessAck(e: Event, src: Address)
      requires Valid() && life.Up? && e.body.Ack?
      modifies this`incarnation, this`view, this`capacity, this`size, this`life, this`outbox, this`drawn
      ensures Valid()
      ensures Abs() == if e.body.ackUuid == uuid then old(Abs())
                       else Gossip(Handle(old(Abs()), e, src), e.gossip)
      ensures |outbox| >= |old(outbox)| && outbox[..|old(outbox)|] == old(outbox)
      ensures var n, u, outs := old(Abs()), e.body.ackUuid, outbox[|old(outbox)|..];
              if Relays(n, u, e.hdr, src)
              then SentOne(AckKnown(n, u, e.hdr, src), Ack(u), n.view[AckSlot(n.view, u)].witnessAddr, outs)
              else outs == []
    {
      hide ViewMap, Lookup, Schedule, IsPermutation, Sorted, GossipOf, Gossip, Greatest;
      var u := e.body.ackUuid;
      if u == uuid {
        return;
      }
      ghost var n := Abs();
      var i := GetNode(u);
      if i < 0 {
        i := Add(NodeInfo(u, e.hdr.time, 0, Unknown, src));
        assert n.view.Keys + {u} == Abs().view.Keys;
      }
      ghost var m, slot := Abs(), view[i].info.uuid;
      assert m == AckKnown(n, u, e.hdr, src) && slot == AckSlot(n.view, u);
      RefuteSlot(i, u);
      assert Abs() == Handle(n, e, src);
      ProcessGossip(e.gossip);
    }

    /** Tells the witness of a suspect record, and takes a suspect or unknown record back to ALIVE. */
    method RefuteSlot(i: nat, u: Uuid)
      requires Valid() && i < |view|
      modifies this`view, this`outbox, this`drawn
      ensures Valid()
      ensures var k := old(view)[i].info.uuid;
              Abs() == old(Abs()).(view := old(Abs()).view[k := RefuteRecord(old(Abs()).view[k])])
      ensures |outbox| >= |old(outbox)| && outbox[..|old(outbox)|] == old(outbox)
      ensures var r, outs := old(view)[i], outbox[|old(outbox)|..];
              if r.info.status == Suspect && r.witnessAddr != []
              then SentOne(old(Abs()), Ack(u), r.witnessAddr, outs) else outs == []
    {
      hide ViewMap, Lookup, Schedule, IsPermutation, Sorted, GossipOf;
      ghost var m, k := Abs().view, view[i].info.uuid;
      if view[i].info.status == Suspect {
        if view[i].witnessAddr != [] {
          Send(Ack(u), view[i].witnessAddr);
          SetRecord(i, view[i].(witnessAddr := []));
        }
        SetRecord(i, NodeState(view[i].info.(status := Alive), []));
      } else if view[i].info.status == Unknown {
        SetRecord(i, NodeState(view[i].info.(status := Alive), []));
      } else {
        SameMap(m, k);
      }
    }

    method ProcessJoin(e: Event, src: Address)
      requires Valid() && life.Up? && e.body.Join?
      modifies this`view, this`capacity, this`size, this`life, this`outbox, this`drawn
      ensures Valid() && Abs() == Handle(old(Abs()), e, src)
      ensures |outbox| >= |old(outbox)| && outbox[..|old(outbox)|] == old(outbox)
      ensures var n, u, outs := old(Abs()), e.body.joinUuid, outbox[|old(outbox)|..];
              if u == n.uuid || u in n.view || Abs().life.Aborted? then outs == [] else JoinReplies(Abs(), e, src, outs)
    {
      hide ViewMap, Lookup, Schedule, IsPermutation, Sorted, JoinReplies;
      var u := e.body.joinUuid;
      if u == uuid {
        return;
      }
      var i := GetNode(u);
      if i >= 0 {
        return;
      }
      var addr := if |e.body.joinAddr| == 0 then src else e.body.joinAddr;
      if e.hdr.time <= 0 {
        life := Aborted;
        return;
      }
      var slot := Add(NodeInfo(u, e.hdr.time, 0, Alive, addr));
      Forward(e, src);
    }

    /** Passes a JOIN on to every member, the new one included, and answers the sender. */
    method Forward(e: Event, src: Address)
      requires Valid() && e.body.Join?
      modifies this`outbox, this`drawn
      ensures |outbox| >= |old(outbox)| && outbox[..|old(outbox)|] == old(outbox)
      ensures JoinReplies(Abs(), e, src, outbox[|old(outbox)|..])
    {
      hide ViewMap, Lookup, Schedule, IsPermutation, Sorted, JoinReplies, SentOne;
      var forwarded := ForwardedJoin(e, src);
      ghost var base := outbox;
      for k := 0 to |view|
        modifies this`outbox
        invariant |outbox| == |base| + k && outbox[..|base|] == base
        invariant forall j | 0 <= j < k :: outbox[|base| + j] == Packet(view[j].info.addr, forwarded)
      {
        outbox := outbox + [Packet(view[k].info.addr, forwarded)];
      }
      ghost var copies := outbox;
      Send(Ack(uuid), src);
      assert outbox[..|copies|] == copies;
      assert outbox[|base|..][|view|..] == outbox[|copies|..];
      ForwardedToAll(Abs(), view, e, src, outbox[|base|..]);
    }

    method ProcessLeave(e: Event, src: Address)
      requires Valid() && e.body.Leave?
      modifies this`view, this`size, this`outbox, this`drawn
      ensures Valid() && Abs() == Protocol.Del(old(Abs()), e.body.leaveUuid)
      ensures |outbox| >= |old(outbox)| && outbox[..|old(outbox)|] == old(outbox)
      ensures SentOne(Abs(), Ack(uuid), src, outbox[|old(outbox)|..])
    {
      hide ViewMap, Lookup, Schedule, IsPermutation, Sorted, GossipOf;
      var i := Del(e.body.leaveUuid);
      Send(Ack(uuid), src);
    }

    /** The receive step: notice the sender, then run the handler for the type of the event. */
    method ProcessEvent(e: Event, src: Address)
      requires Valid() && life.Up?
      modifies this`incarnation, this`view, this`capacity, this`size, this`life, this`outbox, this`drawn
      ensures Valid() && |outbox| >= |old(outbox)| && outbox[..|old(outbox)|] == old(outbox)
      ensures Step(old(Abs()), Deliver(e, src), Abs(), outbox[|old(outbox)|..])
    {
      hide ViewMap, Lookup, Schedule, IsPermutation, Sorted, GossipOf, Gossip, JoinReplies;
      Notice(e.hdr);
      if life.Aborted? {
        return;
      }
      match e.body
      case Ping => ProcessPing(e, src);
      case PingReq(_) => ProcessPingReq(e, src);
      case Ack(_) => ProcessAck(e, src);
      case Join(_, _) => ProcessJoin(e, src);
      case Leave(_) => ProcessLeave(e, src);
    }

    // ---------- Probing ----------

    /** Fisher-Yates over the positions of the view. */
    method ProbeShuffle()
      requires Valid()
      modifies this`order, this`pos, this`size, this`drawn
      ensures Valid() && size == |view| && pos == 0
      ensures Abs() == old(Abs()).(pending := Abs().pending)
      ensures IsRound(Abs().view, Abs().pending)
      ensures |view| > 0 ==>
                && old(drawn) <= drawn && |drawn| == |old(drawn)| + |view| - 1
                && order[..] == Shuffled(|view|, drawn[|old(drawn)|..])
    {
      hide ViewMap, Lookup, Schedule, Sorted, IsPermutation, IsRound, Shuffled;
      var n := |view|;
      if n == 0 {
        size, pos := 0, 0;
        EmptyRound(view, order[..]);
        return;
      }
      var a := new nat[n];
      for i := 0 to n
        modifies a
        invariant forall k | 0 <= k < i :: a[k] == k
      {
        a[i] := i;
      }
      Identity(a[..]);
      var i := n - 1;
      assert drawn[|old(drawn)|..] == [];
      NoDraw(n);
      while i > 0
        modifies a, this`drawn
        invariant 0 <= i < n && IsPermutation(a[..])
        invariant old(drawn) <= drawn && |drawn| == |old(drawn)| + n - 1 - i
        invariant a[..] == Shuffled(n, drawn[|old(drawn)|..])
      {
        ghost var ds := drawn[|old(drawn)|..];
        var r := Rand();
        var j := r % (i + 1);
        Swapped(a[..], i, j);
        a[i], a[j] := a[j], a[i];
        i := i - 1;
        assert drawn[|old(drawn)|..] == ds + [r];
        OneDraw(n, ds, r);
      }
      order, size, pos := a, n, 0;
      FullRound(view, order[..]);
    }

    /** The position of the next member to probe, or -1; `round` is the order it was taken from. */
    method ProbeNext() returns (idx: int, ghost round: seq<Uuid>)
      requires Valid()
      modifies this`order, this`pos, this`size, this`drawn
      ensures Valid() && Abs() == old(Abs()).(pending := Abs().pending)
      ensures -1 <= idx < |view|
      ensures |view| == 0 ==> idx == -1 && Abs() == old(Abs())
      ensures |view| > 0 ==>
                && RoundFor(old(Abs()), round)
                && NextProbe(Abs().view, round) == (if idx < 0 then None else Some(view[idx].info.uuid), Abs().pending)
      ensures |view| > 0 && (old(pos) >= old(size) || old(size) != |view|) ==>
                && old(drawn) <= drawn && |drawn| == |old(drawn)| + |view| - 1
                && order[..] == Shuffled(|view|, drawn[|old(drawn)|..])
    {
      hide ViewMap, Lookup, Schedule, Sorted, IsPermutation, IsRound, NextProbe;
      if |view| == 0 {
        return -1, [];
      }
      ghost var n := Abs();
      ScheduleEmpty(view, order[..], pos, size);
      if pos >= size || size != |view| {
        ProbeShuffle();
      }
      round := Abs().pending;
      idx := WalkRound();
    }

    /** Advances to the first position left in the round whose member is not DEAD. */
    method WalkRound() returns (idx: int)
      requires Valid() && size == |view| > 0
      modifies this`pos
      ensures Valid() && Abs() == old(Abs()).(pending := Abs().pending) && -1 <= idx < |view|
      ensures NextProbe(Abs().view, old(Abs()).pending)
              == (if idx < 0 then None else Some(view[idx].info.uuid), Abs().pending)
    {
      hide ViewMap, Lookup, Schedule, Sorted, IsPermutation, NextProbe;
      ghost var n := Abs();
      while pos < size
        invariant Valid() && size == |view| && Abs() == n.(pending := Abs().pending)
        invariant NextProbe(n.view, n.pending) == NextProbe(n.view, Abs().pending)
      {
        var i := order[pos];
        ScheduleHead(view, order[..], pos, size);
        ProbeHead(n.view, view[i].info.uuid, Schedule(view, order[..], pos + 1, size));
        pos := pos + 1;
        if i < |view| && view[i].info.status != Dead {
          return i;
        }
      }
      ScheduleEmpty(view, order[..], pos, size);
      RoundOver(n.view);
      return -1;
    }

    // ---------- Heartbeat ----------

    /** Asks the ALIVE members in the window that begins after `start` to probe the member `u`. */
    method AskAround(u: Uuid, start: nat) returns (asked: seq<nat>)
      requires Valid() && start < |view|
      modifies this`outbox, this`drawn
      ensures |asked| <= WindowSize(start, |view|) && NoDuplicates(asked)
      ensures forall j: nat :: j in asked <==> j < |view| && view[j].info.status == Alive && InWindow(start, |view|, j)
      ensures |outbox| >= |old(outbox)| && outbox[..|old(outbox)|] == old(outbox)
      ensures Asks(Abs(), view, u, asked, outbox[|old(outbox)|..]) && old(drawn) <= drawn
    {
      hide ViewMap, Lookup, Schedule, Sorted, IsPermutation, Slot, InTail, Asks, SentOne;
      asked := [];
      ghost var base, outs := outbox, [];
      NobodyAsked(Abs(), view, u);
      NoTail(start, |view|);
      var sent := Min(|view|, MAX_PING_REQ);
      while sent > start
        modifies this`outbox, this`drawn
        invariant old(drawn) <= drawn
        invariant 0 <= sent <= Min(|view|, MAX_PING_REQ) && |asked| <= WindowSize(start, |view|) - Max(0, sent - start)
        invariant outbox == base + outs && Asks(Abs(), view, u, asked, outs)
        invariant NoDuplicates(asked)
        invariant forall j: nat :: j in asked <==>
                    j < |view| && view[j].info.status == Alive && InTail(start, Max(start, sent), |view|, j)
      {
        var j := Slot(start, sent, |view|);
        SlotBelow(start, sent, |view|);
        WindowStep(start, sent, |view|);
        if view[j].info.status == Alive {
          ghost var before := outbox;
          Send(PingReq(u), view[j].info.addr);
          OneMoreAsked(Abs(), view, u, asked, outs, j, outbox[|before|..]);
          outs := outs + outbox[|before|..];
          asked := asked + [j];
        }
        sent := sent - 1;
      }
    }

    /**
     Suspects a member and asks some others, picked by a window that starts at a random position, to probe
     it. The window is empty for every start from min(view size, 5) on.
     */
    method SuspectDead(target: nat) returns (start: nat, asked: seq<nat>)
      requires Valid() && target < |view|
      modifies this`view, this`outbox, this`drawn
      ensures Valid() && start < |view|
      ensures old(drawn) < drawn && start == drawn[|old(drawn)|] % |view|
      ensures view == old(view)[target := old(view)[target].(info := old(view)[target].info.(status := Suspect))]
      ensures incarnation == old(incarnation)
      ensures |asked| <= WindowSize(start, |view|) && NoDuplicates(asked) && target !in asked
      ensures forall j: nat :: j in asked <==> j < |view| && view[j].info.status == Alive && InWindow(start, |view|, j)
      ensures |outbox| >= |old(outbox)| && outbox[..|old(outbox)|] == old(outbox)
      ensures Asks(Abs(), view, view[target].info.uuid, asked, outbox[|old(outbox)|..])
    {
      hide ViewMap, Lookup, Schedule, Sorted, IsPermutation, InWindow, Asks;
      var r := Rand();
      start := r % |view|;
      SetRecord(target, view[target].(info := view[target].info.(status := Suspect)));
      asked := AskAround(view[target].info.uuid, start);
    }

    /** One turn of the ageing loop; `before` is the view when the loop began. */
    method AgeOne(i: nat, now: Time, ghost n: Node, ghost before: seq<NodeState>)
      requires Valid() && i < |view| && |before| == |view| && Sorted(before) && n.view == ViewMap(before)
      requires n.uuid == uuid && n.incarnation == incarnation
      requires forall j | 0 <= j < |view| :: view[j] == if j < i then AgeRecord(before[j], now) else before[j]
      modifies this`view, this`outbox, this`drawn
      ensures Valid() && view == old(view)[i := AgeRecord(before[i], now)]
      ensures |outbox| >= |old(outbox)| && outbox[..|old(outbox)|] == old(outbox)
      ensures forall k | |old(outbox)| <= k < |outbox| :: PingReqSent(n, now, outbox[k])
      ensures n.view != map[]
      ensures if before[i].info.uuid in NewlySuspect(n.view, now)
              then
                && old(drawn) < drawn && AskedAbout(n, now, before[i].info.uuid, outbox[|old(outbox)|..])
                && AskedFrom(n, now, before[i].info.uuid, drawn[|old(drawn)|] % |view|, outbox[|old(outbox)|..])
              else outbox == old(outbox)
    {
      hide ViewMap, Lookup, Schedule, Sorted, IsPermutation, InWindow, Asks, PingReqSent, NoDuplicates, AskedAt;
      assert before[i].info.uuid in n.view && n.view[before[i].info.uuid] == before[i];
      var r := view[i];
      if r.info.status == Alive && r.info.lastSeen <= now - SUSPECT_AFTER {
        var start, asked := SuspectDead(i);
        AskedDuringBeat(n, now, before, i, view, asked, Abs(), outbox[|old(outbox)|..]);
        AskedInFull(n, now, before, i, view, start, asked, Abs(), outbox[|old(outbox)|..]);
      } else if r.info.status == Suspect && r.info.lastSeen <= now - DEAD_AFTER {
        SetRecord(i, r.(info := r.info.(status := Dead)));
      }
    }

    /** Probes one member and ages all, unless the last heartbeat is too recent or the view is empty. */
    method Heartbeat(now: Time) returns (ghost round: seq<Uuid>)
      requires Valid() && life.Up?
      modifies this`view, this`order, this`pos, this`size, this`lastHeartbeat, this`outbox, this`drawn
      ensures Valid() && |outbox| >= |old(outbox)| && outbox[..|old(outbox)|] == old(outbox)
      ensures Step(old(Abs()), Tick(now, round), Abs(), outbox[|old(outbox)|..])
    {
      hide ViewMap, Lookup, Schedule, Sorted, IsPermutation, Step, RoundFor, NextProbe, SentOne, PingReqSent,
           NewlySuspect, Aged, AskedAll;
      round := [];
      ghost var n, base := Abs(), outbox;
      IfEmpty(view);
      if |view| > 0 && lastHeartbeat + HEARTBEAT_INTERVAL < now {
        var idx;
        idx, round := ProbeNext();
        lastHeartbeat := now;
        if idx >= 0 {
          Send(Ping, view[idx].info.addr);
        }
        ghost var pinged, before, mid := outbox, view, Abs();
        AgeAll(now, n);
        TickDone(n, now, round, before, idx, mid, Abs(), pinged[|base|..], outbox[|pinged|..]);
        SplitSent(base, pinged, outbox);
      } else {
        TickSkipped(n, now);
        assert outbox[|base|..] == [];
      }
    }

    /** Ages every record once, and asks about every member that becomes suspect. */
    method AgeAll(now: Time, ghost n: Node)
      requires |view| > 0 && Valid() && n.view == Abs().view && n.uuid == uuid && n.incarnation == incarnation
      modifies this`view, this`outbox, this`drawn
      ensures Valid() && Abs() == old(Abs()).(view := Aged(n.view, now))
      ensures |outbox| >= |old(outbox)| && outbox[..|old(outbox)|] == old(outbox)
      ensures forall k | |old(outbox)| <= k < |outbox| :: PingReqSent(n, now, outbox[k])
      ensures n.view != map[] && AskedAll(n, now, Members(NewlySuspect(n.view, now)), outbox[|old(outbox)|..])
    {
      hide ViewMap, Lookup, Schedule, IsPermutation, Sorted, PingReqSent, NewlySuspect, AgeRecord, Aged, AskedAll,
           AskedAbout, AskedFrom, Members, DoneBefore;
      IfEmpty(view);
      ghost var before, base := view, outbox;
      ghost var done: set<Uuid> := {};
      NobodyToAskAbout(n, now, before);
      assert outbox[|base|..] == [];
      for i := 0 to |view|
        modifies this`view, this`outbox, this`drawn
        invariant Valid() && |view| == |before|
        invariant forall j | 0 <= j < |view| :: view[j] == if j < i then AgeRecord(before[j], now) else before[j]
        invariant |outbox| >= |base| && outbox[..|base|] == base
        invariant forall k | |base| <= k < |outbox| :: PingReqSent(n, now, outbox[k])
        invariant DoneBefore(n, now, before, i, done)
        invariant AskedAll(n, now, Members(done), outbox[|base|..])
      {
        ghost var sent := outbox;
        AgeOne(i, now, n, before);
        assert forall k | 0 <= k < |sent| :: outbox[k] == sent[k] by { assert outbox[..|sent|] == sent; }
        done := Turn(n, now, before, i, done, base, sent, outbox);
      }
      AgedAll(before, now, view);
      AgedSchedule(before, now, view, order[..], pos, size);
      AllDone(n, now, before, done);
    }

    // ---------- Joining and leaving ----------

    method ClusterJoin(dst: Address)
      requires Valid() && life.Up?
      modifies this`outbox, this`drawn
      ensures |outbox| >= |old(outbox)| && outbox[..|old(outbox)|] == old(outbox)
      ensures Step(Abs(), AskJoin(dst), Abs(), outbox[|old(outbox)|..])
    {
      var t := Clock();
      outbox := outbox + [Packet(dst, Event(Header(uuid, t, incarnation), Join(uuid, []), []))];
    }

    /** The same LEAVE to up to five neighbours of a random position. */
    method ClusterLeave()
      requires Valid() && life.Up?
      modifies this`outbox, this`drawn
      ensures |outbox| >= |old(outbox)| && outbox[..|old(outbox)|] == old(outbox)
      ensures Step(Abs(), AskLeave, Abs(), outbox[|old(outbox)|..])
      ensures |view| > 0 ==>
                && old(drawn) < drawn && |outbox| == |old(outbox)| + Min(|view|, MAX_LEAVE)
                && var start := drawn[|old(drawn)|] % |view|;
                   forall k | 0 <= k < Min(|view|, MAX_LEAVE) ::
                     && Slot(start, k, |view|) < |view|
                     && outbox[|old(outbox)| + k].dst == view[Slot(start, k, |view|)].info.addr
    {
      hide ViewMap, Lookup, Schedule, IsPermutation, Sorted, Slot, LeaveSent;
      ghost var base := outbox;
      if |view| == 0 {
        NobodyToLeave(Abs(), view);
        assert outbox[|base|..] == [];
        return;
      }
      var r := Rand();
      var start := r % |view|;
      var t := Clock();
      var event := Event(Header(uuid, t, incarnation), Leave(0), []);
      for i := 0 to Min(|view|, MAX_LEAVE)
        modifies this`outbox
        invariant |outbox| == |base| + i && outbox[..|base|] == base
        invariant forall k | 0 <= k < i ::
                    Slot(start, k, |view|) < |view| &&
                    outbox[|base| + k] == Packet(view[Slot(start, k, |view|)].info.addr, event)
      {
        SlotBelow(start, i, |view|);
        outbox := outbox + [Packet(view[Slot(start, i, |view|)].info.addr, event)];
      }
      LeaveWindow(Abs(), view, start, event, outbox[|base|..]);
    }
  }

  // ---------- Facts about the array used above ----------

  lemma SuffixNames(view: seq<NodeState>, order: seq<nat>, pos: nat)
    requires Sorted(view) && IsPermutation(order) && |order| == |view| && pos <= |order|
    ensures InRange(view, order[pos..]) && NoDuplicates(Names(view, order[pos..]))
    ensures forall u | u in Names(view, order[pos..]) :: u in ViewMap(view)
  {
    hide ViewMap, Lookup, Names;
    var idx := order[pos..];
    forall i, j | 0 <= i < j < |idx|
      ensures view[idx[i]].info.uuid != view[idx[j]].info.uuid
    {
      assert idx[i] == order[pos + i] && idx[j] == order[pos + j];
    }
  }

  lemma AppendDistinct(view: seq<NodeState>, r: NodeState)
    requires Sorted(view) && Lookup(view, r.info.uuid) < 0
    ensures Distinct(view + [r])
  {
    hide Lookup;
  }

  lemma AddedTo(was: seq<NodeState>, r: NodeState, view: seq<NodeState>, self: Uuid)
    requires Sorted(was) && Lookup(was, r.info.uuid) < 0 && Lookup(was, self) < 0 && r.info.uuid != self
    requires Sorted(view) && |view| == |was + [r]| && forall x :: x in view <==> x in was + [r]
    ensures Lookup(view, self) < 0 && ViewMap(view) == ViewMap(was)[r.info.uuid := r]
    ensures view[|was|].info.uuid == Greatest(ViewMap(view).Keys)
    ensures view[|was|] == r <==> forall u | u in ViewMap(was) :: u < r.info.uuid
  {
    hide ViewMap, Lookup, Greatest, Sorted;
    Added(was, r, view);
    AppendedLast(was, r, view);
    assert forall x | x in was + [r] :: x.info.uuid != self;
    assert forall k | 0 <= k < |view| :: view[k] in was + [r];
  }

  lemma LookupSame(view: seq<NodeState>, view': seq<NodeState>, u: Uuid)
    requires |view'| == |view| && forall i | 0 <= i < |view| :: view'[i].info.uuid == view[i].info.uuid
    requires Lookup(view, u) < 0
    ensures Lookup(view', u) < 0
  {
    hide Lookup;
    assert forall i | 0 <= i < |view'| :: view'[i].info.uuid != u;
  }

  lemma ForwardedToAll(n: Node, view: seq<NodeState>, e: Event, src: Address, outs: seq<Packet>)
    requires e.body.Join? && Sorted(view) && n.view == ViewMap(view) && |outs| == |view| + 1
    requires forall i | 0 <= i < |view| :: outs[i] == Packet(view[i].info.addr, ForwardedJoin(e, src))
    requires SentOne(n, Ack(n.uuid), src, outs[|view|..])
    ensures JoinReplies(n, e, src, outs)
  {
    hide ViewMap, Lookup, Members, Uuids, GossipOf;
    InOrder(view);
  }

  lemma WholeView(view: seq<NodeState>, g: seq<NodeInfo>)
    requires Sorted(view) && |g| == |view| < MAX_GOSSIP && forall k | 0 <= k < |g| :: g[k] == view[k].info
    ensures GossipOf(ViewMap(view), g)
  {
    hide ViewMap, Lookup, Members, Uuids;
    InOrder(view);
  }

  lemma SampledView(view: seq<NodeState>, from: seq<nat>, g: seq<NodeInfo>)
    requires Sorted(view) && |view| >= MAX_GOSSIP && |g| == |from| == MAX_GOSSIP
    requires forall k | 0 <= k < |g| :: from[k] < |view| && g[k] == view[from[k]].info
    ensures GossipOf(ViewMap(view), g)
  {
    hide ViewMap, Lookup, Members, Uuids;
    InOrder(view);
  }

  lemma EmptyRound(view: seq<NodeState>, order: seq<nat>)
    requires view == []
    ensures Schedule(view, order, 0, 0) == [] && IsRound(ViewMap(view), Schedule(view, order, 0, 0))
  {
  }

  lemma FullRound(view: seq<NodeState>, order: seq<nat>)
    requires Sorted(view) && IsPermutation(order) && |order| == |view|
    ensures IsRound(ViewMap(view), Schedule(view, order, 0, |view|))
  {
    PermutationIsRound(view, order);
    assert order[0..] == order;
  }

  lemma ScheduleEmpty(view: seq<NodeState>, order: seq<nat>, pos: nat, size: nat)
    requires size == 0 || (size == |view| == |order| && pos <= size && IsPermutation(order))
    ensures view != [] ==> (Schedule(view, order, pos, size) == [] <==> pos >= size || size != |view|)
  {
  }

  lemma ScheduleHead(view: seq<NodeState>, order: seq<nat>, pos: nat, size: nat)
    requires Sorted(view) && size == |view| == |order| && pos < size && IsPermutation(order)
    ensures order[pos] < |view|
    ensures Schedule(view, order, pos, size) == [view[order[pos]].info.uuid] + Schedule(view, order, pos + 1, size)
    ensures view[order[pos]].info.uuid in ViewMap(view) && ViewMap(view)[view[order[pos]].info.uuid] == view[order[pos]]
  {
    assert order[pos..][1..] == order[pos + 1..];
  }

  lemma ProbeHead(view: View, u: Uuid, rest: seq<Uuid>)
    ensures NextProbe(view, [u] + rest) == if IsDead(view, u) then NextProbe(view, rest) else (Some(u), rest)
  {
    assert ([u] + rest)[1..] == rest;
  }

  lemma RoundOver(view: View)
    ensures NextProbe(view, []) == (None, [])
  {
  }

  /** The gossip of a message, given the view and what rand() returned for it. */
  predicate Picked(view: seq<NodeState>, ds: seq<nat>, g: seq<NodeInfo>) {
    if |view| < 10 then ds == [] && |g| == |view| && forall k | 0 <= k < |g| :: g[k] == view[k].info
    else |ds| == |g| == 10 && forall k | 0 <= k < 10 :: g[k] == view[ds[k] % |view|].info
  }

  lemma SlotsDiffer(start: nat, k: nat, k': nat, n: nat)
    requires start < n && k < k' < k + n
    ensures Slot(start, k, n) != Slot(start, k', n)
  {
    var a, b := start + k, start + k';
    var d := b / n - a / n;
    assert n * d == (b - a) - (b % n - a % n);
    Multiples(n, d);
  }

  lemma SlotBelow(start: nat, k: nat, n: nat)
    requires n > 0
    ensures Slot(start, k, n) < n
  {
  }

  /** Nothing lies above the end of the window. */
  lemma NoTail(start: nat, n: nat)
    requires n > 0
    ensures forall j: nat :: !InTail(start, Max(start, Min(n, MAX_PING_REQ)), n, j)
  {
  }

  /** How many positions the window has. */
  function WindowSize(start: nat, n: nat): nat {
    Max(0, Min(n, MAX_PING_REQ) - start)
  }

  /** The positions of the window, from its end down to `sent`. */
  lemma {:induction false} TailPositions(start: nat, sent: nat, n: nat) returns (w: set<nat>)
    requires start < n && sent <= Min(n, MAX_PING_REQ)
    ensures forall j: nat :: j in w <==> InTail(start, sent, n, j)
    ensures |w| == Min(n, MAX_PING_REQ) - sent
    decreases Min(n, MAX_PING_REQ) - sent
  {
    if sent == Min(n, MAX_PING_REQ) {
      w := {};
    } else {
      var more := TailPositions(start, sent + 1, n);
      WindowStep(start, sent + 1, n);
      w := more + {Slot(start, sent + 1, n)};
    }
  }

  /**
   The window has exactly min(view size, 5) - start positions, and none from that start on. So it is empty
   exactly if the start is at or beyond min(view size, 5), and has min(view size, 5) positions exactly if the
   start is 0.
   */
  lemma WindowExact(start: nat, n: nat) returns (w: set<nat>)
    requires start < n
    ensures forall j: nat :: j in w <==> InWindow(start, n, j)
    ensures |w| == WindowSize(start, n)
    ensures (forall j: nat :: !InWindow(start, n, j)) <==> start >= Min(n, MAX_PING_REQ)
    ensures |w| == Min(n, MAX_PING_REQ) <==> start == 0
  {
    hide Slot;
    if start < Min(n, MAX_PING_REQ) {
      w := TailPositions(start, start, n);
      assert InWindow(start, n, Slot(start, start + 1, n));
    } else {
      w := {};
    }
  }

  /** `outs` are PING_REQs about `u`, built by `n`, to the records at the positions `asked`. */
  ghost predicate Asks(n: Node, view: seq<NodeState>, u: Uuid, asked: seq<nat>, outs: seq<Packet>) {
    && |outs| == |asked|
    && forall k | 0 <= k < |asked| ::
         asked[k] < |view| && outs[k].dst == view[asked[k]].info.addr && Built(n, PingReq(u), outs[k].event)
  }

  lemma NobodyAsked(n: Node, view: seq<NodeState>, u: Uuid)
    ensures Asks(n, view, u, [], [])
  {
  }

  lemma OneMoreAsked(n: Node, view: seq<NodeState>, u: Uuid, asked: seq<nat>, outs: seq<Packet>,
                     j: nat, more: seq<Packet>)
    requires Asks(n, view, u, asked, outs) && j < |view| && SentOne(n, PingReq(u), view[j].info.addr, more)
    ensures Asks(n, view, u, asked + [j], outs + more)
  {
    hide GossipOf;
  }

  lemma WindowStep(start: nat, sent: nat, n: nat)
    requires start < n && 0 < sent <= Min(n, MAX_PING_REQ)
    ensures forall j: nat :: InTail(start, sent - 1, n, j) <==> InTail(start, sent, n, j) || j == Slot(start, sent, n)
    ensures !InTail(start, sent, n, Slot(start, sent, n))
  {
    hide Slot, Min;
    forall k: nat | sent < k <= Min(n, MAX_PING_REQ)
      ensures Slot(start, k, n) != Slot(start, sent, n)
    {
      MinBelow(n);
      SlotsDiffer(start, sent, k, n);
    }
    forall j: nat
      ensures InTail(start, sent - 1, n, j) <==> InTail(start, sent, n, j) || j == Slot(start, sent, n)
    {
      if InTail(start, sent - 1, n, j) {
        var k: nat :| sent - 1 < k <= Min(n, MAX_PING_REQ) && j == Slot(start, k, n);
        assert k == sent || sent < k;
      }
    }
  }

  lemma MinBelow(n: nat)
    ensures Min(n, MAX_PING_REQ) <= n
  {
  }

  /** The PING_REQs of one suspicion in the middle of the ageing loop. */
  lemma AskedDuringBeat(n: Node, now: Time, before: seq<NodeState>, i: nat, view: seq<NodeState>, asked: seq<nat>,
                        mid: Node, outs: seq<Packet>)
    requires Sorted(before) && n.view == ViewMap(before) && i < |before| == |view|
    requires before[i].info.status == Alive && before[i].info.lastSeen <= now - SUSPECT_AFTER
    requires forall j | 0 <= j < |view| :: view[j] == if j <= i then AgeRecord(before[j], now) else before[j]
    requires mid.uuid == n.uuid && mid.incarnation == n.incarnation && Sorted(view) && mid.view == ViewMap(view)
    requires i !in asked && forall j | j in asked :: j < |view| && view[j].info.status == Alive
    requires Asks(mid, view, view[i].info.uuid, asked, outs)
    ensures forall k | 0 <= k < |outs| :: PingReqSent(n, now, outs[k])
  {
    hide ViewMap, Lookup, Sorted, Built, AgeRecord, Halfway, PingReqSent;
    HalfwayAged(before, now, view, i + 1);
    forall k | 0 <= k < |outs|
      ensures PingReqSent(n, now, outs[k])
    {
      assert asked[k] in asked;
      AskedOne(n, now, before, i, view, asked[k], mid, outs[k]);
    }
  }

  /** They are exactly those that a suspicion has to send. */
  lemma AskedInFull(n: Node, now: Time, before: seq<NodeState>, i: nat, view: seq<NodeState>, start: nat,
                    asked: seq<nat>, mid: Node, outs: seq<Packet>)
    requires Sorted(before) && n.view == ViewMap(before) && i < |before| == |view| && n.view != map[]
    requires forall j | 0 <= j < |view| :: view[j] == if j <= i then AgeRecord(before[j], now) else before[j]
    requires mid.uuid == n.uuid && mid.incarnation == n.incarnation && Sorted(view) && mid.view == ViewMap(view)
    requires NoDuplicates(asked) && start < |view|
    requires forall j: nat :: j in asked <==> j < |view| && view[j].info.status == Alive && InWindow(start, |view|, j)
    requires Asks(mid, view, before[i].info.uuid, asked, outs)
    ensures AskedFrom(n, now, before[i].info.uuid, start, outs)
  {
    hide ViewMap, Lookup, Sorted, Members, Built, AgeRecord, NoDuplicates, InWindow, AgedUpTo, Uuids, Asks, AskedAt;
    InOrder(before);
    AgedSoFar(before, now, view, i);
    forall j | 0 <= j < |view|
      ensures view[j].info.uuid == before[j].info.uuid
    {
      AgedSame(before[j], now);
    }
    assert Uuids(before) == Uuids(view);
    AskedListed(n, now, before[i].info.uuid, start, asked, outs, mid, view);
  }

  lemma AskedListed(n: Node, now: Time, t: Uuid, start: nat, asked: seq<nat>, outs: seq<Packet>,
                    mid: Node, view: seq<NodeState>)
    requires n.view != map[] && AgedUpTo(n.view, now, t) == mid.view
    requires mid.uuid == n.uuid && mid.incarnation == n.incarnation && Sorted(view) && mid.view == ViewMap(view)
    requires Members(n.view.Keys) == Uuids(view) && NoDuplicates(asked) && start < |view|
    requires forall j: nat :: j in asked <==> j < |view| && view[j].info.status == Alive && InWindow(start, |view|, j)
    requires Asks(mid, view, t, asked, outs)
    ensures AskedAt(n, now, t, start, asked, outs)
  {
    hide ViewMap, Lookup, Sorted, Members, Built, NoDuplicates, InWindow, AgedUpTo, Uuids;
    var ks := Members(n.view.Keys);
    assert forall j | 0 <= j < |view| :: ks[j] in mid.view && mid.view[ks[j]] == view[j];
    forall k | 0 <= k < |asked|
      ensures Built(n.(view := mid.view), PingReq(t), outs[k].event)
    {
      BuiltBy(mid, n.(view := mid.view), PingReq(t), outs[k].event);
    }
  }

  lemma AgedSame(r: NodeState, now: Time)
    ensures AgeRecord(r, now).info.uuid == r.info.uuid
  {
  }

  lemma BuiltBy(n: Node, m: Node, b: Body, e: Event)
    requires Built(n, b, e) && m.uuid == n.uuid && m.incarnation == n.incarnation && m.view == n.view
    ensures Built(m, b, e)
  {
  }

  /** The array after a turn of the loop stands for the map aged up to the member of that turn. */
  lemma AgedSoFar(before: seq<NodeState>, now: Time, view: seq<NodeState>, i: nat)
    requires Sorted(before) && Sorted(view) && i < |before| == |view|
    requires forall j | 0 <= j < |view| :: view[j] == if j <= i then AgeRecord(before[j], now) else before[j]
    ensures AgedUpTo(ViewMap(before), now, before[i].info.uuid) == ViewMap(view)
  {
    hide ViewMap, AgeRecord, Lookup, Sorted;
    HalfwayAged(before, now, view, i + 1);
    forall u | u in ViewMap(before)
      ensures u in ViewMap(view)
      ensures ViewMap(view)[u] == AgedUpTo(ViewMap(before), now, before[i].info.uuid)[u]
    {
      AgedSoFarAt(before, now, view, i, u);
    }
  }

  lemma AgedSoFarAt(before: seq<NodeState>, now: Time, view: seq<NodeState>, i: nat, u: Uuid)
    requires Sorted(before) && Sorted(view) && i < |before| == |view| && u in ViewMap(before)
    requires forall j | 0 <= j < |view| :: view[j] == if j <= i then AgeRecord(before[j], now) else before[j]
    ensures u in ViewMap(view)
    ensures ViewMap(view)[u] == AgedUpTo(ViewMap(before), now, before[i].info.uuid)[u]
  {
    hide ViewMap, AgeRecord, Lookup;
    var j := Lookup(before, u);
    AgedSame(before[j], now);
    assert view[j].info.uuid == u && (u <= before[i].info.uuid <==> j <= i);
  }

  lemma LookupIs(view: seq<NodeState>, i: nat)
    requires Sorted(view) && i < |view|
    ensures Lookup(view, view[i].info.uuid) == i
    ensures forall u | Lookup(view, u) == i :: u == view[i].info.uuid
  {
    hide Lookup;
    var k := Lookup(view, view[i].info.uuid);
    assert k == i || k < i || i < k;
  }

  lemma LookupBelow(view: seq<NodeState>, i: nat, done: set<Uuid>)
    requires Sorted(view) && i < |view| && forall u | u in done :: 0 <= Lookup(view, u) < i
    ensures forall u | u in done :: u < view[i].info.uuid
  {
    hide Lookup;
    forall u | u in done
      ensures u < view[i].info.uuid
    {
      var k := Lookup(view, u);
      assert view[k].info.uuid == u;
    }
  }

  lemma AskedMore(n: Node, now: Time, done: set<Uuid>, u: Uuid, outs: seq<Packet>, more: seq<Packet>)
    requires n.view != map[] && (forall v | v in done :: v < u)
    requires AskedAll(n, now, Members(done), outs) && AskedAbout(n, now, u, more)
    ensures AskedAll(n, now, Members(done + {u}), outs + more)
  {
    hide AskedAbout, Members;
    MembersPlus(done, u);
    AskedEnd(n, now, Members(done), u, outs, more);
  }

  lemma AskedEnd(n: Node, now: Time, ts: seq<Uuid>, u: Uuid, outs: seq<Packet>, more: seq<Packet>)
    requires n.view != map[] && AskedAll(n, now, ts, outs) && AskedAbout(n, now, u, more)
    ensures AskedAll(n, now, ts + [u], outs + more)
  {
    hide AskedAbout;
    var us, all, c := ts + [u], outs + more, |outs|;
    assert us[..|us| - 1] == ts && all[c..] == more && all[..c] == outs;
  }

  /** The newly suspect members among the first `i` records. */
  predicate DoneBefore(n: Node, now: Time, before: seq<NodeState>, i: nat, done: set<Uuid>) {
    forall u :: u in done <==> u in NewlySuspect(n.view, now) && 0 <= Lookup(before, u) < i
  }

  /** What one turn of the ageing loop adds to what was sent. */
  lemma Turn(n: Node, now: Time, before: seq<NodeState>, i: nat, done: set<Uuid>,
             base: seq<Packet>, sent: seq<Packet>, outbox: seq<Packet>) returns (done': set<Uuid>)
    requires Sorted(before) && i < |before| && n.view != map[] && DoneBefore(n, now, before, i, done)
    requires |base| <= |sent| <= |outbox| && sent[..|base|] == base && outbox[..|sent|] == sent
    requires AskedAll(n, now, Members(done), sent[|base|..])
    requires if before[i].info.uuid in NewlySuspect(n.view, now)
             then AskedAbout(n, now, before[i].info.uuid, outbox[|sent|..]) else outbox == sent
    ensures DoneBefore(n, now, before, i + 1, done')
    ensures AskedAll(n, now, Members(done'), outbox[|base|..])
  {
    hide Lookup, Sorted, AskedAll, AskedAbout, Members, NewlySuspect;
    var u := before[i].info.uuid;
    LookupIs(before, i);
    done' := done;
    if u in NewlySuspect(n.view, now) {
      LookupBelow(before, i, done);
      AskedMore(n, now, done, u, sent[|base|..], outbox[|sent|..]);
      SplitSent(base, sent, outbox);
      done' := done + {u};
    }
  }

  lemma NobodyToAskAbout(n: Node, now: Time, before: seq<NodeState>)
    requires n.view != map[]
    ensures DoneBefore(n, now, before, 0, {})
    ensures AskedAll(n, now, Members({}), [])
  {
  }

  lemma MembersPlus(s: set<Uuid>, u: Uuid)
    requires forall v | v in s :: v < u
    ensures Members(s + {u}) == Members(s) + [u]
  {
    assert u in s + {u} && Greatest(s + {u}) == u;
    assert s + {u} - {u} == s;
  }

  lemma AllDone(n: Node, now: Time, before: seq<NodeState>, done: set<Uuid>)
    requires Sorted(before) && n.view == ViewMap(before)
    requires DoneBefore(n, now, before, |before|, done)
    ensures done == NewlySuspect(n.view, now)
  {
    hide ViewMap, Lookup;
  }

  lemma AskedOne(n: Node, now: Time, before: seq<NodeState>, i: nat, view: seq<NodeState>, j: nat, mid: Node, p: Packet)
    requires Sorted(before) && n.view == ViewMap(before) && i < |before| == |view| && j < |view| && j != i
    requires before[i].info.status == Alive && before[i].info.lastSeen <= now - SUSPECT_AFTER
    requires forall k | 0 <= k < |view| :: view[k] == if k <= i then AgeRecord(before[k], now) else before[k]
    requires mid.uuid == n.uuid && mid.incarnation == n.incarnation && Halfway(n.view, now, mid.view)
    requires view[j].info.status == Alive && p.dst == view[j].info.addr
    requires Built(mid, PingReq(view[i].info.uuid), p.event)
    ensures PingReqSent(n, now, p)
  {
    hide ViewMap, Lookup, GossipOf, Halfway;
    var u, v := before[i].info.uuid, before[j].info.uuid;
    assert n.view[u] == before[i] && n.view[v] == before[j] && u != v;
    assert u in NewlySuspect(n.view, now);
    assert view[i].info.uuid == u && view[j].info.addr == before[j].info.addr && before[j].info.status == Alive;
    assert Built(n.(view := mid.view), PingReq(u), p.event);
  }

  lemma SplitSent(a: seq<Packet>, b: seq<Packet>, c: seq<Packet>)
    requires |a| <= |b| <= |c| && b[..|a|] == a && c[..|b|] == b
    ensures c[..|a|] == a && c[|a|..] == b[|a|..] + c[|b|..]
  {
  }

  lemma AgedSchedule(view: seq<NodeState>, now: Time, view': seq<NodeState>, order: seq<nat>, pos: nat, size: nat)
    requires |view'| == |view| && forall i | 0 <= i < |view| :: view'[i] == AgeRecord(view[i], now)
    ensures Schedule(view', order, pos, size) == Schedule(view, order, pos, size)
  {
    hide Schedule;
    SameSchedule(view, view', order, pos, size);
  }

  lemma IfEmpty(view: seq<NodeState>)
    requires Sorted(view)
    ensures ViewMap(view) == map[] <==> |view| == 0
  {
    if |view| > 0 {
      assert view[0].info.uuid in ViewMap(view);
    }
  }

  lemma TickSkipped(n: Node, now: Time)
    requires n.life.Up? && !Effective(n, now)
    ensures Step(n, Tick(now, []), n, [])
  {
  }

  lemma TickDone(n: Node, now: Time, round: seq<Uuid>, view: seq<NodeState>, idx: int, mid: Node, n': Node,
                 ping: seq<Packet>, reqs: seq<Packet>)
    requires n.life.Up? && Effective(n, now) && RoundFor(n, round) && Sorted(view) && n.view == ViewMap(view)
    requires -1 <= idx < |view|
    requires NextProbe(n.view, round) == (if idx < 0 then None else Some(view[idx].info.uuid), mid.pending)
    requires mid == n.(pending := mid.pending, lastHeartbeat := now) && n' == mid.(view := Aged(n.view, now))
    requires if idx < 0 then ping == [] else SentOne(mid, Ping, view[idx].info.addr, ping)
    requires forall k | 0 <= k < |reqs| :: PingReqSent(n, now, reqs[k])
    requires AskedAll(n, now, Members(NewlySuspect(n.view, now)), reqs)
    ensures Step(n, Tick(now, round), n', ping + reqs)
  {
    hide ViewMap, Lookup, NextProbe, GossipOf, PingReqSent, RoundFor, Aged, AskedAll, Members;
    var outs := ping + reqs;
    assert outs[|ping|..] == reqs;
    if idx >= 0 {
      assert outs[..1] == ping;
      assert SentOne(n, Ping, view[idx].info.addr, outs[..1]);
    }
    assert BeatSends(n, now, round, outs);
  }

  lemma NobodyToLeave(n: Node, view: seq<NodeState>)
    requires view == [] && n.view == ViewMap(view)
    ensures LeaveSent(n, [])
  {
    var rs: seq<Uuid> := [];
    assert |rs| == 0 && NoDuplicates(rs);
  }

  lemma LeaveWindow(n: Node, view: seq<NodeState>, start: nat, e: Event, outs: seq<Packet>)
    requires Sorted(view) && n.view == ViewMap(view) && start < |view|
    requires |outs| == Min(|view|, MAX_LEAVE) && Stamped(n, e) && e.body == Leave(0) && e.gossip == []
    requires forall k | 0 <= k < |outs| ::
               Slot(start, k, |view|) < |view| && outs[k] == Packet(view[Slot(start, k, |view|)].info.addr, e)
    ensures LeaveSent(n, outs)
  {
    hide ViewMap, Lookup, Slot, Members, Uuids, Sorted, NoDuplicates;
    InOrder(view);
    var rs := WindowNames(view, start, |outs|);
  }

  lemma WindowNames(view: seq<NodeState>, start: nat, m: nat) returns (rs: seq<Uuid>)
    requires Sorted(view) && start < |view| && m <= |view|
    requires forall k: nat | k < m :: Slot(start, k, |view|) < |view|
    ensures |rs| == m && NoDuplicates(rs)
    ensures forall k: nat | k < m :: rs[k] == view[Slot(start, k, |view|)].info.uuid
  {
    hide Slot;
    rs := seq(m, k requires 0 <= k < m => view[Slot(start, k, |view|)].info.uuid);
    forall i, j | 0 <= i < j < |rs|
      ensures rs[i] != rs[j]
    {
      SlotsDiffer(start, i, j, |view|);
    }
  }

  lemma SameMap(m: View, u: Uuid)
    requires u in m
    ensures m[u := m[u]] == m
  {
  }

  /** The last slot holds the appended record exactly if its UUID is above all the others. */
  lemma AppendedLast(was: seq<NodeState>, r: NodeState, view: seq<NodeState>)
    requires Sorted(was) && r.info.uuid !in ViewMap(was)
    requires Sorted(view) && |view| == |was| + 1 && forall x :: x in view <==> x in was + [r]
    ensures view[|was|] == r <==> forall u | u in ViewMap(was) :: u < r.info.uuid
  {
    hide ViewMap, Lookup;
    var last := view[|was|];
    assert last in was + [r] && r in was + [r];
    var k :| 0 <= k < |view| && view[k] == r;
    if last == r {
      forall u | u in ViewMap(was)
        ensures u < r.info.uuid
      {
        var i := Lookup(was, u);
        assert was[i] in was + [r];
        var j :| 0 <= j < |view| && view[j] == was[i];
      }
    } else {
      var i :| 0 <= i < |was| && was[i] == last;
      assert last.info.uuid in ViewMap(was) && r.info.uuid < last.info.uuid;
    }
  }
}
