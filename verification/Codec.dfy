/** The wire format: what the encoders write, what the decoders make of any buffer, and the round trip. */
module Codec {
  import opened Types

  // ---------- Integers ----------

  function Pow256(w: nat): (p: nat)
    ensures p > 0
  {
    if w == 0 then 1 else 256 * Pow256(w - 1)
  }

  /** `v` in `w` bytes, most significant first; upper bytes that do not fit are lost. */
  function BigEndian(w: nat, v: nat): (s: seq<byte>)
    ensures |s| == w
  {
    if w == 0 then [] else BigEndian(w - 1, v / 256) + [v % 256]
  }

  function Value(s: seq<byte>): nat {
    if s == [] then 0 else 256 * Value(s[..|s| - 1]) + s[|s| - 1]
  }

  lemma {:induction false} ValueOfBigEndian(w: nat, v: nat)
    requires v < Pow256(w)
    ensures Value(BigEndian(w, v)) == v
  {
    if w > 0 {
      ValueOfBigEndian(w - 1, v / 256);
      assert BigEndian(w, v)[..w - 1] == BigEndian(w - 1, v / 256);
    }
  }

  /** Two's complement in 64 bits. */
  function Unsigned(t: Time): nat {
    if t < 0 then t + 0x1_0000_0000_0000_0000 else t
  }

  function Signed(v: nat): Time
    requires v < 0x1_0000_0000_0000_0000
  {
    if v < 0x8000_0000_0000_0000 then v else v - 0x1_0000_0000_0000_0000
  }

  // ---------- What is written ----------

  function TypeCode(b: Body): nat {
    match b
    case Ping => 0
    case Ack(_) => 1
    case PingReq(_) => 2
    case Join(_, _) => 16
    case Leave(_) => 17
  }

  const HEADER_SIZE := 36

  /** The 64-bit store of the length on a little-endian host. */
  const LENGTH_STORE: seq<byte> := [36, 0, 0, 0, 0, 0, 0, 0]

  /** The header as it leaves: the length store also covers the upper half of the time. */
  function HeaderBytes(h: Header, code: nat): seq<byte> {
    BigEndian(2, 1) + BigEndian(2, code) + LENGTH_STORE + BigEndian(8, Unsigned(h.time))[4..]
    + BigEndian(16, h.uuid) + BigEndian(4, h.incarnation)
  }

  function AddressBytes(a: Address): seq<byte> {
    BigEndian(2, |a|) + a
  }

  function InfoBytes(i: NodeInfo): (s: seq<byte>)
    ensures |s| == 32 + |i.addr|
  {
    BigEndian(16, i.uuid) + BigEndian(8, Unsigned(i.lastSeen)) + BigEndian(2, i.status.Rank())
    + BigEndian(4, i.incarnation) + AddressBytes(i.addr)
  }

  function InfosBytes(g: seq<NodeInfo>): (s: seq<byte>)
    ensures |s| <= 160 * |g|
  {
    if g == [] then [] else InfosBytes(g[..|g| - 1]) + InfoBytes(g[|g| - 1])
  }

  function GossipBytes(g: seq<NodeInfo>): seq<byte> {
    BigEndian(2, |g|) + InfosBytes(g)
  }

  function BodyBytes(b: Body): (s: seq<byte>)
    ensures |s| <= 146
  {
    match b
    case Ping => []
    case Ack(u) => BigEndian(16, u)
    case PingReq(u) => BigEndian(16, u)
    case Join(u, a) => BigEndian(16, u) + AddressBytes(a)
    case Leave(u) => BigEndian(16, u)
  }

  function EventBytes(e: Event): seq<byte> {
    HeaderBytes(e.hdr, TypeCode(e.body)) + BodyBytes(e.body) + GossipBytes(e.gossip)
  }

  /** An event with at most ten gossip records always fits the packet buffer. */
  lemma EventFits(e: Event)
    requires |e.gossip| <= MAX_GOSSIP
    ensures HEADER_SIZE + 2 <= |EventBytes(e)| <= 1784 < MAX_PACKET_SIZE
  {
  }

  // ---------- What is read ----------

  /** A value and the position after it; a rejected message; or a failed assert or an overrun. */
  datatype Parsed<+T> = Got(value: T, next: nat) | Rejected | Broken {
    predicate IsFailure() {
      !Got?
    }
    function PropagateFailure<U>(): Parsed<U>
      requires IsFailure()
    {
      if Rejected? then Rejected else Broken
    }
    function Extract(): (T, nat)
      requires !IsFailure()
    {
      (value, next)
    }
  }

  function Num(s: seq<byte>, pos: nat, w: nat): Parsed<nat> {
    if pos + w <= |s| then Got(Value(s[pos..pos + w]), pos + w) else Broken
  }

  /** A number below `bound`; anything else does not fit the field it is copied to. */
  function Below(s: seq<byte>, pos: nat, w: nat, bound: nat): (r: Parsed<nat>)
    ensures r.Got? ==> r.value < bound
  {
    var (v, next) :- Num(s, pos, w);
    if v < bound then Got(v, next) else Broken
  }

  function ParseUuid(s: seq<byte>, pos: nat): Parsed<Uuid> {
    var (v, next) :- Below(s, pos, 16, 0x1_0000_0000_0000_0000_0000_0000_0000_0000);
    Got(v, next)
  }

  function ParseTime(s: seq<byte>, pos: nat): Parsed<Time> {
    var (v, next) :- Below(s, pos, 8, 0x1_0000_0000_0000_0000);
    Got(Signed(v), next)
  }

  function ParseIncarnation(s: seq<byte>, pos: nat): Parsed<Incarnation> {
    var (v, next) :- Below(s, pos, 4, INCARNATIONS);
    Got(v, next)
  }

  function ParseStatus(s: seq<byte>, pos: nat): Parsed<Status> {
    var (v, next) :- Below(s, pos, 2, 4);
    Got([Unknown, Alive, Suspect, Dead][v], next)
  }

  function ParseAddress(s: seq<byte>, pos: nat): Parsed<Address> {
    var (len, next) :- Below(s, pos, 2, 129);
    if next + len <= |s| then Got(s[next..next + len], next + len) else Broken
  }

  function ParseInfo(s: seq<byte>, pos: nat): Parsed<NodeInfo> {
    var (uuid, p1) :- ParseUuid(s, pos);
    var (lastSeen, p2) :- ParseTime(s, p1);
    var (status, p3) :- ParseStatus(s, p2);
    var (incarnation, p4) :- ParseIncarnation(s, p3);
    var (addr, p5) :- ParseAddress(s, p4);
    Got(NodeInfo(uuid, lastSeen, incarnation, status, addr), p5)
  }

  function ParseInfos(s: seq<byte>, pos: nat, count: nat): Parsed<seq<NodeInfo>> {
    if count == 0 then Got([], pos) else
    var (g, p1) :- ParseInfos(s, pos, count - 1);
    var (i, p2) :- ParseInfo(s, p1);
    Got(g + [i], p2)
  }

  /** sizeof(NodeInfo) on an LP64 host, by which the decoder bounds the gossip count. */
  const SIZEOF_NODE_INFO := 168

  function ParseGossip(s: seq<byte>, pos: nat): Parsed<seq<NodeInfo>> {
    var (count, p1) :- Num(s, pos, 2);
    if count > (|s| - p1) / SIZEOF_NODE_INFO % 0x1_0000 then Rejected else ParseInfos(s, p1, count)
  }

  /** The version and the length field are read and ignored. */
  function ParseHeader(s: seq<byte>, pos: nat): Parsed<(nat, Header)> {
    var (version, p1) :- Num(s, pos, 2);
    var (code, p2) :- Num(s, p1, 2);
    var (length, p3) :- Num(s, p2, 4);
    var (time, p4) :- ParseTime(s, p3);
    var (uuid, p5) :- ParseUuid(s, p4);
    var (incarnation, p6) :- ParseIncarnation(s, p5);
    Got((code, Header(uuid, time, incarnation)), p6)
  }

  function ParseBody(s: seq<byte>, pos: nat, code: nat): Parsed<Body> {
    if code == 0 then Got(Ping, pos)
    else if code !in {1, 2, 16, 17} then Rejected
    else
      var (u, p1) :- ParseUuid(s, pos);
      if code == 1 then Got(Ack(u), p1)
      else if code == 2 then Got(PingReq(u), p1)
      else if code == 17 then Got(Leave(u), p1)
      else
        var (a, p2) :- ParseAddress(s, p1);
        Got(Join(u, a), p2)
  }

  function ParseEvent(s: seq<byte>): Parsed<Event> {
    var ((code, hdr), p1) :- ParseHeader(s, 0);
    var (body, p2) :- ParseBody(s, p1, code);
    var (gossip, p3) :- ParseGossip(s, p2);
    Got(Event(hdr, body, gossip), p3)
  }

  // ---------- The round trip ----------

  predicate At(s: seq<byte>, pos: nat, x: seq<byte>) {
    pos + |x| <= |s| && s[pos..pos + |x|] == x
  }

  lemma AtParts(s: seq<byte>, pos: nat, a: seq<byte>, b: seq<byte>)
    requires At(s, pos, a + b)
    ensures At(s, pos, a) && At(s, pos + |a|, b)
  {
    assert s[pos..pos + |a|] == (a + b)[..|a|];
    assert s[pos + |a|..pos + |a| + |b|] == (a + b)[|a|..];
  }

  lemma NumAt(s: seq<byte>, pos: nat, w: nat, v: nat)
    requires At(s, pos, BigEndian(w, v)) && v < Pow256(w)
    ensures Num(s, pos, w) == Got(v, pos + w)
  {
    ValueOfBigEndian(w, v);
  }

  lemma Powers()
    ensures Pow256(2) == 0x1_0000 && Pow256(4) == 0x1_0000_0000 && Pow256(8) == 0x1_0000_0000_0000_0000
    ensures Pow256(16) == 0x1_0000_0000_0000_0000_0000_0000_0000_0000
  {
    assert Pow256(3) == 0x100_0000 && Pow256(4) == 0x1_0000_0000;
    assert Pow256(6) == 0x1_0000_0000_0000 && Pow256(8) == 0x1_0000_0000_0000_0000;
    assert Pow256(10) == 0x1_0000_0000_0000_0000_0000 && Pow256(12) == 0x1_0000_0000_0000_0000_0000_0000;
    assert Pow256(14) == 0x1_0000_0000_0000_0000_0000_0000_0000;
  }

  lemma AddressAt(s: seq<byte>, pos: nat, a: Address)
    requires At(s, pos, AddressBytes(a))
    ensures ParseAddress(s, pos) == Got(a, pos + |AddressBytes(a)|)
  {
    Powers();
    AtParts(s, pos, BigEndian(2, |a|), a);
    NumAt(s, pos, 2, |a|);
  }

  lemma FieldsAt(s: seq<byte>, pos: nat, t: Time, i: Incarnation, u: Uuid, st: Status)
    ensures At(s, pos, BigEndian(8, Unsigned(t))) ==> ParseTime(s, pos) == Got(t, pos + 8)
    ensures At(s, pos, BigEndian(4, i)) ==> ParseIncarnation(s, pos) == Got(i, pos + 4)
    ensures At(s, pos, BigEndian(16, u)) ==> ParseUuid(s, pos) == Got(u, pos + 16)
    ensures At(s, pos, BigEndian(2, st.Rank())) ==> ParseStatus(s, pos) == Got(st, pos + 2)
  {
    hide BigEndian, Value, Pow256, At;
    Powers();
    if At(s, pos, BigEndian(8, Unsigned(t))) { NumAt(s, pos, 8, Unsigned(t)); }
    if At(s, pos, BigEndian(4, i)) { NumAt(s, pos, 4, i); }
    if At(s, pos, BigEndian(16, u)) { NumAt(s, pos, 16, u); }
    if At(s, pos, BigEndian(2, st.Rank())) { NumAt(s, pos, 2, st.Rank()); }
  }

  lemma InfoAt(s: seq<byte>, pos: nat, i: NodeInfo)
    requires At(s, pos, InfoBytes(i))
    ensures ParseInfo(s, pos) == Got(i, pos + |InfoBytes(i)|)
  {
    hide BigEndian, Value, At, ParseTime, ParseUuid, ParseStatus, ParseIncarnation, ParseAddress;
    var b1, b2, b3 := BigEndian(16, i.uuid), BigEndian(8, Unsigned(i.lastSeen)), BigEndian(2, i.status.Rank());
    var b4, b5 := BigEndian(4, i.incarnation), AddressBytes(i.addr);
    AtParts(s, pos, b1 + b2 + b3 + b4, b5);
    AtParts(s, pos, b1 + b2 + b3, b4);
    AtParts(s, pos, b1 + b2, b3);
    AtParts(s, pos, b1, b2);
    FieldsAt(s, pos, i.lastSeen, i.incarnation, i.uuid, i.status);
    FieldsAt(s, pos + 16, i.lastSeen, i.incarnation, i.uuid, i.status);
    FieldsAt(s, pos + 24, i.lastSeen, i.incarnation, i.uuid, i.status);
    FieldsAt(s, pos + 26, i.lastSeen, i.incarnation, i.uuid, i.status);
    AddressAt(s, pos + 30, i.addr);
  }

  lemma {:induction false} InfosAt(s: seq<byte>, pos: nat, g: seq<NodeInfo>)
    requires At(s, pos, InfosBytes(g))
    ensures ParseInfos(s, pos, |g|) == Got(g, pos + |InfosBytes(g)|)
  {
    hide At, InfoBytes, ParseInfo;
    if g != [] {
      var front, last := g[..|g| - 1], g[|g| - 1];
      AtParts(s, pos, InfosBytes(front), InfoBytes(last));
      InfosAt(s, pos, front);
      InfoAt(s, pos + |InfosBytes(front)|, last);
      assert front + [last] == g;
    }
  }

  lemma GossipAt(s: seq<byte>, pos: nat, g: seq<NodeInfo>)
    requires At(s, pos, GossipBytes(g)) && |g| <= MAX_GOSSIP
    requires pos + 2 + MAX_GOSSIP * SIZEOF_NODE_INFO <= |s| <= MAX_PACKET_SIZE
    ensures ParseGossip(s, pos) == Got(g, pos + |GossipBytes(g)|)
  {
    hide BigEndian, InfosBytes, At, ParseInfos, Value, Pow256;
    Powers();
    AtParts(s, pos, BigEndian(2, |g|), InfosBytes(g));
    NumAt(s, pos, 2, |g|);
    InfosAt(s, pos + 2, g);
  }

  lemma BodyAt(s: seq<byte>, pos: nat, b: Body)
    requires At(s, pos, BodyBytes(b))
    ensures ParseBody(s, pos, TypeCode(b)) == Got(b, pos + |BodyBytes(b)|)
  {
    hide BigEndian, At, ParseUuid, ParseAddress;
    match b
    case Ping =>
    case Ack(u) => FieldsAt(s, pos, 0, 0, u, Alive);
    case PingReq(u) => FieldsAt(s, pos, 0, 0, u, Alive);
    case Leave(u) => FieldsAt(s, pos, 0, 0, u, Alive);
    case Join(u, a) =>
      AtParts(s, pos, BigEndian(16, u), AddressBytes(a));
      FieldsAt(s, pos, 0, 0, u, Alive);
      AddressAt(s, pos + 16, a);
  }

  /** Zeroing the upper four of eight bytes takes the number modulo 2^32. */
  lemma LowHalf(v: nat)
    ensures [0, 0, 0, 0] + BigEndian(8, v)[4..] == BigEndian(8, v % 0x1_0000_0000)
  {
    BigEndianTail(4, 4, v);
    Powers();
    BigEndianMod(4, v);
    BigEndianTail(4, 4, v % 0x1_0000_0000);
    BigEndianMod(4, v % 0x1_0000_0000);
    var b := BigEndian(8, v % 0x1_0000_0000);
    BigEndianHead(4, 4, v % 0x1_0000_0000);
    assert BigEndian(4, 0) == [0, 0, 0, 0];
    assert b == b[..4] + b[4..];
  }

  lemma {:induction false} BigEndianTail(k: nat, w: nat, v: nat)
    ensures BigEndian(k + w, v)[k..] == BigEndian(w, v)
    decreases w
  {
    if w > 0 {
      BigEndianTail(k, w - 1, v / 256);
      assert BigEndian(k + w, v) == BigEndian(k + (w - 1), v / 256) + [v % 256];
    }
  }

  lemma {:induction false} BigEndianHead(k: nat, w: nat, v: nat)
    requires v < Pow256(w)
    ensures BigEndian(k + w, v)[..k] == BigEndian(k, 0)
    decreases w
  {
    if w > 0 {
      BigEndianHead(k, w - 1, v / 256);
      assert BigEndian(k + w, v) == BigEndian(k + (w - 1), v / 256) + [v % 256];
    }
  }

  lemma {:induction false} BigEndianMod(w: nat, v: nat)
    ensures BigEndian(w, v % Pow256(w)) == BigEndian(w, v)
    decreases w
  {
    if w > 0 {
      var p := Pow256(w - 1);
      DivMod(v, p);
      BigEndianMod(w - 1, v / 256);
      assert BigEndian(w, v % (256 * p)) == BigEndian(w - 1, (v / 256) % p) + [v % 256];
    }
  }

  lemma DivMod(v: nat, p: nat)
    requires p > 0
    ensures v % (256 * p) % 256 == v % 256 && v % (256 * p) / 256 == (v / 256) % p
  {
    var q, r := (v / 256) / p, (v / 256) % p;
    assert v == 256 * (v / 256) + v % 256 && v / 256 == p * q + r;
    var m := 256 * r + v % 256;
    assert v == (256 * p) * q + m;
    assert 0 <= m < 256 * p;
    ModUnique(v, 256 * p, q, m);
  }

  lemma ModUnique(v: nat, d: nat, q: nat, m: nat)
    requires d > 0 && v == d * q + m && m < d
    ensures v % d == m
  {
    var k := v / d - q;
    assert d * k == d * (v / d) - d * q == m - v % d;
    Multiples(d, k);
  }

  lemma HeaderAt(s: seq<byte>, h: Header, code: nat)
    requires At(s, 0, HeaderBytes(h, code)) && code < 0x1_0000
    ensures ParseHeader(s, 0) == Got((code, h.(time := h.time % 0x1_0000_0000)), HEADER_SIZE)
  {
    hide BigEndian, Value, Pow256, At, ParseTime, ParseUuid, ParseIncarnation;
    Powers();
    var low: Time := h.time % 0x1_0000_0000;
    LowHalf(Unsigned(h.time));
    assert Unsigned(h.time) % 0x1_0000_0000 == low;
    var b1, b2, b4 := BigEndian(2, 1), BigEndian(2, code), BigEndian(8, Unsigned(low));
    var b3: seq<byte> := [36, 0, 0, 0];
    var b5, b6 := BigEndian(16, h.uuid), BigEndian(4, h.incarnation);
    assert HeaderBytes(h, code) == b1 + b2 + b3 + b4 + b5 + b6;
    AtParts(s, 0, b1 + b2 + b3 + b4 + b5, b6);
    AtParts(s, 0, b1 + b2 + b3 + b4, b5);
    AtParts(s, 0, b1 + b2 + b3, b4);
    AtParts(s, 0, b1 + b2, b3);
    AtParts(s, 0, b1, b2);
    NumAt(s, 0, 2, 1);
    NumAt(s, 2, 2, code);
    assert Num(s, 4, 4).Got? by { assert 8 <= |s| by { Bounds(s, 4, b3); } }
    FieldsAt(s, 8, low, h.incarnation, h.uuid, Alive);
    FieldsAt(s, 16, low, h.incarnation, h.uuid, Alive);
    FieldsAt(s, 32, low, h.incarnation, h.uuid, Alive);
  }

  lemma Bounds(s: seq<byte>, pos: nat, x: seq<byte>)
    requires At(s, pos, x)
    ensures pos + |x| <= |s|
  {
  }

  /**
   Decoding the packet buffer after an event was encoded into it, whatever bytes follow, consumes exactly
   the bytes produced and returns the event, its time reduced modulo 2^32.
   */
  lemma RoundTrip(e: Event, rest: seq<byte>)
    requires |e.gossip| <= MAX_GOSSIP && |EventBytes(e)| + |rest| == 2048
    ensures ParseEvent(EventBytes(e) + rest) == Got(OnWire(e), |EventBytes(e)|)
  {
    hide At, HeaderBytes, BodyBytes, GossipBytes, ParseHeader, ParseBody, ParseGossip;
    var s := EventBytes(e) + rest;
    var h, b, g := HeaderBytes(e.hdr, TypeCode(e.body)), BodyBytes(e.body), GossipBytes(e.gossip);
    assert |h| == HEADER_SIZE by { HeaderSize(e.hdr, TypeCode(e.body)); }
    assert At(s, 0, h + b + g) by { Prefix(h + b + g, rest); }
    AtParts(s, 0, h + b, g);
    AtParts(s, 0, h, b);
    HeaderAt(s, e.hdr, TypeCode(e.body));
    BodyAt(s, HEADER_SIZE, e.body);
    GossipAt(s, HEADER_SIZE + |b|, e.gossip);
  }

  lemma HeaderSize(h: Header, code: nat)
    ensures |HeaderBytes(h, code)| == HEADER_SIZE
  {
  }

  lemma Prefix(a: seq<byte>, b: seq<byte>)
    ensures At(a + b, 0, a)
  {
  }

  /** An event is decoded as it was sent exactly if its time is from 0 to 2^32 - 1. */
  lemma TimeSurvivesIff(e: Event, rest: seq<byte>)
    requires |e.gossip| <= MAX_GOSSIP && |EventBytes(e)| + |rest| == MAX_PACKET_SIZE
    ensures ParseEvent(EventBytes(e) + rest) == Got(e, |EventBytes(e)|) <==> 0 <= e.hdr.time < 0x1_0000_0000
  {
    hide EventBytes, ParseEvent;
    RoundTrip(e, rest);
  }
}
