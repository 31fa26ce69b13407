/** The wire format byte by byte: where each field stands, how wide it is, and what the codes are. */
module WireLayout {
  import opened Types
  import opened Codec

  /** The digit of `v` that has `low` digits below it, to the base 256. */
  function Digit(v: nat, low: nat): nat {
    v / Pow256(low) % 256
  }

  predicate AllDigits(x: seq<byte>, v: nat) {
    forall k | 0 <= k < |x| :: x[k] == Digit(v, |x| - 1 - k)
  }

  /** The `w` bytes of `s` from `at` on are the number `v`, most significant first. */
  predicate Holds(s: seq<byte>, at: nat, w: nat, v: nat) {
    at + w <= |s| && AllDigits(s[at..at + w], v)
  }

  lemma {:induction false} Digits(w: nat, v: nat)
    ensures AllDigits(BigEndian(w, v), v)
    decreases w
  {
    if w > 0 {
      Digits(w - 1, v / 256);
      var s, front := BigEndian(w, v), BigEndian(w - 1, v / 256);
      forall k | 0 <= k < w
        ensures s[k] == Digit(v, w - 1 - k)
      {
        if k < w - 1 {
          assert s[k] == front[k] == Digit(v / 256, w - 2 - k);
          DivDiv(v, Pow256(w - 2 - k));
        }
      }
    }
  }

  lemma DivDiv(v: nat, p: nat)
    requires p > 0
    ensures v / 256 / p == v / (256 * p)
  {
    DivMod(v, p);
    var a, b := v / 256 / p, v / (256 * p);
    assert v == 256 * (v / 256) + v % 256 && v / 256 == p * a + (v / 256) % p;
    assert v == (256 * p) * b + v % (256 * p);
    assert v % (256 * p) == 256 * ((v / 256) % p) + v % 256;
    assert (256 * p) * (a - b) == 0;
    Multiples(256 * p, a - b);
  }

  lemma HoldsAt(s: seq<byte>, at: nat, w: nat, v: nat)
    requires At(s, at, BigEndian(w, v))
    ensures Holds(s, at, w, v)
  {
    hide BigEndian, AllDigits;
    Digits(w, v);
  }

  /** A record: UUID, time, status, incarnation, length of the address and address, in this order and width. */
  predicate IsRecord(i: NodeInfo, s: seq<byte>) {
    && |s| == 32 + |i.addr| && Holds(s, 0, 16, i.uuid)
    && Holds(s, 16, 8, if i.lastSeen < 0 then i.lastSeen + 0x1_0000_0000_0000_0000 else i.lastSeen)
    && s[24] == 0 && s[25] == (match i.status case Unknown => 0 case Alive => 1 case Suspect => 2 case Dead => 3)
    && Holds(s, 26, 4, i.incarnation)
    && s[30] == 0 && s[31] == |i.addr| && s[32..] == i.addr
  }

  lemma RecordLayout(i: NodeInfo)
    ensures IsRecord(i, InfoBytes(i))
  {
    hide BigEndian, At, Holds;
    var s := InfoBytes(i);
    var b1, b2, b3 := BigEndian(16, i.uuid), BigEndian(8, Unsigned(i.lastSeen)), BigEndian(2, i.status.Rank());
    var b4, b5 := BigEndian(4, i.incarnation), BigEndian(2, |i.addr|);
    assert s == b1 + b2 + b3 + b4 + b5 + i.addr;
    assert At(s, 0, b1 + b2 + b3 + b4 + b5 + i.addr) by { Whole(s); }
    AtParts(s, 0, b1 + b2 + b3 + b4 + b5, i.addr);
    AtParts(s, 0, b1 + b2 + b3 + b4, b5);
    AtParts(s, 0, b1 + b2 + b3, b4);
    AtParts(s, 0, b1 + b2, b3);
    AtParts(s, 0, b1, b2);
    HoldsAt(s, 0, 16, i.uuid);
    HoldsAt(s, 16, 8, Unsigned(i.lastSeen));
    HoldsAt(s, 26, 4, i.incarnation);
    HoldsAt(s, 24, 2, i.status.Rank());
    HoldsAt(s, 30, 2, |i.addr|);
    TwoBytes(s, 24, i.status.Rank());
    TwoBytes(s, 30, |i.addr|);
  }

  lemma Whole(s: seq<byte>)
    ensures At(s, 0, s)
  {
  }

  lemma TwoBytes(s: seq<byte>, at: nat, v: nat)
    requires Holds(s, at, 2, v) && v < 256
    ensures s[at] == 0 && s[at + 1] == v && s[at..at + 2] == [0, v]
  {
    var x := s[at..at + 2];
    assert x[0] == Digit(v, 1) && x[1] == Digit(v, 0) && Pow256(1) == 256 && Pow256(0) == 1;
  }

  /** The two bytes that say the type of an event. */
  function TypeBytes(b: Body): seq<byte> {
    match b
    case Ping => [0, 0]
    case Ack(_) => [0, 1]
    case PingReq(_) => [0, 2]
    case Join(_, _) => [0, 16]
    case Leave(_) => [0, 17]
  }

  /**
   An event: version 1, the type, the length 36 with seven bytes of zero after it, the low half of the time, the
   UUID and the incarnation of the sender; from byte 36 on what belongs to the type; then the number of gossip
   records and the records.
   */
  predicate LaidOut(e: Event, s: seq<byte>) {
    && |s| >= 38 && s[0..2] == [0, 1] && s[2..4] == TypeBytes(e.body) && s[4..12] == [36, 0, 0, 0, 0, 0, 0, 0]
    && Holds(s, 12, 4, e.hdr.time % 0x1_0000_0000) && Holds(s, 16, 16, e.hdr.uuid)
    && Holds(s, 32, 4, e.hdr.incarnation)
    && match e.body
       case Ping => GossipFrom(s, 36, e.gossip)
       case Ack(u) => Holds(s, 36, 16, u) && GossipFrom(s, 52, e.gossip)
       case PingReq(u) => Holds(s, 36, 16, u) && GossipFrom(s, 52, e.gossip)
       case Leave(u) => Holds(s, 36, 16, u) && GossipFrom(s, 52, e.gossip)
       case Join(u, a) =>
         && Holds(s, 36, 16, u) && |s| >= 54 + |a| && s[52] == 0 && s[53] == |a| && s[54..54 + |a|] == a
         && GossipFrom(s, 54 + |a|, e.gossip)
  }

  lemma EventLayout(e: Event)
    requires |e.gossip| <= 10
    ensures LaidOut(e, EventBytes(e))
  {
    hide BigEndian, At, Holds, HeaderBytes, BodyBytes, GossipBytes, RecordsFrom;
    var s, h, b, g := EventBytes(e), HeaderBytes(e.hdr, TypeCode(e.body)), BodyBytes(e.body), GossipBytes(e.gossip);
    HeaderSize(e.hdr, TypeCode(e.body));
    assert At(s, 0, h + b + g) by { Whole(s); }
    AtParts(s, 0, h + b, g);
    AtParts(s, 0, h, b);
    HeaderLayout(s, e.hdr, e.body);
    BodyLayout(s, e.body);
    GossipLayout(s, 36 + |b|, e.gossip);
  }

  /** From `at` on there is the number of records, in two bytes, and then the records to the end. */
  predicate GossipFrom(s: seq<byte>, at: nat, g: seq<NodeInfo>) {
    at + 2 <= |s| && s[at] == 0 && s[at + 1] == |g| && RecordsFrom(s, at + 2, g)
  }

  /** The records of `g` stand one after the other from `at` to the end of `s`. */
  predicate RecordsFrom(s: seq<byte>, at: nat, g: seq<NodeInfo>)
    decreases |g|
  {
    if g == [] then |s| == at
    else
      var next := at + 32 + |g[0].addr|;
      next <= |s| && IsRecord(g[0], s[at..next]) && RecordsFrom(s, next, g[1..])
  }

  lemma HeaderLayout(s: seq<byte>, h: Header, b: Body)
    requires At(s, 0, HeaderBytes(h, TypeCode(b)))
    ensures |s| >= 36 && s[0..2] == [0, 1] && s[2..4] == TypeBytes(b) && s[4..12] == [36, 0, 0, 0, 0, 0, 0, 0]
    ensures Holds(s, 12, 4, h.time % 0x1_0000_0000) && Holds(s, 16, 16, h.uuid) && Holds(s, 32, 4, h.incarnation)
  {
    hide BigEndian, At, Holds;
    var code := TypeCode(b);
    var b1, b2, b4 := BigEndian(2, 1), BigEndian(2, code), BigEndian(4, h.time % 0x1_0000_0000);
    var b5, b6 := BigEndian(16, h.uuid), BigEndian(4, h.incarnation);
    LowTime(h.time);
    assert HeaderBytes(h, code) == b1 + b2 + LENGTH_STORE + b4 + b5 + b6;
    AtParts(s, 0, b1 + b2 + LENGTH_STORE + b4 + b5, b6);
    AtParts(s, 0, b1 + b2 + LENGTH_STORE + b4, b5);
    AtParts(s, 0, b1 + b2 + LENGTH_STORE, b4);
    AtParts(s, 0, b1 + b2, LENGTH_STORE);
    AtParts(s, 0, b1, b2);
    HoldsAt(s, 0, 2, 1);
    HoldsAt(s, 2, 2, code);
    HoldsAt(s, 12, 4, h.time % 0x1_0000_0000);
    HoldsAt(s, 16, 16, h.uuid);
    HoldsAt(s, 32, 4, h.incarnation);
    TwoBytes(s, 0, 1);
    TwoBytes(s, 2, code);
    assert 36 <= |s| by { Bounds(s, 32, b6); }
    assert s[4..12] == LENGTH_STORE by { AtIs(s, 4, LENGTH_STORE); }
  }

  lemma AtIs(s: seq<byte>, at: nat, x: seq<byte>)
    requires At(s, at, x)
    ensures at + |x| <= |s| && s[at..at + |x|] == x
  {
  }

  lemma LowTime(t: Time)
    ensures BigEndian(8, Unsigned(t))[4..] == BigEndian(4, t % 0x1_0000_0000)
  {
    hide BigEndian, Pow256;
    var v := Unsigned(t);
    BigEndianTail(4, 4, v);
    Powers();
    BigEndianMod(4, v);
    assert v % 0x1_0000_0000 == t % 0x1_0000_0000;
  }

  lemma BodyLayout(s: seq<byte>, b: Body)
    requires At(s, 36, BodyBytes(b))
    ensures match b
            case Ping => BodyBytes(b) == []
            case Ack(u) => |BodyBytes(b)| == 16 && Holds(s, 36, 16, u)
            case PingReq(u) => |BodyBytes(b)| == 16 && Holds(s, 36, 16, u)
            case Leave(u) => |BodyBytes(b)| == 16 && Holds(s, 36, 16, u)
            case Join(u, a) =>
              && |BodyBytes(b)| == 18 + |a| && Holds(s, 36, 16, u)
              && |s| >= 54 + |a| && s[52] == 0 && s[53] == |a| && s[54..54 + |a|] == a
  {
    hide BigEndian, At, Holds;
    match b
    case Ping =>
    case Ack(u) => HoldsAt(s, 36, 16, u);
    case PingReq(u) => HoldsAt(s, 36, 16, u);
    case Leave(u) => HoldsAt(s, 36, 16, u);
    case Join(u, a) =>
      AtParts(s, 36, BigEndian(16, u), AddressBytes(a));
      AtParts(s, 52, BigEndian(2, |a|), a);
      HoldsAt(s, 36, 16, u);
      HoldsAt(s, 52, 2, |a|);
      TwoBytes(s, 52, |a|);
      AtIs(s, 54, a);
  }

  lemma GossipLayout(s: seq<byte>, at: nat, g: seq<NodeInfo>)
    requires At(s, at, GossipBytes(g)) && |s| == at + |GossipBytes(g)| && |g| <= MAX_GOSSIP
    ensures GossipFrom(s, at, g)
  {
    hide BigEndian, At, Holds, InfosBytes, RecordsFrom;
    AtParts(s, at, BigEndian(2, |g|), InfosBytes(g));
    HoldsAt(s, at, 2, |g|);
    assert at + 2 <= |s| by { Bounds(s, at, BigEndian(2, |g|)); }
    TwoBytes(s, at, |g|);
    RecordsLayout(s, at + 2, g);
  }

  lemma {:induction false} RecordsLayout(s: seq<byte>, at: nat, g: seq<NodeInfo>)
    requires At(s, at, InfosBytes(g)) && |s| == at + |InfosBytes(g)|
    ensures RecordsFrom(s, at, g)
    decreases |g|
  {
    hide At, InfoBytes, IsRecord;
    if g != [] {
      InfosHead(g);
      AtParts(s, at, InfoBytes(g[0]), InfosBytes(g[1..]));
      AtIs(s, at, InfoBytes(g[0]));
      RecordLayout(g[0]);
      RecordsLayout(s, at + |InfoBytes(g[0])|, g[1..]);
    }
  }

  lemma {:induction false} InfosHead(g: seq<NodeInfo>)
    requires g != []
    ensures InfosBytes(g) == InfoBytes(g[0]) + InfosBytes(g[1..])
    decreases |g|
  {
    hide InfoBytes;
    var front := g[..|g| - 1];
    if |g| > 1 {
      InfosHead(front);
      var a, b, c := InfoBytes(g[0]), InfosBytes(front[1..]), InfoBytes(g[|g| - 1]);
      assert front[1..] == g[1..][..|g| - 2];
      assert InfosBytes(g[1..]) == b + c && InfosBytes(g) == InfosBytes(front) + c;
      hide InfosBytes;
      assert a + b + c == a + (b + c);
    } else {
      assert front == [] && g[1..] == [];
    }
  }

  /** The type of what is decoded from any buffer is what its third and fourth byte say. */
  lemma DecodedType(s: seq<byte>)
    requires ParseEvent(s).Got?
    ensures |s| >= 36 && s[2..4] == TypeBytes(ParseEvent(s).value.body)
  {
    hide ParseGossip, ParseUuid, ParseTime, ParseIncarnation, ParseAddress;
    var h := ParseHeader(s, 0);
    HeaderFields(s);
    var a, b := s[2], s[3];
    assert s[2..4] == [a, b];
    assert [a, b][..1] == [a] && [a][..0] == [];
    assert Value([a, b]) == 256 * Value([a]) + b && Value([a]) == a;
  }

  lemma HeaderFields(s: seq<byte>)
    requires ParseHeader(s, 0).Got?
    ensures |s| >= 36 && ParseHeader(s, 0).value.0 == Value(s[2..4]) && ParseHeader(s, 0).next == 36
  {
    hide Value;
  }

  lemma {:induction false} NeverRejected(s: seq<byte>, pos: nat, count: nat)
    ensures !ParseInfos(s, pos, count).Rejected?
  {
    hide ParseInfo;
    if count > 0 {
      NeverRejected(s, pos, count - 1);
      var r := ParseInfos(s, pos, count - 1);
      if r.Got? {
        InfoNotRejected(s, r.next);
      }
    }
  }

  lemma InfoNotRejected(s: seq<byte>, pos: nat)
    ensures !ParseInfo(s, pos).Rejected?
  {
    hide Value;
  }

  /** Gossip is rejected exactly for a number of records that at 168 bytes each would not fit the rest of the packet. */
  lemma GossipRejectedIff(s: seq<byte>, pos: nat)
    requires |s| <= MAX_PACKET_SIZE
    ensures ParseGossip(s, pos).Rejected? <==>
            pos + 2 <= |s| && 256 * s[pos] + s[pos + 1] > (|s| - pos - 2) / 168
  {
    hide ParseInfos;
    if pos + 2 <= |s| {
      var a: nat, b: nat := s[pos], s[pos + 1];
      assert s[pos..pos + 2] == [a, b];
      assert [a, b][..1] == [a] && [a][..0] == [];
      assert Value([a, b]) == 256 * Value([a]) + b && Value([a]) == a;
      NeverRejected(s, pos + 2, 256 * a + b);
    }
  }
}
