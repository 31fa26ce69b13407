/** The encoders and decoders as they run: a cursor moving over a byte buffer. */
module CodecBuffer {
  import opened Types
  import opened Codec
  import opened WireLayout

  /** From `old` to `new` only the bytes of `x` at `pos` were stored. */
  predicate Stored(old_: seq<byte>, new_: seq<byte>, pos: nat, x: seq<byte>) {
    pos + |x| <= |old_| == |new_| && new_ == old_[..pos] + x + old_[pos + |x|..]
  }

  lemma StoredTwice(a: seq<byte>, b: seq<byte>, c: seq<byte>, pos: nat, x: seq<byte>, y: seq<byte>)
    requires Stored(a, b, pos, x) && Stored(b, c, pos + |x|, y)
    ensures Stored(a, c, pos, x + y)
  {
    assert b[..pos + |x|] == a[..pos] + x;
    assert b[pos + |x| + |y|..] == a[pos + |x| + |y|..];
    assert a[..pos] + x + y == a[..pos] + (x + y);
  }

  /** memcpy() into the buffer. */
  method PutBytes(buf: array<byte>, pos: nat, data: seq<byte>) returns (n: nat)
    requires pos + |data| <= buf.Length
    modifies buf
    ensures n == |data| && Stored(old(buf[..]), buf[..], pos, data)
  {
    ghost var b0 := buf[..];
    for i := 0 to |data|
      invariant forall k | 0 <= k < buf.Length :: buf[k] == if pos <= k < pos + i then data[k - pos] else b0[k]
    {
      buf[pos + i] := data[i];
    }
    n := |data|;
  }

  method PutNumber(buf: array<byte>, pos: nat, w: nat, v: nat) returns (n: nat)
    requires pos + w <= buf.Length
    modifies buf
    ensures n == w && Stored(old(buf[..]), buf[..], pos, BigEndian(w, v))
  {
    n := PutBytes(buf, pos, BigEndian(w, v));
  }

  /** Stores a number behind the `n` bytes `x` that have been stored at `pos` since the buffer was `start`. */
  method AppendNumber(buf: array<byte>, pos: nat, n: nat, w: nat, v: nat, ghost start: seq<byte>, ghost x: seq<byte>)
    returns (m: nat)
    requires n == |x| && Stored(start, buf[..], pos, x) && pos + n + w <= buf.Length
    modifies buf
    ensures m == n + w && Stored(start, buf[..], pos, x + BigEndian(w, v))
  {
    ghost var b := buf[..];
    var k := PutNumber(buf, pos + n, w, v);
    m := n + k;
    StoredTwice(start, b, buf[..], pos, x, BigEndian(w, v));
  }

  method EncodeAddress(buf: array<byte>, pos: nat, a: Address) returns (n: nat)
    requires pos + |AddressBytes(a)| <= buf.Length
    modifies buf
    ensures n == |AddressBytes(a)| && Stored(old(buf[..]), buf[..], pos, AddressBytes(a))
  {
    ghost var b0 := buf[..];
    var k := PutNumber(buf, pos, 2, |a|);
    ghost var b1 := buf[..];
    n := PutBytes(buf, pos + k, a);
    n := n + k;
    StoredTwice(b0, b1, buf[..], pos, BigEndian(2, |a|), a);
  }

  /** The header before its length is filled in. */
  function Unpatched(h: Header, code: nat): seq<byte> {
    BigEndian(2, 1) + BigEndian(2, code) + BigEndian(4, 0) + BigEndian(8, Unsigned(h.time))
    + BigEndian(16, h.uuid) + BigEndian(4, h.incarnation)
  }

  method EncodeFields(buf: array<byte>, pos: nat, h: Header, code: nat) returns (n: nat, plen: nat)
    requires pos + HEADER_SIZE <= buf.Length
    modifies buf
    ensures n == HEADER_SIZE && plen == pos + 4 && Stored(old(buf[..]), buf[..], pos, Unpatched(h, code))
  {
    hide Stored, BigEndian;
    ghost var b0 := buf[..];
    ghost var v, c, z := BigEndian(2, 1), BigEndian(2, code), BigEndian(4, 0);
    ghost var t, u := BigEndian(8, Unsigned(h.time)), BigEndian(16, h.uuid);
    n := PutNumber(buf, pos, 2, 1);
    n := AppendNumber(buf, pos, n, 2, code, b0, v);
    plen := pos + n;
    n := AppendNumber(buf, pos, n, 4, 0, b0, v + c);
    n := AppendNumber(buf, pos, n, 8, Unsigned(h.time), b0, v + c + z);
    n := AppendNumber(buf, pos, n, 16, h.uuid, b0, v + c + z + t);
    n := AppendNumber(buf, pos, n, 4, h.incarnation, b0, v + c + z + t + u);
  }

  /** Writes the fields with a placeholder for the length, and then stores the length as 64 bits. */
  method EncodeHeader(buf: array<byte>, pos: nat, h: Header, code: nat) returns (n: nat)
    requires pos + HEADER_SIZE <= buf.Length
    modifies buf
    ensures n == HEADER_SIZE && Stored(old(buf[..]), buf[..], pos, HeaderBytes(h, code))
  {
    hide Stored, BigEndian;
    ghost var b0 := buf[..];
    var plen;
    n, plen := EncodeFields(buf, pos, h, code);
    ghost var b1 := buf[..];
    var k := PutBytes(buf, plen, LENGTH_STORE);
    ghost var t := BigEndian(8, Unsigned(h.time));
    ghost var x, y := BigEndian(2, 1) + BigEndian(2, code), BigEndian(4, 0) + t[..4];
    ghost var z := t[4..] + BigEndian(16, h.uuid) + BigEndian(4, h.incarnation);
    assert Unpatched(h, code) == x + y + z;
    assert HeaderBytes(h, code) == x + LENGTH_STORE + z;
    Patched(b0, b1, buf[..], pos, x, y, z, LENGTH_STORE);
  }

  /** Storing over the middle of what was stored. */
  lemma Patched(a: seq<byte>, b: seq<byte>, c: seq<byte>, pos: nat,
                x: seq<byte>, y: seq<byte>, z: seq<byte>, y': seq<byte>)
    requires |y| == |y'| && Stored(b, c, pos + |x|, y')
    ensures Stored(a, b, pos, x + y + z) ==> Stored(a, c, pos, x + y' + z)
  {
    if Stored(a, b, pos, x + y + z) {
      assert b[..pos + |x|] == a[..pos] + x;
      assert b[pos + |x| + |y|..] == z + a[pos + |x + y + z|..];
      assert a[..pos] + x + y' + (z + a[pos + |x + y + z|..]) == a[..pos] + (x + y' + z) + a[pos + |x + y + z|..];
    }
  }

  method EncodeInfo(buf: array<byte>, pos: nat, i: NodeInfo) returns (n: nat)
    requires pos + |InfoBytes(i)| <= buf.Length
    modifies buf
    ensures n == |InfoBytes(i)| && Stored(old(buf[..]), buf[..], pos, InfoBytes(i))
  {
    hide Stored, BigEndian;
    ghost var b0 := buf[..];
    ghost var u, t := BigEndian(16, i.uuid), BigEndian(8, Unsigned(i.lastSeen));
    ghost var s, k := BigEndian(2, i.status.Rank()), BigEndian(4, i.incarnation);
    n := PutNumber(buf, pos, 16, i.uuid);
    n := AppendNumber(buf, pos, n, 8, Unsigned(i.lastSeen), b0, u);
    n := AppendNumber(buf, pos, n, 2, i.status.Rank(), b0, u + t);
    n := AppendNumber(buf, pos, n, 4, i.incarnation, b0, u + t + s);
    ghost var b1 := buf[..];
    var m := EncodeAddress(buf, pos + n, i.addr);
    n := n + m;
    StoredTwice(b0, b1, buf[..], pos, u + t + s + k, AddressBytes(i.addr));
  }

  lemma {:induction false} InfosPrefix(g: seq<NodeInfo>, i: nat)
    requires i <= |g|
    ensures |InfosBytes(g[..i])| <= |InfosBytes(g)|
    ensures i < |g| ==> InfosBytes(g[..i + 1]) == InfosBytes(g[..i]) + InfoBytes(g[i])
    decreases |g|
  {
    if i == |g| {
      assert g[..i] == g;
    } else {
      assert g[..i + 1][..i] == g[..i];
      InfosPrefix(g[..|g| - 1], i);
      assert g[..|g| - 1][..i] == g[..i];
    }
  }

  method EncodeGossip(buf: array<byte>, pos: nat, g: seq<NodeInfo>) returns (n: nat)
    requires pos + |GossipBytes(g)| <= buf.Length
    modifies buf
    ensures n == |GossipBytes(g)| && Stored(old(buf[..]), buf[..], pos, GossipBytes(g))
  {
    hide Stored, BigEndian;
    ghost var b0 := buf[..];
    n := PutNumber(buf, pos, 2, |g|);
    assert InfosBytes(g[..0]) == [];
    assert BigEndian(2, |g|) + InfosBytes(g[..0]) == BigEndian(2, |g|);
    for i := 0 to |g|
      invariant n == 2 + |InfosBytes(g[..i])|
      invariant Stored(b0, buf[..], pos, BigEndian(2, |g|) + InfosBytes(g[..i]))
    {
      ghost var b1, x, y := buf[..], InfosBytes(g[..i]), InfoBytes(g[i]);
      InfosPrefix(g, i);
      InfosPrefix(g, i + 1);
      var k := EncodeInfo(buf, pos + n, g[i]);
      StoredTwice(b0, b1, buf[..], pos, BigEndian(2, |g|) + x, y);
      assert BigEndian(2, |g|) + x + y == BigEndian(2, |g|) + (x + y);
      n := n + k;
    }
    assert g[..|g|] == g;
  }

  method EncodeBody(buf: array<byte>, pos: nat, b: Body) returns (n: nat)
    requires pos + |BodyBytes(b)| <= buf.Length
    modifies buf
    ensures n == |BodyBytes(b)| && Stored(old(buf[..]), buf[..], pos, BodyBytes(b))
  {
    match b
    case Ping => n := 0;
    case Ack(u) => n := PutNumber(buf, pos, 16, u);
    case PingReq(u) => n := PutNumber(buf, pos, 16, u);
    case Leave(u) => n := PutNumber(buf, pos, 16, u);
    case Join(u, a) =>
      ghost var b0 := buf[..];
      n := PutNumber(buf, pos, 16, u);
      ghost var b1 := buf[..];
      var k := EncodeAddress(buf, pos + n, a);
      n := n + k;
      StoredTwice(b0, b1, buf[..], pos, BigEndian(16, u), AddressBytes(a));
  }

  /** No encoder runs out of buffer, and what is sent is the wire format of the event. */
  method EncodeEvent(buf: array<byte>, e: Event) returns (n: nat)
    requires buf.Length == MAX_PACKET_SIZE && |e.gossip| <= MAX_GOSSIP
    modifies buf
    ensures n == |EventBytes(e)| <= buf.Length && buf[..n] == EventBytes(e) && LaidOut(e, buf[..n])
    ensures buf[n..] == old(buf[n..])
  {
    ghost var b0 := buf[..];
    ghost var h, b, g := HeaderBytes(e.hdr, TypeCode(e.body)), BodyBytes(e.body), GossipBytes(e.gossip);
    hide LaidOut;
    EventFits(e);
    EventLayout(e);
    n := EncodeHeader(buf, 0, e.hdr, TypeCode(e.body));
    ghost var b1 := buf[..];
    var k := EncodeBody(buf, n, e.body);
    n := n + k;
    StoredTwice(b0, b1, buf[..], 0, h, b);
    ghost var b2 := buf[..];
    k := EncodeGossip(buf, n, e.gossip);
    n := n + k;
    StoredTwice(b0, b2, buf[..], 0, h + b, g);
  }

  // ---------- Decoders ----------

  lemma {:induction false} ValueBound(s: seq<byte>)
    ensures Value(s) < Pow256(|s|)
  {
    if s != [] {
      ValueBound(s[..|s| - 1]);
    }
  }

  /** A big-endian number, byte by byte. */
  method GetNumber(buf: array<byte>, pos: nat, w: nat) returns (r: Parsed<nat>)
    ensures r == Num(buf[..], pos, w) && (r.Got? ==> r.value < Pow256(w))
  {
    if pos + w > buf.Length {
      return Broken;
    }
    var v: nat := 0;
    for i := 0 to w
      invariant v == Value(buf[pos..pos + i])
    {
      v := 256 * v + buf[pos + i];
      assert buf[pos..pos + (i + 1)][..i] == buf[pos..pos + i];
    }
    assert buf[..][pos..pos + w] == buf[pos..pos + w];
    ValueBound(buf[pos..pos + w]);
    r := Got(v, pos + w);
  }

  /** memcpy() out of the buffer. */
  method GetBytes(buf: array<byte>, pos: nat, len: nat) returns (data: seq<byte>)
    requires pos + len <= buf.Length
    ensures data == buf[..][pos..pos + len]
  {
    data := [];
    for i := 0 to len
      invariant data == buf[pos..pos + i]
    {
      data := data + [buf[pos + i]];
    }
  }

  method DecodeUuid(buf: array<byte>, pos: nat) returns (r: Parsed<Uuid>)
    ensures r == ParseUuid(buf[..], pos)
  {
    hide Num, Pow256;
    Powers();
    var v :- GetNumber(buf, pos, 16);
    r := Got(v.0, v.1);
  }

  method DecodeTime(buf: array<byte>, pos: nat) returns (r: Parsed<Time>)
    ensures r == ParseTime(buf[..], pos)
  {
    hide Num, Pow256;
    Powers();
    var v :- GetNumber(buf, pos, 8);
    r := Got(Signed(v.0), v.1);
  }

  method DecodeIncarnation(buf: array<byte>, pos: nat) returns (r: Parsed<Incarnation>)
    ensures r == ParseIncarnation(buf[..], pos)
  {
    hide Num, Pow256;
    Powers();
    var v :- GetNumber(buf, pos, 4);
    r := Got(v.0, v.1);
  }

  method DecodeStatus(buf: array<byte>, pos: nat) returns (r: Parsed<Status>)
    ensures r == ParseStatus(buf[..], pos)
  {
    hide Num;
    var v :- GetNumber(buf, pos, 2);
    if v.0 >= 4 {
      return Broken;
    }
    r := Got([Unknown, Alive, Suspect, Dead][v.0], v.1);
  }

  method DecodeAddress(buf: array<byte>, pos: nat) returns (r: Parsed<Address>)
    ensures r == ParseAddress(buf[..], pos)
  {
    hide Num;
    var len :- GetNumber(buf, pos, 2);
    if len.0 > 128 || len.1 + len.0 > buf.Length {
      return Broken;
    }
    var data := GetBytes(buf, len.1, len.0);
    r := Got(data, len.1 + len.0);
  }

  method DecodeInfo(buf: array<byte>, pos: nat) returns (r: Parsed<NodeInfo>)
    ensures r == ParseInfo(buf[..], pos)
  {
    hide ParseUuid, ParseTime, ParseStatus, ParseIncarnation, ParseAddress;
    var uuid :- DecodeUuid(buf, pos);
    var lastSeen :- DecodeTime(buf, uuid.1);
    var status :- DecodeStatus(buf, lastSeen.1);
    var incarnation :- DecodeIncarnation(buf, status.1);
    var addr :- DecodeAddress(buf, incarnation.1);
    r := Got(NodeInfo(uuid.0, lastSeen.0, incarnation.0, status.0, addr.0), addr.1);
  }

  lemma {:induction false} FailsEarly(s: seq<byte>, pos: nat, i: nat, count: nat)
    requires i <= count && ParseInfos(s, pos, i).IsFailure()
    ensures ParseInfos(s, pos, count) == ParseInfos(s, pos, i)
    decreases count
  {
    hide ParseInfo;
    if i < count {
      FailsEarly(s, pos, i, count - 1);
    }
  }

  method DecodeGossip(buf: array<byte>, pos: nat) returns (r: Parsed<seq<NodeInfo>>)
    ensures r == ParseGossip(buf[..], pos)
  {
    hide ParseInfo, Num;
    var count :- GetNumber(buf, pos, 2);
    var p: nat := count.1;
    assert p <= buf.Length by { NumEnds(buf[..], pos, 2); }
    if count.0 > (buf.Length - p) / SIZEOF_NODE_INFO % 0x1_0000 {
      return Rejected;
    }
    var gossip: seq<NodeInfo> := [];
    for i := 0 to count.0
      invariant ParseInfos(buf[..], count.1, i) == Got(gossip, p)
    {
      var info := DecodeInfo(buf, p);
      if info.IsFailure() {
        FailsEarly(buf[..], count.1, i + 1, count.0);
        return info.PropagateFailure();
      }
      gossip, p := gossip + [info.value], info.next;
    }
    r := Got(gossip, p);
  }

  lemma NumEnds(s: seq<byte>, pos: nat, w: nat)
    ensures Num(s, pos, w).Got? ==> Num(s, pos, w).next <= |s|
  {
  }

  /** The version and the length are read and ignored. */
  method DecodeHeader(buf: array<byte>, pos: nat) returns (r: Parsed<(nat, Header)>)
    ensures r == ParseHeader(buf[..], pos)
  {
    hide ParseUuid, ParseTime, ParseIncarnation, Num;
    var version :- GetNumber(buf, pos, 2);
    var code :- GetNumber(buf, version.1, 2);
    var length :- GetNumber(buf, code.1, 4);
    var time :- DecodeTime(buf, length.1);
    var uuid :- DecodeUuid(buf, time.1);
    var incarnation :- DecodeIncarnation(buf, uuid.1);
    r := Got((code.0, Header(uuid.0, time.0, incarnation.0)), incarnation.1);
  }

  method DecodeBody(buf: array<byte>, pos: nat, code: nat) returns (r: Parsed<Body>)
    ensures r == ParseBody(buf[..], pos, code)
    ensures r.Got? ==>
              code == match r.value
                      case Ping => 0
                      case Ack(_) => 1
                      case PingReq(_) => 2
                      case Join(_, _) => 16
                      case Leave(_) => 17
  {
    hide ParseUuid, ParseAddress;
    if code == 0 {
      return Got(Ping, pos);
    }
    if code != 1 && code != 2 && code != 16 && code != 17 {
      return Rejected;
    }
    var uuid :- DecodeUuid(buf, pos);
    if code == 1 {
      r := Got(Ack(uuid.0), uuid.1);
    } else if code == 2 {
      r := Got(PingReq(uuid.0), uuid.1);
    } else if code == 17 {
      r := Got(Leave(uuid.0), uuid.1);
    } else {
      var addr :- DecodeAddress(buf, uuid.1);
      r := Got(Join(uuid.0, addr.0), addr.1);
    }
  }

  method DecodeEvent(buf: array<byte>) returns (r: Parsed<Event>)
    ensures r == ParseEvent(buf[..])
    ensures r.Got? ==> buf.Length >= 36 && buf[2..4] == TypeBytes(r.value.body)
  {
    hide ParseHeader, ParseBody, ParseGossip;
    var header :- DecodeHeader(buf, 0);
    var body :- DecodeBody(buf, header.1, header.0.0);
    var gossip :- DecodeGossip(buf, body.1);
    r := Got(Event(header.0.1, body.0, gossip.0), gossip.1);
    DecodedType(buf[..]);
    assert buf[..][2..4] == buf[2..4];
  }

  /** Sending and receiving: encode into one buffer, decode from another that starts with the same bytes. */
  method SendAndReceive(out: array<byte>, inn: array<byte>, e: Event) returns (r: Parsed<Event>)
    requires out.Length == inn.Length == MAX_PACKET_SIZE && out != inn && |e.gossip| <= MAX_GOSSIP
    modifies out, inn
    ensures r == Got(OnWire(e), |EventBytes(e)|)
  {
    var n := EncodeEvent(out, e);
    var k := PutBytes(inn, 0, out[..n]);
    RoundTrip(e, inn[n..]);
    assert inn[..] == EventBytes(e) + inn[n..];
    r := DecodeEvent(inn);
  }
}
