/** Data types and constants of the failure detector (swim/node.h, swim/event.h, swim/defs.h). */
module Types {

  type byte = x: int | 0 <= x < 256

  /** A UUID is its 16 bytes read as one big-endian number, the order uuid_compare() uses. */
  type Uuid = n: nat | n < 0x1_0000_0000_0000_0000_0000_0000_0000_0000

  /** time_t on an LP64 host. */
  type Time = t: int | -0x8000_0000_0000_0000 <= t < 0x8000_0000_0000_0000

  type Incarnation = n: nat | n < INCARNATIONS
  const INCARNATIONS := 0x1_0000_0000

  /** A socket address together with its length: at most sizeof(struct sockaddr_storage) bytes. */
  type Address = s: seq<byte> | |s| <= 128

  const MAX_PACKET_SIZE := 2048
  const MAX_LEAVE := 5
  const MAX_GOSSIP := 10
  const MAX_PING_REQ := 5
  const HEARTBEAT_INTERVAL := 1
  const SUSPECT_AFTER := 60
  const DEAD_AFTER := 120

  datatype Option<+T> = None | Some(value: T)

  datatype Status = Unknown | Alive | Suspect | Dead {
    /** The numeric value of the enumerator, which is also its precedence in a merge. */
    function Rank(): nat {
      match this
      case Unknown => 0
      case Alive => 1
      case Suspect => 2
      case Dead => 3
    }
  }

  datatype NodeInfo = NodeInfo(uuid: Uuid, lastSeen: Time, incarnation: Incarnation, status: Status, addr: Address) {
    /** What the asserts of swim_state_notice() and swim_process_gossip() demand of a record. */
    predicate Sane() {
      lastSeen > 0 && status != Unknown
    }

    /** Position of a record in the lexicographic order on (incarnation, status). */
    function Key(): nat {
      4 * incarnation + status.Rank()
    }
  }

  /** A view record; an empty witness means that there is none. */
  datatype NodeState = NodeState(info: NodeInfo, witnessAddr: Address)

  datatype Header = Header(uuid: Uuid, time: Time, incarnation: Incarnation)

  datatype Body =
    | Ping
    | Ack(ackUuid: Uuid)
    | PingReq(target: Uuid)
    | Join(joinUuid: Uuid, joinAddr: Address)
    | Leave(leaveUuid: Uuid)

  datatype Event = Event(hdr: Header, body: Body, gossip: seq<NodeInfo>)

  datatype Packet = Packet(dst: Address, event: Event)

  function Min(a: int, b: int): int {
    if a < b then a else b
  }

  function Max(a: int, b: int): int {
    if a < b then b else a
  }

  lemma Multiples(n: nat, k: int)
    ensures k >= 1 ==> n * k >= n
    ensures k <= -1 ==> n * k <= 0 - n
  {
  }

  lemma SubsetSize<T>(a: set<T>, b: set<T>)
    requires a <= b
    ensures |a| <= |b|
  {
    assert b == a + (b - a);
  }

  /** What a receiver decodes for an event: the header's time loses its upper 32 bits (see Codec). */
  function OnWire(e: Event): Event {
    e.(hdr := e.hdr.(time := e.hdr.time % 0x1_0000_0000))
  }
}
