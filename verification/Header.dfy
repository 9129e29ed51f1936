/**
 HeaderTcp v2: the fields of a frame header, the bit fields of TypeFmt, the interface
 view other header implementations expose, cloning, hop accounting and the wire image.
 */
module Header {
  import opened Bytes

  const MAGIC_V2: u16 := 0x4D48
  const VERSION_V2: byte := 2
  const DEFAULT_HOP_LIMIT: byte := 16
  const HEADER_SIZE: byte := 32

  const MAJOR_CMD: byte := 3
  const SUBPROTO_AUTH: byte := 2

  datatype HeaderTcp = HeaderTcp(
    magic: u16, ver: byte, hdrLen: byte, typeFmt: byte, flags: byte, hopLimit: byte, routeFlags: byte,
    msgID: u32, source: u32, target: u32, traceID: u32, timestamp: u32, payloadLen: u32)

  const ZERO_HEADER := HeaderTcp(0, 0, 0, 0, 0, 0, 0, 0, 0, 0, 0, 0, 0)

  /** TypeFmt & 0x03 and (TypeFmt >> 2) & 0x3F on a byte. */
  function MajorBits(typeFmt: byte): (m: byte) { typeFmt % 4 }
  function SubProtoBits(typeFmt: byte): (s: byte) { typeFmt / 4 }

  /** The two fields tile TypeFmt: (major & 0x03) | ((sub & 0x3F) << 2). */
  function PackTypeFmt(major: byte, sub: byte): (t: byte)
    ensures MajorBits(t) == major % 4 && SubProtoBits(t) == sub % 64
  {
    major % 4 + sub % 64 * 4
  }

  /** The fields are the masks and shifts of the format: bits 0-1, and bits 2-7. */
  lemma BitFieldsAreMasks(t: bv8)
    ensures MajorBits(t as int) == (t & 0x03) as int
    ensures SubProtoBits(t as int) == ((t >> 2) & 0x3F) as int
  {
    assert (t >> 2) & 0x3F == t / 4;
    assert t & 0x03 == t % 4;
  }

  /** What the getters of a header that is not a HeaderTcp return. */
  datatype Fields = Fields(
    major: byte, subProto: byte, flags: byte, hopLimit: byte, routeFlags: byte,
    msgID: u32, source: u32, target: u32, traceID: u32, timestamp: u32, payloadLen: u32)

  /** A non-nil header behind the header interface. */
  datatype IHeader = Tcp(h: HeaderTcp) | Other(f: Fields) {
    function Major(): byte { if Tcp? then MajorBits(h.typeFmt) else f.major }
    function SubProto(): byte { if Tcp? then SubProtoBits(h.typeFmt) else f.subProto }
    function Flags(): byte { if Tcp? then h.flags else f.flags }
    function HopLimit(): byte { if Tcp? then h.hopLimit else f.hopLimit }
    function RouteFlags(): byte { if Tcp? then h.routeFlags else f.routeFlags }
    function MsgID(): u32 { if Tcp? then h.msgID else f.msgID }
    function Source(): u32 { if Tcp? then h.source else f.source }
    function Target(): u32 { if Tcp? then h.target else f.target }
    function TraceID(): u32 { if Tcp? then h.traceID else f.traceID }
    function Timestamp(): u32 { if Tcp? then h.timestamp else f.timestamp }

    function SetHopLimit(v: byte): (r: IHeader) {
      if Tcp? then Tcp(h.(hopLimit := v)) else Other(f.(hopLimit := v))
    }

    function SetTraceID(v: u32): (r: IHeader) {
      if Tcp? then Tcp(h.(traceID := v)) else Other(f.(traceID := v))
    }
  }

  /** The HeaderTcp an arbitrary header stands for; the identity on a HeaderTcp. */
  function ToTcp(src: IHeader): (r: HeaderTcp) {
    match src
    case Tcp(h) => h
    case Other(f) =>
      HeaderTcp(0, 0, 0, PackTypeFmt(f.major, f.subProto), f.flags, f.hopLimit, f.routeFlags,
                f.msgID, f.source, f.target, f.traceID, f.timestamp, f.payloadLen)
  }

  /** A HeaderTcp updated in place through its With* methods. */
  class HeaderCell {
    var h: HeaderTcp

    constructor (init: HeaderTcp)
      ensures h == init
    {
      h := init;
    }

    method WithMajor(major: byte)
      modifies this
      ensures h == old(h).(typeFmt := h.typeFmt)
      ensures MajorBits(h.typeFmt) == major % 4 && SubProtoBits(h.typeFmt) == SubProtoBits(old(h.typeFmt))
    {
      h := h.(typeFmt := h.typeFmt - h.typeFmt % 4 + major % 4);
    }

    method WithSubProto(sub: byte)
      modifies this
      ensures h == old(h).(typeFmt := h.typeFmt)
      ensures SubProtoBits(h.typeFmt) == sub % 64 && MajorBits(h.typeFmt) == MajorBits(old(h.typeFmt))
    {
      h := h.(typeFmt := h.typeFmt % 4 + sub % 64 * 4);
    }

    method WithHopLimit(v: byte)
      modifies this
      ensures h == old(h).(hopLimit := v)
    {
      h := h.(hopLimit := v);
    }

    method WithPayloadLength(v: u32)
      modifies this
      ensures h == old(h).(payloadLen := v)
    {
      h := h.(payloadLen := v);
    }
  }

  /** CloneToTCP: a fresh HeaderTcp, filled setter by setter when the source is another header type. */
  method CloneToTCP(src: Option<IHeader>) returns (clone: HeaderCell)
    ensures fresh(clone)
    ensures src.None? ==> clone.h == ZERO_HEADER
    ensures src.Some? ==> clone.h == ToTcp(src.value)
  {
    clone := new HeaderCell(ZERO_HEADER);
    if src.Some? {
      match src.value {
        case Tcp(h) => clone.h := h;
        case Other(f) =>
          clone.WithMajor(f.major);
          clone.WithSubProto(f.subProto);
          clone.h := clone.h.(source := f.source, target := f.target, flags := f.flags);
          clone.WithHopLimit(f.hopLimit);
          clone.h := clone.h.(routeFlags := f.routeFlags, msgID := f.msgID, traceID := f.traceID,
                              timestamp := f.timestamp);
          clone.WithPayloadLength(f.payloadLen);
      }
    }
  }

  // ---------------------------------------------------------------- hop accounting

  /** A hop limit of 0 means "unset" and counts as the default. */
  function EffectiveHop(hop: byte): (e: byte)
    ensures e > 0
  {
    if hop == 0 then DEFAULT_HOP_LIMIT else hop
  }

  /** cloneForForward: spend one hop, or refuse when none is left to spend. */
  function CloneForForward(hdr: IHeader): (r: Option<IHeader>) {
    var hop := EffectiveHop(hdr.HopLimit());
    if hop <= 1 then None else Some(hdr.SetHopLimit(hop - 1))
  }

  /** CloneToTCPForForward: the variant that also converts to a HeaderTcp. */
  method CloneToTCPForForward(src: Option<IHeader>) returns (r: Option<HeaderTcp>)
    ensures r.Some? <==> src.Some? && CloneForForward(src.value).Some?
    ensures r.Some? ==> r.value == ToTcp(CloneForForward(src.value).value)
  {
    if src.None? { return None; }
    var clone := CloneToTCP(src);
    var hop := clone.h.hopLimit;
    if hop == 0 { hop := DEFAULT_HOP_LIMIT; }
    if hop <= 1 { return None; }
    clone.WithHopLimit(hop - 1);
    r := Some(clone.h);
  }

  /** The defaults Server.Send fills in before a header leaves the node. */
  function SendDefaults(hdr: IHeader, newTrace: u32): (r: IHeader) {
    var h1 := if hdr.HopLimit() == 0 then hdr.SetHopLimit(DEFAULT_HOP_LIMIT) else hdr;
    if h1.TraceID() == 0 then h1.SetTraceID(newTrace) else h1
  }

  /** The process-wide trace sequence. The starting value is arbitrary (a random seed). */
  class TraceSequence {
    var seq32: u32

    constructor (seed: u32)
      ensures seq32 == seed
    {
      seq32 := seed;
    }

    /** nextTraceID: the next value of a 32-bit counter, skipping the reserved 0. */
    method Next() returns (v: u32)
      modifies this
      ensures v != 0 && v == seq32
      ensures v == if old(seq32) == 0xFFFF_FFFF then 1 else old(seq32) + 1
    {
      seq32 := (seq32 + 1) % 0x1_0000_0000;
      v := seq32;
      if v == 0 {
        seq32 := (seq32 + 1) % 0x1_0000_0000;
        v := seq32;
      }
    }
  }

  // ---------------------------------------------------------------- wire image

  /** What encoding does to a header: protocol constants, hop default, true payload length mod 2^32. */
  function Normalise(h: HeaderTcp, size: nat): (r: HeaderTcp) {
    h.(magic := MAGIC_V2, ver := VERSION_V2, hdrLen := HEADER_SIZE,
       hopLimit := EffectiveHop(h.hopLimit), payloadLen := size % 0x1_0000_0000)
  }

  function Put32(v: u32): (b: seq<byte>)
    ensures |b| == 4
  {
    [ByteOf(v, 0), ByteOf(v, 1), ByteOf(v, 2), ByteOf(v, 3)]
  }

  /** Magic, version, header length and the four one-byte fields. */
  function LeadBytes(h: HeaderTcp): (b: seq<byte>)
    ensures |b| == 8
  {
    [h.magic / 0x100, h.magic % 0x100, h.ver, h.hdrLen, h.typeFmt, h.flags, h.hopLimit, h.routeFlags]
  }

  /** The 32 header bytes, big-endian. */
  function HeaderBytes(h: HeaderTcp): (b: seq<byte>)
    ensures |b| == 32
  {
    LeadBytes(h) + Put32(h.msgID) + Put32(h.source) + Put32(h.target)
    + Put32(h.traceID) + Put32(h.timestamp) + Put32(h.payloadLen)
  }

  /** The bytes of a whole frame. */
  function FrameBytes(hdr: IHeader, payload: seq<byte>): (b: seq<byte>)
    ensures |b| == 32 + |payload|
  {
    HeaderBytes(Normalise(ToTcp(hdr), |payload|)) + payload
  }

  method PutUint32(buf: array<byte>, at: nat, v: u32)
    requires at + 4 <= buf.Length
    modifies buf
    ensures buf[..at + 4] == old(buf[..at]) + Put32(v)
    ensures buf[at + 4..] == old(buf[at + 4..])
  {
    buf[at], buf[at + 1], buf[at + 2], buf[at + 3] := ByteOf(v, 0), ByteOf(v, 1), ByteOf(v, 2), ByteOf(v, 3);
  }

  /** Fills the first 32 bytes of a buffer from an already normalised header. */
  method FillHeader(buf: array<byte>, h: HeaderTcp)
    requires buf.Length >= 32
    modifies buf
    ensures buf[..32] == HeaderBytes(h)
    ensures buf[32..] == old(buf[32..])
  {
    ghost var tail := buf[32..];
    buf[0], buf[1], buf[2], buf[3] := h.magic / 0x100, h.magic % 0x100, h.ver, h.hdrLen;
    buf[4], buf[5], buf[6], buf[7] := h.typeFmt, h.flags, h.hopLimit, h.routeFlags;
    assert buf[..8] == LeadBytes(h);
    assert buf[8..][24..] == tail;
    PutUint32(buf, 8, h.msgID);
    assert buf[12..][20..] == tail;
    PutUint32(buf, 12, h.source);
    assert buf[16..][16..] == tail;
    PutUint32(buf, 16, h.target);
    assert buf[20..][12..] == tail;
    PutUint32(buf, 20, h.traceID);
    assert buf[24..][8..] == tail;
    PutUint32(buf, 24, h.timestamp);
    assert buf[28..][4..] == tail;
    PutUint32(buf, 28, h.payloadLen);
  }

  /** HeaderTcpCodec.Encode: restore the TCP layout, normalise, fill one buffer. */
  method Encode(hdr: IHeader, payload: seq<byte>) returns (buf: array<byte>)
    ensures fresh(buf) && buf[..] == FrameBytes(hdr, payload)
  {
    var h := ZERO_HEADER;
    match hdr {
      case Tcp(t) => h := t;
      case Other(f) =>
        h := HeaderTcp(0, 0, 0, PackTypeFmt(f.major, f.subProto), f.flags, f.hopLimit, f.routeFlags,
                       f.msgID, f.source, f.target, f.traceID, f.timestamp, f.payloadLen);
    }
    if h.hopLimit == 0 {
      h := h.(hopLimit := DEFAULT_HOP_LIMIT);
    }
    if |payload| % 0x1_0000_0000 != h.payloadLen {
      h := h.(payloadLen := |payload| % 0x1_0000_0000);
    }
    h := h.(magic := MAGIC_V2, ver := VERSION_V2, hdrLen := HEADER_SIZE);
    buf := new byte[32 + |payload|](i => 0);
    FillHeader(buf, h);
    forall i | 0 <= i < |payload| {
      buf[32 + i] := payload[i];
    }
    assert buf[32..] == payload;
    assert buf[..32] + buf[32..] == buf[..];
  }
}
