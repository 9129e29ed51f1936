/**
 Decoding a byte stream into frames, and the laws that tie it to encoding.

 A stream is the bytes still to come together with the error the reader reports once
 they are used up (`EOF` for an orderly close, anything else for a broken link).
 */
module Codec {
  import opened Bytes
  import opened Header

  datatype IOErr = EOF | UnexpectedEOF | Broken(code: nat) | MagicMismatch | VersionInvalid | LenInvalid

  datatype Frame = Frame(hdr: IHeader, payload: seq<byte>)

  datatype Received = Received(h: HeaderTcp, payload: seq<byte>)

  datatype Decoded = Got(frame: Received, rest: seq<byte>) | Failed(err: IOErr)

  /** The error of io.ReadFull when the stream holds fewer bytes than asked for. */
  function ShortRead(avail: seq<byte>, end: IOErr): (e: IOErr) {
    if avail != [] && end == EOF then UnexpectedEOF else end
  }

  function WordAt(s: seq<byte>, i: nat): (v: u32)
    requires i + 4 <= |s|
  {
    Word(s[i], s[i + 1], s[i + 2], s[i + 3])
  }

  function ParseHeader(s: seq<byte>): (h: HeaderTcp)
    requires |s| >= 32
  {
    HeaderTcp(0x100 * (s[0] as int) + s[1], s[2], s[3], s[4], s[5], s[6], s[7],
              WordAt(s, 8), WordAt(s, 12), WordAt(s, 16), WordAt(s, 20), WordAt(s, 24), WordAt(s, 28))
  }

  /** HeaderTcpCodec.Decode on the stream `s`. */
  function DecodeOne(s: seq<byte>, end: IOErr): (r: Decoded)
    ensures r.Got? ==> |r.rest| <= |s| - 32 && |r.frame.payload| == r.frame.h.payloadLen
  {
    if |s| < 4 then Failed(ShortRead(s, end))
    else if 0x100 * (s[0] as int) + s[1] != MAGIC_V2 then Failed(MagicMismatch)
    else if s[2] != VERSION_V2 then Failed(VersionInvalid)
    else if s[3] < HEADER_SIZE then Failed(LenInvalid)
    else if |s| < s[3] then Failed(ShortRead(s[4..], end))
    else
      var raw := ParseHeader(s);
      var h := raw.(hopLimit := EffectiveHop(raw.hopLimit));
      var body := s[s[3]..];
      if |body| < h.payloadLen then Failed(ShortRead(body, end))
      else Got(Received(h, body[..h.payloadLen]), body[h.payloadLen..])
  }

  datatype Stream = Stream(frames: seq<Received>, err: IOErr)

  /** ReadLoop: decode until the first error. */
  function DecodeAll(s: seq<byte>, end: IOErr): (r: Stream)
    decreases |s|
  {
    match DecodeOne(s, end)
    case Failed(e) => Stream([], e)
    case Got(f, rest) =>
      var tail := DecodeAll(rest, end);
      Stream([f] + tail.frames, tail.err)
  }

  /** The bytes of a sequence of frames written one after the other. */
  function Wire(fs: seq<Frame>): (b: seq<byte>) {
    if fs == [] then [] else FrameBytes(fs[0].hdr, fs[0].payload) + Wire(fs[1..])
  }

  /** The frame a peer receives: header normalised, payload as it was. */
  function Normal(f: Frame): (r: Received) {
    Received(Normalise(ToTcp(f.hdr), |f.payload|), f.payload)
  }

  function Normals(fs: seq<Frame>): (r: seq<Received>)
    ensures |r| == |fs| && forall i :: 0 <= i < |fs| ==> r[i] == Normal(fs[i])
  {
    seq(|fs|, i requires 0 <= i < |fs| => Normal(fs[i]))
  }

  predicate Sendable(f: Frame) { |f.payload| < 0x1_0000_0000 }

  // ---------------------------------------------------------------- the format, byte by byte

  /** The 32-bit number at offset i, most significant byte first. */
  function Big(s: seq<byte>, i: nat): (v: nat)
    requires i + 4 <= |s|
  {
    var a: int, b: int, c: int := s[i], s[i + 1], s[i + 2];
    a * 16777216 + b * 65536 + c * 256 + s[i + 3]
  }

  /** Where every field of a frame is on the wire, and what the fixed ones hold. */
  lemma WireLayout(hdr: IHeader, payload: seq<byte>)
    ensures var b := FrameBytes(hdr, payload);
            && |b| == 32 + |payload| && b[32..] == payload
            && b[0] == 0x4D && b[1] == 0x48 && b[2] == 2 && b[3] == 32
            && b[4] == hdr.Major() % 4 + 4 * (hdr.SubProto() % 64) && b[5] == hdr.Flags()
            && b[6] == (if hdr.HopLimit() == 0 then 16 else hdr.HopLimit()) && b[7] == hdr.RouteFlags()
            && Big(b, 8) == hdr.MsgID() && Big(b, 12) == hdr.Source() && Big(b, 16) == hdr.Target()
            && Big(b, 20) == hdr.TraceID() && Big(b, 24) == hdr.Timestamp()
            && Big(b, 28) == |payload| % 0x1_0000_0000
  {
    var h := Normalise(ToTcp(hdr), |payload|);
    assert FrameBytes(hdr, payload) == HeaderBytes(h) + payload;
    LeadAt(h, payload);
    WordsAt(h, payload);
    hide HeaderBytes;
  }

  lemma LeadAt(h: HeaderTcp, rest: seq<byte>)
    ensures var b := HeaderBytes(h) + rest;
            && b[0] == h.magic / 0x100 && b[1] == h.magic % 0x100 && b[2] == h.ver && b[3] == h.hdrLen
            && b[4] == h.typeFmt && b[5] == h.flags && b[6] == h.hopLimit && b[7] == h.routeFlags && b[32..] == rest
  {
    hide Put32;
    var b := HeaderBytes(h) + rest;
    assert b[..8] == LeadBytes(h);
    assert forall k :: 0 <= k < 8 ==> b[k] == b[..8][k];
  }

  lemma WordsAt(h: HeaderTcp, rest: seq<byte>)
    ensures var b := HeaderBytes(h) + rest;
            && Big(b, 8) == h.msgID && Big(b, 12) == h.source && Big(b, 16) == h.target
            && Big(b, 20) == h.traceID && Big(b, 24) == h.timestamp && Big(b, 28) == h.payloadLen
  {
    var b := HeaderBytes(h) + rest;
    hide ByteOf;
    assert b[8..12] == Put32(h.msgID) && b[12..16] == Put32(h.source) && b[16..20] == Put32(h.target)
           && b[20..24] == Put32(h.traceID) && b[24..28] == Put32(h.timestamp) && b[28..32] == Put32(h.payloadLen);
    hide HeaderBytes;
    BigAt(b, 8, h.msgID);
    BigAt(b, 12, h.source);
    BigAt(b, 16, h.target);
    BigAt(b, 20, h.traceID);
    BigAt(b, 24, h.timestamp);
    BigAt(b, 28, h.payloadLen);
  }

  lemma BigAt(b: seq<byte>, i: nat, v: u32)
    requires i + 4 <= |b| && b[i..i + 4] == Put32(v)
    ensures Big(b, i) == v
  {
    var w := b[i..i + 4];
    assert w[0] == b[i] && w[1] == b[i + 1] && w[2] == b[i + 2] && w[3] == b[i + 3];
    WordOfBytes(v);
    hide ByteOf;
  }

  /**
   Which inputs decode: magic 4D 48, version 2, a header length of at least 32 that is there in full,
   and all of the payload it announces. The first thing that is wrong names the error.
   */
  lemma DecodesExactly(s: seq<byte>, end: IOErr)
    ensures DecodeOne(s, end).Got? <==>
            && |s| >= 4 && s[0] == 0x4D && s[1] == 0x48 && s[2] == 2 && s[3] >= 32
            && |s| >= s[3] && |s| >= s[3] + Big(s, 28)
    ensures |s| >= 4 && (s[0] != 0x4D || s[1] != 0x48) ==> DecodeOne(s, end) == Failed(MagicMismatch)
    ensures |s| >= 4 && s[0] == 0x4D && s[1] == 0x48 && s[2] != 2 ==> DecodeOne(s, end) == Failed(VersionInvalid)
    ensures |s| >= 4 && s[0] == 0x4D && s[1] == 0x48 && s[2] == 2 && s[3] < 32 ==>
              DecodeOne(s, end) == Failed(LenInvalid)
    ensures |s| < 4 && end != EOF ==> DecodeOne(s, end) == Failed(end)
    ensures |s| >= 4 && s[0] == 0x4D && s[1] == 0x48 && s[2] == 2 && s[3] >= 32 && end != EOF ==>
              |s| < s[3] || |s| < s[3] + Big(s, 28) ==> DecodeOne(s, end) == Failed(end)
  {
    if |s| >= 32 { assert WordAt(s, 28) == Big(s, 28); }
    hide WordAt;
  }

  // ---------------------------------------------------------------- one frame

  /** Parsing undoes laying out, whatever follows the header. */
  lemma ParseLaidOut(h: HeaderTcp, rest: seq<byte>)
    ensures ParseHeader(HeaderBytes(h) + rest) == h
  {
    var s := HeaderBytes(h) + rest;
    assert s[..8] == LeadBytes(h);
    assert s[0] == LeadBytes(h)[0] && s[1] == LeadBytes(h)[1];
    PutAt(s, 8, h.msgID);
    PutAt(s, 12, h.source);
    PutAt(s, 16, h.target);
    PutAt(s, 20, h.traceID);
    PutAt(s, 24, h.timestamp);
    PutAt(s, 28, h.payloadLen);
  }

  lemma PutAt(s: seq<byte>, i: nat, v: u32)
    requires i + 4 <= |s| && s[i..i + 4] == Put32(v)
    ensures WordAt(s, i) == v
  {
    var w := s[i..i + 4];
    assert w[0] == s[i] && w[1] == s[i + 1] && w[2] == s[i + 2] && w[3] == s[i + 3];
    WordOfBytes(v);
  }

  lemma PutParsed(s: seq<byte>, i: nat)
    requires i + 4 <= |s|
    ensures Put32(WordAt(s, i)) == s[i..i + 4]
  {
    hide ByteOf;
    hide Word;
    BytesOfWord(s[i], s[i + 1], s[i + 2], s[i + 3]);
  }

  /** Laying out undoes parsing. */
  lemma LayOutParsed(s: seq<byte>)
    requires |s| >= 32
    ensures HeaderBytes(ParseHeader(s)) == s[..32]
  {
    hide Put32;
    hide WordAt;
    assert LeadBytes(ParseHeader(s)) == s[..8];
    PutParsed(s, 8);
    PutParsed(s, 12);
    PutParsed(s, 16);
    PutParsed(s, 20);
    PutParsed(s, 24);
    PutParsed(s, 28);
    assert s[..32] == s[..8] + s[8..12] + s[12..16] + s[16..20] + s[20..24] + s[24..28] + s[28..32];
  }

  /** A header image with e extension bytes announced in its length field. */
  function Extended(h: HeaderTcp, ext: seq<byte>): (b: seq<byte>)
    requires |ext| <= 223
  {
    HeaderBytes(h.(hdrLen := 32 + |ext|)) + ext
  }

  /**
   Decoding any well-formed image: magic, version and length field in order, `ext` ignored,
   hop default applied, exactly payloadLen bytes of what follows taken as payload.
   */
  lemma DecodeImage(h: HeaderTcp, ext: seq<byte>, body: seq<byte>, end: IOErr)
    requires |ext| <= 223 && h.magic == MAGIC_V2 && h.ver == VERSION_V2 && h.hopLimit != 0
    ensures DecodeOne(Extended(h, ext) + body, end) ==
            if |body| < h.payloadLen then Failed(ShortRead(body, end))
            else Got(Received(h.(hdrLen := 32 + |ext|), body[..h.payloadLen]), body[h.payloadLen..])
  {
    var h' := h.(hdrLen := 32 + |ext|);
    var s := Extended(h, ext) + body;
    assert s == HeaderBytes(h') + (ext + body);
    ParseLaidOut(h', ext + body);
    assert s[..8] == LeadBytes(h');
    assert s[3] == LeadBytes(h')[3] && s[2] == LeadBytes(h')[2];
    assert s[s[3]..] == body;
  }

  /** Decoding an encoding, for every payload: the length field holds |payload| mod 2^32. */
  lemma DecodeEncoded(f: Frame, rest: seq<byte>, end: IOErr)
    ensures var k := |f.payload| % 0x1_0000_0000;
            DecodeOne(FrameBytes(f.hdr, f.payload) + rest, end) ==
            Got(Received(Normal(f).h, f.payload[..k]), f.payload[k..] + rest)
  {
    hide HeaderBytes;
    hide DecodeOne;
    var h := Normal(f).h;
    var k := |f.payload| % 0x1_0000_0000;
    var body := f.payload + rest;
    DecodeImage(h, [], body, end);
    assert Extended(h, []) + body == FrameBytes(f.hdr, f.payload) + rest;
    assert body[..k] == f.payload[..k] && body[k..] == f.payload[k..] + rest;
  }

  /** The round trip holds exactly for payloads whose length fits the 32-bit field. */
  lemma RoundTrip(f: Frame, rest: seq<byte>, end: IOErr)
    ensures DecodeOne(FrameBytes(f.hdr, f.payload) + rest, end) == Got(Normal(f), rest) <==> Sendable(f)
  {
    hide FrameBytes;
    hide DecodeOne;
    DecodeEncoded(f, rest, end);
    if Sendable(f) {
      assert f.payload[..|f.payload|] == f.payload;
      assert f.payload[|f.payload|..] + rest == rest;
    }
  }

  /** A payload of 2^32 bytes comes back empty, its bytes left on the stream as the next "frame". */
  lemma OversizedPayloadIsLost(hdr: IHeader, end: IOErr)
    ensures var f := Frame(hdr, seq(0x1_0000_0000, i => 7));
            DecodeOne(FrameBytes(f.hdr, f.payload), end) == Got(Received(Normal(f).h, []), f.payload)
  {
    hide HeaderBytes;
    hide DecodeOne;
    var f := Frame(hdr, seq(0x1_0000_0000, i => 7));
    DecodeEncoded(f, [], end);
    assert FrameBytes(f.hdr, f.payload) + [] == FrameBytes(f.hdr, f.payload);
    assert f.payload[0..] + [] == f.payload;
  }

  /** A stream that ends inside a v2 header. */
  lemma CutHeaderFails(h: HeaderTcp, k: nat, end: IOErr)
    requires h.magic == MAGIC_V2 && h.ver == VERSION_V2 && h.hdrLen == HEADER_SIZE && k < 32
    ensures DecodeOne(HeaderBytes(h)[..k], end) ==
            Failed(if k == 0 || k == 4 || end != EOF then end else UnexpectedEOF)
  {
    hide Put32;
    var s := HeaderBytes(h)[..k];
    if k >= 4 {
      assert s[..4] == LeadBytes(h)[..4];
      assert s[0] == LeadBytes(h)[0] && s[1] == LeadBytes(h)[1];
      assert s[2] == LeadBytes(h)[2] && s[3] == LeadBytes(h)[3];
    }
  }

  /**
   Every strict prefix of a frame fails. The failure reads as a clean end of stream at
   three cut points only: before the frame, after the 4-byte prefix and after the header.
   */
  lemma StrictPrefixFails(f: Frame, k: nat, end: IOErr)
    requires Sendable(f) && k < 32 + |f.payload|
    ensures DecodeOne(FrameBytes(f.hdr, f.payload)[..k], end) ==
            Failed(if k == 0 || k == 4 || k == 32 || end != EOF then end else UnexpectedEOF)
  {
    hide HeaderBytes;
    hide DecodeOne;
    var h := Normal(f).h;
    assert FrameBytes(f.hdr, f.payload) == HeaderBytes(h) + f.payload;
    assert h.(hdrLen := 32) == h && Extended(h, []) == HeaderBytes(h) + [] == HeaderBytes(h);
    hide FrameBytes;
    hide Normal;
    hide Extended;
    CutJoined(HeaderBytes(h), f.payload, k);
    if k < 32 {
      CutHeaderFails(h, k, end);
    } else {
      DecodeImage(h, [], f.payload[..k - 32], end);
    }
  }

  lemma CutJoined(a: seq<byte>, b: seq<byte>, k: nat)
    requires k <= |a| + |b|
    ensures (a + b)[..k] == if k <= |a| then a[..k] else a + b[..k - |a|]
    ensures k == |a| ==> (a + b)[..k] == a + b[..0]
  {
  }

  /** 1 to 223 extension bytes change the announced header length and nothing else. */
  lemma ExtensionIsIgnored(f: Frame, ext: seq<byte>, rest: seq<byte>, end: IOErr)
    requires Sendable(f) && |ext| <= 223
    ensures DecodeOne(Extended(Normal(f).h, ext) + f.payload + rest, end) ==
            Got(Received(Normal(f).h.(hdrLen := 32 + |ext|), f.payload), rest)
  {
    hide HeaderBytes;
    hide DecodeOne;
    var body := f.payload + rest;
    DecodeImage(Normal(f).h, ext, body, end);
    assert Extended(Normal(f).h, ext) + f.payload + rest == Extended(Normal(f).h, ext) + body;
    assert body[..|f.payload|] == f.payload && body[|f.payload|..] == rest;
  }

  /** What a successful decode says about its input. */
  lemma DecodedShape(s: seq<byte>, end: IOErr)
    requires DecodeOne(s, end).Got?
    ensures var Got(Received(h, p), rest) := DecodeOne(s, end);
            && |s| >= s[3] >= 32 && s[s[3]..] == p + rest
            && h == ParseHeader(s).(hopLimit := EffectiveHop(s[6])) && h.hdrLen == s[3]
            && h.magic == MAGIC_V2 && h.ver == VERSION_V2 && |p| == h.payloadLen
  {
    hide WordAt;
  }

  /** The one-byte fields of a canonical image can be read back at their places. */
  lemma CanonicalLead(h: HeaderTcp, tail: seq<byte>)
    ensures var out := HeaderBytes(h) + tail; out[3] == h.hdrLen && out[6] == h.hopLimit
  {
    hide Put32;
    assert (HeaderBytes(h) + tail)[..8] == LeadBytes(h);
    assert LeadBytes(h)[3] == (HeaderBytes(h) + tail)[..8][3];
    assert LeadBytes(h)[6] == (HeaderBytes(h) + tail)[..8][6];
  }

  /**
   Re-encoding what was decoded gives the canonical image: it reproduces the input exactly
   when that had no extension and an explicit hop limit, and decodes to the same frame again.
   */
  lemma ReencodeIsCanonical(s: seq<byte>, end: IOErr)
    requires DecodeOne(s, end).Got?
    ensures var Got(Received(h, p), rest) := DecodeOne(s, end);
            && (FrameBytes(Tcp(h), p) + rest == s <==> s[3] == 32 && s[6] != 0)
            && DecodeOne(FrameBytes(Tcp(h), p) + rest, end) == Got(Received(h.(hdrLen := 32), p), rest)
            && Normalise(h.(hdrLen := 32), |p|) == h.(hdrLen := 32)
  {
    var Got(Received(h, p), rest) := DecodeOne(s, end);
    hide DecodeOne;
    hide HeaderBytes;
    hide WordAt;
    DecodedShape(s, end);
    RoundTrip(Frame(Tcp(h), p), rest, end);
    var n := h.(hdrLen := 32);
    assert FrameBytes(Tcp(h), p) + rest == HeaderBytes(n) + (p + rest);
    CanonicalLead(n, p + rest);
    if s[3] == 32 && s[6] != 0 {
      LayOutParsed(s);
      assert s == s[..32] + s[32..];
    }
  }

  // ---------------------------------------------------------------- streams

  lemma WireCons(f: Frame, fs: seq<Frame>)
    ensures Wire([f] + fs) == FrameBytes(f.hdr, f.payload) + Wire(fs)
  {
    assert ([f] + fs)[1..] == fs;
  }

  lemma {:induction false} WireAppend(fs: seq<Frame>, gs: seq<Frame>)
    ensures Wire(fs + gs) == Wire(fs) + Wire(gs)
  {
    hide FrameBytes;
    if fs == [] {
      assert fs + gs == gs;
    } else {
      WireAppend(fs[1..], gs);
      assert (fs + gs)[1..] == fs[1..] + gs;
    }
  }

  /** Peeling one frame off a stream. */
  lemma DecodeFirst(f: Frame, rest: seq<byte>, end: IOErr)
    requires Sendable(f)
    ensures DecodeAll(FrameBytes(f.hdr, f.payload) + rest, end) ==
            Stream([Normal(f)] + DecodeAll(rest, end).frames, DecodeAll(rest, end).err)
  {
    hide FrameBytes;
    hide DecodeOne;
    RoundTrip(f, rest, end);
  }

  lemma Associate<T>(a: seq<T>, b: seq<T>, c: seq<T>)
    ensures (a + b) + c == a + (b + c)
  {
  }

  /** Decoding a concatenation of frames returns them in order and goes on with the tail. */
  lemma {:induction false} StreamLaw(fs: seq<Frame>, tail: seq<byte>, end: IOErr)
    requires forall f <- fs :: Sendable(f)
    ensures DecodeAll(Wire(fs) + tail, end) ==
            Stream(Normals(fs) + DecodeAll(tail, end).frames, DecodeAll(tail, end).err)
  {
    hide FrameBytes;
    hide DecodeAll;
    hide Normal;
    if fs == [] {
      assert Wire(fs) + tail == tail;
      assert Normals(fs) + DecodeAll(tail, end).frames == DecodeAll(tail, end).frames;
    } else {
      var image, rest := FrameBytes(fs[0].hdr, fs[0].payload), Wire(fs[1..]) + tail;
      assert Wire(fs) == image + Wire(fs[1..]);
      assert Normals(fs) == [Normal(fs[0])] + Normals(fs[1..]);
      DecodeFirst(fs[0], rest, end);
      StreamLaw(fs[1..], tail, end);
      hide Wire;
      hide Normals;
      Associate(image, Wire(fs[1..]), tail);
      Associate([Normal(fs[0])], Normals(fs[1..]), DecodeAll(tail, end).frames);
    }
  }

  /**
   A stream cut anywhere inside a frame delivers exactly the whole frames before the cut:
   no torn frame is ever handed up.
   */
  lemma CutStream(fs: seq<Frame>, f: Frame, k: nat, end: IOErr)
    requires (forall g <- fs :: Sendable(g)) && Sendable(f) && k < 32 + |f.payload|
    ensures DecodeAll(Wire(fs) + FrameBytes(f.hdr, f.payload)[..k], end) ==
            Stream(Normals(fs), if k == 0 || k == 4 || k == 32 || end != EOF then end else UnexpectedEOF)
  {
    hide FrameBytes;
    hide DecodeOne;
    var cut := FrameBytes(f.hdr, f.payload)[..k];
    StreamLaw(fs, cut, end);
    StrictPrefixFails(f, k, end);
    assert Normals(fs) + [] == Normals(fs);
  }

  // ---------------------------------------------------------------- hop accounting over the wire

  /** The header the next node decodes after one forward of `h` with `size` payload bytes. */
  function NextHeader(h: IHeader, size: nat, newTrace: u32): (r: HeaderTcp)
    requires EffectiveHop(h.HopLimit()) > 1
  {
    Normalise(ToTcp(SendDefaults(CloneForForward(h).value, newTrace)), size)
  }

  /** Equal in everything forwarding must not touch: all but hop limit, trace, and framing fields. */
  predicate SameMessage(a: IHeader, b: IHeader) {
    && a.Major() % 4 == b.Major() % 4 && a.SubProto() % 64 == b.SubProto() % 64
    && a.Source() == b.Source() && a.Target() == b.Target()
    && a.Flags() == b.Flags() && a.RouteFlags() == b.RouteFlags()
    && a.MsgID() == b.MsgID() && a.Timestamp() == b.Timestamp()
  }

  /**
   A frame as a node originates it: what the peer decodes has the hop limit that was set, or 16, the
   trace that was set, or a new one, and the message unchanged.
   */
  lemma SendOverWire(h: IHeader, payload: seq<byte>, newTrace: u32, rest: seq<byte>, end: IOErr)
    requires |payload| < 0x1_0000_0000
    ensures exists n: HeaderTcp ::
              && DecodeOne(FrameBytes(SendDefaults(h, newTrace), payload) + rest, end) ==
                 Got(Received(n, payload), rest)
              && n.hopLimit == (if h.HopLimit() == 0 then 16 else h.HopLimit())
              && n.traceID == (if h.TraceID() == 0 then newTrace else h.TraceID())
              && n.payloadLen == |payload| && SameMessage(h, Tcp(n))
  {
    hide FrameBytes;
    hide DecodeOne;
    var f := Frame(SendDefaults(h, newTrace), payload);
    RoundTrip(f, rest, end);
    var n := Normal(f).h;
    assert SameMessage(h, Tcp(n));
  }

  /** One forward through clone, Send, encode and decode. */
  lemma ForwardOverWire(h: IHeader, payload: seq<byte>, newTrace: u32, rest: seq<byte>, end: IOErr)
    requires EffectiveHop(h.HopLimit()) > 1 && |payload| < 0x1_0000_0000 && newTrace != 0
    ensures var sent := SendDefaults(CloneForForward(h).value, newTrace);
            var n := NextHeader(h, |payload|, newTrace);
            && DecodeOne(FrameBytes(sent, payload) + rest, end) == Got(Received(n, payload), rest)
            && n.hopLimit == EffectiveHop(h.HopLimit()) - 1 == EffectiveHop(n.hopLimit)
            && SameMessage(h, Tcp(n))
            && n.traceID == if h.TraceID() == 0 then newTrace else h.TraceID()
  {
    hide FrameBytes;
    hide DecodeOne;
    RoundTrip(Frame(SendDefaults(CloneForForward(h).value, newTrace), payload), rest, end);
  }

  /** The header after k forwards, with the trace values the sending nodes would pick. */
  function AfterForwards(h: HeaderTcp, size: nat, traces: seq<u32>): (r: Option<HeaderTcp>)
    decreases |traces|
  {
    if traces == [] then Some(h)
    else if EffectiveHop(h.hopLimit) <= 1 then None
    else AfterForwards(NextHeader(Tcp(h), size, traces[0]), size, traces[1..])
  }

  /**
   Over any number of forwards: the frame survives k forwards exactly when its effective hop
   limit exceeds k, arrives with k hops spent, and keeps its message and any non-zero trace.
   */
  lemma {:induction false} ForwardChain(h: HeaderTcp, size: nat, traces: seq<u32>)
    requires forall i :: 0 <= i < |traces| ==> traces[i] != 0
    ensures AfterForwards(h, size, traces).Some? <==> EffectiveHop(h.hopLimit) > |traces|
    ensures AfterForwards(h, size, traces).Some? ==>
              var r := AfterForwards(h, size, traces).value;
              && EffectiveHop(r.hopLimit) == EffectiveHop(h.hopLimit) - |traces|
              && SameMessage(Tcp(h), Tcp(r))
              && r.traceID == if h.traceID == 0 && traces != [] then traces[0] else h.traceID
    decreases |traces|
  {
    if traces != [] && EffectiveHop(h.hopLimit) > 1 {
      ForwardChain(NextHeader(Tcp(h), size, traces[0]), size, traces[1..]);
    }
  }
}
