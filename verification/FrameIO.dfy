/**
 Frames over pipes: the zero-copy frame writer, the frame reader and the read loop, and
 what a peer receives after any number of partial sends and any repacketisation.
 */
module FrameIO {
  import opened Bytes
  import opened Header
  import opened Codec
  import opened Pipes

  /** The codec handed to WriteFrame: the HeaderTcp one, or a foreign one with its Encode result. */
  datatype CodecKind = TcpCodec | ForeignCodec(encoded: Option<seq<byte>>)

  datatype WriteResult = Wrote(err: SendErr) | EncodeFailed

  /** The header a frame without one is written with by the fast path. */
  function HeaderOrZero(hdr: Option<IHeader>): (h: IHeader) {
    if hdr.Some? then hdr.value else Tcp(ZERO_HEADER)
  }

  /** The 32-byte buffer of the fast path: clone, hop default, length fix-up, layout. */
  method HeaderBuffer(hdr: Option<IHeader>, size: nat) returns (head: seq<byte>)
    ensures head == HeaderBytes(Normalise(ToTcp(HeaderOrZero(hdr)), size))
  {
    hide HeaderBytes;
    var tcp := CloneToTCP(hdr);
    if tcp.h.hopLimit == 0 {
      tcp.WithHopLimit(DEFAULT_HOP_LIMIT);
    }
    if size % 0x1_0000_0000 != tcp.h.payloadLen {
      tcp.WithPayloadLength(size % 0x1_0000_0000);
    }
    var buf := new byte[32](i => 0);
    FillHeader(buf, tcp.h.(magic := MAGIC_V2, ver := VERSION_V2, hdrLen := HEADER_SIZE));
    head := buf[..32];
  }

  /**
   writeTCPFrame: header and payload as two buffers, no joined copy. The bytes that go out are
   those Encode would have produced, whatever the header type and however short the writes.
   */
  method WriteTCPFrame(w: Writer, hdr: Option<IHeader>, payload: seq<byte>) returns (err: SendErr)
    modifies if w.Nil? then {} else {w.Half()}
    ensures w.Nil? ==> err == NilWriter
    ensures !w.Nil? ==> PutOut(w, FrameBytes(HeaderOrZero(hdr), payload), err)
  {
    hide HeaderBytes;
    hide Concat;
    hide Normalise;
    hide ToTcp;
    var head := HeaderBuffer(hdr, |payload|);
    ConcatTwo(head, payload);
    err := WriteAllBuffers(w, [head, payload]);
  }

  lemma ConcatTwo(a: seq<byte>, b: seq<byte>)
    ensures Concat([a, b]) == a + b
  {
    assert [a, b][1..] == [b] && [b][1..] == [];
    assert Concat([b]) == b + [] == b;
  }

  /** WriteFrame: the fast path for the HeaderTcp codec, encode-then-write for any other. */
  method WriteFrame(w: Writer, codec: CodecKind, hdr: Option<IHeader>, payload: seq<byte>)
    returns (r: WriteResult)
    modifies if w.Nil? then {} else {w.Half()}
    ensures codec == ForeignCodec(None) <==> r.EncodeFailed?
    ensures r.EncodeFailed? && !w.Nil? ==> w.Sink() == old(w.Sink())
    ensures r.Wrote? && w.Nil? ==> r.err == NilWriter
    ensures r.Wrote? && !w.Nil? ==>
              var image := if codec.TcpCodec? then FrameBytes(HeaderOrZero(hdr), payload) else codec.encoded.value;
              PutOut(w, image, r.err)
  {
    match codec {
      case TcpCodec =>
        var e := WriteTCPFrame(w, hdr, payload);
        r := Wrote(e);
      case ForeignCodec(encoded) =>
        if encoded.None? { return EncodeFailed; }
        var e := WriteAll(w, encoded.value);
        r := Wrote(e);
    }
  }

  // ---------------------------------------------------------------- reading

  /** io.ReadFull over the caching pipe. */
  method ReadFull(p: WinSockPipe, size: nat) returns (data: seq<byte>, err: Option<IOErr>)
    modifies p.ReadState()
    ensures p.readScratch != old(p.readScratch) ==> fresh(p.readScratch)
    ensures |old(p.Avail())| >= size ==>
              && err.None? && data == old(p.Avail())[..size]
              && p.Avail() == old(p.Avail())[size..] && p.End() == old(p.End())
    ensures |old(p.Avail())| < size ==> err == Some(ShortRead(old(p.Avail()), old(p.End())))
  {
    hide Deliverable;
    hide EndOf;
    hide Kept;
    data, err := [], None;
    while |data| < size && err.None?
      invariant p.readScratch != old(p.readScratch) ==> fresh(p.readScratch)
      invariant |data| <= size
      invariant err.None? ==> data + p.Avail() == old(p.Avail()) && p.End() == old(p.End())
      invariant err.Some? ==> err.value == old(p.End()) && data == old(p.Avail()) && |data| < size
      decreases size - |data|, err.None?
    {
      var more, e := p.Read(size - |data|);
      data, err := data + more, e;
    }
    if |data| >= size {
      err := None;
    } else if |data| > 0 && err == Some(EOF) {
      err := Some(UnexpectedEOF);
    }
  }

  /** The header fields depend only on the first 32 bytes. */
  lemma ParsePrefix(s: seq<byte>, n: nat)
    requires 32 <= n <= |s|
    ensures ParseHeader(s[..n]) == ParseHeader(s)
  {
  }

  /** HeaderTcpCodec.Decode as three reads: prefix, rest of the header, payload. */
  method Decode(p: WinSockPipe) returns (frame: Option<Received>, err: Option<IOErr>)
    modifies p.ReadState()
    ensures p.readScratch != old(p.readScratch) ==> fresh(p.readScratch)
    ensures match DecodeOne(old(p.Avail()), old(p.End()))
            case Got(f, rest) => frame == Some(f) && err.None? && p.Avail() == rest && p.End() == old(p.End())
            case Failed(e) => frame.None? && err == Some(e)
  {
    hide WordAt;
    hide Deliverable;
    hide EndOf;
    ghost var s := p.Avail();
    var prefix, e1 := ReadFull(p, 4);
    if e1.Some? { return None, e1; }
    if 0x100 * (prefix[0] as int) + prefix[1] != MAGIC_V2 { return None, Some(MagicMismatch); }
    if prefix[2] != VERSION_V2 { return None, Some(VersionInvalid); }
    var hdrLen := prefix[3];
    if hdrLen < HEADER_SIZE { return None, Some(LenInvalid); }
    var more, e2 := ReadFull(p, hdrLen - 4);
    if e2.Some? { return None, e2; }
    assert prefix + more == s[..hdrLen] && p.Avail() == s[hdrLen..];
    ParsePrefix(s, hdrLen);
    var h := ParseHeader(prefix + more);
    hide ParseHeader;
    if h.hopLimit == 0 {
      h := h.(hopLimit := DEFAULT_HOP_LIMIT);
    }
    if h.payloadLen == 0 { return Some(Received(h, [])), None; }
    var payload, e3 := ReadFull(p, h.payloadLen);
    if e3.Some? { return None, e3; }
    return Some(Received(h, payload)), None;
  }

  /** ReadLoop up to its first error: every frame dispatched, in order. */
  method ReadLoop(p: WinSockPipe) returns (frames: seq<Received>, err: IOErr)
    modifies p.ReadState()
    ensures Stream(frames, err) == DecodeAll(old(p.Avail()), old(p.End()))
  {
    hide DecodeOne;
    frames := [];
    ghost var end := p.End();
    while true
      invariant p.readScratch != old(p.readScratch) ==> fresh(p.readScratch)
      invariant p.End() == end
      invariant DecodeAll(old(p.Avail()), end) ==
                Stream(frames + DecodeAll(p.Avail(), end).frames, DecodeAll(p.Avail(), end).err)
      decreases |p.Avail()|
    {
      var f, e := Decode(p);
      if e.Some? { return frames, e.value; }
      frames := frames + [f.value];
    }
  }

  // ---------------------------------------------------------------- end to end

  function Image(f: Frame): (b: seq<byte>) { FrameBytes(f.hdr, f.payload) }

  /** Writes frames until the first failure. */
  method SendFrames(w: Writer, frames: seq<Frame>) returns (sent: nat, err: SendErr)
    requires !w.Nil?
    modifies w.Half()
    ensures sent <= |frames| && (err == NoErr <==> sent == |frames|)
    ensures err == NoErr ==> w.Sink() == old(w.Sink()) + Wire(frames)
    ensures err != NoErr ==>
              var k := |w.Sink()| - |old(w.Sink())| - |Wire(frames[..sent])|;
              && 0 <= k < |Image(frames[sent])|
              && w.Sink() == old(w.Sink()) + Wire(frames[..sent]) + Image(frames[sent])[..k]
    ensures old(w.Reliable()) ==> err == NoErr
  {
    hide FrameBytes;
    sent := 0;
    assert frames[..0] == [] && Wire([]) == [];
    while sent < |frames|
      invariant sent <= |frames|
      invariant w.Sink() == old(w.Sink()) + Wire(frames[..sent])
      invariant old(w.Reliable()) ==> w.Reliable()
    {
      var f := frames[sent];
      assert frames[..sent + 1] == frames[..sent] + [f];
      WireAppend(frames[..sent], [f]);
      WireCons(f, []);
      assert [f] + [] == [f] && Image(f) + Wire([]) == Image(f);
      label before:
      err := WriteTCPFrame(w, Some(f.hdr), f.payload);
      assert PutOut@before(w, Image(f), err);
      assert old@before(w.Takes(|Image(f)|)) ==> w.Takes(|Image(f)|) && err == NoErr;
      if err != NoErr { return; }
      assert Image(f)[..|Image(f)|] == Image(f);
      sent := sent + 1;
    }
    assert frames[..sent] == frames;
    err := NoErr;
  }

  /** How the next packet is cut: its size, and whether it is reported as too large. */
  datatype Cut = Cut(size: nat, tooLarge: bool)

  /** Size of the next packet: the wish brought into 1..2048 and cut to what is left. */
  function NextCut(size: nat, cuts: seq<Cut>): (n: nat)
    requires size > 0
    ensures 1 <= n <= size && n <= READ_CHUNK
  {
    var wish := if cuts == [] || cuts[0].size > READ_CHUNK then READ_CHUNK else cuts[0].size;
    Min(size, if wish == 0 then 1 else wish)
  }

  /** What comes after the bytes: nothing, or an arrival that ends the stream and whatever follows it. */
  predicate Ending(tail: seq<Arrival>) { tail == [] || !Keeps(tail[0]) }

  /** Cutting a byte stream into packets, followed by `tail`. */
  function Repacketise(s: seq<byte>, cuts: seq<Cut>, tail: seq<Arrival>): (ps: seq<Arrival>)
    decreases |s|
  {
    if s == [] then tail
    else
      var n := NextCut(|s|, cuts);
      [Arrival(s[..n], if cuts != [] && cuts[0].tooLarge then MsgSize else NoErr)]
      + Repacketise(s[n..], if cuts == [] then [] else cuts[1..], tail)
  }

  lemma {:induction false} RepacketiseKeepsBytes(s: seq<byte>, cuts: seq<Cut>, tail: seq<Arrival>)
    requires Ending(tail)
    ensures Deliverable(Repacketise(s, cuts, tail)) == s && EndOf(Repacketise(s, cuts, tail)) == EndOf(tail)
    decreases |s|
  {
    if s != [] {
      hide NextCut;
      var n := NextCut(|s|, cuts);
      var rest := if cuts == [] then [] else cuts[1..];
      RepacketiseKeepsBytes(s[n..], rest, tail);
      assert Repacketise(s, cuts, tail)[1..] == Repacketise(s[n..], rest, tail);
      assert s[..n] + s[n..] == s;
    }
  }

  /** Every sequence of arrivals is such a cutting of the stream it stands for. */
  lemma {:induction false} EveryArrivalIsACutting(ps: seq<Arrival>) returns (cuts: seq<Cut>, tail: seq<Arrival>)
    ensures Ending(tail) && Repacketise(Deliverable(ps), cuts, tail) == ps
  {
    if ps == [] || !Keeps(ps[0]) {
      return [], ps;
    }
    var rest;
    rest, tail := EveryArrivalIsACutting(ps[1..]);
    cuts := [Cut(|ps[0].bytes|, ps[0].err == MsgSize)] + rest;
    var s := Deliverable(ps);
    assert s[..|ps[0].bytes|] == ps[0].bytes && s[|ps[0].bytes|..] == Deliverable(ps[1..]);
    assert cuts[1..] == rest;
    assert ps == [ps[0]] + ps[1..];
  }

  /** Writes frames through a fresh RFCOMM pipe over the given provider. */
  method SendOverRfcomm(frames: seq<Frame>, provider: Provider)
    returns (sent: nat, err: SendErr, wire: seq<byte>)
    ensures sent <= |frames| && (err == NoErr <==> sent == |frames|)
    ensures err == NoErr ==> wire == Wire(frames)
    ensures err != NoErr ==>
              var k := |wire| - |Wire(frames[..sent])|;
              0 <= k < |Image(frames[sent])| && wire == Wire(frames[..sent]) + Image(frames[sent])[..k]
    ensures provider.Lenient? ==> err == NoErr
  {
    hide Wire;
    hide Image;
    hide Deliverable;
    hide EndOf;
    var tx := new SendHalf(provider);
    var rx := new RecvHalf([]);
    var pipe := new WinSockPipe(tx, rx);
    sent, err := SendFrames(Rfcomm(pipe), frames);
    wire := tx.wire;
  }

  /** Reads a fresh RFCOMM pipe to its end. */
  method ReceiveOverRfcomm(packets: seq<Arrival>) returns (got: seq<Received>, err: IOErr)
    ensures Stream(got, err) == DecodeAll(Deliverable(packets), EndOf(packets))
  {
    hide DecodeAll;
    var tx := new SendHalf(Scripted([]));
    var rx := new RecvHalf(packets);
    var pipe := new WinSockPipe(tx, rx);
    got, err := ReadLoop(pipe);
  }

  /**
   End to end: frames written through the chunking pipe under any provider, cut into packets
   in any way, and read back through the caching pipe, arrive whole, in order and normalised.
   Exactly the frames whose write succeeded arrive; a provider that keeps accepting gets all.
   */
  method Transfer(frames: seq<Frame>, provider: Provider, cuts: seq<Cut>, tail: seq<Arrival>)
    returns (sent: nat, sendErr: SendErr, got: seq<Received>, readErr: IOErr)
    requires (forall f <- frames :: Sendable(f)) && Ending(tail)
    ensures sent <= |frames| && got == Normals(frames[..sent])
    ensures sendErr == NoErr <==> sent == |frames|
    ensures sendErr == NoErr ==> readErr == EndOf(tail)
    ensures provider.Lenient? ==> sendErr == NoErr
  {
    hide FrameBytes;
    hide DecodeAll;
    hide Wire;
    hide Normals;
    hide Deliverable;
    hide EndOf;
    var wire;
    sent, sendErr, wire := SendOverRfcomm(frames, provider);
    RepacketiseKeepsBytes(wire, cuts, tail);
    got, readErr := ReceiveOverRfcomm(Repacketise(wire, cuts, tail));
    if sendErr == NoErr {
      ReadsWhole(frames, EndOf(tail));
      assert frames[..sent] == frames;
    } else {
      CutStream(frames[..sent], frames[sent], |wire| - |Wire(frames[..sent])|, EndOf(tail));
    }
  }

  lemma ReadsWhole(frames: seq<Frame>, end: IOErr)
    requires forall f <- frames :: Sendable(f)
    ensures DecodeAll(Wire(frames), end) == Stream(Normals(frames), end)
  {
    assert DecodeAll([], end) == Stream([], end);
    hide DecodeAll;
    hide Sendable;
    StreamLaw(frames, [], end);
    hide Wire;
    hide Normals;
    assert Wire(frames) + [] == Wire(frames);
    assert Normals(frames) + [] == Normals(frames);
  }
}
