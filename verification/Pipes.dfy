/**
 Byte pipes under an adversarial provider: the Windows RFCOMM pipe with its bounded
 sends, message-size fallback and read cache, and the write loops on top of any writer.
 */
module Pipes {
  import opened Bytes
  import opened Codec

  const WRITE_CHUNK := 127
  const READ_CHUNK := 2048
  const WSAEMSGSIZE := 10040

  // ---------------------------------------------------------------- sending

  datatype SendErr = NoErr | MsgSize | ShortWrite | Fault(code: nat) | NilWriter

  /** One reply of the send call: how many bytes it took, and its error. */
  datatype Answer = Answer(accept: nat, err: SendErr)

  /** What a lenient provider will do on one call: the longest message it takes, and how much of it. */
  datatype Call = Call(limit: nat, cap: nat)

  /**
   How the send call behaves. A `Scripted` provider answers as it likes, error and partial
   progress in any combination, and faults once the script is used up. A `Lenient` provider
   has a limit that changes from call to call but is never below one byte: it refuses a longer
   message without taking a byte, takes at least one byte of any other (as many as the cap of
   that call allows), and never fails otherwise.
   */
  datatype Provider = Scripted(answers: seq<Answer>) | Lenient(calls: seq<Call>)

  function Min(a: nat, b: nat): nat { if a <= b then a else b }

  /** Every message of up to n bytes is within the provider's limit on every call. */
  predicate RoomFor(p: Provider, n: nat) {
    p.Lenient? && forall i :: 0 <= i < |p.calls| ==> n <= p.calls[i].limit
  }

  function Reply(p: Provider, size: nat): (r: (nat, SendErr, Provider))
    requires size >= 1
    ensures r.0 <= size
    ensures p.Lenient? ==> r.2.Lenient?
    ensures p.Lenient? ==> (r.1 == NoErr && r.0 >= 1) || (r.1 == MsgSize && r.0 == 0 && size > 1)
    ensures forall n :: RoomFor(p, n) && size <= n ==> r.1 == NoErr && RoomFor(r.2, n)
    ensures p == Lenient([]) ==> r == (size, NoErr, p)
  {
    match p
    case Scripted(answers) =>
      if answers == [] then (0, Fault(0), p)
      else (Min(answers[0].accept, size), answers[0].err, Scripted(answers[1..]))
    case Lenient(calls) =>
      if calls == [] then (size, NoErr, p)
      else if size > 1 && size > calls[0].limit then (0, MsgSize, Lenient(calls[1..]))
      else (if calls[0].cap == 0 then 1 else Min(calls[0].cap, size), NoErr, Lenient(calls[1..]))
  }

  /** A send that was made: how much it offered, how much was taken, and the error. */
  datatype Sent = Sent(size: nat, taken: nat, err: SendErr) {
    /** The provider called the message too large and took nothing. */
    predicate Refused() { taken == 0 && err == MsgSize }
  }

  function Refusals(log: seq<Sent>): (n: nat) {
    if log == [] then 0 else Refusals(log[..|log| - 1]) + if log[|log| - 1].Refused() then 1 else 0
  }

  lemma RefusalsSnoc(log: seq<Sent>, x: Sent)
    ensures Refusals(log + [x]) == Refusals(log) + if x.Refused() then 1 else 0
  {
    assert (log + [x])[..|log|] == log;
  }

  /** Since the log read `from`: nothing but sends of 1 to 127 bytes. */
  ghost predicate SmallSends(from: seq<Sent>, log: seq<Sent>) {
    from <= log && forall i :: |from| <= i < |log| ==> 1 <= log[i].size <= 127
  }

  /** And each refused send was followed by one of no more, and no less than half, its size. */
  ghost predicate Halves(from: seq<Sent>, log: seq<Sent>) {
    forall i :: |from| <= i < |log| - 1 && log[i].Refused() ==> log[i].size / 2 <= log[i + 1].size <= log[i].size
  }

  lemma LogsJoin(from: seq<Sent>, mid: seq<Sent>, log: seq<Sent>)
    requires SmallSends(from, mid) && SmallSends(mid, log) && Halves(from, mid) && Halves(mid, log)
    requires |mid| > |from| ==> !mid[|mid| - 1].Refused()
    ensures SmallSends(from, log) && Halves(from, log) && |from| <= |mid| <= |log|
  {
    assert forall i :: 0 <= i < |mid| ==> log[i] == mid[i];
  }

  /** The outgoing half of a socket: what the peer will see, and every send made. */
  class SendHalf {
    var wire: seq<byte>
    var provider: Provider
    ghost var log: seq<Sent>

    constructor (p: Provider)
      ensures wire == [] && provider == p && log == []
    {
      wire, provider, log := [], p, [];
    }

    method WsaSend(b: seq<byte>) returns (sent: nat, err: SendErr)
      requires |b| >= 1
      modifies this
      ensures sent <= |b| && wire == old(wire) + b[..sent]
      ensures (sent, err, provider) == Reply(old(provider), |b|)
      ensures log == old(log) + [Sent(|b|, sent, err)]
    {
      var r := Reply(provider, |b|);
      sent, err, provider := r.0, r.1, r.2;
      wire := wire + b[..sent];
      log := log + [Sent(|b|, sent, err)];
    }

    /** The last of at least one send since the log read `from` took nothing and reported no error. */
    ghost predicate Stalled(from: seq<Sent>)
      reads this
    {
      |log| > |from| && log[|log| - 1].taken == 0 && log[|log| - 1].err == NoErr
    }

    /** An error is the one the last send reported, or "short write" after a stall. */
    ghost predicate Blamed(from: seq<Sent>, err: SendErr)
      reads this
    {
      || (|log| > |from| && err != NoErr && log[|log| - 1].err == err)
      || (err == ShortWrite && Stalled(from))
    }

    /** The provider accepts every message of one byte, and others as it likes. */
    ghost predicate Cooperative()
      reads this
    {
      provider.Lenient?
    }
  }

  lemma Joined(a: seq<byte>, b: seq<byte>, c: seq<byte>)
    ensures (a + b) + c == a + (b + c)
  {
  }

  lemma Piece(b: seq<byte>, i: nat, j: nat, k: nat)
    requires i <= j <= |b| && k <= j - i
    ensures b[..i] + b[i..j][..k] == b[..i + k]
  {
  }

  // ---------------------------------------------------------------- receiving

  type Packet = p: seq<byte> | |p| <= READ_CHUNK

  /** One result of the receive call: the bytes put in the buffer, and its error. */
  datatype Arrival = Arrival(bytes: Packet, err: SendErr)

  /**
   Bytes were received and are kept, also when the provider calls the read too large. Bytes that
   come with any other error are not.
   */
  predicate Keeps(a: Arrival) {
    |a.bytes| > 0 && (a.err == NoErr || a.err == MsgSize)
  }

  function StopErr(err: SendErr): (e: IOErr) {
    match err
    case NoErr => EOF
    case MsgSize => Broken(WSAEMSGSIZE)
    case Fault(c) => Broken(c)
    case _ => Broken(0)
  }

  /** The byte stream a sequence of arrivals stands for: packets up to the first that ends it. */
  function Deliverable(ps: seq<Arrival>): (s: seq<byte>) {
    if ps == [] || !Keeps(ps[0]) then [] else ps[0].bytes + Deliverable(ps[1..])
  }

  function EndOf(ps: seq<Arrival>): (e: IOErr) {
    if ps == [] then EOF else if Keeps(ps[0]) then EndOf(ps[1..]) else StopErr(ps[0].err)
  }

  /**
   Where the stream of a sequence of arrivals ends and how: before the first arrival, if any, that
   brings no bytes or an error other than message-size. A clean EOF is no arrival, or an empty one
   without an error; every error comes out as itself.
   */
  lemma {:induction false} EndExactly(ps: seq<Arrival>, j: nat)
    requires j <= |ps| && forall i :: 0 <= i < j ==> ps[i].bytes != [] && (ps[i].err == NoErr || ps[i].err == MsgSize)
    requires j < |ps| ==> ps[j].bytes == [] || (ps[j].err != NoErr && ps[j].err != MsgSize)
    ensures Deliverable(ps) == BytesOf(ps[..j])
    ensures j == |ps| ==> EndOf(ps) == EOF
    ensures j < |ps| ==>
              && (EndOf(ps) == EOF <==> ps[j].err == NoErr)
              && (ps[j].err == MsgSize ==> EndOf(ps) == Broken(10040))
              && (forall c :: ps[j].err == Fault(c) ==> EndOf(ps) == Broken(c))
  {
    if j > 0 {
      EndExactly(ps[1..], j - 1);
      assert ps[..j][1..] == ps[1..][..j - 1];
    } else {
      assert ps[..0] == [];
    }
  }

  /** Of everything received: all the bytes, and those that are kept. */
  function BytesOf(ps: seq<Arrival>): (s: seq<byte>) {
    if ps == [] then [] else ps[0].bytes + BytesOf(ps[1..])
  }

  function Kept(ps: seq<Arrival>): (s: seq<byte>) {
    if ps == [] then [] else (if Keeps(ps[0]) then ps[0].bytes else []) + Kept(ps[1..])
  }

  lemma {:induction false} KeptAppend(a: seq<Arrival>, b: seq<Arrival>)
    ensures Kept(a + b) == Kept(a) + Kept(b)
  {
    if a == [] {
      assert a + b == b;
    } else {
      hide Keeps;
      KeptAppend(a[1..], b);
      assert (a + b)[1..] == a[1..] + b && (a + b)[0] == a[0];
    }
  }

  lemma KeptOne(a: Arrival)
    ensures Kept([a]) == if Keeps(a) then a.bytes else []
  {
    assert [a][1..] == [];
    assert a.bytes + [] == a.bytes;
  }

  /** Received bytes are lost exactly when they come together with an error other than message-size. */
  lemma {:induction false} AllKeptIff(ps: seq<Arrival>)
    ensures |Kept(ps)| <= |BytesOf(ps)|
    ensures Kept(ps) == BytesOf(ps) <==> forall a <- ps :: a.bytes == [] || a.err == NoErr || a.err == MsgSize
  {
    if ps != [] {
      AllKeptIff(ps[1..]);
      assert ps == [ps[0]] + ps[1..];
      if Kept(ps) == BytesOf(ps) {
        var n := |ps[0].bytes|;
        assert Keeps(ps[0]) || n == 0;
        assert Kept(ps)[n..] == Kept(ps[1..]) && BytesOf(ps)[n..] == BytesOf(ps[1..]);
      }
    }
  }

  lemma Account(past: seq<byte>, cache: seq<byte>, data: seq<byte>, cache': seq<byte>,
                base: seq<byte>, k: seq<byte>, more: seq<byte>)
    requires past + cache == base + k && data + cache' == cache + more
    ensures (past + data) + cache' == base + (k + more)
  {
    assert (past + data) + cache' == past + (data + cache') == (past + cache) + more;
  }

  /** The incoming half of a socket: what is still to come, and what was received. */
  class RecvHalf {
    var incoming: seq<Arrival>
    ghost var received: seq<Arrival>

    constructor (ps: seq<Arrival>)
      ensures incoming == ps && received == []
    {
      incoming, received := ps, [];
    }

    method WsaRecv(buf: array<byte>) returns (recvd: nat, err: SendErr)
      requires buf.Length >= READ_CHUNK
      modifies this, buf
      ensures recvd <= buf.Length
      ensures old(incoming) == [] ==> recvd == 0 && err == NoErr && incoming == [] && received == old(received)
      ensures old(incoming) != [] ==>
                var a := old(incoming)[0];
                && recvd == |a.bytes| && err == a.err && buf[..recvd] == a.bytes
                && incoming == old(incoming)[1..] && received == old(received) + [a]
    {
      if incoming == [] { return 0, NoErr; }
      var a := incoming[0];
      recvd, err := |a.bytes|, a.err;
      forall i | 0 <= i < recvd {
        buf[i] := a.bytes[i];
      }
      incoming, received := incoming[1..], received + [a];
    }
  }

  // ---------------------------------------------------------------- the RFCOMM pipe

  class WinSockPipe {
    const tx: SendHalf
    const rx: RecvHalf
    var readCache: seq<byte>
    var readScratch: array?<byte>

    constructor (tx: SendHalf, rx: RecvHalf)
      ensures this.tx == tx && this.rx == rx && readCache == [] && readScratch == null
      ensures Avail() == Deliverable(rx.incoming) && End() == EndOf(rx.incoming)
    {
      this.tx, this.rx, readCache, readScratch := tx, rx, [], null;
      new;
      assert [] + Deliverable(rx.incoming) == Deliverable(rx.incoming);
    }

    /** The bytes still to be returned by Read, and the error after them. */
    ghost function Avail(): (s: seq<byte>)
      reads this, rx
    {
      readCache + Deliverable(rx.incoming)
    }

    ghost function End(): (e: IOErr)
      reads rx
    {
      EndOf(rx.incoming)
    }

    ghost function ReadState(): (o: set<object>)
      reads this
    {
      if readScratch == null then {this, rx} else {this, rx, readScratch}
    }

    /** Since the log read `from`: what has been received, at most one packet more. */
    ghost predicate OneMore(from: seq<Arrival>)
      reads rx
    {
      rx.received == from || (|rx.received| == |from| + 1 && rx.received[..|from|] == from)
    }

    /**
     Read, as a byte stream: bytes come out in order whatever the packet boundaries and the sizes
     asked for, and the stream's error appears only once its bytes are used up. As accounting:
     what is returned and cached is what was cached and what arrived to be kept.
     */
    method Read(size: nat) returns (data: seq<byte>, err: Option<IOErr>)
      modifies ReadState()
      ensures readScratch != old(readScratch) ==> fresh(readScratch)
      ensures |data| <= size
      ensures err.None? <==> size == 0 || old(Avail()) != []
      ensures err.None? ==> old(Avail()) == data + Avail() && End() == old(End())
      ensures err.Some? ==> err.value == old(End()) && data == [] && readCache == []
      ensures size > 0 && err.None? ==> |data| >= 1
      ensures size > 0 && old(readCache) != [] ==> |data| == Min(size, |old(readCache)|)
      ensures OneMore(old(rx.received))
      ensures data + readCache == old(readCache) + Kept(rx.received[|old(rx.received)|..])
    {
      if size == 0 {
        assert rx.received[|rx.received|..] == [];
        return [], None;
      }
      assert rx.received[|rx.received|..] == [];
      if |readCache| == 0 {
        err := FillReadCacheLocked();
        if err.Some? { return [], err; }
      }
      var n := Min(size, |readCache|);
      data := readCache[..n];
      assert readCache == data + readCache[n..];
      assert readCache + Deliverable(rx.incoming) == data + (readCache[n..] + Deliverable(rx.incoming));
      readCache := readCache[n..];
      err := None;
    }

    /** One receive into the scratch buffer, copied into the empty cache if it is to be kept. */
    method FillReadCacheLocked() returns (err: Option<IOErr>)
      requires readCache == []
      modifies ReadState()
      ensures readScratch != old(readScratch) ==> fresh(readScratch)
      ensures err.None? <==> old(Avail()) != []
      ensures err.None? ==> readCache != [] && Avail() == old(Avail()) && End() == old(End())
      ensures err.Some? ==> err.value == old(End()) && readCache == []
      ensures OneMore(old(rx.received))
      ensures readCache == Kept(rx.received[|old(rx.received)|..])
    {
      if readScratch == null || readScratch.Length < READ_CHUNK {
        readScratch := new byte[READ_CHUNK];
      }
      ghost var before := rx.received;
      assert before[|before|..] == [];
      if rx.incoming != [] {
        KeptOne(rx.incoming[0]);
        assert (before + [rx.incoming[0]])[|before|..] == [rx.incoming[0]];
      }
      var recvd, e := rx.WsaRecv(readScratch);
      if e != NoErr {
        if recvd > 0 && e == MsgSize {
          readCache := readScratch[..recvd];
          return None;
        }
        return Some(StopErr(e));
      }
      if recvd == 0 { return Some(EOF); }
      readCache := readScratch[..recvd];
      err := None;
    }

    /**
     Any number of reads of any sizes, going on after errors: what they return, followed by what is
     still cached, is what was cached and all that was received since and kept.
     */
    method ReadMany(sizes: seq<nat>) returns (out: seq<byte>)
      modifies ReadState()
      ensures readScratch != old(readScratch) ==> fresh(readScratch)
      ensures old(rx.received) <= rx.received
      ensures out + readCache == old(readCache) + Kept(rx.received[|old(rx.received)|..])
    {
      out := [];
      ghost var n := |rx.received|;
      assert rx.received[n..] == [];
      for i := 0 to |sizes|
        invariant readScratch != old(readScratch) ==> fresh(readScratch)
        invariant n == |old(rx.received)| && old(rx.received) <= rx.received
        invariant out + readCache == old(readCache) + Kept(rx.received[n..])
      {
        hide Kept;
        hide Deliverable;
        hide EndOf;
        ghost var before, cache, past := rx.received, readCache, out;
        var data, _ := Read(sizes[i]);
        out := out + data;
        KeptAppend(before[n..], rx.received[|before|..]);
        assert rx.received[n..] == before[n..] + rx.received[|before|..];
        Account(past, cache, data, readCache, old(readCache), Kept(before[n..]), Kept(rx.received[|before|..]));
      }
    }

    /**
     Write: the provider holds exactly the first n bytes, every send carries 1 to 127 bytes, a refused
     one is followed by one of at least half its size, a nil error means everything was sent, the last
     send is to blame for any other, and a cooperative provider gets everything. A provider that takes
     all it is offered is called once per 127 bytes.
     */
    method Write(b: seq<byte>) returns (n: nat, err: SendErr)
      modifies tx
      ensures n <= |b| && tx.wire == old(tx.wire) + b[..n]
      ensures SmallSends(old(tx.log), tx.log) && Halves(old(tx.log), tx.log)
      ensures err == NoErr ==> n == |b|
      ensures err != NoErr ==> tx.Blamed(old(tx.log), err)
      ensures old(tx.Cooperative()) ==> tx.Cooperative() && err == NoErr
      ensures old(tx.provider) == Lenient([]) ==> |tx.log| == |old(tx.log)| + (|b| + 126) / 127
    {
      hide SmallSends;
      hide Halves;
      hide Refusals;
      NoSends(tx.log);
      if |b| == 0 { return 0, NoErr; }
      var total := 0;
      ghost var made := 0;
      while total < |b|
        invariant total <= |b| && tx.wire == old(tx.wire) + b[..total]
        invariant SmallSends(old(tx.log), tx.log) && Halves(old(tx.log), tx.log)
        invariant |tx.log| > |old(tx.log)| ==> !tx.log[|tx.log| - 1].Refused()
        invariant old(tx.Cooperative()) ==> tx.Cooperative()
        invariant old(tx.provider) == Lenient([]) ==>
                    tx.provider == Lenient([]) && |tx.log| == |old(tx.log)| + made && InChunks(|b|, total, made)
      {
        ghost var log := tx.log;
        var end := Min(total + WRITE_CHUNK, |b|);
        var k, e := WriteChunkWithFallback(b[total..end]);
        LogsJoin(old(tx.log), log, tx.log);
        Piece(b, total, end, k);
        Joined(old(tx.wire), b[..total], b[total..end][..k]);
        NextChunk(|b|, total, made);
        made := made + 1;
        if k > 0 { total := total + k; }
        if e != NoErr { return total, e; }
        if k == 0 { return total, ShortWrite; }
      }
      return total, NoErr;
    }

    /** writeOnce: one send, retried by nobody. */
    method WriteOnce(b: seq<byte>) returns (n: nat, err: SendErr)
      requires 1 <= |b| <= WRITE_CHUNK
      modifies tx
      ensures n <= |b| && tx.wire == old(tx.wire) + b[..n] && tx.log == old(tx.log) + [Sent(|b|, n, err)]
      ensures old(tx.Cooperative()) ==>
                tx.Cooperative() && ((err == NoErr && n >= 1) || (err == MsgSize && n == 0 && |b| > 1))
      ensures old(tx.provider) == Lenient([]) ==> tx.provider == Lenient([]) && n == |b| && err == NoErr
    {
      n, err := tx.WsaSend(b);
    }

    /** One chunk: at most seven refusals before the pieces are small enough. */
    method WriteChunkWithFallback(b: seq<byte>) returns (n: nat, err: SendErr)
      requires 1 <= |b| <= WRITE_CHUNK
      modifies tx
      ensures n <= |b| && tx.wire == old(tx.wire) + b[..n]
      ensures SmallSends(old(tx.log), tx.log) && Halves(old(tx.log), tx.log) && Refusals(tx.log[|old(tx.log)|..]) <= 7
      ensures |tx.log| > |old(tx.log)| && (err == NoErr && n > 0 ==> !tx.log[|tx.log| - 1].Refused())
      ensures err != NoErr ==> tx.Blamed(old(tx.log), err)
      ensures err == NoErr && n == 0 ==> tx.Stalled(old(tx.log))
      ensures old(tx.Cooperative()) ==> tx.Cooperative() && err == NoErr && n >= 1
      ensures old(tx.provider) == Lenient([]) ==>
                tx.provider == Lenient([]) && n == |b| && |tx.log| == |old(tx.log)| + 1
    {
      n, err := WriteOnce(b);
      OneSend(old(tx.log), Sent(|b|, n, err));
      hide SmallSends;
      hide Halves;
      hide Refusals;
      if err == NoErr || err != MsgSize { return; }
      if n >= |b| { return n, NoErr; }
      n, err := WriteWithMsgSizeFallback(b, n, old(tx.wire), old(tx.log));
    }

    /**
     Halves the piece size until the provider takes it; (bytes left, piece size) decreases. Sent after
     one send of all of b, of which `offset` bytes were taken.
     */
    method WriteWithMsgSizeFallback(b: seq<byte>, offset: nat, ghost wire0: seq<byte>, ghost log0: seq<Sent>)
      returns (n: nat, err: SendErr)
      requires 1 <= |b| <= WRITE_CHUNK && offset <= |b|
      requires tx.wire == wire0 + b[..offset] && tx.log == log0 + [Sent(|b|, offset, MsgSize)]
      modifies tx
      ensures offset <= n <= |b| && tx.wire == wire0 + b[..n]
      ensures SmallSends(log0, tx.log) && Halves(log0, tx.log) && Refusals(tx.log[|log0|..]) <= 7
      ensures |tx.log| > |log0| && (err == NoErr ==> n == |b| && !tx.log[|tx.log| - 1].Refused())
      ensures err != NoErr ==> tx.Blamed(log0, err)
      ensures old(tx.Cooperative()) ==> tx.Cooperative() && err == NoErr
    {
      hide Follows;
      hide SmallSends;
      hide Halves;
      hide Refusals;
      hide PieceCap;
      var total := offset;
      var remaining := |b| - total;
      OneSend(log0, Sent(|b|, offset, MsgSize));
      if remaining <= 0 { return total, NoErr; }
      var chunk := remaining / 2;
      if chunk > WRITE_CHUNK { chunk := WRITE_CHUNK; }
      if chunk < 1 { chunk := 1; }
      ghost var r := 0;
      FollowsStart(log0, |b|, offset);
      CapStart(chunk);
      while total < |b|
        invariant offset <= total <= |b| && 1 <= chunk <= PieceCap(r) && chunk <= 127 && r <= 5
        invariant tx.wire == wire0 + b[..total] && Follows(tx.log, log0, |b|, total, chunk, r)
        invariant old(tx.Cooperative()) ==> tx.Cooperative()
        decreases |b| - total, chunk
      {
        var k, e := SendPiece(b, total, chunk, wire0, log0, r);
        if k > 0 { total := total + k; }
        if e != NoErr {
          if e == MsgSize && k == 0 && chunk > 1 {
            CapHalves(r, chunk);
            chunk := chunk / 2;
            if chunk < 1 { chunk := 1; }
            r := r + 1;
            continue;
          }
          return total, e;
        }
        if k == 0 { return total, ShortWrite; }
      }
      FollowsMeans(tx.log, log0, |b|, total, chunk, r);
      return total, NoErr;
    }

    /** One piece of the fallback, and where its log then stands. */
    method SendPiece(b: seq<byte>, total: nat, chunk: nat, ghost wire0: seq<byte>, ghost log0: seq<Sent>, ghost r: nat)
      returns (k: nat, e: SendErr)
      requires total < |b| && 1 <= chunk <= WRITE_CHUNK
      requires tx.wire == wire0 + b[..total] && Follows(tx.log, log0, |b|, total, chunk, r)
      modifies tx
      ensures k <= chunk && total + k <= |b| && tx.wire == wire0 + b[..total + k]
      ensures SmallSends(log0, tx.log) && Halves(log0, tx.log)
      ensures |tx.log| > |log0| && Refusals(tx.log[|log0|..]) <= r + 2
      ensures e == MsgSize && k == 0 && chunk > 1 ==> Follows(tx.log, log0, |b|, total, chunk / 2, r + 1)
      ensures e == NoErr ==> Follows(tx.log, log0, |b|, total + k, chunk, r)
      ensures e != NoErr ==> tx.Blamed(log0, e)
      ensures e == NoErr && k == 0 ==> tx.Stalled(log0)
      ensures old(tx.Cooperative()) ==>
                tx.Cooperative() && ((e == NoErr && k >= 1) || (e == MsgSize && k == 0 && chunk > 1))
    {
      hide Halves;
      hide Refusals;
      var end := Min(total + chunk, |b|);
      ghost var log := tx.log;
      FollowsMeans(log, log0, |b|, total, chunk, r);
      hide SmallSends;
      k, e := WriteOnce(b[total..end]);
      FollowsOn(log, log0, |b|, total, chunk, r, k, e);
      hide Follows;
      Piece(b, total, end, k);
      Joined(wire0, b[..total], b[total..end][..k]);
    }
  }

  /** `made` chunks of 127 bytes, the last one possibly shorter, cover the first `total` of n bytes. */
  predicate InChunks(n: nat, total: nat, made: nat) {
    (total < n ==> total == 127 * made) && (total == n ==> made == (n + 126) / 127)
  }

  lemma NextChunk(n: nat, total: nat, made: nat)
    requires total < n
    ensures InChunks(n, total, made) ==> InChunks(n, Min(total + 127, n), made + 1)
  {
  }

  lemma NoSends(log: seq<Sent>)
    ensures SmallSends(log, log) && Halves(log, log)
  {
  }

  lemma CapStart(chunk: nat)
    ensures chunk <= 63 <==> chunk <= PieceCap(0)
  {
  }

  lemma CapHalves(r: nat, chunk: nat)
    requires 1 < chunk <= PieceCap(r)
    ensures r <= 4 && 1 <= chunk / 2 <= PieceCap(r + 1)
  {
  }

  /** The largest piece after r refusals. */
  function PieceCap(r: nat): (c: nat) {
    if r == 0 then 63 else if r == 1 then 31 else if r == 2 then 15 else if r == 3 then 7 else if r == 4 then 3 else 1
  }

  /** The log of a fallback about to send a piece of `chunk` bytes, or what is left of n, from `total` on. */
  ghost predicate Follows(log: seq<Sent>, log0: seq<Sent>, n: nat, total: nat, chunk: nat, r: nat)
    requires total <= n
  {
    && SmallSends(log0, log) && Halves(log0, log) && |log| > |log0| && Refusals(log[|log0|..]) <= r + 1
    && var last := log[|log| - 1];
       last.Refused() ==> total < n && last.size / 2 <= Min(chunk, n - total) <= last.size
  }

  lemma FollowsOn(log: seq<Sent>, log0: seq<Sent>, n: nat, total: nat, chunk: nat, r: nat, k: nat, e: SendErr)
    requires total < n && 1 <= chunk <= 127 && Follows(log, log0, n, total, chunk, r) && k <= Min(chunk, n - total)
    ensures var log' := log + [Sent(Min(chunk, n - total), k, e)];
            && SmallSends(log0, log') && Halves(log0, log') && Refusals(log'[|log0|..]) <= r + 2
            && (e == MsgSize && k == 0 && chunk > 1 ==> Follows(log', log0, n, total, chunk / 2, r + 1))
            && (e == NoErr ==> Follows(log', log0, n, total + k, chunk, r))
  {
    var x := Sent(Min(chunk, n - total), k, e);
    SmallSnoc(log0, log, x);
    HalvesSnoc(log0, log, x);
    RefusalsSince(log0, log, x);
    assert (log + [x])[|log|] == x;
    hide SmallSends;
    hide Halves;
    hide Refusals;
  }

  lemma SmallSnoc(from: seq<Sent>, log: seq<Sent>, x: Sent)
    requires SmallSends(from, log) && 1 <= x.size <= 127
    ensures SmallSends(from, log + [x])
  {
  }

  lemma HalvesSnoc(from: seq<Sent>, log: seq<Sent>, x: Sent)
    requires from <= log && Halves(from, log)
    requires |log| > |from| && log[|log| - 1].Refused() ==> log[|log| - 1].size / 2 <= x.size <= log[|log| - 1].size
    ensures Halves(from, log + [x])
  {
    var log' := log + [x];
    forall i | |from| <= i < |log'| - 1 && log'[i].Refused()
      ensures log'[i].size / 2 <= log'[i + 1].size <= log'[i].size
    {
      assert log'[i] == log[i];
      if i + 1 < |log| { assert log'[i + 1] == log[i + 1]; }
    }
  }

  lemma RefusalsSince(from: seq<Sent>, log: seq<Sent>, x: Sent)
    requires |from| <= |log|
    ensures Refusals((log + [x])[|from|..]) == Refusals(log[|from|..]) + if x.Refused() then 1 else 0
  {
    assert (log + [x])[|from|..] == log[|from|..] + [x];
    RefusalsSnoc(log[|from|..], x);
  }

  /** After the first send, of all n bytes, was called too large. */
  lemma FollowsStart(log0: seq<Sent>, n: nat, offset: nat)
    requires offset < n <= 127
    ensures var chunk := if (n - offset) / 2 < 1 then 1 else (n - offset) / 2;
            Follows(log0 + [Sent(n, offset, MsgSize)], log0, n, offset, chunk, 0)
  {
    var x := Sent(n, offset, MsgSize);
    SmallSnoc(log0, log0, x);
    HalvesSnoc(log0, log0, x);
    RefusalsSince(log0, log0, x);
    assert log0[|log0|..] == [];
  }

  lemma OneSend(log0: seq<Sent>, x: Sent)
    requires 1 <= x.size <= 127
    ensures SmallSends(log0, log0 + [x]) && Halves(log0, log0 + [x]) && Refusals((log0 + [x])[|log0|..]) <= 1
  {
    SmallSnoc(log0, log0, x);
    HalvesSnoc(log0, log0, x);
    RefusalsSince(log0, log0, x);
    assert log0[|log0|..] == [];
  }

  lemma FollowsMeans(log: seq<Sent>, log0: seq<Sent>, n: nat, total: nat, chunk: nat, r: nat)
    requires total <= n && Follows(log, log0, n, total, chunk, r)
    ensures SmallSends(log0, log) && Halves(log0, log) && |log| > |log0| && Refusals(log[|log0|..]) <= r + 1
    ensures total == n ==> !log[|log| - 1].Refused()
  {
  }

  // ---------------------------------------------------------------- writing everything

  /** An io.Writer: nil, one whose Write is a single provider call, or the RFCOMM pipe. */
  datatype Writer = Nil | Plain(half: SendHalf) | Rfcomm(pipe: WinSockPipe) {
    function Half(): (h: SendHalf)
      requires !Nil?
    {
      if Plain? then half else pipe.tx
    }

    ghost function Sink(): (s: seq<byte>)
      requires !Nil?
      reads Half()
    {
      Half().wire
    }

    /** The RFCOMM pipe over a provider that is slow and picky but never fails outright. */
    ghost predicate Reliable()
      requires !Nil?
      reads Half()
    {
      Rfcomm? && Half().Cooperative()
    }

    /** One that will take n bytes: such a pipe, or a plain writer whose limit is never below n. */
    ghost predicate Takes(n: nat)
      requires !Nil?
      reads Half()
    {
      Reliable() || (Plain? && RoomFor(Half().provider, n))
    }

    method Write(b: seq<byte>) returns (n: nat, err: SendErr)
      requires !Nil? && |b| >= 1
      modifies Half()
      ensures n <= |b| && Sink() == old(Sink()) + b[..n]
      ensures old(Half().log) <= Half().log && (err != NoErr ==> Half().Blamed(old(Half().log), err))
      ensures n == 0 && err == NoErr ==> Half().Stalled(old(Half().log))
      ensures forall m :: old(Takes(m)) && |b| <= m ==> Takes(m) && err == NoErr && n >= 1
    {
      match this
      case Plain(h) => n, err := h.WsaSend(b);
      case Rfcomm(p) => n, err := p.Write(b);
    }
  }

  /**
   What a write may leave behind: `data[..k]` for some k, all of it exactly on success; the last send
   is to blame for an error; and a writer that will take all of it gets it.
   */
  twostate predicate PutOut(w: Writer, data: seq<byte>, err: SendErr)
    requires !w.Nil?
    reads w.Half()
  {
    var k := |w.Sink()| - |old(w.Sink())|;
    && 0 <= k <= |data| && w.Sink() == old(w.Sink()) + data[..k]
    && (err == NoErr <==> k == |data|)
    && old(w.Half().log) <= w.Half().log
    && (err != NoErr ==> w.Half().Blamed(old(w.Half().log), err))
    && forall m :: old(w.Takes(m)) && |data| <= m ==> w.Takes(m) && err == NoErr
  }

  /**
   WriteAll: succeeds exactly when every byte went out; on failure a strict prefix did, and the last
   send is to blame: it reported that error, or took nothing. A writer that only ever takes less than
   it is offered gets everything.
   */
  method WriteAll(w: Writer, data: seq<byte>) returns (err: SendErr)
    modifies if w.Nil? then {} else {w.Half()}
    ensures w.Nil? ==> err == NilWriter
    ensures !w.Nil? ==> PutOut(w, data, err)
  {
    if w.Nil? { return NilWriter; }
    var done := 0;
    while done < |data|
      invariant done <= |data| && w.Sink() == old(w.Sink()) + data[..done]
      invariant old(w.Half().log) <= w.Half().log
      invariant forall m :: old(w.Takes(m)) && |data| <= m ==> w.Takes(m)
    {
      var n, e := w.Write(data[done..]);
      Piece(data, done, |data|, n);
      assert data[done..|data|] == data[done..];
      if n > 0 { done := done + n; }
      if done == |data| { return NoErr; }
      if e != NoErr { return e; }
      if n == 0 { return ShortWrite; }
    }
    err := NoErr;
  }

  function Concat(chunks: seq<seq<byte>>): (s: seq<byte>) {
    if chunks == [] then [] else chunks[0] + Concat(chunks[1..])
  }

  lemma {:induction false} ConcatSnoc(chunks: seq<seq<byte>>, c: seq<byte>)
    ensures Concat(chunks + [c]) == Concat(chunks) + c
  {
    if chunks == [] {
      assert Concat([c]) == c + Concat([]) == c;
    } else {
      ConcatSnoc(chunks[1..], c);
      assert (chunks + [c])[1..] == chunks[1..] + [c];
      assert chunks[0] + (Concat(chunks[1..]) + c) == chunks[0] + Concat(chunks[1..]) + c;
    }
  }

  lemma {:induction false} ConcatSplit(chunks: seq<seq<byte>>, i: nat)
    requires i <= |chunks|
    ensures Concat(chunks) == Concat(chunks[..i]) + Concat(chunks[i..])
  {
    if i == 0 {
      assert chunks[0..] == chunks;
    } else {
      ConcatSplit(chunks[1..], i - 1);
      assert chunks[..i] == [chunks[0]] + chunks[1..][..i - 1];
      assert chunks[i..] == chunks[1..][i - 1..];
    }
  }

  /** The first k bytes of chunk i, after all earlier chunks, are a prefix of the whole. */
  lemma ConcatPrefix(chunks: seq<seq<byte>>, i: nat, k: nat)
    requires i < |chunks| && k <= |chunks[i]|
    ensures var n := |Concat(chunks[..i])| + k;
            && n <= |Concat(chunks)| && Concat(chunks[..i]) + chunks[i][..k] == Concat(chunks)[..n]
            && (n == |Concat(chunks)| ==> k == |chunks[i]|)
    ensures Concat(chunks[..i + 1]) == Concat(chunks[..i]) + chunks[i]
  {
    ConcatSplit(chunks, i + 1);
    ConcatSnoc(chunks[..i], chunks[i]);
    assert chunks[..i + 1] == chunks[..i] + [chunks[i]];
  }

  /** WriteAllBuffers: the same promise for a list of chunks, empty ones skipped. */
  method WriteAllBuffers(w: Writer, chunks: seq<seq<byte>>) returns (err: SendErr)
    modifies if w.Nil? then {} else {w.Half()}
    ensures w.Nil? ==> err == if Concat(chunks) == [] then NoErr else NilWriter
    ensures !w.Nil? ==> PutOut(w, Concat(chunks), err)
  {
    hide Concat;
    var i := 0;
    ghost var done: seq<byte> := Concat(chunks[..0]);
    assert done == [] by { ConcatEmpty(); assert chunks[..0] == []; }
    while i < |chunks|
      invariant i <= |chunks| && done == Concat(chunks[..i])
      invariant w.Nil? ==> done == []
      invariant !w.Nil? ==>
                  && w.Sink() == old(w.Sink()) + done && old(w.Half().log) <= w.Half().log
                  && forall m :: old(w.Takes(m)) && |Concat(chunks)| <= m ==> w.Takes(m)
    {
      var c := chunks[i];
      ConcatPrefix(chunks, i, |c|);
      assert c[..|c|] == c;
      if |c| != 0 {
        var e := WriteAll(w, c);
        if w.Nil? { return e; }
        ghost var k := |w.Sink()| - |old(w.Sink())| - |done|;
        ConcatPrefix(chunks, i, k);
        assert w.Sink() == old(w.Sink()) + (done + c[..k]);
        if e != NoErr { return e; }
        assert c[..k] == c;
      } else {
        assert done + c == done;
      }
      done := Concat(chunks[..i + 1]);
      i := i + 1;
    }
    assert chunks[..i] == chunks;
    assert done[..|done|] == done;
    err := NoErr;
  }

  lemma ConcatEmpty()
    ensures Concat([]) == []
  {
  }
}
