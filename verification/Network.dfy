/**
 A network of nodes as a state machine: frames in flight, one of them processed per step.
 The topology is arbitrary here: links may form cycles and tables may be inconsistent.
 */
module Network {
  import opened Bytes
  import opened Header
  import opened Links
  import opened Routing
  import opened Sums
  import Codec

  /** What a decoded frame can carry: its length went through a 32-bit field. */
  type Payload = p: seq<byte> | |p| < 0x1_0000_0000

  /** A frame waiting at node `at`, where it came in on connection `via`. */
  datatype Packet = Packet(at: u32, via: Conn, h: HeaderTcp, payload: Payload)

  /** Nodes, and for each end of a link (node, connection ID) the node and connection at the other end. */
  datatype Net = Net(nodes: map<u32, Node>, wires: map<(u32, string), (u32, Conn)>)

  /** Frames in flight, and two logs: every forward that arrived somewhere, every frame a handler got. */
  datatype State = State(inflight: seq<Packet>, arrived: seq<Packet>, handled: seq<Packet>)

  /**
   One step: which frame is processed, the order in which its node's table is walked, the trace
   IDs the node would assign, and the connections on which sending fails this time.
   */
  datatype Act = Act(i: nat, sc: Scans, traces: map<string, u32>, lost: set<string>)

  function TraceFor(a: Act, id: string): (t: u32)
    ensures t != 0
  {
    if id in a.traces && a.traces[id] != 0 then a.traces[id] else 1
  }

  /** What the peer decodes after this send, if the send succeeds and the link has another end. */
  function Transmit(net: Net, p: Packet, s: Send, a: Act): (r: Option<Packet>)
    requires p.at in net.nodes
  {
    if s.connID !in net.nodes[p.at].table.conns || s.connID in a.lost || (p.at, s.connID) !in net.wires then None
    else
      var peer := net.wires[(p.at, s.connID)];
      var h := Normalise(ToTcp(SendDefaults(s.hdr, TraceFor(a, s.connID))), |p.payload|);
      Some(Packet(peer.0, peer.1, h, p.payload))
  }

  /** That is what decoding the bytes written gives, whatever follows them on the stream. */
  lemma TransmitIsTheWire(net: Net, p: Packet, s: Send, a: Act, rest: seq<byte>, end: Codec.IOErr)
    requires p.at in net.nodes && Transmit(net, p, s, a).Some?
    ensures var q := Transmit(net, p, s, a).value;
            Codec.DecodeOne(FrameBytes(SendDefaults(s.hdr, TraceFor(a, s.connID)), p.payload) + rest, end)
            == Codec.Got(Codec.Received(q.h, q.payload), rest)
  {
    hide FrameBytes;
    hide Codec.DecodeOne;
    Codec.RoundTrip(Codec.Frame(SendDefaults(s.hdr, TraceFor(a, s.connID)), p.payload), rest, end);
  }

  function TransmitAll(net: Net, p: Packet, sends: seq<Send>, a: Act): (out: seq<Packet>)
    requires p.at in net.nodes
    ensures |out| <= |sends|
    ensures forall q <- out :: exists s :: s in sends && Transmit(net, p, s, a) == Some(q)
  {
    if sends == [] then []
    else
      var rest := TransmitAll(net, p, sends[1..], a);
      assert forall s :: s in sends[1..] ==> s in sends;
      match Transmit(net, p, sends[0], a)
      case None => rest
      case Some(q) => assert sends[0] in sends; [q] + rest
  }

  function Outcomes(net: Net, p: Packet, a: Act): (o: Outcome) {
    if p.at in net.nodes then Route(net.nodes[p.at], true, a.sc, p.via, Some(Tcp(p.h)))
    else Outcome([], [])
  }

  function Forwards(net: Net, p: Packet, a: Act): (out: seq<Packet>) {
    if p.at in net.nodes then TransmitAll(net, p, Outcomes(net, p, a).sends, a) else []
  }

  function HandledBy(net: Net, p: Packet, a: Act): (out: seq<Packet>) {
    if Outcomes(net, p, a).calls != [] then [p] else []
  }

  ghost predicate Enabled(net: Net, s: State, a: Act) {
    && a.i < |s.inflight|
    && (s.inflight[a.i].at in net.nodes ==> ScansOf(a.sc, net.nodes[s.inflight[a.i].at].table))
  }

  function Step(net: Net, s: State, a: Act): (s': State)
    requires a.i < |s.inflight|
  {
    var p := s.inflight[a.i];
    var fwd := Forwards(net, p, a);
    State(s.inflight[..a.i] + s.inflight[a.i + 1..] + fwd,
          s.arrived + fwd,
          s.handled + HandledBy(net, p, a))
  }

  ghost predicate IsRun(net: Net, s: State, acts: seq<Act>)
    decreases |acts|
  {
    acts != [] ==> Enabled(net, s, acts[0]) && IsRun(net, Step(net, s, acts[0]), acts[1..])
  }

  ghost function After(net: Net, s: State, acts: seq<Act>): (s': State)
    requires IsRun(net, s, acts)
    decreases |acts|
  {
    if acts == [] then s else After(net, Step(net, s, acts[0]), acts[1..])
  }

  // ---------------------------------------------------------------- one forward

  function HopsLeft(p: Packet): (e: byte)
    ensures e > 0
  {
    EffectiveHop(p.h.hopLimit)
  }

  /** The frame itself: everything forwarding keeps. */
  function Message(p: Packet): (m: Codec.Received) {
    Codec.Received(p.h.(magic := 0, ver := 0, hdrLen := 0, hopLimit := 0, traceID := 0, payloadLen := 0), p.payload)
  }

  /** Every forward of p carries the same message with exactly one hop less, over a link of p's node. */
  lemma ForwardKeepsMessage(net: Net, p: Packet, a: Act, q: Packet)
    requires q in Forwards(net, p, a)
    ensures HopsLeft(p) > 1 && HopsLeft(q) == HopsLeft(p) - 1 && Message(q) == Message(p)
    ensures p.h.traceID != 0 ==> q.h.traceID == p.h.traceID
  {
    var s :| s in Outcomes(net, p, a).sends && Transmit(net, p, s, a) == Some(q);
    SendsSpendOneHop(net.nodes[p.at], true, a.sc, p.via, Some(Tcp(p.h)), s);
  }

  // ---------------------------------------------------------------- how far a frame can spread

  /** D + D^2 + ... + D^(e-1), in Horner form. */
  function Spread(d: nat, e: nat): (n: nat) {
    if e <= 1 then 0 else d * (1 + Spread(d, e - 1))
  }

  function Power(d: nat, k: nat): (n: nat) {
    if k == 0 then 1 else d * Power(d, k - 1)
  }

  function PowerSum(d: nat, k: nat): (n: nat) {
    if k == 0 then 0 else PowerSum(d, k - 1) + Power(d, k)
  }

  lemma Distribute(d: nat, a: nat, b: nat)
    ensures d * (1 + (a + b)) == d * (1 + a) + d * b
  {
  }

  lemma {:induction false} PowerSumHorner(d: nat, k: nat)
    ensures PowerSum(d, k + 1) == d * (1 + PowerSum(d, k))
  {
    if k == 0 {
      assert PowerSum(d, 1) == Power(d, 1) == d * Power(d, 0) == d;
    } else {
      PowerSumHorner(d, k - 1);
      Distribute(d, PowerSum(d, k - 1), Power(d, k));
    }
  }

  lemma {:induction false} SpreadIsPowerSum(d: nat, e: nat)
    requires e >= 1
    ensures Spread(d, e) == PowerSum(d, e - 1)
  {
    if e > 1 {
      SpreadIsPowerSum(d, e - 1);
      PowerSumHorner(d, e - 2);
    }
  }

  /** Frames that pre-routing never forwards, wherever they are. */
  predicate Stays(h: HeaderTcp) {
    h.source == 0 || SubProtoBits(h.typeFmt) == SUBPROTO_AUTH || MajorBits(h.typeFmt) == MAJOR_CMD
  }

  /** How many forwards a frame can still cause when no node fans out to more than d links. */
  function Potential(d: nat): (f: Packet -> nat) {
    (p: Packet) => if Stays(p.h) then 0 else if p.h.target == 0 then Spread(d, HopsLeft(p)) else HopsLeft(p) - 1
  }

  /** The links of a node on which a broadcast may leave. */
  function FanOut(n: Node): (cs: set<Conn>) {
    set c | c in n.table.conns.Values && !IsParentConn(n.metas, c)
  }

  ghost predicate Bounded(net: Net, d: nat) {
    forall k <- net.nodes :: |FanOut(net.nodes[k])| <= d
  }

  lemma {:induction false} NoMoreThanSet<T>(s: seq<T>, all: set<T>)
    requires NoDuplicates(s) && forall x <- s :: x in all
    ensures |s| <= |all|
  {
    if s != [] {
      assert forall x <- s[1..] :: x in all - {s[0]};
      NoMoreThanSet(s[1..], all - {s[0]});
    }
  }

  /** The number of links a node sends a frame on. */
  lemma SendsBounded(n: Node, sc: Scans, via: Conn, h: HeaderTcp)
    requires ScansOf(sc, n.table)
    ensures var o := Route(n, true, sc, via, Some(Tcp(h)));
            && (Stays(h) ==> o.sends == [])
            && (h.target != 0 ==> |o.sends| <= 1)
            && (h.target == 0 ==> |o.sends| <= |FanOut(n)|)
  {
    if Decide(n.id, Some(Tcp(h))) == BroadcastChildren {
      var cs := Receivers(n, sc.first, via);
      FilterMembers(sc.first, CopiesTo(n, via));
      FilterNoDuplicates(sc.first, CopiesTo(n, via));
      forall c | c in cs ensures c in FanOut(n) {
        assert Managed(n.table, c);
      }
      NoMoreThanSet(cs, FanOut(n));
    }
  }

  /** What each forward of p could still cause. */
  lemma ForwardPotential(net: Net, d: nat, p: Packet, a: Act, q: Packet)
    requires q in Forwards(net, p, a)
    ensures HopsLeft(p) > 1 && !Stays(p.h)
    ensures Potential(d)(q) == if p.h.target == 0 then Spread(d, HopsLeft(p) - 1) else HopsLeft(p) - 2
  {
    hide Spread;
    ForwardKeepsMessage(net, p, a, q);
    assert Message(q).h.target == Message(p).h.target && Message(q).h.typeFmt == Message(p).h.typeFmt
           && Message(q).h.source == Message(p).h.source;
    assert Outcomes(net, p, a).sends != [];
  }

  /** One step turns at least as much potential into forwards as it leaves in flight. */
  lemma StepSpends(net: Net, d: nat, p: Packet, a: Act)
    requires Bounded(net, d)
    requires p.at in net.nodes ==> ScansOf(a.sc, net.nodes[p.at].table)
    ensures |Forwards(net, p, a)| + Sum(Forwards(net, p, a), Potential(d)) <= Potential(d)(p)
  {
    hide Forwards;
    hide Spread;
    hide Bounded;
    hide ScansOf;
    hide Stays;
    var fwd := Forwards(net, p, a);
    if fwd == [] { return; }
    ForwardsBounded(net, d, p, a);
    ForwardPotential(net, d, p, a, fwd[0]);
    var most := if p.h.target == 0 then d else 1;
    var each := if p.h.target == 0 then Spread(d, HopsLeft(p) - 1) else HopsLeft(p) - 2;
    forall q | q in fwd ensures Potential(d)(q) <= each {
      ForwardPotential(net, d, p, a, q);
    }
    SumBounded(fwd, Potential(d), each);
    Budget(|fwd|, Sum(fwd, Potential(d)), most, each);
    SpreadStep(d, HopsLeft(p));
  }

  lemma SpreadStep(d: nat, e: nat)
    requires e > 1
    ensures Spread(d, e) == d * (1 + Spread(d, e - 1))
  {
  }

  lemma Budget(count: nat, total: nat, most: nat, each: nat)
    requires count <= most && total <= count * each
    ensures count + total <= most * (1 + each)
  {
    Scale(count, most, 1 + each);
    assert count * (1 + each) == count + count * each;
  }

  lemma ForwardsBounded(net: Net, d: nat, p: Packet, a: Act)
    requires Bounded(net, d)
    requires p.at in net.nodes ==> ScansOf(a.sc, net.nodes[p.at].table)
    ensures |Forwards(net, p, a)| <= if p.h.target == 0 then d else 1
  {
    hide Route;
    hide Transmit;
    if p.at in net.nodes {
      SendsBounded(net.nodes[p.at], a.sc, p.via, p.h);
      assert |FanOut(net.nodes[p.at])| <= d;
    }
  }

  lemma Scale(m: nat, d: nat, x: nat)
    requires m <= d
    ensures m * x <= d * x
  {
  }

  /**
   Termination for any topology. Every run makes as many steps as frames were in flight plus
   forwards made, and the forwards of a run, together with those its frames could still cause,
   never exceed the potential at its start. So a run has at most
   |inflight| + potential steps, in any order and with any losses.
   */
  lemma {:induction false} RunsAreBounded(net: Net, d: nat, s: State, acts: seq<Act>)
    requires Bounded(net, d) && IsRun(net, s, acts)
    ensures var s' := After(net, s, acts);
            && |s'.arrived| >= |s.arrived|
            && |acts| + |s'.inflight| == |s.inflight| + (|s'.arrived| - |s.arrived|)
            && (|s'.arrived| - |s.arrived|) + Sum(s'.inflight, Potential(d)) <= Sum(s.inflight, Potential(d))
    decreases |acts|
  {
    if acts != [] {
      StepIsBounded(net, d, s, acts[0]);
      hide Step;
      RunsAreBounded(net, d, Step(net, s, acts[0]), acts[1..]);
    }
  }

  lemma StepIsBounded(net: Net, d: nat, s: State, a: Act)
    requires Bounded(net, d) && Enabled(net, s, a)
    ensures var s' := Step(net, s, a);
            && |s'.arrived| >= |s.arrived|
            && 1 + |s'.inflight| == |s.inflight| + (|s'.arrived| - |s.arrived|)
            && (|s'.arrived| - |s.arrived|) + Sum(s'.inflight, Potential(d)) <= Sum(s.inflight, Potential(d))
  {
    var p := s.inflight[a.i];
    StepSpends(net, d, p, a);
    hide Forwards;
    hide Potential;
    SumRemove(s.inflight, a.i, Potential(d));
    SumAppend(s.inflight[..a.i] + s.inflight[a.i + 1..], Forwards(net, p, a), Potential(d));
  }

  /** One frame alone: at most e-1 forwards if unicast, at most D + ... + D^(e-1) if broadcast. */
  lemma OneFrameIsBounded(net: Net, d: nat, p: Packet, acts: seq<Act>)
    requires Bounded(net, d) && IsRun(net, State([p], [], []), acts)
    ensures var n := |After(net, State([p], [], []), acts).arrived|;
            && |acts| <= 1 + n
            && (Stays(p.h) ==> n == 0)
            && (p.h.target != 0 ==> n <= HopsLeft(p) - 1)
            && (p.h.target == 0 ==> n <= PowerSum(d, HopsLeft(p) - 1))
  {
    RunsAreBounded(net, d, State([p], [], []), acts);
    SpreadIsPowerSum(d, HopsLeft(p));
    assert [p][1..] == [];
    assert Sum([p], Potential(d)) == Potential(d)(p) + Sum([], Potential(d));
  }

  /** A table can always be walked: some snapshot order exists. */
  lemma {:induction false} SnapshotExists(t: Table, ids: set<string>) returns (order: seq<Conn>)
    requires Keyed(t) && ids <= t.conns.Keys
    ensures NoDuplicates(order)
    ensures forall c :: c in order <==> Managed(t, c) && c.id in ids
    decreases |ids|
  {
    if ids == {} {
      order := [];
    } else {
      var id :| id in ids;
      var rest := SnapshotExists(t, ids - {id});
      order := [t.conns[id]] + rest;
    }
  }

  /** A run can be extended as long as a frame is in flight. */
  lemma Progress(net: Net, s: State) returns (a: Act)
    requires s.inflight != [] && forall k <- net.nodes :: Keyed(net.nodes[k].table)
    ensures Enabled(net, s, a)
  {
    var p := s.inflight[0];
    if p.at in net.nodes {
      var t := net.nodes[p.at].table;
      var order := SnapshotExists(t, t.conns.Keys);
      forall id | id in t.conns ensures t.conns[id] in order {
        assert Managed(t, t.conns[id]);
      }
      a := Act(0, Scans(order, order), map[], {});
    } else {
      a := Act(0, Scans([], []), map[], {});
    }
  }
}
