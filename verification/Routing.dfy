/**
 One node's handling of one frame: header decision, pre-routing, the source gate, and the
 dispatcher's route.
 */
module Routing {
  import opened Bytes
  import opened Header
  import opened Links
  import Codec

  // ---------------------------------------------------------------- header decision

  datatype Kind = Drop | HopDispatch | LocalDispatch | FastForward | BroadcastChildren

  /** HeaderRouter.Decide. */
  function Decide(local: u32, hdr: Option<IHeader>): (k: Kind) {
    if hdr.None? then Drop
    else
      var h := hdr.value;
      if h.Source() == 0 && h.SubProto() != SUBPROTO_AUTH then Drop
      else if h.SubProto() == SUBPROTO_AUTH then HopDispatch
      else if h.Major() == MAJOR_CMD then HopDispatch
      else if h.Target() == 0 then BroadcastChildren
      else if h.Target() != local then FastForward
      else LocalDispatch
  }

  // ---------------------------------------------------------------- a node

  datatype Handler = Handler(sub: byte, acceptCmd: bool, allowMismatch: bool)

  datatype Node = Node(
    id: u32, table: Table, metas: Metas, forwardMode: bool,
    handlers: map<byte, Handler>, fallback: Option<Handler>)

  /** A send request: the header already carries one hop less. */
  datatype Send = Send(connID: string, hdr: IHeader)

  /** The orders in which the two Range scans of one pre-routing pass see the connections. */
  datatype Scans = Scans(first: seq<Conn>, second: seq<Conn>)

  ghost predicate ScansOf(sc: Scans, t: Table) {
    Snapshot(sc.first, t) && Snapshot(sc.second, t)
  }

  /** Whether a broadcast that came in on `src` is copied to `c`. */
  predicate BroadcastTo(n: Node, src: Conn, c: Conn) {
    c.id != src.id && !IsParentConn(n.metas, c) && n.forwardMode
  }

  function CopiesTo(n: Node, src: Conn): (p: Conn -> bool) { c => BroadcastTo(n, src, c) }
  function BoundTo(n: Node, target: u32): (p: Conn -> bool) { c => ExtractNodeID(n.metas, c) == target }
  function HasParentRole(n: Node): (p: Conn -> bool) { c => IsParentConn(n.metas, c) }

  function SendsTo(cs: seq<Conn>, hdr: IHeader): (out: seq<Send>)
    ensures |out| == |cs| && forall i :: 0 <= i < |cs| ==> out[i] == Send(cs[i].id, hdr)
  {
    seq(|cs|, i requires 0 <= i < |cs| => Send(cs[i].id, hdr))
  }

  /** The connections a broadcast is copied to, in the order of the walk. */
  function Receivers(n: Node, order: seq<Conn>, src: Conn): (cs: seq<Conn>) {
    Filter(order, CopiesTo(n, src))
  }

  /** The link a unicast frame leaves on: index, then metadata scan, then the parent unless it came from there. */
  function Egress(n: Node, sc: Scans, srcIsParent: bool, target: u32): (r: Option<Conn>) {
    if target in n.table.nodes then Some(n.table.nodes[target])
    else
      var c := First(sc.first, BoundTo(n, target));
      if c.Some? then c
      else if srcIsParent then None
      else First(sc.second, HasParentRole(n))
  }

  datatype PreResult = PreResult(cont: bool, sends: seq<Send>)

  /** PreRoutingProcess.PreRoute. */
  function PreRoute(n: Node, hasServer: bool, sc: Scans, conn: Conn, hdr: Option<IHeader>): (r: PreResult) {
    if !hasServer || hdr.None? then PreResult(true, [])
    else
      var h := hdr.value;
      match Decide(n.id, hdr)
      case Drop => PreResult(false, [])
      case HopDispatch => PreResult(true, [])
      case LocalDispatch => PreResult(true, [])
      case BroadcastChildren =>
        var fwd := CloneForForward(h);
        PreResult(false, if fwd.None? then [] else SendsTo(Receivers(n, sc.first, conn), fwd.value))
      case FastForward =>
        var fwd := CloneForForward(h);
        if !n.forwardMode || fwd.None? then PreResult(false, [])
        else
          var c := Egress(n, sc, IsParentConn(n.metas, conn), h.Target());
          PreResult(false, if c.None? then [] else [Send(c.value.id, fwd.value)])
  }

  lemma ReceiversTail(n: Node, order: seq<Conn>, src: Conn)
    requires order != []
    ensures Receivers(n, order, src) ==
            (if BroadcastTo(n, src, order[0]) then [order[0]] else []) + Receivers(n, order[1..], src)
  {
  }

  // ---------------------------------------------------------------- the scans as loops

  /** handleBroadcast: one callback per connection of the snapshot. */
  method HandleBroadcast(n: Node, order: seq<Conn>, src: Conn, hdr: IHeader) returns (out: seq<Send>)
    ensures out == SendsTo(Receivers(n, order, src), hdr)
  {
    hide GetMeta;
    out := [];
    ghost var seen: seq<Conn> := [];
    for i := 0 to |order|
      invariant seen + Receivers(n, order[i..], src) == Receivers(n, order, src)
      invariant out == SendsTo(seen, hdr)
    {
      var c := order[i];
      assert order[i..][0] == c && order[i..][1..] == order[i + 1..];
      ReceiversTail(n, order[i..], src);
      hide Receivers;
      if c.id == src.id { continue; }
      if IsParentConn(n.metas, c) { continue; }
      if !n.forwardMode { continue; }
      out, seen := out + [Send(c.id, hdr)], seen + [c];
    }
    assert order[|order|..] == [] && Receivers(n, [], src) == [];
    assert seen + [] == seen;
  }

  /** findParentConn: stop at the first link with the parent role. */
  method FindParentConn(n: Node, order: seq<Conn>) returns (parent: Option<Conn>)
    ensures parent == First(order, HasParentRole(n))
    ensures parent.None? <==> forall c <- order :: !IsParentConn(n.metas, c)
  {
    parent := None;
    for i := 0 to |order|
      invariant parent.None? && First(order[i..], HasParentRole(n)) == First(order, HasParentRole(n))
    {
      assert order[i..][1..] == order[i + 1..];
      if IsParentConn(n.metas, order[i]) {
        return Some(order[i]);
      }
    }
  }

  /** forwardToLocalChild and forwardToParent: at most one send, on the egress link. */
  method ForwardUnicast(n: Node, sc: Scans, srcIsParent: bool, fwd: IHeader, target: u32) returns (out: seq<Send>)
    requires n.forwardMode
    ensures var c := Egress(n, sc, srcIsParent, target);
            out == if c.None? then [] else [Send(c.value.id, fwd)]
  {
    if target in n.table.nodes {
      return [Send(n.table.nodes[target].id, fwd)];
    }
    for i := 0 to |sc.first|
      invariant First(sc.first[i..], BoundTo(n, target)) == First(sc.first, BoundTo(n, target))
    {
      assert sc.first[i..][1..] == sc.first[i + 1..];
      if ExtractNodeID(n.metas, sc.first[i]) == target {
        return [Send(sc.first[i].id, fwd)];
      }
    }
    if srcIsParent { return []; }
    var parent := FindParentConn(n, sc.second);
    out := if parent.None? then [] else [Send(parent.value.id, fwd)];
  }

  // ---------------------------------------------------------------- the dispatcher

  function SelectHandler(n: Node, hdr: Option<IHeader>): (h: Option<Handler>) {
    if hdr.Some? && hdr.value.SubProto() in n.handlers then Some(n.handlers[hdr.value.SubProto()])
    else n.fallback
  }

  /** sourceMismatch: whether the gate rejects a frame on `conn`. */
  predicate SourceMismatch(n: Node, hasServer: bool, h: Handler, conn: Conn, hdr: Option<IHeader>) {
    if hdr.None? || h.allowMismatch then false
    else
      var bound := ExtractNodeID(n.metas, conn);
      var src := hdr.value.Source();
      if bound == 0 then true
      else if src == bound then false
      else if IsParentConn(n.metas, conn) then false
      else if !hasServer then true
      else if src in n.table.nodes then n.table.nodes[src].id != conn.id
      else true
  }

  predicate ShouldInterceptCmd(h: Handler, hdr: Option<IHeader>) {
    hdr.Some? && hdr.value.Major() == MAJOR_CMD && h.acceptCmd
  }

  /** What one frame makes a node do: handler calls in order, sends in order. */
  datatype Outcome = Outcome(calls: seq<Handler>, sends: seq<Send>)

  /** DispatcherProcess.route with PreRoutingProcess as base. */
  function Route(n: Node, hasServer: bool, sc: Scans, conn: Conn, hdr: Option<IHeader>): (o: Outcome) {
    var h := SelectHandler(n, hdr);
    if h.None? then Outcome([], [])
    else if SourceMismatch(n, hasServer, h.value, conn, hdr) then Outcome([], [])
    else
      var pre := PreRoute(n, hasServer, sc, conn, hdr);
      if pre.cont then Outcome([h.value], pre.sends)
      else if ShouldInterceptCmd(h.value, hdr) then Outcome([h.value], pre.sends)
      else Outcome([], pre.sends)
  }

  // ---------------------------------------------------------------- what a node does, stated outright

  /**
   The source gate. A frame passes if it has no header, if its handler allows mismatch, or on a link
   bound to a node if it comes from that node, from the parent, or from a source indexed to that link.
   */
  lemma GateExactly(n: Node, hasServer: bool, h: Handler, conn: Conn, hdr: Option<IHeader>)
    ensures !SourceMismatch(n, hasServer, h, conn, hdr) <==>
            || hdr.None? || h.allowMismatch
            || exists u: u32 ::
                 && u != 0 && GetMeta(n.metas, conn, "nodeID") == Some(U32(u))
                 && (|| hdr.value.Source() == u
                     || GetMeta(n.metas, conn, "role") == Some(Str("parent"))
                     || (hasServer && hdr.value.Source() in n.table.nodes
                         && n.table.nodes[hdr.value.Source()].id == conn.id))
  {
    var v := GetMeta(n.metas, conn, "nodeID");
    if v.Some? && v.value.U32? {
      var u := v.value.u;
      assert ExtractNodeID(n.metas, conn) == u;
    }
  }

  /** h is the one handler of sub-protocol `sub`: the registered one, else the default one. */
  predicate Serving(n: Node, sub: byte, h: Handler) {
    if sub in n.handlers then h == n.handlers[sub] else n.fallback == Some(h)
  }

  /** The frame is this node's to handle: auth, a command from a node, or addressed here by a node. */
  predicate ForHere(n: Node, hdr: IHeader) {
    || hdr.SubProto() == 2
    || (hdr.Source() != 0 && (hdr.Major() == 3 || (hdr.Target() != 0 && hdr.Target() == n.id)))
  }

  /**
   Which handler a frame reaches. It is the one registered for its sub-protocol, or the default one
   if there is none, called once; and it is called exactly if it exists, the gate is open, and the
   frame is this node's to handle, or is a command without a source and the handler takes commands.
   */
  lemma CallsExactly(n: Node, sc: Scans, conn: Conn, hdr: IHeader)
    ensures var calls := Route(n, true, sc, conn, Some(hdr)).calls;
            && (forall h :: calls == [h] <==>
                  && Serving(n, hdr.SubProto(), h) && !SourceMismatch(n, true, h, conn, Some(hdr))
                  && (ForHere(n, hdr) || (hdr.Source() == 0 && hdr.Major() == 3 && h.acceptCmd)))
            && (calls == [] || exists h :: calls == [h])
  {
    var calls := Route(n, true, sc, conn, Some(hdr)).calls;
    if calls != [] { assert calls == [calls[0]]; }
    forall h
      ensures calls == [h] <==>
              && Serving(n, hdr.SubProto(), h) && !SourceMismatch(n, true, h, conn, Some(hdr))
              && (ForHere(n, hdr) || (hdr.Source() == 0 && hdr.Major() == 3 && h.acceptCmd))
    {
      hide SourceMismatch;
      hide Egress;
      hide Receivers;
      if calls == [h] { assert calls[0] == h; }
    }
  }

  /** Without a server or without a header nothing is sent, and the handler decides behind the gate alone. */
  lemma CallsWithoutRouting(n: Node, hasServer: bool, sc: Scans, conn: Conn, hdr: Option<IHeader>)
    requires !hasServer || hdr.None?
    ensures var o := Route(n, hasServer, sc, conn, hdr);
            && o.sends == [] && (o.calls == [] || exists h :: o.calls == [h])
            && (forall h :: o.calls == [h] <==>
                  && !SourceMismatch(n, hasServer, h, conn, hdr)
                  && if hdr.Some? then Serving(n, hdr.value.SubProto(), h) else n.fallback == Some(h))
  {
    hide SourceMismatch;
    var calls := Route(n, hasServer, sc, conn, hdr).calls;
    if calls != [] { assert calls == [calls[0]]; }
    forall h | calls == [h] ensures calls[0] == h {
    }
  }

  /** A frame in transit: from a node, not auth, no command. */
  predicate InTransit(hdr: IHeader) { hdr.Source() != 0 && hdr.SubProto() != 2 && hdr.Major() != 3 }

  /** x is the first connection of the walk that satisfies p. */
  ghost predicate IsFirst(order: seq<Conn>, p: Conn -> bool, x: Conn) {
    exists i :: 0 <= i < |order| && order[i] == x && p(x) && forall j :: 0 <= j < i ==> !p(order[j])
  }

  lemma {:induction false} FirstIsFirst(order: seq<Conn>, p: Conn -> bool)
    ensures First(order, p).Some? ==> IsFirst(order, p, First(order, p).value)
  {
    if order != [] && !p(order[0]) {
      FirstIsFirst(order[1..], p);
      var r := First(order[1..], p);
      if r.Some? {
        var tail := order[1..];
        var i :| 0 <= i < |tail| && tail[i] == r.value && p(r.value) && forall j :: 0 <= j < i ==> !p(tail[j]);
        assert order[i + 1] == r.value;
        forall j | 0 <= j < i + 1 ensures !p(order[j]) {
          if j > 0 { assert order[j] == order[1..][j - 1]; }
        }
      }
    } else if order != [] {
      assert order[0] == First(order, p).value;
    }
  }

  /**
   The link a unicast frame leaves on: the one indexed for its target; else the first of the walk
   bound to that node; else, unless it came from the parent, the first with the parent role.
   */
  ghost predicate LeavesOn(n: Node, sc: Scans, conn: Conn, target: u32, x: Conn) {
    if target in n.table.nodes then x == n.table.nodes[target]
    else if exists c :: c in sc.first && ExtractNodeID(n.metas, c) == target
    then IsFirst(sc.first, BoundTo(n, target), x)
    else !IsParentConn(n.metas, conn) && IsFirst(sc.second, HasParentRole(n), x)
  }

  /** The frame gets past the handler test and the gate. */
  ghost predicate Admitted(n: Node, conn: Conn, hdr: IHeader) {
    exists h :: Serving(n, hdr.SubProto(), h) && !SourceMismatch(n, true, h, conn, Some(hdr))
  }

  /**
   What a node sends for a frame addressed to another node: one copy with a hop less, on that link,
   exactly if the frame is admitted and in transit, the node forwards, a hop is left to spend (16 if
   unset) and there is such a link; otherwise nothing.
   */
  lemma UnicastSendsExactly(n: Node, sc: Scans, conn: Conn, hdr: IHeader)
    requires hdr.Target() != 0 && hdr.Target() != n.id
    ensures var sends := Route(n, true, sc, conn, Some(hdr)).sends;
            var hops := if hdr.HopLimit() == 0 then 16 else hdr.HopLimit();
            && (forall out :: out in sends ==>
                  exists x: Conn :: sends == [out] && out.connID == x.id && LeavesOn(n, sc, conn, hdr.Target(), x)
                              && out.hdr == hdr.SetHopLimit(hops - 1))
            && (sends != [] <==>
                  && Admitted(n, conn, hdr) && InTransit(hdr) && n.forwardMode && hops > 1
                  && exists x :: LeavesOn(n, sc, conn, hdr.Target(), x))
  {
    var hops := if hdr.HopLimit() == 0 then 16 else hdr.HopLimit();
    var sends := Route(n, true, sc, conn, Some(hdr)).sends;
    var out := Egress(n, sc, IsParentConn(n.metas, conn), hdr.Target());
    EgressLeaves(n, sc, conn, hdr.Target());
    AdmittedMeans(n, conn, hdr);
    hide Egress;
    hide LeavesOn;
    hide Admitted;
    hide SourceMismatch;
    if sends != [] {
      assert sends == [Send(out.value.id, hdr.SetHopLimit(hops - 1))];
    }
  }

  lemma AdmittedMeans(n: Node, conn: Conn, hdr: IHeader)
    ensures Admitted(n, conn, hdr) <==>
            var h := SelectHandler(n, Some(hdr)); h.Some? && !SourceMismatch(n, true, h.value, conn, Some(hdr))
  {
    hide SourceMismatch;
    var h := SelectHandler(n, Some(hdr));
    if h.Some? { assert Serving(n, hdr.SubProto(), h.value); }
  }

  lemma EgressLeaves(n: Node, sc: Scans, conn: Conn, target: u32)
    ensures var out := Egress(n, sc, IsParentConn(n.metas, conn), target);
            && (out.Some? ==> LeavesOn(n, sc, conn, target, out.value))
            && (out.None? ==> !exists x :: LeavesOn(n, sc, conn, target, x))
  {
    FirstIsFirst(sc.first, BoundTo(n, target));
    FirstIsFirst(sc.second, HasParentRole(n));
    hide GetMeta;
    var out := Egress(n, sc, IsParentConn(n.metas, conn), target);
    var bound := First(sc.first, BoundTo(n, target));
    if bound.Some? { assert bound.value in sc.first && ExtractNodeID(n.metas, bound.value) == target; }
    hide IsFirst;
    if out.None? {
      forall x ensures !LeavesOn(n, sc, conn, target, x) {
        NoFirst(sc.second, HasParentRole(n), x);
      }
    }
  }

  lemma NoFirst(order: seq<Conn>, p: Conn -> bool, x: Conn)
    ensures First(order, p).None? ==> !IsFirst(order, p, x)
  {
  }

  /**
   For every frame and every connection table: at most one handler call, never a call and a
   send together, and at most one send unless the frame is a broadcast.
   */
  lemma RouteOnce(n: Node, hasServer: bool, sc: Scans, conn: Conn, hdr: Option<IHeader>)
    ensures var o := Route(n, hasServer, sc, conn, hdr);
            && |o.calls| <= 1
            && !(o.calls != [] && o.sends != [])
            && (Decide(n.id, hdr) != BroadcastChildren ==> |o.sends| <= 1)
            && (Decide(n.id, hdr) !in {BroadcastChildren, FastForward} ==> o.sends == [])
  {
  }

  /** Every frame sent on carries exactly one hop less than the effective limit and the same message. */
  lemma SendsSpendOneHop(n: Node, hasServer: bool, sc: Scans, conn: Conn, hdr: Option<IHeader>, s: Send)
    requires s in Route(n, hasServer, sc, conn, hdr).sends
    ensures hdr.Some? && CloneForForward(hdr.value) == Some(s.hdr)
    ensures s.hdr.HopLimit() == EffectiveHop(hdr.value.HopLimit()) - 1 >= 1
    ensures Codec.SameMessage(s.hdr, hdr.value)
  {
  }

  /**
   When a Cmd frame that pre-routing dropped reaches a handler all the same: exactly when its
   source is 0, its sub-protocol is not auth, its handler takes commands, and the gate is open
   (mismatch allowed, or a parent link bound to a node). No Cmd frame is ever forwarded.
   */
  lemma InterceptedAfterDrop(n: Node, sc: Scans, conn: Conn, hdr: IHeader)
    ensures var o := Route(n, true, sc, conn, Some(hdr));
            && (hdr.Major() == MAJOR_CMD ==> o.sends == [])
            && (o.calls != [] && Decide(n.id, Some(hdr)) == Drop <==>
                && hdr.Major() == MAJOR_CMD && hdr.Source() == 0 && hdr.SubProto() != SUBPROTO_AUTH
                && SelectHandler(n, Some(hdr)).Some?
                && var h := SelectHandler(n, Some(hdr)).value;
                   && h.acceptCmd
                   && (h.allowMismatch ||
                       (ExtractNodeID(n.metas, conn) != 0 &&
                        (IsParentConn(n.metas, conn) || (0 in n.table.nodes && n.table.nodes[0].id == conn.id)))))
  {
  }

  /** A broadcast, or a frame for another node, reaches no handler. */
  lemma BroadcastIsNeverHandled(n: Node, sc: Scans, conn: Conn, hdr: IHeader)
    requires Decide(n.id, Some(hdr)) in {BroadcastChildren, FastForward}
    ensures Route(n, true, sc, conn, Some(hdr)).calls == []
  {
  }

  // ---------------------------------------------------------------- who gets a broadcast

  /**
   A broadcast that is admitted and in transit, at a node that forwards and with a hop left to spend,
   goes exactly once to each managed connection that is neither the one it came in on nor a parent
   link, and to nothing else, in whatever order the table is walked. Any other goes nowhere.
   */
  lemma BroadcastExactly(n: Node, sc: Scans, conn: Conn, hdr: IHeader)
    requires ScansOf(sc, n.table) && hdr.Target() == 0
    ensures var sends := Route(n, true, sc, conn, Some(hdr)).sends;
            var hops := if hdr.HopLimit() == 0 then 16 else hdr.HopLimit();
            if Admitted(n, conn, hdr) && InTransit(hdr) && n.forwardMode && hops > 1 then
              exists cs: seq<Conn> ::
                && sends == SendsTo(cs, hdr.SetHopLimit(hops - 1)) && NoDuplicates(cs)
                && forall c :: c in cs <==>
                     Managed(n.table, c) && c.id != conn.id && GetMeta(n.metas, c, "role") != Some(Str("parent"))
            else sends == []
  {
    AdmittedMeans(n, conn, hdr);
    hide Admitted;
    hide SourceMismatch;
    var hops := if hdr.HopLimit() == 0 then 16 else hdr.HopLimit();
    var cs := Receivers(n, sc.first, conn);
    FilterMembers(sc.first, CopiesTo(n, conn));
    FilterNoDuplicates(sc.first, CopiesTo(n, conn));
    SnapshotMembers(sc.first, n.table);
    if !n.forwardMode && cs != [] { assert cs[0] in cs && !BroadcastTo(n, conn, cs[0]); }
    if Admitted(n, conn, hdr) && InTransit(hdr) && n.forwardMode && hops > 1 {
      assert Route(n, true, sc, conn, Some(hdr)).sends == SendsTo(cs, hdr.SetHopLimit(hops - 1));
    }
  }
}
