/**
 Exact delivery in a tree of hubs, for every interleaving of every set of frames in flight.
 */
module TreeDelivery {
  import opened Bytes
  import opened Header
  import opened Links
  import opened Routing
  import opened Network
  import opened Trees
  import opened Sums
  import Codec

  /** The two ends of the link between c and its parent: `up[c]` at c, `down[c]` at the parent. */
  datatype Lines = Lines(up: map<u32, Conn>, down: map<u32, Conn>)

  datatype Env = Env(net: Net, t: Tree, lk: Lines)

  // ---------------------------------------------------------------- what a hub tree is

  /** The link between c and its parent: roles, bound node numbers and wiring agree at both ends. */
  ghost predicate LineOk(e: Env, c: u32)
    requires c in e.t.parent && c in e.net.nodes && e.t.parent[c] in e.net.nodes
    requires c in e.lk.up && c in e.lk.down
  {
    var q := e.t.parent[c];
    var lo, hi := e.net.nodes[c], e.net.nodes[q];
    var u, d := e.lk.up[c], e.lk.down[c];
    && Managed(lo.table, u) && IsParentConn(lo.metas, u) && ExtractNodeID(lo.metas, u) == q
    && Managed(hi.table, d) && !IsParentConn(hi.metas, d) && ExtractNodeID(hi.metas, d) == c
    && (c, u.id) in e.net.wires && e.net.wires[(c, u.id)] == (q, d)
    && (q, d.id) in e.net.wires && e.net.wires[(q, d.id)] == (c, u)
  }

  /** A connection of n to something that is not a hub of the tree. */
  ghost predicate Stub(e: Env, n: u32, x: Conn)
    requires n in e.net.nodes
  {
    && !IsParentConn(e.net.nodes[n].metas, x)
    && ExtractNodeID(e.net.nodes[n].metas, x) !in e.t.depth
    && (n, x.id) !in e.net.wires
  }

  /** The child of n that connection x leads to, read off its bound node number. */
  ghost predicate LeadsDown(e: Env, n: u32, x: Conn)
    requires n in e.net.nodes
  {
    var c := ExtractNodeID(e.net.nodes[n].metas, x);
    c in e.t.parent && c in e.lk.down && e.t.parent[c] == n && e.lk.down[c] == x
  }

  ghost predicate LeadsUp(e: Env, n: u32, x: Conn) {
    n in e.lk.up && e.lk.up[n] == x
  }

  /** The node index maps each proper descendant to the link toward it, and nothing else but the parent. */
  ghost predicate IndexOk(e: Env, n: u32)
    requires WellFormed(e.t) && n in e.net.nodes && e.lk.down.Keys == e.t.parent.Keys
  {
    var index := e.net.nodes[n].table.nodes;
    forall k <- e.t.depth | k != n ::
      if Under(e.t, k, n) then k in index && index[k] == e.lk.down[ChildToward(e.t, n, k)]
      else k in index ==> n in e.t.parent && k == e.t.parent[n] && LeadsUp(e, n, index[k])
  }

  ghost predicate HubOk(e: Env, n: u32)
    requires WellFormed(e.t) && n in e.net.nodes && e.lk.down.Keys == e.t.parent.Keys
  {
    var hub := e.net.nodes[n];
    && hub.id == n && hub.forwardMode && Consistent(hub.table)
    && (forall x: Conn :: Managed(hub.table, x) ==> LeadsUp(e, n, x) || LeadsDown(e, n, x) || Stub(e, n, x))
    && IndexOk(e, n)
  }

  ghost predicate TreeNet(e: Env) {
    && WellFormed(e.t) && e.net.nodes.Keys == e.t.depth.Keys
    && e.lk.up.Keys == e.t.parent.Keys && e.lk.down.Keys == e.t.parent.Keys
    && (forall n <- e.t.depth :: HubOk(e, n))
    && (forall c <- e.t.parent :: LineOk(e, c))
  }

  // ---------------------------------------------------------------- frames in a hub tree

  ghost predicate FromUp(e: Env, p: Packet) { LeadsUp(e, p.at, p.via) }

  /** The child a frame came in from. */
  ghost function Ingress(e: Env, p: Packet): (c: u32)
    requires p.at in e.net.nodes
  {
    ExtractNodeID(e.net.nodes[p.at].metas, p.via)
  }

  /** Hub n has a handler for the sub-protocol, or a default one; without, it drops a frame unseen. */
  predicate Serves(e: Env, n: u32, sub: byte) {
    n in e.net.nodes && (sub in e.net.nodes[n].handlers || e.net.nodes[n].fallback.Some?)
  }

  function Sub(p: Packet): (sub: byte) { SubProtoBits(p.h.typeFmt) }

  /** p's hub can send it on at all. */
  predicate Relays(e: Env, p: Packet) { HopsLeft(p) > 1 && Serves(e, p.at, Sub(p)) }

  /**
   A frame as a hub tree carries it: data (not auth, not a command), between hubs or a broadcast,
   arriving from the parent, or from a child in whose subtree its source lies. A parent does not
   send down what is addressed to itself.
   */
  ghost predicate Fits(e: Env, p: Packet)
    requires TreeNet(e)
  {
    && p.at in e.t.depth && p.h.source in e.t.depth && !Stays(p.h)
    && (p.h.target == 0 || p.h.target in e.t.depth)
    && (FromUp(e, p) || (LeadsDown(e, p.at, p.via) && Under(e.t, p.h.source, Ingress(e, p))))
    && (FromUp(e, p) && p.h.target != 0 ==> p.h.target != e.t.parent[p.at])
  }

  // ---------------------------------------------------------------- facts about one hub or one link

  /** The domains agree. */
  lemma Basics(e: Env)
    requires TreeNet(e)
    ensures WellFormed(e.t) && e.net.nodes.Keys == e.t.depth.Keys
    ensures e.lk.up.Keys == e.t.parent.Keys && e.lk.down.Keys == e.t.parent.Keys
  {
  }

  lemma HubFacts(e: Env, n: u32)
    requires TreeNet(e) && n in e.t.depth
    ensures n in e.net.nodes
    ensures var hub := e.net.nodes[n]; hub.id == n && hub.forwardMode && Consistent(hub.table)
  {
    assert HubOk(e, n);
  }

  lemma HandlerHere(e: Env, p: Packet)
    requires p.at in e.net.nodes
    ensures SelectHandler(e.net.nodes[p.at], Some(Tcp(p.h))).Some? <==> Serves(e, p.at, Sub(p))
  {
  }

  lemma HubLinks(e: Env, n: u32, x: Conn)
    requires TreeNet(e) && n in e.t.depth && Managed(e.net.nodes[n].table, x)
    ensures LeadsUp(e, n, x) || LeadsDown(e, n, x) || Stub(e, n, x)
  {
    assert HubOk(e, n);
  }

  lemma IndexBelow(e: Env, n: u32, k: u32)
    requires TreeNet(e) && n in e.t.depth && k in e.t.depth && k != n && Under(e.t, k, n)
    ensures var index := e.net.nodes[n].table.nodes; k in index && index[k] == e.lk.down[ChildToward(e.t, n, k)]
  {
    assert HubOk(e, n);
  }

  lemma IndexElsewhere(e: Env, n: u32, k: u32)
    requires TreeNet(e) && n in e.t.depth && k in e.t.depth && k != n && !Under(e.t, k, n)
    ensures n in e.t.parent
    ensures var index := e.net.nodes[n].table.nodes;
            k in index ==> k == e.t.parent[n] && index[k] == e.lk.up[n]
  {
    AllUnderRoot(e.t, k);
    assert HubOk(e, n);
  }

  lemma LineFacts(e: Env, c: u32)
    requires TreeNet(e) && c in e.t.parent
    ensures LineOk(e, c) && LeadsUp(e, c, e.lk.up[c]) && LeadsDown(e, e.t.parent[c], e.lk.down[c])
  {
  }

  lemma OneSide(e: Env, n: u32, x: Conn)
    requires TreeNet(e) && n in e.t.depth
    ensures LeadsUp(e, n, x) ==> IsParentConn(e.net.nodes[n].metas, x) && !LeadsDown(e, n, x)
                                 && ExtractNodeID(e.net.nodes[n].metas, x) == e.t.parent[n]
    ensures LeadsDown(e, n, x) ==> !IsParentConn(e.net.nodes[n].metas, x)
  {
    hide HubOk;
    hide GetMeta;
    if LeadsUp(e, n, x) { LineFacts(e, n); }
    if LeadsDown(e, n, x) {
      LineFacts(e, ExtractNodeID(e.net.nodes[n].metas, x));
    }
  }

  /** The gate never stops such a frame, whatever the handler. */
  lemma GateOpen(e: Env, p: Packet, h: Handler)
    requires TreeNet(e) && Fits(e, p)
    ensures !SourceMismatch(e.net.nodes[p.at], true, h, p.via, Some(Tcp(p.h)))
  {
    hide HubOk;
    hide LineOk;
    OneSide(e, p.at, p.via);
    if !FromUp(e, p) {
      var c, src := Ingress(e, p), p.h.source;
      if src != c {
        ChildTowardUnique(e.t, p.at, src, c);
        IndexBelow(e, p.at, src);
      }
    }
  }

  // ---------------------------------------------------------------- unicast, one hop

  /** The frame has somewhere to go: down to its target, or up because it came from below. */
  ghost predicate Onward(e: Env, p: Packet)
    requires TreeNet(e) && Fits(e, p) && p.h.target != 0
  {
    Under(e.t, p.h.target, p.at) || !FromUp(e, p)
  }

  /** The link of n toward hub m. */
  ghost function LineToward(e: Env, n: u32, m: u32): (x: Conn)
    requires TreeNet(e) && n in e.t.depth && m in e.t.depth && n != m
  {
    if Under(e.t, m, n) then e.lk.down[ChildToward(e.t, n, m)]
    else AllUnderRoot(e.t, m); e.lk.up[n]
  }

  /** Among the managed links of n, a parent role or a tree neighbour's number singles one out. */
  lemma LinkByRole(e: Env, n: u32, x: Conn)
    requires TreeNet(e) && n in e.t.depth && Managed(e.net.nodes[n].table, x)
    ensures IsParentConn(e.net.nodes[n].metas, x) ==> LeadsUp(e, n, x)
    ensures var k := ExtractNodeID(e.net.nodes[n].metas, x);
            k in e.t.depth && !Under(e.t, k, n) ==> LeadsUp(e, n, x) && e.t.parent[n] == k
  {
    hide HubOk;
    hide LineOk;
    hide GetMeta;
    HubLinks(e, n, x);
    OneSide(e, n, x);
    if LeadsDown(e, n, x) {
      assert Under(e.t, ExtractNodeID(e.net.nodes[n].metas, x), n);
    }
  }

  /** The scan by node number finds the parent link exactly for the parent's number. */
  lemma ScanByNumber(e: Env, n: u32, order: seq<Conn>, m: u32)
    requires TreeNet(e) && n in e.t.parent && m in e.t.depth && !Under(e.t, m, n)
    requires Snapshot(order, e.net.nodes[n].table)
    ensures First(order, BoundTo(e.net.nodes[n], m)) == if m == e.t.parent[n] then Some(e.lk.up[n]) else None
  {
    hide HubOk;
    hide GetMeta;
    hide Under;
    var hub := e.net.nodes[n];
    LineFacts(e, n);
    assert hub.table.conns[e.lk.up[n].id] in order;
    assert m == e.t.parent[n] ==> BoundTo(hub, m)(e.lk.up[n]);
    var found := First(order, BoundTo(hub, m));
    if found.Some? {
      LinkByRole(e, n, found.value);
    }
  }

  /** The scan by role finds the parent link. */
  lemma ScanByRole(e: Env, n: u32, order: seq<Conn>)
    requires TreeNet(e) && n in e.t.parent && Snapshot(order, e.net.nodes[n].table)
    ensures First(order, HasParentRole(e.net.nodes[n])) == Some(e.lk.up[n])
  {
    hide HubOk;
    hide GetMeta;
    var hub := e.net.nodes[n];
    LineFacts(e, n);
    assert hub.table.conns[e.lk.up[n].id] in order;
    assert HasParentRole(hub)(e.lk.up[n]);
    LinkByRole(e, n, First(order, HasParentRole(hub)).value);
  }

  lemma EgressInTree(e: Env, n: u32, sc: Scans, srcIsParent: bool, m: u32)
    requires TreeNet(e) && n in e.t.depth && m in e.t.depth && n != m
    requires ScansOf(sc, e.net.nodes[n].table)
    ensures Under(e.t, m, n) || n in e.t.parent
    ensures Egress(e.net.nodes[n], sc, srcIsParent, m) ==
            if Under(e.t, m, n) || !srcIsParent || m == e.t.parent[n] then Some(LineToward(e, n, m)) else None
  {
    hide HubOk;
    hide LineOk;
    hide Under;
    hide Snapshot;
    hide First;
    if Under(e.t, m, n) {
      IndexBelow(e, n, m);
    } else {
      IndexElsewhere(e, n, m);
      ScanByNumber(e, n, sc.first, m);
      ScanByRole(e, n, sc.second);
    }
  }

  /** What a hub does with a unicast frame for another hub: one send toward it, or nothing. */
  lemma UnicastRoute(e: Env, p: Packet, sc: Scans)
    requires TreeNet(e) && Fits(e, p) && p.h.target != 0 && p.at != p.h.target
    requires ScansOf(sc, e.net.nodes[p.at].table)
    ensures Route(e.net.nodes[p.at], true, sc, p.via, Some(Tcp(p.h))) ==
            Outcome([], if Onward(e, p) && Relays(e, p)
                        then [Send(LineToward(e, p.at, p.h.target).id, CloneForForward(Tcp(p.h)).value)] else [])
  {
    hide HubOk;
    hide LineOk;
    hide Under;
    hide Egress;
    hide LineToward;
    HubFacts(e, p.at);
    HandlerHere(e, p);
    OneSide(e, p.at, p.via);
    EgressInTree(e, p.at, sc, FromUp(e, p), p.h.target);
    var hub := e.net.nodes[p.at];
    if Serves(e, p.at, Sub(p)) { GateOpen(e, p, SelectHandler(hub, Some(Tcp(p.h))).value); }
    hide SourceMismatch;
  }

  /** At its target a frame goes to the handler, if there is one, once, and no further. */
  lemma LocalRoute(e: Env, p: Packet, sc: Scans)
    requires TreeNet(e) && Fits(e, p) && p.at == p.h.target
    ensures var o := Route(e.net.nodes[p.at], true, sc, p.via, Some(Tcp(p.h))); 
            |o.calls| == (if Serves(e, p.at, Sub(p)) then 1 else 0) && o.sends == []
  {
    hide HubOk;
    hide LineOk;
    hide Under;
    HubFacts(e, p.at);
    HandlerHere(e, p);
    var hub := e.net.nodes[p.at];
    if Serves(e, p.at, Sub(p)) { GateOpen(e, p, SelectHandler(hub, Some(Tcp(p.h))).value); }
    hide SourceMismatch;
  }

  /** When the egress link is the ingress link. */
  lemma EgressIsIngress(e: Env, p: Packet, sc: Scans)
    requires TreeNet(e) && p.at in e.t.depth && p.h.target in e.t.depth && p.at != p.h.target
    requires LeadsUp(e, p.at, p.via) || LeadsDown(e, p.at, p.via)
    requires ScansOf(sc, e.net.nodes[p.at].table)
    ensures Egress(e.net.nodes[p.at], sc, IsParentConn(e.net.nodes[p.at].metas, p.via), p.h.target) == Some(p.via) <==>
            if FromUp(e, p) then p.h.target == e.t.parent[p.at] else Under(e.t, p.h.target, Ingress(e, p))
  {
    hide HubOk;
    hide LineOk;
    hide Egress;
    hide GetMeta;
    var n, m := p.at, p.h.target;
    OneSide(e, n, p.via);
    EgressInTree(e, n, sc, FromUp(e, p), m);
    if Under(e.t, m, n) {
      var c := ChildToward(e.t, n, m);
      LineFacts(e, c);
      OneSide(e, n, e.lk.down[c]);
      if n in e.t.parent && m == e.t.parent[n] { UnderIsDeeper(e.t, m, n); }
    } else {
      LineFacts(e, n);
      OneSide(e, n, e.lk.up[n]);
    }
    if !FromUp(e, p) && Under(e.t, m, Ingress(e, p)) {
      ChildTowardUnique(e.t, n, m, Ingress(e, p));
    }
  }

  predicate SendsOn(o: Outcome, id: string) { exists s :: s in o.sends && s.connID == id }

  /** The gate and the hop limit let the frame pass on from here. */
  predicate Passes(n: Node, p: Packet) {
    var h := SelectHandler(n, Some(Tcp(p.h)));
    h.Some? && !SourceMismatch(n, true, h.value, p.via, Some(Tcp(p.h))) && !Stays(p.h) && HopsLeft(p) > 1
  }

  /** What any node in forward mode sends for a frame addressed to another node. */
  lemma UnicastSends(n: Node, p: Packet, sc: Scans)
    requires n.forwardMode && p.h.target != 0 && p.h.target != n.id
    ensures var out := Egress(n, sc, IsParentConn(n.metas, p.via), p.h.target);
            Route(n, true, sc, p.via, Some(Tcp(p.h))).sends ==
            if Passes(n, p) && out.Some? then [Send(out.value.id, CloneForForward(Tcp(p.h)).value)] else []
  {
    hide Egress;
    hide SourceMismatch;
    hide GetMeta;
  }

  /**
   When a hub sends a unicast frame back on the link it came in on: exactly when the frame may
   pass and came from a child toward which its target lies, or from the parent it is addressed to.
   */
  lemma SentBackExactly(e: Env, p: Packet, sc: Scans)
    requires TreeNet(e) && p.at in e.t.depth && p.h.target in e.t.depth && p.at != p.h.target
    requires LeadsUp(e, p.at, p.via) || LeadsDown(e, p.at, p.via)
    requires ScansOf(sc, e.net.nodes[p.at].table)
    ensures SendsOn(Route(e.net.nodes[p.at], true, sc, p.via, Some(Tcp(p.h))), p.via.id) <==>
            && Passes(e.net.nodes[p.at], p)
            && if FromUp(e, p) then p.h.target == e.t.parent[p.at] else Under(e.t, p.h.target, Ingress(e, p))
  {
    hide TreeNet;
    hide Under;
    Basics(e);
    HubFacts(e, p.at);
    EgressIsIngress(e, p, sc);
    EgressIsManaged(e, p, sc);
    assert p.h.target != 0;
    hide Egress;
    hide Passes;
    hide Route;
    hide ScansOf;
    UnicastSends(e.net.nodes[p.at], p, sc);
    var sends := Route(e.net.nodes[p.at], true, sc, p.via, Some(Tcp(p.h))).sends;
    assert sends != [] ==> sends[0] in sends;
  }

  /** The egress link and the ingress link are on record, so their IDs tell them apart. */
  lemma EgressIsManaged(e: Env, p: Packet, sc: Scans)
    requires TreeNet(e) && p.at in e.t.depth && p.h.target in e.t.depth && p.at != p.h.target
    requires LeadsUp(e, p.at, p.via) || LeadsDown(e, p.at, p.via)
    requires ScansOf(sc, e.net.nodes[p.at].table)
    ensures var hub := e.net.nodes[p.at];
            var out := Egress(hub, sc, IsParentConn(hub.metas, p.via), p.h.target);
            out.Some? ==> (out.value.id == p.via.id <==> out.value == p.via)
  {
    hide HubOk;
    hide Egress;
    hide GetMeta;
    var n, m := p.at, p.h.target;
    EgressInTree(e, n, sc, IsParentConn(e.net.nodes[n].metas, p.via), m);
    if Under(e.t, m, n) { LineFacts(e, ChildToward(e.t, n, m)); } else { LineFacts(e, n); }
    if LeadsUp(e, n, p.via) { LineFacts(e, n); } else { LineFacts(e, Ingress(e, p)); }
  }

  // ---------------------------------------------------------------- transmission over a tree link

  /** The send of one copy of p, a hop spent, on link x. */
  function Copy(p: Packet, x: Conn): (s: Send)
    requires HopsLeft(p) > 1
  {
    Send(x.id, CloneForForward(Tcp(p.h)).value)
  }

  /** What a successful transmission does to the header. */
  lemma TransmitKeeps(net: Net, p: Packet, x: Conn, a: Act)
    requires p.at in net.nodes && HopsLeft(p) > 1
    ensures var r := Transmit(net, p, Copy(p, x), a);
            r.Some? ==>
              && (p.at, x.id) in net.wires && net.wires[(p.at, x.id)] == (r.value.at, r.value.via)
              && Message(r.value) == Message(p) && HopsLeft(r.value) == HopsLeft(p) - 1
              && r.value.h.source == p.h.source && r.value.h.target == p.h.target && r.value.h.typeFmt == p.h.typeFmt
  {
  }

  /** A copy sent down to child c arrives there, and fits. */
  lemma CrossDown(e: Env, p: Packet, c: u32, a: Act)
    requires TreeNet(e) && Fits(e, p) && c in e.t.parent && e.t.parent[c] == p.at && HopsLeft(p) > 1 && a.lost == {}
    requires p.h.target != p.at
    ensures var r := Transmit(e.net, p, Copy(p, e.lk.down[c]), a);
            && r.Some? && r.value.at == c && FromUp(e, r.value)
            && Fits(e, r.value) && Message(r.value) == Message(p) && HopsLeft(r.value) == HopsLeft(p) - 1
            && r.value.h.target == p.h.target && Sub(r.value) == Sub(p)
  {
    hide HubOk;
    hide Under;
    LineFacts(e, c);
    TransmitKeeps(e.net, p, e.lk.down[c], a);
    hide Message;
  }

  /** A copy sent up arrives at the parent on the link to p's hub. */
  lemma UpArrives(e: Env, p: Packet, a: Act)
    requires TreeNet(e) && p.at in e.t.parent && HopsLeft(p) > 1 && a.lost == {}
    ensures p.at in e.net.nodes
    ensures var r := Transmit(e.net, p, Copy(p, e.lk.up[p.at]), a);
            && r.Some? && r.value.at == e.t.parent[p.at] && r.value.via == e.lk.down[p.at]
            && Message(r.value) == Message(p) && HopsLeft(r.value) == HopsLeft(p) - 1
            && r.value.h.source == p.h.source && r.value.h.target == p.h.target && r.value.h.typeFmt == p.h.typeFmt
  {
    hide HubOk;
    LineFacts(e, p.at);
    TransmitKeeps(e.net, p, e.lk.up[p.at], a);
    hide Message;
  }

  /** And fits there, coming from below. */
  lemma CrossUp(e: Env, p: Packet, a: Act)
    requires TreeNet(e) && Fits(e, p) && p.at in e.t.parent && !FromUp(e, p) && HopsLeft(p) > 1 && a.lost == {}
    ensures var r := Transmit(e.net, p, Copy(p, e.lk.up[p.at]), a);
            && r.Some? && r.value.at == e.t.parent[p.at] && !FromUp(e, r.value)
            && Fits(e, r.value) && Message(r.value) == Message(p) && HopsLeft(r.value) == HopsLeft(p) - 1
            && r.value.h.target == p.h.target && Sub(r.value) == Sub(p)
  {
    hide Transmit;
    hide Copy;
    hide Message;
    hide HopsLeft;
    hide HubOk;
    hide GetMeta;
    UpArrives(e, p, a);
    LineFacts(e, p.at);
    UnderTransitive(e.t, p.h.source, Ingress(e, p), p.at);
    hide Under;
    var q := Transmit(e.net, p, Copy(p, e.lk.up[p.at]), a).value;
    assert Ingress(e, q) == p.at;
    OneSide(e, q.at, q.via);
  }

  // ---------------------------------------------------------------- what a frame will still do

  /** How often a forward of p will arrive at hub m (0 or 1). */
  ghost function Reach(e: Env, p: Packet, m: u32): (n: nat)
    requires TreeNet(e) && Fits(e, p) && m in e.t.depth
  {
    if p.h.target == 0 then
      if && Spreads(e, p, m)
         && p.via != e.lk.down[ChildToward(e.t, p.at, m)] then 1 else 0
    else if p.at != p.h.target && Onward(e, p) && m in Passed(e, p.at, p.h.target, HopsLeft(p), Sub(p)) then 1
    else 0
  }

  /** Every hub from n down to the parent of m serves. */
  ghost predicate Relayed(e: Env, n: u32, m: u32, sub: byte)
    requires WellFormed(e.t) && m in e.t.depth && Under(e.t, m, n)
    decreases e.t.depth[m]
  {
    m == n || (Serves(e, e.t.parent[m], sub) && Relayed(e, n, e.t.parent[m], sub))
  }

  /** Seen from the top: n serves, and so do the hubs from its child on. */
  lemma {:induction false} RelayedFromTop(e: Env, n: u32, m: u32, sub: byte)
    requires WellFormed(e.t) && m in e.t.depth && Under(e.t, m, n) && m != n
    ensures Relayed(e, n, m, sub) <==> Serves(e, n, sub) && Relayed(e, ChildToward(e.t, n, m), m, sub)
    decreases e.t.depth[m]
  {
    var c, u := ChildToward(e.t, n, m), e.t.parent[m];
    hide Serves;
    if u == n {
      assert Relayed(e, n, n, sub) && c == m;
    } else {
      RelayedFromTop(e, n, u, sub);
      if c == m { UnderIsDeeper(e.t, u, n); }
    }
  }

  /** Hub m is below p's hub, within its hop limit, and the hubs in between serve. */
  ghost predicate Spreads(e: Env, p: Packet, m: u32)
    requires WellFormed(e.t) && p.at in e.t.depth && m in e.t.depth
  {
    && Under(e.t, m, p.at) && m != p.at && e.t.depth[m] - e.t.depth[p.at] < HopsLeft(p)
    && Relayed(e, p.at, m, Sub(p))
  }

  /** The place of the first hub on a path that does not serve; the path's length if there is none. */
  function FirstBare(e: Env, w: seq<u32>, sub: byte): (f: nat)
    ensures f <= |w| && (forall i :: 0 <= i < f ==> Serves(e, w[i], sub)) && (f < |w| ==> !Serves(e, w[f], sub))
  {
    if w == [] || !Serves(e, w[0], sub) then 0 else 1 + FirstBare(e, w[1..], sub)
  }

  /** How many hubs of a path, its start included, a frame gets to see: hops run out, or a hub drops it. */
  function Stretch(e: Env, w: seq<u32>, hops: nat, sub: byte): (n: nat)
    requires hops >= 1
    ensures n >= 1
  {
    if hops <= FirstBare(e, w, sub) + 1 then hops else FirstBare(e, w, sub) + 1
  }

  /** The hubs a frame with `hops` hops left reaches on its way from n to m, n excluded. */
  ghost function Passed(e: Env, n: u32, m: u32, hops: nat, sub: byte): (p: seq<u32>)
    requires WellFormed(e.t) && n in e.t.depth && m in e.t.depth && hops >= 1
  {
    Beyond(Way(e.t, n, m), Stretch(e, Way(e.t, n, m), hops, sub))
  }

  /** The first `hops` nodes of a path, its start left out. */
  function Beyond(w: seq<u32>, hops: nat): (p: seq<u32>)
    requires |w| >= 1 && hops >= 1
  {
    if hops <= |w| then w[1..hops] else w[1..]
  }

  /** How often p will be handed to a handler at hub m (0 or 1). */
  ghost function Due(e: Env, p: Packet, m: u32): (n: nat)
    requires TreeNet(e) && Fits(e, p) && m in e.t.depth
  {
    if && p.h.target != 0 && m == p.h.target && (p.at == m || Onward(e, p)) && HopsLeft(p) >= |Way(e.t, p.at, m)|
       && FirstBare(e, Way(e.t, p.at, m), Sub(p)) == |Way(e.t, p.at, m)|
    then 1 else 0
  }

  /** The same, restricted to message k, and 0 for anything that is not such a frame. */
  ghost function ReachCount(e: Env, m: u32, k: Codec.Received, p: Packet): (n: nat) {
    if TreeNet(e) && m in e.t.depth && Fits(e, p) && Message(p) == k then Reach(e, p, m) else 0
  }

  ghost function DueCount(e: Env, m: u32, k: Codec.Received, p: Packet): (n: nat) {
    if TreeNet(e) && m in e.t.depth && Fits(e, p) && Message(p) == k then Due(e, p, m) else 0
  }

  function HubCount(m: u32, k: Codec.Received, p: Packet): (n: nat) {
    if p.at == m && Message(p) == k then 1 else 0
  }

  ghost function ReachOf(e: Env, m: u32, k: Codec.Received): (f: Packet -> nat) { p => ReachCount(e, m, k, p) }
  ghost function DueOf(e: Env, m: u32, k: Codec.Received): (f: Packet -> nat) { p => DueCount(e, m, k, p) }

  /** Log entries of message k at hub m. */
  function AtHub(m: u32, k: Codec.Received): (f: Packet -> nat) { p => HubCount(m, k, p) }

  ghost predicate AllFit(e: Env, ps: seq<Packet>)
    requires TreeNet(e)
  {
    forall i :: 0 <= i < |ps| ==> Fits(e, ps[i])
  }

  /** What one step must preserve about the frame it takes out of flight. */
  ghost predicate Conserves(e: Env, p: Packet, a: Act, m: u32, k: Codec.Received)
    requires TreeNet(e)
  {
    var fwd := Forwards(e.net, p, a);
    && ReachOf(e, m, k)(p) == Sum(fwd, AtHub(m, k)) + Sum(fwd, ReachOf(e, m, k))
    && DueOf(e, m, k)(p) == Sum(HandledBy(e.net, p, a), AtHub(m, k)) + Sum(fwd, DueOf(e, m, k))
  }

  // ---------------------------------------------------------------- unicast conserves

  lemma BeyondCons(n: u32, w: seq<u32>, hops: nat)
    requires |w| >= 1 && hops > 1
    ensures Beyond([n] + w, hops) == [w[0]] + Beyond(w, hops - 1)
  {
    var r := if hops - 1 <= |w| then hops - 1 else |w|;
    assert Beyond([n] + w, hops) == w[..r];
    assert Beyond(w, hops - 1) == w[1..r];
  }

  /** The send a hub makes for a unicast frame that is to go on. */
  ghost function NextSend(e: Env, p: Packet): (s: Send)
    requires TreeNet(e) && Fits(e, p) && p.h.target != 0 && p.at != p.h.target && HopsLeft(p) > 1
  {
    Copy(p, LineToward(e, p.at, p.h.target))
  }

  /** The only forward of a unicast frame arrives at the next hub of the way, with one hop less. */
  lemma NextPacket(e: Env, p: Packet, a: Act)
    requires TreeNet(e) && Fits(e, p) && p.h.target != 0 && p.at != p.h.target && Onward(e, p)
    requires HopsLeft(p) > 1 && a.lost == {}
    ensures var r := Transmit(e.net, p, NextSend(e, p), a);
            && r.Some? && r.value.at == Next(e.t, p.at, p.h.target) && Fits(e, r.value)
            && r.value.h.target == p.h.target && Sub(r.value) == Sub(p) && Message(r.value) == Message(p)
            && HopsLeft(r.value) == HopsLeft(p) - 1
            && (r.value.at == p.h.target || Onward(e, r.value))
  {
    hide HubOk;
    hide LineOk;
    hide Transmit;
    hide Message;
    hide HopsLeft;
    if Under(e.t, p.h.target, p.at) {
      CrossDown(e, p, ChildToward(e.t, p.at, p.h.target), a);
    } else {
      AllUnderRoot(e.t, p.h.target);
      CrossUp(e, p, a);
    }
  }

  lemma TransmitOne(net: Net, p: Packet, s: Send, a: Act)
    requires p.at in net.nodes
    ensures TransmitAll(net, p, [s], a) == match Transmit(net, p, s, a) case None => [] case Some(q) => [q]
  {
    assert [s][1..] == [];
    assert TransmitAll(net, p, [], a) == [];
  }

  lemma SumOne<T>(x: T, f: T -> nat)
    ensures Sum([x], f) == f(x) && Sum([], f) == 0
  {
    assert [x][1..] == [];
  }

  /** A frame at its target, or one that cannot move on, leaves the books balanced. */
  lemma EndConserves(e: Env, p: Packet, a: Act, m: u32, k: Codec.Received)
    requires TreeNet(e) && Fits(e, p) && p.h.target != 0 && m in e.t.depth && ScansOf(a.sc, e.net.nodes[p.at].table)
    requires p.at == p.h.target || !(Onward(e, p) && Relays(e, p))
    ensures Conserves(e, p, a, m, k) && Forwards(e.net, p, a) == []
  {
    hide TreeNet;
    hide Fits;
    hide Forwards;
    hide HandledBy;
    hide Message;
    hide Journey;
    hide Arrives;
    hide Onward;
    hide Relays;
    hide ScansOf;
    hide Reach;
    hide Due;
    JourneyEnd(e, p, a);
    UnicastCounts(e, p, m);
    SumOne(p, AtHub(m, k));
    SumOne(p, ReachOf(e, m, k));
    SumOne(p, DueOf(e, m, k));
  }

  /** The hubs a unicast frame will be forwarded to, in order. */
  ghost function Journey(e: Env, p: Packet): (ids: seq<u32>)
    requires TreeNet(e) && Fits(e, p) && p.h.target != 0
  {
    if p.at != p.h.target && Onward(e, p) then Passed(e, p.at, p.h.target, HopsLeft(p), Sub(p)) else []
  }

  /** Whether it will be dispatched at its target. */
  ghost predicate Arrives(e: Env, p: Packet)
    requires TreeNet(e) && Fits(e, p) && p.h.target != 0
  {
    && (p.at == p.h.target || Onward(e, p)) && HopsLeft(p) >= |Way(e.t, p.at, p.h.target)|
    && FirstBare(e, Way(e.t, p.at, p.h.target), Sub(p)) == |Way(e.t, p.at, p.h.target)|
  }

  lemma UnicastCounts(e: Env, p: Packet, m: u32)
    requires TreeNet(e) && Fits(e, p) && p.h.target != 0 && m in e.t.depth
    ensures p.at in e.t.depth && p.h.target in e.t.depth
    ensures Reach(e, p, m) == if m in Journey(e, p) then 1 else 0
    ensures Due(e, p, m) == if m == p.h.target && Arrives(e, p) then 1 else 0
  {
    hide TreeNet;
    hide Under;
    hide Way;
    hide WellFormed;
  }

  /** What the step of a moving unicast frame does to the journey still ahead. */
  lemma JourneyMoves(e: Env, p: Packet, q: Packet)
    requires TreeNet(e) && Fits(e, p) && p.h.target != 0 && p.at != p.h.target
    requires Onward(e, p) && Relays(e, p) && Fits(e, q) && q.h.target == p.h.target && Sub(q) == Sub(p)
    requires q.at == Next(e.t, p.at, p.h.target) && (q.at == q.h.target || Onward(e, q))
    requires HopsLeft(q) == HopsLeft(p) - 1
    ensures Journey(e, p) == [q.at] + Journey(e, q)
    ensures Arrives(e, p) <==> Arrives(e, q)
    ensures |Way(e.t, p.at, p.h.target)| == 1 + |Way(e.t, q.at, q.h.target)|
  {
    hide TreeNet;
    hide HopsLeft;
    hide Under;
    hide Serves;
    hide Fits;
    hide Onward;
    hide WellFormed;
    hide Journey;
    hide Next;
    Basics(e);
    JourneyIs(e, p);
    JourneyIs(e, q);
    WayStep(e.t, p.at, p.h.target);
    hide Way;
    var w := Way(e.t, q.at, p.h.target);
    StretchCons(e, p.at, w, HopsLeft(p), Sub(p));
    hide Stretch;
    hide FirstBare;
    hide Beyond;
  }

  lemma WayStep(t: Tree, n: u32, m: u32)
    requires WellFormed(t) && n in t.depth && m in t.depth && n != m
    ensures Way(t, n, m) == [n] + Way(t, Next(t, n, m), m)
  {
  }

  /** The journey is a stretch of the way. */
  lemma JourneyIs(e: Env, p: Packet)
    requires TreeNet(e) && Fits(e, p) && p.h.target != 0
    ensures p.at in e.t.depth && p.h.target in e.t.depth
    ensures var w := Way(e.t, p.at, p.h.target);
            Journey(e, p) ==
            if p.at == p.h.target || Onward(e, p) then Beyond(w, Stretch(e, w, HopsLeft(p), Sub(p))) else []
  {
    hide TreeNet;
    hide Fits;
    hide Way;
    hide Onward;
    hide WellFormed;
    hide Serves;
    Basics(e);
    FitsHere(e, p);
    if p.at == p.h.target { WayHere(e.t, p.at); }
  }

  /** The journey never comes back to where it starts. */
  lemma JourneyLeaves(e: Env, q: Packet)
    requires TreeNet(e) && Fits(e, q) && q.h.target != 0
    ensures q.at !in Journey(e, q)
  {
    hide TreeNet;
    hide HopsLeft;
    hide Under;
    Basics(e);
    assert q.at in e.t.depth && q.h.target in e.t.depth;
    WayIsSimplePath(e.t, q.at, q.h.target);
    hide Fits;
    hide Onward;
    hide WellFormed;
    hide Walk;
    hide Way;
  }

  /** What the step of a moving unicast frame does to the two counts. */
  lemma CountsMove(e: Env, p: Packet, q: Packet, m: u32, k: Codec.Received)
    requires TreeNet(e) && Fits(e, p) && p.h.target != 0 && p.at != p.h.target && m in e.t.depth
    requires Onward(e, p) && Relays(e, p) && Fits(e, q) && q.h.target == p.h.target && Sub(q) == Sub(p)
    requires q.at == Next(e.t, p.at, p.h.target) && (q.at == q.h.target || Onward(e, q))
    requires Message(q) == Message(p) && HopsLeft(q) == HopsLeft(p) - 1
    ensures ReachCount(e, m, k, p) == HubCount(m, k, q) + ReachCount(e, m, k, q)
    ensures DueCount(e, m, k, p) == DueCount(e, m, k, q)
  {
    hide TreeNet;
    hide Message;
    hide HopsLeft;
    hide Fits;
    hide Journey;
    hide Arrives;
    hide Onward;
    hide Reach;
    hide Due;
    UnicastCounts(e, p, m);
    UnicastCounts(e, q, m);
    JourneyMoves(e, p, q);
    JourneyLeaves(e, q);
    assert m in Journey(e, p) <==> m == q.at || m in Journey(e, q);
  }

  /** The step of a moving unicast frame: one forward, to the next hub of the way. */
  lemma MovingStep(e: Env, p: Packet, a: Act) returns (q: Packet)
    requires TreeNet(e) && Fits(e, p) && p.h.target != 0 && p.at != p.h.target && Onward(e, p)
    requires Relays(e, p) && a.lost == {} && ScansOf(a.sc, e.net.nodes[p.at].table)
    ensures Forwards(e.net, p, a) == [q] && HandledBy(e.net, p, a) == []
    ensures q.at == Next(e.t, p.at, p.h.target) && Fits(e, q) && q.h.target == p.h.target && Sub(q) == Sub(p)
    ensures Message(q) == Message(p) && HopsLeft(q) == HopsLeft(p) - 1
    ensures q.at == q.h.target || Onward(e, q)
  {
    hide TreeNet;
    hide Transmit;
    hide TransmitAll;
    hide Route;
    hide Message;
    hide HopsLeft;
    hide Under;
    hide ScansOf;
    Basics(e);
    UnicastRoute(e, p, a.sc);
    TransmitOne(e.net, p, NextSend(e, p), a);
    NextPacket(e, p, a);
    q := Transmit(e.net, p, NextSend(e, p), a).value;
    assert p.at in e.net.nodes;
    hide Fits;
    hide Onward;
    hide LineToward;
  }

  lemma MovingConserves(e: Env, p: Packet, a: Act, m: u32, k: Codec.Received)
    requires TreeNet(e) && Fits(e, p) && p.h.target != 0 && p.at != p.h.target && m in e.t.depth
    requires ScansOf(a.sc, e.net.nodes[p.at].table) && a.lost == {} && Onward(e, p) && Relays(e, p)
    ensures Conserves(e, p, a, m, k) && AllFit(e, Forwards(e.net, p, a))
  {
    hide TreeNet;
    hide Message;
    hide HopsLeft;
    hide Forwards;
    hide HandledBy;
    hide ScansOf;
    hide Onward;
    hide Fits;
    hide ReachCount;
    hide DueCount;
    hide HubCount;
    var q := MovingStep(e, p, a);
    CountsMove(e, p, q, m, k);
    SumOne(q, AtHub(m, k));
    SumOne(q, ReachOf(e, m, k));
    SumOne(q, DueOf(e, m, k));
  }

  lemma FirstBareCons(e: Env, n: u32, w: seq<u32>, sub: byte)
    requires Serves(e, n, sub)
    ensures FirstBare(e, [n] + w, sub) == 1 + FirstBare(e, w, sub)
  {
    assert ([n] + w)[1..] == w && ([n] + w)[0] == n;
  }

  /** One hub further along a path whose first hub serves. */
  lemma StretchCons(e: Env, n: u32, w: seq<u32>, hops: nat, sub: byte)
    requires hops > 1 && Serves(e, n, sub) && |w| >= 1
    ensures FirstBare(e, [n] + w, sub) == 1 + FirstBare(e, w, sub)
    ensures Beyond([n] + w, Stretch(e, [n] + w, hops, sub)) == [w[0]] + Beyond(w, Stretch(e, w, hops - 1, sub))
  {
    FirstBareCons(e, n, w, sub);
    var f, l := FirstBare(e, w, sub), Stretch(e, [n] + w, hops, sub);
    assert l == 1 + Stretch(e, w, hops - 1, sub);
    hide Stretch;
    hide FirstBare;
    hide Serves;
    BeyondCons(n, w, l);
  }

  // ---------------------------------------------------------------- broadcast conserves

  lemma BroadcastRoute(e: Env, p: Packet, sc: Scans)
    requires TreeNet(e) && Fits(e, p) && p.h.target == 0
    ensures Route(e.net.nodes[p.at], true, sc, p.via, Some(Tcp(p.h))) ==
            Outcome([], if Relays(e, p)
                        then SendsTo(Receivers(e.net.nodes[p.at], sc.first, p.via), CloneForForward(Tcp(p.h)).value)
                        else [])
  {
    hide HubOk;
    hide LineOk;
    hide Under;
    hide Receivers;
    HubFacts(e, p.at);
    HandlerHere(e, p);
    if Serves(e, p.at, Sub(p)) { GateOpen(e, p, SelectHandler(e.net.nodes[p.at], Some(Tcp(p.h))).value); }
    hide SourceMismatch;
  }

  /** Arrival at m now, plus arrivals still to come: what one send accounts for. */
  ghost function Share(e: Env, p: Packet, a: Act, m: u32, k: Codec.Received, s: Send): (n: nat) {
    if p.at in e.net.nodes && Transmit(e.net, p, s, a).Some? then
      var q := Transmit(e.net, p, s, a).value;
      HubCount(m, k, q) + ReachCount(e, m, k, q)
    else 0
  }

  ghost function ShareOf(e: Env, p: Packet, a: Act, m: u32, k: Codec.Received): (f: Send -> nat) {
    s => Share(e, p, a, m, k, s)
  }

  lemma {:induction false} SharesAddUp(e: Env, p: Packet, sends: seq<Send>, a: Act, m: u32, k: Codec.Received)
    requires p.at in e.net.nodes
    ensures var out := TransmitAll(e.net, p, sends, a);
            Sum(out, AtHub(m, k)) + Sum(out, ReachOf(e, m, k)) == Sum(sends, ShareOf(e, p, a, m, k))
  {
    hide Transmit;
    hide ReachCount;
    hide HubCount;
    if sends != [] {
      SharesAddUp(e, p, sends[1..], a, m, k);
      var rest := TransmitAll(e.net, p, sends[1..], a);
      match Transmit(e.net, p, sends[0], a)
      case None =>
      case Some(q) =>
        SumAppend([q], rest, AtHub(m, k));
        SumAppend([q], rest, ReachOf(e, m, k));
        SumOne(q, AtHub(m, k));
        SumOne(q, ReachOf(e, m, k));
    }
  }

  /** A copy at child c reaches, from there on, the hubs below c within one hop less. */
  lemma ReachFromParent(e: Env, q: Packet, m: u32)
    requires TreeNet(e) && Fits(e, q) && q.h.target == 0 && FromUp(e, q) && m in e.t.depth
    ensures Reach(e, q, m) ==
            if Spreads(e, q, m) then 1 else 0
  {
    hide HubOk;
    hide HopsLeft;
    hide GetMeta;
    if Under(e.t, m, q.at) && m != q.at {
      var d := ChildToward(e.t, q.at, m);
      LineFacts(e, d);
      OneSide(e, q.at, e.lk.down[d]);
      OneSide(e, q.at, q.via);
    }
  }

  /** A copy for child c accounts for hub m exactly when m lies in c's subtree within the hop limit. */
  lemma ChildShare(e: Env, p: Packet, c: u32, a: Act, m: u32, k: Codec.Received)
    requires TreeNet(e) && Fits(e, p) && p.h.target == 0 && HopsLeft(p) > 1 && a.lost == {} && m in e.t.depth
    requires c in e.t.parent && e.t.parent[c] == p.at && Message(p) == k
    ensures Share(e, p, a, m, k, Copy(p, e.lk.down[c])) ==
            if Under(e.t, m, c) && e.t.depth[m] - e.t.depth[p.at] < HopsLeft(p) && Relayed(e, c, m, Sub(p))
            then 1 else 0
  {
    hide TreeNet;
    hide Transmit;
    hide Message;
    hide HopsLeft;
    hide Reach;
    hide Copy;
    Basics(e);
    assert p.at in e.t.depth && e.t.depth[c] == e.t.depth[p.at] + 1;
    assert m == c ==> Under(e.t, m, c);
    CrossDown(e, p, c, a);
    var q := Transmit(e.net, p, Copy(p, e.lk.down[c]), a).value;
    ReachFromParent(e, q, m);
    hide Fits;
    hide WellFormed;
    hide Under;
  }

  /** Hub m is still to be reached through child c of p's hub. */
  ghost predicate Through(e: Env, p: Packet, m: u32, x: Conn)
    requires TreeNet(e) && p.at in e.t.depth && m in e.t.depth
  {
    && Under(e.t, m, p.at) && m != p.at && e.t.depth[m] - e.t.depth[p.at] < HopsLeft(p)
    && x == e.lk.down[ChildToward(e.t, p.at, m)] && Relayed(e, ChildToward(e.t, p.at, m), m, Sub(p))
  }

  /** Each receiver of a broadcast accounts for exactly the hubs reached through it. */
  lemma ReceiverShare(e: Env, p: Packet, x: Conn, a: Act, m: u32, k: Codec.Received)
    requires TreeNet(e) && Fits(e, p) && p.h.target == 0 && HopsLeft(p) > 1 && a.lost == {} && m in e.t.depth
    requires Message(p) == k && Managed(e.net.nodes[p.at].table, x) && !IsParentConn(e.net.nodes[p.at].metas, x)
    ensures Share(e, p, a, m, k, Copy(p, x)) == if Through(e, p, m, x) then 1 else 0
    ensures var r := Transmit(e.net, p, Copy(p, x), a); r.Some? ==> Fits(e, r.value)
  {
    hide HubOk;
    hide LineOk;
    hide GetMeta;
    hide HopsLeft;
    hide Message;
    HubLinks(e, p.at, x);
    OneSide(e, p.at, x);
    if LeadsDown(e, p.at, x) {
      var c := ExtractNodeID(e.net.nodes[p.at].metas, x);
      CrossDown(e, p, c, a);
      ChildShare(e, p, c, a, m, k);
      hide Transmit;
      hide Share;
      hide Copy;
      if Under(e.t, m, c) {
        ChildTowardUnique(e.t, p.at, m, c);
      } else if Through(e, p, m, x) {
        LineFacts(e, ChildToward(e.t, p.at, m));
      }
    } else {
      if Through(e, p, m, x) {
        LineFacts(e, ChildToward(e.t, p.at, m));
      }
    }
  }

  lemma IngressIsManaged(e: Env, p: Packet)
    requires TreeNet(e) && Fits(e, p)
    ensures Managed(e.net.nodes[p.at].table, p.via)
  {
    hide HubOk;
    hide Under;
    hide GetMeta;
    if FromUp(e, p) { LineFacts(e, p.at); } else { LineFacts(e, Ingress(e, p)); }
  }

  lemma ReceiversOf(e: Env, p: Packet, sc: Scans)
    requires TreeNet(e) && Fits(e, p) && ScansOf(sc, e.net.nodes[p.at].table)
    ensures var hub := e.net.nodes[p.at];
            var rs := Receivers(hub, sc.first, p.via);
            && NoDuplicates(rs)
            && forall x :: x in rs <==> Managed(hub.table, x) && !IsParentConn(hub.metas, x) && x != p.via
  {
    hide TreeNet;
    Basics(e);
    assert p.at in e.t.depth;
    HubFacts(e, p.at);
    IngressIsManaged(e, p);
    hide Fits;
    hide Consistent;
    hide IsParentConn;
    hide Filter;
    var hub := e.net.nodes[p.at];
    SnapshotMembers(sc.first, hub.table);
    FilterMembers(sc.first, CopiesTo(hub, p.via));
    FilterNoDuplicates(sc.first, CopiesTo(hub, p.via));
  }

  /** Over all receivers, the shares add up to what the frame had to account for. */
  lemma SharesTotal(e: Env, p: Packet, rs: seq<Conn>, a: Act, m: u32, k: Codec.Received)
    requires TreeNet(e) && Fits(e, p) && p.h.target == 0 && Relays(e, p) && a.lost == {} && m in e.t.depth
    requires Message(p) == k && NoDuplicates(rs)
    requires var hub := e.net.nodes[p.at];
             forall x :: x in rs <==> Managed(hub.table, x) && !IsParentConn(hub.metas, x) && x != p.via
    ensures Sum(SendsTo(rs, CloneForForward(Tcp(p.h)).value), ShareOf(e, p, a, m, k)) == Reach(e, p, m)
  {
    hide HubOk;
    hide LineOk;
    hide GetMeta;
    hide Share;
    hide Message;
    var sends := SendsTo(rs, CloneForForward(Tcp(p.h)).value);
    var f := ShareOf(e, p, a, m, k);
    forall i | 0 <= i < |rs| ensures f(sends[i]) == if Through(e, p, m, rs[i]) then 1 else 0 {
      assert rs[i] in rs && sends[i] == Copy(p, rs[i]);
      ReceiverShare(e, p, rs[i], a, m, k);
    }
    hide Fits;
    if i :| 0 <= i < |rs| && Through(e, p, m, rs[i]) {
      RelayedFromTop(e, p.at, m, Sub(p));
      assert rs[i] in rs;
      SumOnly(sends, i, f);
    } else {
      assert forall s <- sends :: f(s) == 0;
      SumZero(sends, f);
      if Spreads(e, p, m) {
        RelayedFromTop(e, p.at, m, Sub(p));
        var c := ChildToward(e.t, p.at, m);
        var x := e.lk.down[c];
        assert Through(e, p, m, x);
        LineFacts(e, c);
        OneSide(e, p.at, x);
        assert LineOk(e, c) && Managed(e.net.nodes[p.at].table, x);
      }
    }
  }

  lemma OtherMessageConserves(e: Env, p: Packet, a: Act, m: u32, k: Codec.Received)
    requires TreeNet(e) && Message(p) != k
    ensures Conserves(e, p, a, m, k)
  {
    hide TreeNet;
    hide Message;
    hide HopsLeft;
    var fwd := Forwards(e.net, p, a);
    hide Forwards;
    forall q | q in fwd ensures Message(q) == Message(p) {
      ForwardKeepsMessage(e.net, p, a, q);
    }
    SumZero(fwd, AtHub(m, k));
    SumZero(fwd, ReachOf(e, m, k));
    SumZero(fwd, DueOf(e, m, k));
    SumZero(HandledBy(e.net, p, a), AtHub(m, k));
  }

  lemma BroadcastForward(e: Env, p: Packet, a: Act, q: Packet)
    requires TreeNet(e) && Fits(e, p) && p.h.target == 0 && ScansOf(a.sc, e.net.nodes[p.at].table) && a.lost == {}
    requires q in Forwards(e.net, p, a)
    ensures Fits(e, q) && q.h.target == 0
  {
    hide TreeNet;
    hide Message;
    hide Route;
    hide Transmit;
    hide Receivers;
    Basics(e);
    assert p.at in e.t.depth;
    BroadcastRoute(e, p, a.sc);
    ReceiversOf(e, p, a.sc);
    hide Fits;
    var rs := Receivers(e.net.nodes[p.at], a.sc.first, p.via);
    var s :| s in Outcomes(e.net, p, a).sends && Transmit(e.net, p, s, a) == Some(q);
    var i :| 0 <= i < |rs| && s == Copy(p, rs[i]);
    assert rs[i] in rs;
    ReceiverShare(e, p, rs[i], a, p.at, Message(p));
    TransmitKeeps(e.net, p, rs[i], a);
  }

  lemma BroadcastFits(e: Env, p: Packet, a: Act)
    requires TreeNet(e) && Fits(e, p) && p.h.target == 0 && ScansOf(a.sc, e.net.nodes[p.at].table) && a.lost == {}
    ensures AllFit(e, Forwards(e.net, p, a)) && Outcomes(e.net, p, a).calls == []
    ensures forall q <- Forwards(e.net, p, a) :: q.h.target == 0
  {
    hide TreeNet;
    hide Route;
    Basics(e);
    assert p.at in e.t.depth;
    BroadcastRoute(e, p, a.sc);
    hide Receivers;
    hide Fits;
    hide Forwards;
    forall q | q in Forwards(e.net, p, a) ensures Fits(e, q) && q.h.target == 0 {
      BroadcastForward(e, p, a, q);
    }
  }

  lemma BroadcastArrivals(e: Env, p: Packet, a: Act, m: u32, k: Codec.Received)
    requires TreeNet(e) && Fits(e, p) && p.h.target == 0 && ScansOf(a.sc, e.net.nodes[p.at].table) && a.lost == {}
    requires m in e.t.depth && Message(p) == k
    ensures var fwd := Forwards(e.net, p, a);
            Sum(fwd, AtHub(m, k)) + Sum(fwd, ReachOf(e, m, k)) == Reach(e, p, m)
  {
    hide TreeNet;
    hide Message;
    hide Route;
    hide TransmitAll;
    hide ReachCount;
    hide HubCount;
    hide Share;
    hide ScansOf;
    Basics(e);
    assert p.at in e.t.depth;
    BroadcastRoute(e, p, a.sc);
    ReceiversOf(e, p, a.sc);
    SharesAddUp(e, p, Outcomes(e.net, p, a).sends, a, m, k);
    hide Fits;
    hide Receivers;
    hide Managed;
    if Relays(e, p) {
      SharesTotal(e, p, Receivers(e.net.nodes[p.at], a.sc.first, p.via), a, m, k);
      hide Reach;
    } else {
      hide HopsLeft;
      assert Sum(Outcomes(e.net, p, a).sends, ShareOf(e, p, a, m, k)) == 0;
      NoRelayNoSpread(e, p, m);
      hide Spreads;
    }
  }

  lemma NoRelayNoSpread(e: Env, p: Packet, m: u32)
    requires WellFormed(e.t) && p.at in e.t.depth && m in e.t.depth && !Relays(e, p)
    ensures !Spreads(e, p, m)
  {
    hide Serves;
    if Under(e.t, m, p.at) && m != p.at {
      UnderIsDeeper(e.t, m, p.at);
      RelayedFromTop(e, p.at, m, Sub(p));
    }
  }

  lemma BroadcastConserves(e: Env, p: Packet, a: Act, m: u32, k: Codec.Received)
    requires TreeNet(e) && Fits(e, p) && p.h.target == 0 && ScansOf(a.sc, e.net.nodes[p.at].table) && a.lost == {}
    requires m in e.t.depth && Message(p) == k
    ensures Conserves(e, p, a, m, k)
  {
    hide TreeNet;
    hide Message;
    hide Forwards;
    hide Outcomes;
    hide ScansOf;
    hide Reach;
    BroadcastFits(e, p, a);
    BroadcastArrivals(e, p, a, m, k);
    hide Fits;
    hide HubCount;
    SumZero(Forwards(e.net, p, a), DueOf(e, m, k));
  }

  // ---------------------------------------------------------------- every run conserves

  lemma StepConserves(e: Env, p: Packet, a: Act, m: u32, k: Codec.Received)
    requires TreeNet(e) && Fits(e, p) && ScansOf(a.sc, e.net.nodes[p.at].table) && a.lost == {} && m in e.t.depth
    ensures Conserves(e, p, a, m, k) && AllFit(e, Forwards(e.net, p, a))
  {
    hide TreeNet;
    hide Fits;
    hide Conserves;
    hide Forwards;
    if p.h.target == 0 {
      BroadcastFits(e, p, a);
      if Message(p) == k {
        BroadcastConserves(e, p, a, m, k);
      } else {
        OtherMessageConserves(e, p, a, m, k);
      }
    } else if p.at != p.h.target && Onward(e, p) && Relays(e, p) {
      MovingConserves(e, p, a, m, k);
    } else {
      EndConserves(e, p, a, m, k);
    }
  }

  ghost predicate Lossless(acts: seq<Act>) {
    forall i :: 0 <= i < |acts| ==> acts[i].lost == {}
  }

  /** Arrivals of message k at hub m so far, plus those still to come. */
  ghost function ArrivalBalance(e: Env, s: State, m: u32, k: Codec.Received): (n: nat) {
    Sum(s.arrived, AtHub(m, k)) + Sum(s.inflight, ReachOf(e, m, k))
  }

  /** Handler calls for message k at hub m so far, plus those still to come. */
  ghost function HandledBalance(e: Env, s: State, m: u32, k: Codec.Received): (n: nat) {
    Sum(s.handled, AtHub(m, k)) + Sum(s.inflight, DueOf(e, m, k))
  }

  lemma AllFitReplace(e: Env, ps: seq<Packet>, i: nat, fwd: seq<Packet>)
    requires TreeNet(e) && AllFit(e, ps) && AllFit(e, fwd) && i < |ps|
    ensures AllFit(e, ps[..i] + ps[i + 1..] + fwd)
  {
    hide TreeNet;
    hide Fits;
  }

  lemma StepBalances(e: Env, s: State, a: Act, m: u32, k: Codec.Received)
    requires TreeNet(e) && AllFit(e, s.inflight) && Enabled(e.net, s, a) && a.lost == {} && m in e.t.depth
    ensures var s' := Step(e.net, s, a);
            && AllFit(e, s'.inflight)
            && ArrivalBalance(e, s', m, k) == ArrivalBalance(e, s, m, k)
            && HandledBalance(e, s', m, k) == HandledBalance(e, s, m, k)
  {
    hide TreeNet;
    hide Fits;
    hide AllFit;
    hide Forwards;
    hide HandledBy;
    hide ReachCount;
    hide DueCount;
    hide HubCount;
    hide Sum;
    hide ScansOf;
    var p := s.inflight[a.i];
    FitAt(e, s.inflight, a.i);
    StepConserves(e, p, a, m, k);
    var fwd, done := Forwards(e.net, p, a), HandledBy(e.net, p, a);
    AllFitReplace(e, s.inflight, a.i, fwd);
    Balance(s.inflight, a.i, fwd, s.arrived, fwd, AtHub(m, k), ReachOf(e, m, k));
    Balance(s.inflight, a.i, fwd, s.handled, done, AtHub(m, k), DueOf(e, m, k));
  }

  lemma FitAt(e: Env, ps: seq<Packet>, i: nat)
    requires TreeNet(e) && AllFit(e, ps) && i < |ps|
    ensures Fits(e, ps[i]) && ps[i].at in e.net.nodes
  {
    hide TreeNet;
    Basics(e);
  }

  /**
   Over every run without losses, from any frames in flight and in any interleaving: for every
   hub and every message, arrivals done and due, and handler calls done and due, never change.
   */
  lemma {:induction false} RunConserves(e: Env, s: State, acts: seq<Act>, m: u32, k: Codec.Received)
    requires TreeNet(e) && AllFit(e, s.inflight) && IsRun(e.net, s, acts) && Lossless(acts) && m in e.t.depth
    ensures var s' := After(e.net, s, acts);
            && AllFit(e, s'.inflight)
            && ArrivalBalance(e, s', m, k) == ArrivalBalance(e, s, m, k)
            && HandledBalance(e, s', m, k) == HandledBalance(e, s, m, k)
    decreases |acts|
  {
    hide TreeNet;
    hide AllFit;
    hide ArrivalBalance;
    hide HandledBalance;
    hide Step;
    if acts != [] {
      StepBalances(e, s, acts[0], m, k);
      RunConserves(e, Step(e.net, s, acts[0]), acts[1..], m, k);
    }
  }

  // ---------------------------------------------------------------- runs with losses

  /** The same step with every send succeeding. */
  function Lucky(a: Act): (r: Act) { a.(lost := {}) }

  /** Losing sends only takes forwards away. */
  lemma {:induction false} LossesOnlyRemove(net: Net, p: Packet, sends: seq<Send>, a: Act, f: Packet -> nat)
    requires p.at in net.nodes
    ensures Sum(TransmitAll(net, p, sends, a), f) <= Sum(TransmitAll(net, p, sends, Lucky(a)), f)
    ensures forall q <- TransmitAll(net, p, sends, a) :: q in TransmitAll(net, p, sends, Lucky(a))
  {
    if sends != [] {
      LossesOnlyRemove(net, p, sends[1..], a, f);
      TransmitLucky(net, p, sends[0], a);
      hide Transmit;
      var rest, all := TransmitAll(net, p, sends[1..], a), TransmitAll(net, p, sends[1..], Lucky(a));
      if q :| Transmit(net, p, sends[0], Lucky(a)) == Some(q) {
        SumAppend([q], rest, f);
        SumAppend([q], all, f);
      }
    }
  }

  lemma TransmitLucky(net: Net, p: Packet, s: Send, a: Act)
    requires p.at in net.nodes
    ensures Transmit(net, p, s, a).None? || Transmit(net, p, s, a) == Transmit(net, p, s, Lucky(a))
  {
  }

  lemma ForwardsLucky(net: Net, p: Packet, a: Act, f: Packet -> nat)
    requires p.at in net.nodes
    ensures Sum(Forwards(net, p, a), f) <= Sum(Forwards(net, p, Lucky(a)), f)
    ensures forall q <- Forwards(net, p, a) :: q in Forwards(net, p, Lucky(a))
    ensures HandledBy(net, p, a) == HandledBy(net, p, Lucky(a))
  {
    hide Route;
    LossesOnlyRemove(net, p, Outcomes(net, p, a).sends, a, f);
    hide TransmitAll;
  }

  lemma LossyStep(e: Env, s: State, a: Act, m: u32, k: Codec.Received)
    requires TreeNet(e) && AllFit(e, s.inflight) && Enabled(e.net, s, a) && m in e.t.depth
    ensures var s' := Step(e.net, s, a);
            && AllFit(e, s'.inflight)
            && ArrivalBalance(e, s', m, k) <= ArrivalBalance(e, s, m, k)
            && HandledBalance(e, s', m, k) <= HandledBalance(e, s, m, k)
  {
    hide TreeNet;
    hide Fits;
    hide AllFit;
    hide Forwards;
    hide HandledBy;
    hide ReachCount;
    hide DueCount;
    hide HubCount;
    hide Sum;
    hide ScansOf;
    var p := s.inflight[a.i];
    FitAt(e, s.inflight, a.i);
    StepConserves(e, p, Lucky(a), m, k);
    ForwardsLucky(e.net, p, a, AtHub(m, k));
    ForwardsLucky(e.net, p, a, ReachOf(e, m, k));
    ForwardsLucky(e.net, p, a, DueOf(e, m, k));
    var fwd, done := Forwards(e.net, p, a), HandledBy(e.net, p, a);
    SubsetFits(e, fwd, Forwards(e.net, p, Lucky(a)));
    AllFitReplace(e, s.inflight, a.i, fwd);
    BalanceAtMost(s.inflight, a.i, fwd, s.arrived, fwd, AtHub(m, k), ReachOf(e, m, k));
    BalanceAtMost(s.inflight, a.i, fwd, s.handled, done, AtHub(m, k), DueOf(e, m, k));
  }

  lemma SubsetFits(e: Env, some: seq<Packet>, all: seq<Packet>)
    requires TreeNet(e) && AllFit(e, all) && forall q <- some :: q in all
    ensures AllFit(e, some)
  {
    hide TreeNet;
    hide Fits;
    forall i | 0 <= i < |some| ensures Fits(e, some[i]) { assert some[i] in all; }
  }

  /** Over every run, sends failing as they may: arrivals and handler calls done and due never grow. */
  lemma {:induction false} RunNeverGains(e: Env, s: State, acts: seq<Act>, m: u32, k: Codec.Received)
    requires TreeNet(e) && AllFit(e, s.inflight) && IsRun(e.net, s, acts) && m in e.t.depth
    ensures var s' := After(e.net, s, acts);
            && AllFit(e, s'.inflight)
            && ArrivalBalance(e, s', m, k) <= ArrivalBalance(e, s, m, k)
            && HandledBalance(e, s', m, k) <= HandledBalance(e, s, m, k)
    decreases |acts|
  {
    hide TreeNet;
    hide AllFit;
    hide ArrivalBalance;
    hide HandledBalance;
    hide Step;
    if acts != [] {
      LossyStep(e, s, acts[0], m, k);
      RunNeverGains(e, Step(e.net, s, acts[0]), acts[1..], m, k);
    }
  }

  /** One frame alone: what is logged at a hub never exceeds what the frame had to account for. */
  lemma NeverMoreThanDue(e: Env, p: Packet, acts: seq<Act>, m: u32)
    requires TreeNet(e) && Fits(e, p) && m in e.t.depth && IsRun(e.net, State([p], [], []), acts)
    ensures var s := After(e.net, State([p], [], []), acts);
            && Sum(s.arrived, AtHub(m, Message(p))) <= Reach(e, p, m)
            && Sum(s.handled, AtHub(m, Message(p))) <= Due(e, p, m)
  {
    hide TreeNet;
    hide Fits;
    hide Message;
    hide Reach;
    hide Due;
    var k := Message(p);
    RunNeverGains(e, State([p], [], []), acts, m, k);
    SumOne(p, ReachOf(e, m, k));
    SumOne(p, DueOf(e, m, k));
    SumOne(p, AtHub(m, k));
    hide After;
    hide IsRun;
    hide HubCount;
  }

  /** The hubs of a log, in order. */
  function Hubs(ps: seq<Packet>): (ids: seq<u32>)
    ensures |ids| == |ps|
  {
    seq(|ps|, i requires 0 <= i < |ps| => ps[i].at)
  }

  /**
   The hubs a broadcast is for: descendants its hops reach through hubs that serve, not below the
   child it came from.
   */
  ghost predicate InReach(e: Env, p: Packet, m: u32)
    requires TreeNet(e) && p.at in e.t.depth && m in e.t.depth
  {
    && Under(e.t, m, p.at) && m != p.at
    && e.t.depth[m] - e.t.depth[p.at] <= HopsLeft(p) - 1
    && Relayed(e, p.at, m, Sub(p))
    && (LeadsDown(e, p.at, p.via) ==> !Under(e.t, m, Ingress(e, p)))
  }

  lemma BroadcastReach(e: Env, p: Packet, m: u32)
    requires TreeNet(e) && Fits(e, p) && p.h.target == 0 && m in e.t.depth
    ensures p.at in e.t.depth && Reach(e, p, m) == (if InReach(e, p, m) then 1 else 0) && Due(e, p, m) == 0
  {
    hide HubOk;
    hide LineOk;
    hide GetMeta;
    hide HopsLeft;
    if Under(e.t, m, p.at) && m != p.at {
      var c := ChildToward(e.t, p.at, m);
      LineFacts(e, c);
      OneSide(e, p.at, p.via);
      OneSide(e, p.at, e.lk.down[c]);
      if LeadsDown(e, p.at, p.via) && Under(e.t, m, Ingress(e, p)) {
        ChildTowardUnique(e.t, p.at, m, Ingress(e, p));
      }
    }
  }

  /**
   Broadcast: in every complete run, a broadcast with e hops left arrives exactly once at each
   proper descendant of the hub it is at, at most e-1 levels down, through hubs that have a
   handler for it and not below the child it came from, at no other hub, and reaches no handler.
   */
  lemma BroadcastDelivery(e: Env, p: Packet, acts: seq<Act>, m: u32)
    requires TreeNet(e) && Fits(e, p) && p.h.target == 0 && m in e.t.depth
    requires IsRun(e.net, State([p], [], []), acts) && Lossless(acts)
    requires After(e.net, State([p], [], []), acts).inflight == []
    ensures var s := After(e.net, State([p], [], []), acts);
            && p.at in e.t.depth
            && Sum(s.arrived, AtHub(m, Message(p))) == (if InReach(e, p, m) then 1 else 0)
            && Sum(s.handled, AtHub(m, Message(p))) == 0
  {
    hide TreeNet;
    hide Fits;
    hide InReach;
    hide Reach;
    hide Due;
    hide Message;
    var k := Message(p);
    RunConserves(e, State([p], [], []), acts, m, k);
    BroadcastReach(e, p, m);
    SumOne(p, ReachOf(e, m, k));
    SumOne(p, DueOf(e, m, k));
    SumOne(p, AtHub(m, k));
    hide After;
    hide IsRun;
    hide HubCount;
  }

  /**
   With losses, and at any moment of any run: at most once at each of those hubs, never at
   another, never to a handler.
   */
  lemma BroadcastAtMostOnce(e: Env, p: Packet, acts: seq<Act>, m: u32)
    requires TreeNet(e) && Fits(e, p) && p.h.target == 0 && m in e.t.depth
    requires IsRun(e.net, State([p], [], []), acts)
    ensures var s := After(e.net, State([p], [], []), acts);
            && p.at in e.t.depth
            && Sum(s.arrived, AtHub(m, Message(p))) <= (if InReach(e, p, m) then 1 else 0)
            && Sum(s.handled, AtHub(m, Message(p))) == 0
  {
    hide TreeNet;
    hide Fits;
    hide InReach;
    hide Reach;
    hide Due;
    NeverMoreThanDue(e, p, acts, m);
    BroadcastReach(e, p, m);
  }

  // ---------------------------------------------------------------- unicast, hub by hub

  /** A moving frame leaves one forward, from which the rest of the journey starts. */
  lemma JourneyStep(e: Env, p: Packet, a: Act) returns (q: Packet)
    requires TreeNet(e) && Fits(e, p) && p.h.target != 0 && p.at != p.h.target && Onward(e, p)
    requires Relays(e, p) && a.lost == {} && ScansOf(a.sc, e.net.nodes[p.at].table)
    ensures Forwards(e.net, p, a) == [q] && HandledBy(e.net, p, a) == []
    ensures Fits(e, q) && q.h.target == p.h.target && Message(q) == Message(p) && HopsLeft(q) == HopsLeft(p) - 1
    ensures Journey(e, p) == [q.at] + Journey(e, q)
    ensures Arrives(e, p) <==> Arrives(e, q)
    ensures |Way(e.t, p.at, p.h.target)| == 1 + |Way(e.t, q.at, q.h.target)|
  {
    hide TreeNet;
    hide Message;
    hide HopsLeft;
    hide Forwards;
    hide ScansOf;
    hide Fits;
    hide Journey;
    hide Arrives;
    hide Onward;
    q := MovingStep(e, p, a);
    JourneyMoves(e, p, q);
  }

  /** A frame that cannot move on ends its journey where it is. */
  lemma JourneyEnd(e: Env, p: Packet, a: Act)
    requires TreeNet(e) && Fits(e, p) && p.h.target != 0 && ScansOf(a.sc, e.net.nodes[p.at].table)
    requires p.at == p.h.target || !(Onward(e, p) && Relays(e, p))
    ensures Forwards(e.net, p, a) == [] && Journey(e, p) == []
    ensures HandledBy(e.net, p, a) == if Arrives(e, p) then [p] else []
    ensures Arrives(e, p) ==> p.at == p.h.target
  {
    hide TreeNet;
    Basics(e);
    assert p.at in e.t.depth;
    EndOfWay(e, p);
    if p.at == p.h.target {
      LocalRoute(e, p, a.sc);
    } else {
      UnicastRoute(e, p, a.sc);
    }
    hide Route;
    hide Fits;
    hide Arrives;
    hide Journey;
    assert TransmitAll(e.net, p, [], a) == [];
  }

  lemma EndOfWay(e: Env, p: Packet)
    requires TreeNet(e) && Fits(e, p) && p.h.target != 0
    requires p.at == p.h.target || !(Onward(e, p) && Relays(e, p))
    ensures Journey(e, p) == [] && (Arrives(e, p) <==> p.at == p.h.target && Serves(e, p.at, Sub(p)))
  {
    hide TreeNet;
    Basics(e);
    assert p.at in e.t.depth;
    var w := Way(e.t, p.at, p.h.target);
    assert w[0] == p.at;
    if p.at == p.h.target {
      assert w == [p.at] && [p.at][1..] == [];
    } else {
      assert |w| >= 2;
    }
    hide Fits;
    hide Way;
    hide Under;
    hide WellFormed;
  }

  lemma HubsAppend(a: seq<Packet>, b: seq<Packet>)
    ensures Hubs(a + b) == Hubs(a) + Hubs(b)
  {
  }

  /** f is p as it reaches its target: same message, one hop spent per link of the way. */
  ghost predicate Dispatched(e: Env, p: Packet, f: Packet)
    requires TreeNet(e) && Fits(e, p) && p.h.target != 0
  {
    && f.at == p.h.target && Message(f) == Message(p)
    && HopsLeft(f) == HopsLeft(p) - (|Way(e.t, p.at, p.h.target)| - 1)
  }

  /** From a single unicast frame, every complete run logs exactly its journey. */
  lemma {:induction false} UnicastRun(e: Env, p: Packet, s: State, acts: seq<Act>)
    requires TreeNet(e) && Fits(e, p) && p.h.target != 0 && s.inflight == [p]
    requires IsRun(e.net, s, acts) && Lossless(acts) && After(e.net, s, acts).inflight == []
    ensures var s' := After(e.net, s, acts);
            && Hubs(s'.arrived) == Hubs(s.arrived) + Journey(e, p)
            && (!Arrives(e, p) ==> s'.handled == s.handled)
            && (Arrives(e, p) ==> exists f :: s'.handled == s.handled + [f] && Dispatched(e, p, f))
    decreases |acts|
  {
    hide TreeNet;
    hide Fits;
    hide Forwards;
    hide HandledBy;
    hide Journey;
    hide Arrives;
    hide Onward;
    hide Way;
    hide Message;
    hide HopsLeft;
    hide ScansOf;
    Basics(e);
    var a := acts[0];
    var s1 := Step(e.net, s, a);
    assert s.inflight[..0] + s.inflight[1..] == [];
    HubsAppend(s.arrived, Forwards(e.net, p, a));
    assert p.at in e.net.nodes by { FitsHere(e, p); }
    if p.at != p.h.target && Onward(e, p) && Relays(e, p) {
      var q := JourneyStep(e, p, a);
      assert s1.inflight == [q];
      UnicastRun(e, q, s1, acts[1..]);
      assert Hubs([q]) == [q.at];
      assert Hubs(s.arrived) + Hubs([q]) + Journey(e, q) == Hubs(s.arrived) + Journey(e, p);
      assert s1.handled == s.handled;
    } else {
      JourneyEnd(e, p, a);
      assert s1.inflight == [] && s1.arrived == s.arrived;
      assert acts[1..] == [];
      if Arrives(e, p) {
        assert |Way(e.t, p.at, p.h.target)| == 1 by { WayHere(e.t, p.at); }
        assert s1.handled == s.handled + [p];
      }
    }
  }

  lemma FitsHere(e: Env, p: Packet)
    requires TreeNet(e) && Fits(e, p)
    ensures p.at in e.t.depth && p.at in e.net.nodes && (p.h.target != 0 ==> p.h.target in e.t.depth)
  {
  }

  lemma WayHere(t: Tree, n: u32)
    requires WellFormed(t) && n in t.depth
    ensures Way(t, n, n) == [n]
  {
  }

  /**
   Unicast: let `path` be any simple path of tree links from where the frame is to its target.
   If the frame came from below, or its target lies below, then in every complete run without
   losses it passes the hubs of `path` one after the other and no others, as far as its hop limit
   allows and up to the first hub without a handler for it, and is handed to a handler, once, at
   its target, if and only if its effective hop limit exceeds the distance and every hub of `path`
   has one. A frame from the parent for a target elsewhere goes nowhere.
   */
  lemma UnicastDelivery(e: Env, p: Packet, acts: seq<Act>, path: seq<u32>)
    requires TreeNet(e) && Fits(e, p) && p.h.target != 0
    requires IsRun(e.net, State([p], [], []), acts) && Lossless(acts)
    requires After(e.net, State([p], [], []), acts).inflight == []
    requires SimplePath(e.t, path, p.at, p.h.target)
    ensures var s := After(e.net, State([p], [], []), acts);
            var routed := Under(e.t, p.h.target, p.at) || !FromUp(e, p);
            var served := forall i :: 0 <= i < |path| ==> Serves(e, path[i], Sub(p));
            && Hubs(s.arrived) == (if routed then Beyond(path, Stretch(e, path, HopsLeft(p), Sub(p))) else [])
            && Hubs(s.handled) == (if routed && HopsLeft(p) > |path| - 1 && served then [p.h.target] else [])
            && (forall f <- s.handled :: Message(f) == Message(p) && HopsLeft(f) == HopsLeft(p) - (|path| - 1))
  {
    hide TreeNet;
    hide Message;
    hide HopsLeft;
    hide Fits;
    hide Way;
    hide After;
    hide IsRun;
    hide Walk;
    hide WellFormed;
    Basics(e);
    FitsHere(e, p);
    SimplePathIsWay(e.t, path, p.at, p.h.target);
    UnicastRun(e, p, State([p], [], []), acts);
    if p.at == p.h.target {
      WayHere(e.t, p.at);
    }
  }

  /**
   Unicast with losses, at any moment of any run: at most once at each hub of the path within the
   hop limit and up to the first without a handler, never off it, and at most one handler call, at
   the target, and only if the effective hop limit exceeds the distance and every hub has one.
   */
  lemma UnicastAtMostOnce(e: Env, p: Packet, acts: seq<Act>, path: seq<u32>, m: u32)
    requires TreeNet(e) && Fits(e, p) && p.h.target != 0 && m in e.t.depth
    requires IsRun(e.net, State([p], [], []), acts) && SimplePath(e.t, path, p.at, p.h.target)
    ensures var s := After(e.net, State([p], [], []), acts);
            var routed := Under(e.t, p.h.target, p.at) || !FromUp(e, p);
            var served := forall i :: 0 <= i < |path| ==> Serves(e, path[i], Sub(p));
            && Sum(s.arrived, AtHub(m, Message(p))) <=
               (if routed && m in Beyond(path, Stretch(e, path, HopsLeft(p), Sub(p))) then 1 else 0)
            && Sum(s.handled, AtHub(m, Message(p))) <=
               (if routed && m == p.h.target && HopsLeft(p) > |path| - 1 && served then 1 else 0)
  {
    hide TreeNet;
    hide Message;
    hide HopsLeft;
    hide Fits;
    hide Way;
    hide After;
    hide IsRun;
    hide Walk;
    hide WellFormed;
    hide Reach;
    hide Due;
    Basics(e);
    FitsHere(e, p);
    SimplePathIsWay(e.t, path, p.at, p.h.target);
    NeverMoreThanDue(e, p, acts, m);
    UnicastCounts(e, p, m);
    if p.at == p.h.target {
      WayHere(e.t, p.at);
    }
  }

  // ---------------------------------------------------------------- an instance

  function Hub(id: u32, table: Table, metas: Metas): (n: Node) {
    Node(id, table, metas, true, map[], Some(Handler(0, false, false)))
  }

  /** Hub a with the single child b. */
  function TwoHubs(a: u32, b: u32): (e: Env) {
    var u, d := Conn(0, "u"), Conn(1, "d");
    var hi := Hub(a, Table(map["d" := d], map[b := d], map[]), map[d := map["nodeID" := U32(b)]]);
    var lo := Hub(b, Table(map["u" := u], map[], map[]), map[u := map["nodeID" := U32(a), "role" := Str("parent")]]);
    Env(Net(map[a := hi, b := lo], map[(b, "u") := (a, d), (a, "d") := (b, u)]),
        Tree(map[b := a], a, map[a := 0, b := 1]),
        Lines(map[b := u], map[b := d]))
  }

  lemma TwoShape(a: u32, b: u32)
    requires a != 0 && b != 0 && a != b
    ensures var e := TwoHubs(a, b);
            && WellFormed(e.t) && e.t.depth.Keys == {a, b} == e.net.nodes.Keys && e.t.parent == map[b := a]
            && e.lk == Lines(map[b := Conn(0, "u")], map[b := Conn(1, "d")])
            && Under(e.t, b, b) && Under(e.t, b, a) && Under(e.t, a, a) && !Under(e.t, a, b)
            && ChildToward(e.t, a, b) == b
  {
  }

  lemma TwoLine(a: u32, b: u32)
    requires a != 0 && b != 0 && a != b
    ensures LineOk(TwoHubs(a, b), b)
  {
  }

  lemma UpperHub(a: u32, b: u32)
    requires a != 0 && b != 0 && a != b && WellFormed(TwoHubs(a, b).t)
    ensures HubOk(TwoHubs(a, b), a)
  {
    TwoShape(a, b);
    hide Under;
    hide WellFormed;
    hide ChildToward;
  }

  lemma LowerHub(a: u32, b: u32)
    requires a != 0 && b != 0 && a != b && WellFormed(TwoHubs(a, b).t)
    ensures HubOk(TwoHubs(a, b), b)
  {
    TwoShape(a, b);
    hide Under;
    hide WellFormed;
    hide ChildToward;
  }

  lemma TwoHubsAreATree(a: u32, b: u32)
    requires a != 0 && b != 0 && a != b
    ensures TreeNet(TwoHubs(a, b))
  {
    TwoShape(a, b);
    TwoLine(a, b);
    UpperHub(a, b);
    LowerHub(a, b);
    hide TwoHubs;
    hide WellFormed;
    hide HubOk;
    hide LineOk;
  }

  /** Such trees exist and carry frames: a broadcast coming up from the child, a unicast down to it. */
  lemma TwoHubsCarryFrames(a: u32, b: u32, h: HeaderTcp)
    requires a != 0 && b != 0 && a != b && h.source == b && h.target == 0 && !Stays(h)
    ensures var e := TwoHubs(a, b);
            && TreeNet(e) && Fits(e, Packet(a, Conn(1, "d"), h, []))
            && Fits(e, Packet(b, Conn(0, "u"), h.(source := a, target := b), []))
  {
    TwoHubsAreATree(a, b);
    TwoShape(a, b);
    hide TreeNet;
    hide WellFormed;
    hide Under;
  }

  /** A frame its child addresses to itself is sent straight back. */
  lemma TwoHubsSendBack(a: u32, b: u32, h: HeaderTcp, sc: Scans)
    requires a != 0 && b != 0 && a != b && h.source == b && h.target == b && !Stays(h) && EffectiveHop(h.hopLimit) > 1
    requires ScansOf(sc, TwoHubs(a, b).net.nodes[a].table)
    ensures SendsOn(Route(TwoHubs(a, b).net.nodes[a], true, sc, Conn(1, "d"), Some(Tcp(h))), "d")
  {
    var e, p := TwoHubs(a, b), Packet(a, Conn(1, "d"), h, []);
    TwoHubsAreATree(a, b);
    TwoShape(a, b);
    hide TreeNet;
    hide WellFormed;
    hide Under;
    hide Route;
    SentBackExactly(e, p, sc);
  }
}
