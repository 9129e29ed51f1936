/**
 The connection manager: one primary map, two reverse indexes, lifecycle hooks that fire
 after the lock is released, and the eviction of a directly bound predecessor.
 */
module ConnManager {
  import opened Bytes
  import opened Links

  datatype Event = OnAdd(c: Conn) | LinkOnAdd(c: Conn) | OnRemove(c: Conn) | LinkOnRemove(c: Conn) | Closed(c: Conn)

  // ---------------------------------------------------------------- what happens under the lock

  function Without<K>(m: map<K, Conn>, c: Conn): (r: map<K, Conn>) {
    map k | k in m && m[k] != c :: m[k]
  }

  function DeviceOf(metas: Metas, c: Conn): (d: string) {
    match GetMeta(metas, c, "deviceID")
    case Some(Str(s)) => s
    case _ => ""
  }

  /** A new primary entry; the indexes follow the metadata, overwriting whoever was there. */
  function AddLocked(t: Table, c: Conn, metas: Metas): (r: Table) {
    var node, dev := ExtractNodeID(metas, c), DeviceOf(metas, c);
    Table(t.conns[c.id := c],
          if node != 0 then t.nodes[node := c] else t.nodes,
          if dev != "" then t.devs[dev := c] else t.devs)
  }

  function RemoveLocked(t: Table, id: string): (r: Table)
    requires id in t.conns
  {
    var c := t.conns[id];
    Table(t.conns - {id}, Without(t.nodes, c), Without(t.devs, c))
  }

  /** The connection itself is bound to the node, not merely a way to it. Any integer type counts here. */
  predicate DirectBind(metas: Metas, node: u32, c: Conn) {
    var v := GetMeta(metas, c, "nodeID");
    v.Some? && AsUint32(v.value) == Some(node) && node != 0
  }

  function UpdateNodeLocked(t: Table, node: u32, conn: Option<Conn>): (r: Table) {
    if node == 0 then t
    else if conn.None? then t.(nodes := t.nodes - {node})
    else t.(nodes := t.nodes[node := conn.value])
  }

  /** The ID an update goes on to remove; "" stands for none, so a connection without an ID is never evicted. */
  function Victim(t: Table, metas: Metas, node: u32, conn: Option<Conn>): (id: string) {
    if && node != 0 && conn.Some? && node in t.nodes && t.nodes[node] != conn.value
       && DirectBind(metas, node, conn.value) && DirectBind(metas, node, t.nodes[node])
    then t.nodes[node].id else ""
  }

  function UpdateDeviceLocked(t: Table, dev: string, conn: Option<Conn>): (r: Table) {
    if dev == "" then t
    else if conn.None? then t.(devs := t.devs - {dev})
    else t.(devs := t.devs[dev := conn.value])
  }

  // ---------------------------------------------------------------- the same, stated entry by entry

  /** An entry that was set to c, one that was cleared, and all others as they were. */
  ghost predicate OneSet<K(!new)>(m: map<K, Conn>, m': map<K, Conn>, k: K, c: Conn) {
    (forall x :: x in m' <==> x in m || x == k) && (forall x <- m' :: m'[x] == if x == k then c else m[x])
  }

  ghost predicate OneCleared<K(!new)>(m: map<K, Conn>, m': map<K, Conn>, k: K) {
    (forall x :: x in m' <==> x in m && x != k) && (forall x <- m' :: m'[x] == m[x])
  }

  /** Every entry of c is gone, and all others are as they were. */
  ghost predicate AllCleared<K(!new)>(m: map<K, Conn>, m': map<K, Conn>, c: Conn) {
    (forall x :: x in m' <==> x in m && m[x] != c) && (forall x <- m' :: m'[x] == m[x])
  }

  /**
   Add: c is stored under its ID, and indexed under the node number and the device ID its metadata
   hold, if they are a non-zero uint32 and a non-empty string; nothing else changes.
   */
  lemma AddExactly(t: Table, c: Conn, metas: Metas)
    ensures var r := AddLocked(t, c, metas);
            && OneSet(t.conns, r.conns, c.id, c)
            && (match GetMeta(metas, c, "nodeID")
                case Some(U32(u)) => if u == 0 then r.nodes == t.nodes else OneSet(t.nodes, r.nodes, u, c)
                case _ => r.nodes == t.nodes)
            && (match GetMeta(metas, c, "deviceID")
                case Some(Str(d)) => if d == "" then r.devs == t.devs else OneSet(t.devs, r.devs, d, c)
                case _ => r.devs == t.devs)
  {
    hide GetMeta;
  }

  /** Remove: the ID goes, and with it every index entry of its connection; nothing else changes. */
  lemma RemoveExactly(t: Table, id: string)
    requires id in t.conns
    ensures var r, c := RemoveLocked(t, id), t.conns[id];
            OneCleared(t.conns, r.conns, id) && AllCleared(t.nodes, r.nodes, c) && AllCleared(t.devs, r.devs, c)
  {
  }

  /** An index update sets the one entry or, without a connection, clears it; the key 0 or "" is ignored. */
  lemma UpdateExactly(t: Table, node: u32, dev: string, conn: Option<Conn>)
    ensures var r := UpdateNodeLocked(t, node, conn);
            && r.conns == t.conns && r.devs == t.devs
            && if node == 0 then r.nodes == t.nodes
               else if conn.Some? then OneSet(t.nodes, r.nodes, node, conn.value)
               else OneCleared(t.nodes, r.nodes, node)
    ensures var r := UpdateDeviceLocked(t, dev, conn);
            && r.conns == t.conns && r.nodes == t.nodes
            && if dev == "" then r.devs == t.devs
               else if conn.Some? then OneSet(t.devs, r.devs, dev, conn.value) else OneCleared(t.devs, r.devs, dev)
  {
  }

  /** A direct bind: the connection's own node number, in any integer type, cut to 32 bits, is the node. */
  lemma DirectBindExactly(metas: Metas, node: u32, c: Conn)
    ensures DirectBind(metas, node, c) <==>
            && node != 0
            && exists i: int ::
                 && i >= 0 && i % 0x1_0000_0000 == node
                 && (|| (i < 0x1_0000_0000 && GetMeta(metas, c, "nodeID") == Some(U32(i)))
                     || GetMeta(metas, c, "nodeID") == Some(U64(i))
                     || GetMeta(metas, c, "nodeID") == Some(Int(i))
                     || GetMeta(metas, c, "nodeID") == Some(Int64(i)))
  {
    hide GetMeta;
    match GetMeta(metas, c, "nodeID") {
      case Some(U32(i)) => assert i % 0x1_0000_0000 == i;
      case Some(U64(i)) => assert i >= 0;
      case Some(Int(i)) => assert i % 0x1_0000_0000 == i % 0x1_0000_0000;
      case Some(Int64(i)) => assert i % 0x1_0000_0000 == i % 0x1_0000_0000;
      case _ =>
    }
  }

  // ---------------------------------------------------------------- whole operations, undisturbed

  function RemoveAll(t: Table, id: string): (r: Table) {
    if id in t.conns then RemoveLocked(t, id) else t
  }

  function RemoveEvents(c: Conn, hooks: bool, linkHooks: bool): (es: seq<Event>) {
    (if hooks then [OnRemove(c)] else []) + (if linkHooks then [LinkOnRemove(c)] else []) + [Closed(c)]
  }

  /** One of the events the end of a connection calls for. */
  predicate Ends(e: Event, hooks: bool, linkHooks: bool) {
    e.Closed? || (hooks && e.OnRemove?) || (linkHooks && e.LinkOnRemove?)
  }

  /**
   What the log gains when exactly the connections of `gone` end: for each of them one Close, one call
   of each installed remove hook and no other event, and no hook after the Close.
   */
  ghost predicate Gained(before: seq<Event>, after: seq<Event>, gone: set<Conn>, hooks: bool, linkHooks: bool) {
    && before <= after
    && var more := after[|before|..];
       && (forall e :: multiset(more)[e] == if e.c in gone && Ends(e, hooks, linkHooks) then 1 else 0)
       && (forall i, j :: 0 <= i < |more| && 0 <= j < |more| && more[j] == Closed(more[i].c) ==> i <= j)
  }

  lemma RemoveGains(before: seq<Event>, c: Conn, hooks: bool, linkHooks: bool)
    ensures Gained(before, before + RemoveEvents(c, hooks, linkHooks), {c}, hooks, linkHooks)
  {
    var more := RemoveEvents(c, hooks, linkHooks);
    assert (before + more)[|before|..] == more;
  }

  lemma {:induction false} AllRemoveGains(before: seq<Event>, order: seq<Conn>, hooks: bool, linkHooks: bool)
    requires NoDuplicates(order)
    ensures Gained(before, before + AllRemoveEvents(order, hooks, linkHooks), Members(order), hooks, linkHooks)
  {
    if order == [] {
      assert before + [] == before && before[|before|..] == [];
    } else {
      var init, c := order[..|order| - 1], order[|order| - 1];
      var some, add := AllRemoveEvents(init, hooks, linkHooks), RemoveEvents(c, hooks, linkHooks);
      assert AllRemoveEvents(order, hooks, linkHooks) == some + add;
      assert Members(order) == Members(init) + {c} && c !in Members(init);
      AllRemoveGains(before, init, hooks, linkHooks);
      RemoveGains(before, c, hooks, linkHooks);
      hide RemoveEvents;
      hide AllRemoveEvents;
      hide Gained;
      GainsJoin(before, some, add, Members(init), c, hooks, linkHooks);
    }
  }

  function Members(order: seq<Conn>): (cs: set<Conn>) { set c | c in order }

  lemma GainsJoin(before: seq<Event>, some: seq<Event>, add: seq<Event>, gone: set<Conn>, c: Conn,
                  hooks: bool, linkHooks: bool)
    requires Gained(before, before + some, gone, hooks, linkHooks)
    requires Gained(before, before + add, {c}, hooks, linkHooks) && c !in gone
    ensures Gained(before, before + (some + add), gone + {c}, hooks, linkHooks)
  {
    var all := some + add;
    assert (before + some)[|before|..] == some && (before + add)[|before|..] == add;
    assert (before + all)[|before|..] == all;
    forall e: Event ensures multiset(all)[e] == if e.c in gone + {c} && Ends(e, hooks, linkHooks) then 1 else 0 {
      assert multiset(all)[e] == multiset(some)[e] + multiset(add)[e];
    }
    forall i, j | 0 <= i < |all| && 0 <= j < |all| && all[j] == Closed(all[i].c) ensures i <= j {
      MemberOf(some, gone, hooks, linkHooks);
      MemberOf(add, {c}, hooks, linkHooks);
      assert i < |some| ==> all[i] == some[i];
      assert j < |some| ==> all[j] == some[j];
      assert i >= |some| ==> all[i] == add[i - |some|];
      assert j >= |some| ==> all[j] == add[j - |some|];
    }
  }

  lemma MemberOf(more: seq<Event>, gone: set<Conn>, hooks: bool, linkHooks: bool)
    requires forall e :: multiset(more)[e] == if e.c in gone && Ends(e, hooks, linkHooks) then 1 else 0
    ensures forall i :: 0 <= i < |more| ==> more[i].c in gone
  {
    forall i | 0 <= i < |more| ensures more[i].c in gone {
      assert more[i] in multiset(more);
    }
  }

  lemma NothingGained(before: seq<Event>, hooks: bool, linkHooks: bool)
    ensures Gained(before, before, {}, hooks, linkHooks)
  {
    assert before[|before|..] == [];
  }

  /** Whom an update of the node index evicts: what is stored under the ID of a displaced direct bind. */
  function Evicted(t: Table, metas: Metas, node: u32, conn: Option<Conn>): (gone: set<Conn>) {
    if && node != 0 && conn.Some? && node in t.nodes && t.nodes[node] != conn.value && t.nodes[node].id != ""
       && t.nodes[node].id in t.conns && DirectBind(metas, node, conn.value) && DirectBind(metas, node, t.nodes[node])
    then {t.conns[t.nodes[node].id]} else {}
  }

  function UpdateNode(t: Table, metas: Metas, node: u32, conn: Option<Conn>): (r: Table) {
    var v := Victim(t, metas, node, conn);
    var t1 := UpdateNodeLocked(t, node, conn);
    if v != "" then RemoveAll(t1, v) else t1
  }

  /**
   Direct-bind conflict. From a consistent table, updating a node to a managed connection leaves
   the node on that connection, still managed. A directly bound predecessor with an ID disappears
   from all three maps when the newcomer is directly bound too; otherwise no connection is lost.
   */
  lemma DirectBindConflict(t: Table, metas: Metas, node: u32, conn: Conn)
    requires Consistent(t) && node != 0 && Managed(t, conn)
    ensures var r := UpdateNode(t, metas, node, Some(conn));
            var v := Victim(t, metas, node, Some(conn));
            && Consistent(r) && node in r.nodes && r.nodes[node] == conn && Managed(r, conn)
            && (v == "" ==> r.conns == t.conns)
            && (v != "" ==>
                  var prior := t.nodes[node];
                  && prior != conn && DirectBind(metas, node, prior) && DirectBind(metas, node, conn)
                  && r.conns == t.conns - {prior.id}
                  && prior !in r.conns.Values && prior !in r.nodes.Values && prior !in r.devs.Values)
            && (v == "" <==> !(&& node in t.nodes && t.nodes[node] != conn && t.nodes[node].id != ""
                               && DirectBind(metas, node, t.nodes[node]) && DirectBind(metas, node, conn)))
  {
  }

  // ---------------------------------------------------------------- the manager

  class Manager {
    var conns: map<string, Conn>
    var nodeIndex: map<u32, Conn>
    var devIndex: map<string, Conn>
    const hooks: bool
    const linkHooks: bool
    var events: seq<Event>

    /** A new manager with the hook sets that get installed on it. */
    constructor (hooks: bool, linkHooks: bool)
      ensures State() == EMPTY_TABLE && this.hooks == hooks && this.linkHooks == linkHooks && events == []
    {
      conns, nodeIndex, devIndex := map[], map[], map[];
      this.hooks, this.linkHooks, events := hooks, linkHooks, [];
    }

    ghost function State(): (t: Table)
      reads this
    {
      Table(conns, nodeIndex, devIndex)
    }

    method Add(conn: Option<Conn>, metas: Metas) returns (ok: bool)
      modifies this
      ensures ok <==> conn.Some? && conn.value.id !in old(conns)
      ensures !ok ==> State() == old(State()) && events == old(events)
      ensures ok ==> State() == AddLocked(old(State()), conn.value, metas)
      ensures ok ==> events == old(events) + (if hooks then [OnAdd(conn.value)] else [])
                               + (if linkHooks then [LinkOnAdd(conn.value)] else [])
    {
      if conn.None? { return false; }
      var c := conn.value;
      if c.id in conns { return false; }
      conns := conns[c.id := c];
      var node := ExtractNodeID(metas, c);
      if node != 0 {
        nodeIndex := nodeIndex[node := c];
      }
      var dev := DeviceOf(metas, c);
      if dev != "" {
        devIndex := devIndex[dev := c];
      }
      if hooks { events := events + [OnAdd(c)]; }
      if linkHooks { events := events + [LinkOnAdd(c)]; }
      ok := true;
    }

    method Remove(id: string) returns (ok: bool)
      modifies this
      ensures ok <==> id in old(conns)
      ensures State() == RemoveAll(old(State()), id)
      ensures events == old(events) + if ok then RemoveEvents(old(conns)[id], hooks, linkHooks) else []
      ensures Gained(old(events), events, if ok then {old(conns)[id]} else {}, hooks, linkHooks)
    {
      if id !in conns {
        NothingGained(events, hooks, linkHooks);
        return false;
      }
      var c := conns[id];
      RemoveGains(events, c, hooks, linkHooks);
      RemoveNodeIndexLocked(c);
      RemoveDeviceIndexLocked(c);
      conns := conns - {id};
      FireRemove(c);
      ok := true;
    }

    /** What Remove and CloseAll do once the lock is released. */
    method FireRemove(c: Conn)
      modifies `events
      ensures events == old(events) + RemoveEvents(c, hooks, linkHooks)
    {
      if hooks { events := events + [OnRemove(c)]; }
      if linkHooks { events := events + [LinkOnRemove(c)]; }
      events := events + [Closed(c)];
    }

    /** Deletes while walking, as Go allows: every entry that points at c goes, no other. */
    method RemoveNodeIndexLocked(c: Conn)
      modifies `nodeIndex
      ensures nodeIndex == Without(old(nodeIndex), c)
    {
      var left := nodeIndex.Keys;
      while left != {}
        invariant left <= old(nodeIndex).Keys
        invariant nodeIndex == map k | k in old(nodeIndex) && (k in left || old(nodeIndex)[k] != c) :: old(nodeIndex)[k]
        decreases |left|
      {
        var k :| k in left;
        if nodeIndex[k] == c {
          nodeIndex := nodeIndex - {k};
        }
        left := left - {k};
      }
    }

    method RemoveDeviceIndexLocked(c: Conn)
      modifies `devIndex
      ensures devIndex == Without(old(devIndex), c)
    {
      var left := devIndex.Keys;
      while left != {}
        invariant left <= old(devIndex).Keys
        invariant devIndex == map d | d in old(devIndex) && (d in left || old(devIndex)[d] != c) :: old(devIndex)[d]
        decreases |left|
      {
        var d :| d in left;
        if devIndex[d] == c {
          devIndex := devIndex - {d};
        }
        left := left - {d};
      }
    }

    method UpdateNodeIndex(node: u32, conn: Option<Conn>, metas: Metas)
      modifies this
      ensures State() == UpdateNode(old(State()), metas, node, conn)
      ensures var v := Victim(old(State()), metas, node, conn);
              events == old(events) +
                        if v != "" && v in old(conns) then RemoveEvents(old(conns)[v], hooks, linkHooks) else []
      ensures Gained(old(events), events, Evicted(old(State()), metas, node, conn), hooks, linkHooks)
    {
      NothingGained(events, hooks, linkHooks);
      if node == 0 { return; }
      if conn.None? {
        nodeIndex := nodeIndex - {node};
        return;
      }
      var oldDirectConnID := "";
      if && node in nodeIndex && nodeIndex[node] != conn.value
         && DirectBind(metas, node, conn.value) && DirectBind(metas, node, nodeIndex[node]) {
        oldDirectConnID := nodeIndex[node].id;
      }
      nodeIndex := nodeIndex[node := conn.value];
      if oldDirectConnID != "" {
        var _ := Remove(oldDirectConnID);
      }
    }

    method UpdateDeviceIndex(dev: string, conn: Option<Conn>)
      modifies `devIndex
      ensures State() == UpdateDeviceLocked(old(State()), dev, conn)
    {
      if dev == "" { return; }
      if conn.None? {
        if dev in devIndex {
          devIndex := devIndex - {dev};
        }
        return;
      }
      devIndex := devIndex[dev := conn.value];
    }

    /** CloseAll over a snapshot taken in some order. */
    method CloseAll(order: seq<Conn>)
      requires Snapshot(order, State())
      modifies this
      ensures State() == EMPTY_TABLE
      ensures events == old(events) + AllRemoveEvents(order, hooks, linkHooks)
      ensures Gained(old(events), events, Members(order), hooks, linkHooks)
    {
      assert NoDuplicates(order);
      hide Snapshot;
      hide Gained;
      hide NoDuplicates;
      AllRemoveGains(events, order, hooks, linkHooks);
      conns, nodeIndex, devIndex := map[], map[], map[];
      FireAll(order);
    }

    method FireAll(order: seq<Conn>)
      modifies `events
      ensures events == old(events) + AllRemoveEvents(order, hooks, linkHooks)
    {
      hide RemoveEvents;
      assert order[..0] == [] && AllRemoveEvents([], hooks, linkHooks) == [];
      hide AllRemoveEvents;
      for i := 0 to |order|
        invariant events == old(events) + AllRemoveEvents(order[..i], hooks, linkHooks)
      {
        AllRemoveSnoc(order, i, hooks, linkHooks);
        FireRemove(order[i]);
      }
      assert order[..|order|] == order;
    }
  }

  lemma AllRemoveSnoc(order: seq<Conn>, i: nat, hooks: bool, linkHooks: bool)
    requires i < |order|
    ensures AllRemoveEvents(order[..i + 1], hooks, linkHooks)
            == AllRemoveEvents(order[..i], hooks, linkHooks) + RemoveEvents(order[i], hooks, linkHooks)
  {
    assert order[..i + 1][..i] == order[..i];
  }

  function AllRemoveEvents(order: seq<Conn>, hooks: bool, linkHooks: bool): (es: seq<Event>) {
    if order == [] then []
    else AllRemoveEvents(order[..|order| - 1], hooks, linkHooks) + RemoveEvents(order[|order| - 1], hooks, linkHooks)
  }
}
