/**
 Connections as the routing layer sees them: an identity, an ID, dynamic metadata, and the
 three lookup tables the connection manager keeps.
 */
module Links {
  import opened Bytes

  /** A connection object: two objects may carry the same ID, `handle` tells them apart. */
  datatype Conn = Conn(handle: nat, id: string)

  /** A metadata value with its dynamic type. */
  datatype MetaVal = U32(u: u32) | U64(n: nat) | Int(i: int) | Int64(l: int) | Str(s: string) | Opaque

  type Meta = map<string, MetaVal>

  /** What GetMeta answers at one moment, for every connection. */
  type Metas = map<Conn, Meta>

  function GetMeta(ms: Metas, c: Conn, key: string): (v: Option<MetaVal>) {
    if c in ms && key in ms[c] then Some(ms[c][key]) else None
  }

  /** Node number bound to a connection: only a value stored as uint32 counts, 0 means unbound. */
  function ExtractNodeID(ms: Metas, c: Conn): (id: u32) {
    match GetMeta(ms, c, "nodeID")
    case Some(U32(u)) => u
    case _ => 0
  }

  predicate IsParentConn(ms: Metas, c: Conn) {
    GetMeta(ms, c, "role") == Some(Str("parent"))
  }

  /** asUint32: wider integers are truncated, negative ones refused. */
  function AsUint32(v: MetaVal): (r: Option<u32>) {
    match v
    case U32(u) => Some(u)
    case U64(n) => Some(n % 0x1_0000_0000)
    case Int(i) => if i < 0 then None else Some(i % 0x1_0000_0000)
    case Int64(l) => if l < 0 then None else Some(l % 0x1_0000_0000)
    case _ => None
  }

  /** The primary map and the two reverse indexes. */
  datatype Table = Table(conns: map<string, Conn>, nodes: map<u32, Conn>, devs: map<string, Conn>)

  const EMPTY_TABLE := Table(map[], map[], map[])

  predicate Managed(t: Table, c: Conn) {
    c.id in t.conns && t.conns[c.id] == c
  }

  /** Primary entries sit under their own ID. */
  ghost predicate Keyed(t: Table) {
    forall id <- t.conns :: t.conns[id].id == id
  }

  /** Besides, index entries have real keys and managed values. */
  ghost predicate Consistent(t: Table) {
    && Keyed(t)
    && (forall k <- t.nodes :: k != 0 && Managed(t, t.nodes[k]))
    && (forall d <- t.devs :: d != "" && Managed(t, t.devs[d]))
  }

  predicate NoDuplicates<T(==)>(s: seq<T>) {
    forall i, j :: 0 <= i < j < |s| ==> s[i] != s[j]
  }

  /** A snapshot as Range takes it: every managed connection once, in some order. */
  ghost predicate Snapshot(order: seq<Conn>, t: Table) {
    && NoDuplicates(order)
    && (forall c <- order :: Managed(t, c))
    && (forall id <- t.conns :: t.conns[id] in order)
  }

  lemma SnapshotMembers(order: seq<Conn>, t: Table)
    requires Snapshot(order, t)
    ensures forall c :: c in order <==> Managed(t, c)
  {
    forall c | Managed(t, c) ensures c in order {
      assert t.conns[c.id] in order;
    }
  }

  /** The connections of a scan that satisfy p, in scan order. */
  function Filter<T>(s: seq<T>, p: T -> bool): (r: seq<T>)
    ensures |r| <= |s|
  {
    if s == [] then []
    else if p(s[0]) then [s[0]] + Filter(s[1..], p)
    else Filter(s[1..], p)
  }

  lemma {:induction false} FilterMembers<T>(s: seq<T>, p: T -> bool)
    ensures forall x :: x in Filter(s, p) <==> x in s && p(x)
  {
    if s != [] {
      FilterMembers(s[1..], p);
      assert s == [s[0]] + s[1..];
    }
  }

  lemma {:induction false} FilterNoDuplicates<T>(s: seq<T>, p: T -> bool)
    requires NoDuplicates(s)
    ensures NoDuplicates(Filter(s, p))
  {
    if s != [] {
      FilterNoDuplicates(s[1..], p);
      FilterMembers(s[1..], p);
    }
  }

  /** First element of a scan that satisfies p. */
  function First<T>(s: seq<T>, p: T -> bool): (r: Option<T>)
    ensures r.Some? ==> r.value in s && p(r.value)
    ensures r.None? ==> forall x <- s :: !p(x)
  {
    if s == [] then None
    else if p(s[0]) then Some(s[0])
    else First(s[1..], p)
  }
}
