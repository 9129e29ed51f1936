/**
 Rooted trees of nodes: subtrees, the way from one node to another, and the fact that the
 route a hub computes hop by hop is the only simple path there is.
 */
module Trees {
  import opened Bytes
  import opened Links

  /** Parent of every node but the root, and the depth that makes the relation well-founded. */
  datatype Tree = Tree(parent: map<u32, u32>, root: u32, depth: map<u32, nat>)

  ghost predicate WellFormed(t: Tree) {
    && t.root in t.depth && t.depth[t.root] == 0 && 0 !in t.depth
    && t.parent.Keys == t.depth.Keys - {t.root}
    && forall n <- t.parent :: t.parent[n] in t.depth && t.depth[n] == t.depth[t.parent[n]] + 1
  }

  /** m lies in the subtree of n (n included). */
  ghost predicate Under(t: Tree, m: u32, n: u32)
    requires WellFormed(t) && m in t.depth
    decreases t.depth[m]
  {
    m == n || (m in t.parent && Under(t, t.parent[m], n))
  }

  lemma {:induction false} UnderIsDeeper(t: Tree, m: u32, n: u32)
    requires WellFormed(t) && m in t.depth && Under(t, m, n)
    ensures n in t.depth && t.depth[n] <= t.depth[m] && (t.depth[n] == t.depth[m] ==> m == n)
    decreases t.depth[m]
  {
    if m != n {
      UnderIsDeeper(t, t.parent[m], n);
    }
  }

  lemma {:induction false} UnderTransitive(t: Tree, a: u32, b: u32, c: u32)
    requires WellFormed(t) && a in t.depth && b in t.depth && Under(t, a, b) && Under(t, b, c)
    ensures Under(t, a, c)
    decreases t.depth[a]
  {
    if a != b {
      UnderTransitive(t, t.parent[a], b, c);
    }
  }

  lemma {:induction false} AllUnderRoot(t: Tree, m: u32)
    requires WellFormed(t) && m in t.depth
    ensures Under(t, m, t.root)
    decreases t.depth[m]
  {
    if m != t.root {
      AllUnderRoot(t, t.parent[m]);
    }
  }

  /** Two ancestors at the same depth are the same node. */
  lemma {:induction false} AncestorAtDepth(t: Tree, m: u32, a: u32, b: u32)
    requires WellFormed(t) && m in t.depth && Under(t, m, a) && Under(t, m, b)
    requires a in t.depth && b in t.depth && t.depth[a] == t.depth[b]
    ensures a == b
    decreases t.depth[m]
  {
    UnderIsDeeper(t, m, a);
    UnderIsDeeper(t, m, b);
    if m != a && m != b {
      AncestorAtDepth(t, t.parent[m], a, b);
    }
  }

  /** The child of n whose subtree holds m. */
  ghost function ChildToward(t: Tree, n: u32, m: u32): (c: u32)
    requires WellFormed(t) && m in t.depth && Under(t, m, n) && m != n
    ensures c in t.parent && t.parent[c] == n && Under(t, m, c)
    decreases t.depth[m]
  {
    if t.parent[m] == n then m else ChildToward(t, n, t.parent[m])
  }

  /** It is the only such child. */
  lemma ChildTowardUnique(t: Tree, n: u32, m: u32, c: u32)
    requires WellFormed(t) && m in t.depth && c in t.parent && t.parent[c] == n && Under(t, m, c)
    ensures Under(t, m, n) && m != n && ChildToward(t, n, m) == c
  {
    UnderTransitive(t, m, c, n);
    UnderIsDeeper(t, m, c);
    AncestorAtDepth(t, m, c, ChildToward(t, n, m));
  }

  // ---------------------------------------------------------------- the way

  ghost function Next(t: Tree, n: u32, m: u32): (k: u32)
    requires WellFormed(t) && n in t.depth && m in t.depth && n != m
    ensures k in t.depth
    ensures Under(t, m, n) ==> k in t.parent && t.parent[k] == n && Under(t, m, k)
    ensures !Under(t, m, n) ==> n in t.parent && k == t.parent[n]
  {
    if Under(t, m, n) then ChildToward(t, n, m) else (AllUnderRoot(t, m); t.parent[n])
  }

  /** The nodes passed from n to m: up to the first common ancestor, then down. */
  ghost function Way(t: Tree, n: u32, m: u32): (p: seq<u32>)
    requires WellFormed(t) && n in t.depth && m in t.depth
    ensures |p| >= 1 && p[0] == n && p[|p| - 1] == m
    decreases if Under(t, m, n) then 0 else 1, if Under(t, m, n) then WayDown(t, n, m) else t.depth[n]
  {
    if n == m then [n] else [n] + Way(t, Next(t, n, m), m)
  }

  ghost function WayDown(t: Tree, n: u32, m: u32): (d: nat)
    requires WellFormed(t) && m in t.depth && Under(t, m, n)
  {
    UnderIsDeeper(t, m, n);
    t.depth[m] - t.depth[n]
  }

  predicate Adjacent(t: Tree, a: u32, b: u32) {
    (a in t.parent && t.parent[a] == b) || (b in t.parent && t.parent[b] == a)
  }

  /** A walk along tree edges. */
  ghost predicate Walk(t: Tree, p: seq<u32>) {
    && |p| >= 1
    && (forall i :: 0 <= i < |p| ==> p[i] in t.depth)
    && (forall i :: 0 <= i < |p| - 1 ==> Adjacent(t, p[i], p[i + 1]))
  }

  /** A walk from a to b that visits no node twice. */
  ghost predicate SimplePath(t: Tree, p: seq<u32>, a: u32, b: u32) {
    Walk(t, p) && NoDuplicates(p) && p[0] == a && p[|p| - 1] == b
  }

  /** A walk with one end inside the subtree of x and one outside uses the edge above x. */
  lemma {:induction false} CrossesAbove(t: Tree, p: seq<u32>, x: u32)
    requires WellFormed(t) && Walk(t, p) && x in t.depth
    requires Under(t, p[0], x) != Under(t, p[|p| - 1], x)
    ensures x in t.parent && x in p && t.parent[x] in p
  {
    assert |p| >= 2;
    assert Adjacent(t, p[0], p[1]);
    assert p[0] in p && p[1] in p;
    if Under(t, p[0], x) == Under(t, p[1], x) {
      CrossesAbove(t, p[1..], x);
    }
  }

  /** The first hop of any simple path is the hop the hub takes. */
  lemma FirstHopForced(t: Tree, p: seq<u32>, n: u32, m: u32)
    requires WellFormed(t) && m in t.depth && SimplePath(t, p, n, m) && n != m
    ensures |p| >= 2 && p[1] == Next(t, n, m)
  {
    assert |p| >= 2 && Adjacent(t, n, p[1]);
    var rest := p[1..];
    assert Walk(t, rest) && rest[|rest| - 1] == m;
    assert n !in rest;
    if n in t.parent && t.parent[n] == p[1] {
      if Under(t, m, n) {
        if Under(t, p[1], n) { UnderIsDeeper(t, p[1], n); }
        CrossesAbove(t, rest, n);
      }
    } else {
      var c := p[1];
      if Under(t, m, c) {
        ChildTowardUnique(t, n, m, c);
      } else {
        CrossesAbove(t, rest, c);
      }
    }
  }

  /** Every simple path from n to m is the way: there is at most one. */
  lemma {:induction false} SimplePathIsWay(t: Tree, p: seq<u32>, n: u32, m: u32)
    requires WellFormed(t) && m in t.depth && SimplePath(t, p, n, m)
    ensures p == Way(t, n, m)
    decreases |p|
  {
    if n == m {
      assert |p| == 1;
    } else {
      FirstHopForced(t, p, n, m);
      SimplePathIsWay(t, p[1..], p[1], m);
      assert p == [n] + p[1..];
    }
  }

  /** A way between two nodes outside a subtree stays outside it. */
  lemma {:induction false} WayAvoids(t: Tree, a: u32, m: u32, x: u32)
    requires WellFormed(t) && a in t.depth && m in t.depth && !Under(t, a, x) && !Under(t, m, x)
    ensures x !in Way(t, a, m)
    decreases |Way(t, a, m)|
  {
    if a != m {
      var k := Next(t, a, m);
      assert !Under(t, k, x);
      WayAvoids(t, k, m, x);
    }
  }

  /** A way down stays inside the subtree it enters. */
  lemma {:induction false} WayStaysUnder(t: Tree, c: u32, m: u32)
    requires WellFormed(t) && c in t.depth && m in t.depth && Under(t, m, c)
    ensures forall i :: 0 <= i < |Way(t, c, m)| ==> Way(t, c, m)[i] in t.depth && Under(t, Way(t, c, m)[i], c)
    decreases |Way(t, c, m)|
  {
    if c != m {
      var k := Next(t, c, m);
      WayStaysUnder(t, k, m);
      var w := Way(t, k, m);
      forall i | 0 <= i < |w| ensures Under(t, w[i], c) {
        UnderTransitive(t, w[i], k, c);
      }
    }
  }

  /** The way never returns to where it started. */
  lemma WayLeavesStart(t: Tree, n: u32, m: u32)
    requires WellFormed(t) && n in t.depth && m in t.depth && n != m
    ensures n !in Way(t, Next(t, n, m), m)
  {
    var k := Next(t, n, m);
    if Under(t, m, n) {
      WayStaysUnder(t, k, m);
      if n in Way(t, k, m) {
        var i :| 0 <= i < |Way(t, k, m)| && Way(t, k, m)[i] == n;
        UnderIsDeeper(t, n, k);
      }
    } else {
      if Under(t, k, n) { UnderIsDeeper(t, k, n); }
      WayAvoids(t, k, m, n);
    }
  }

  /** The way is a simple path; with `SimplePathIsWay`, there is exactly one between any two nodes. */
  lemma {:induction false} WayIsSimplePath(t: Tree, n: u32, m: u32)
    requires WellFormed(t) && n in t.depth && m in t.depth
    ensures SimplePath(t, Way(t, n, m), n, m)
    decreases |Way(t, n, m)|
  {
    if n != m {
      var k := Next(t, n, m);
      WayIsSimplePath(t, k, m);
      WayLeavesStart(t, n, m);
    }
  }
}
