/** Finite directed graphs with parallel edges: `g[a]` lists the successors of `a`.

Reachability is counted in steps, so that it can be stated for nodes that are objects.
*/
module Graph {
  import opened Lists

  type Edges<N> = map<N, seq<N>>

  /** `b` can be reached from `a` in at least one and at most `n` steps. */
  ghost predicate ReachIn<N>(g: Edges<N>, a: N, b: N, n: nat)
    decreases n
  {
    n > 0 && a in g && exists c :: c in g[a] && (c == b || ReachIn(g, c, b, n - 1))
  }

  ghost predicate Reach<N>(g: Edges<N>, a: N, b: N) {
    exists n: nat :: ReachIn(g, a, b, n)
  }

  ghost predicate Closed<N>(g: Edges<N>) {
    forall a, c :: a in g && c in g[a] ==> c in g
  }

  ghost predicate Acyclic<N>(g: Edges<N>) {
    forall a :: a in g ==> !Reach(g, a, a)
  }

  lemma {:induction false} ReachInMore<N>(g: Edges<N>, a: N, b: N, n: nat, m: nat)
    requires ReachIn(g, a, b, n) && n <= m
    ensures ReachIn(g, a, b, m)
    decreases n
  {
    var c :| c in g[a] && (c == b || ReachIn(g, c, b, n - 1));
    if c != b {
      ReachInMore(g, c, b, n - 1, m - 1);
    }
  }

  lemma ReachEdge<N>(g: Edges<N>, a: N, b: N)
    requires a in g && b in g[a]
    ensures Reach(g, a, b)
  {
    assert ReachIn(g, a, b, 1);
  }

  // The first step of a journey.
  lemma ReachFirst<N>(g: Edges<N>, a: N, b: N) returns (c: N)
    requires Reach(g, a, b)
    ensures a in g && c in g[a] && (c == b || Reach(g, c, b))
  {
    var n: nat :| ReachIn(g, a, b, n);
    c :| c in g[a] && (c == b || ReachIn(g, c, b, n - 1));
  }

  lemma ReachStep<N>(g: Edges<N>, a: N, c: N, b: N)
    requires a in g && c in g[a] && (c == b || Reach(g, c, b))
    ensures Reach(g, a, b)
  {
    if c == b {
      ReachEdge(g, a, b);
    } else {
      var n: nat :| ReachIn(g, c, b, n);
      assert ReachIn(g, a, b, n + 1);
    }
  }

  lemma {:induction false} ReachTrans<N>(g: Edges<N>, a: N, b: N, c: N)
    requires Reach(g, a, b) && Reach(g, b, c)
    ensures Reach(g, a, c)
  {
    var n: nat :| ReachIn(g, a, b, n);
    ReachInTrans(g, a, b, c, n);
  }

  lemma {:induction false} ReachInTrans<N>(g: Edges<N>, a: N, b: N, c: N, n: nat)
    requires ReachIn(g, a, b, n) && Reach(g, b, c)
    ensures Reach(g, a, c)
    decreases n
  {
    var d :| d in g[a] && (d == b || ReachIn(g, d, b, n - 1));
    if d != b {
      ReachInTrans(g, d, b, c, n - 1);
    }
    ReachStep(g, a, d, c);
  }

  lemma {:induction false} ReachInClosed<N>(g: Edges<N>, a: N, b: N, n: nat)
    requires Closed(g) && ReachIn(g, a, b, n)
    ensures b in g
    decreases n
  {
    var c :| c in g[a] && (c == b || ReachIn(g, c, b, n - 1));
    if c != b {
      ReachInClosed(g, c, b, n - 1);
    }
  }

  // ---------------------------------------------------------------- growing

  ghost predicate Grows<N>(g: Edges<N>, h: Edges<N>) {
    forall a, c :: a in g && c in g[a] ==> a in h && c in h[a]
  }

  lemma {:induction false} ReachGrows<N>(g: Edges<N>, h: Edges<N>, a: N, b: N)
    requires Grows(g, h) && Reach(g, a, b)
    ensures Reach(h, a, b)
  {
    var n: nat :| ReachIn(g, a, b, n);
    ReachInGrows(g, h, a, b, n);
  }

  lemma {:induction false} ReachInGrows<N>(g: Edges<N>, h: Edges<N>, a: N, b: N, n: nat)
    requires Grows(g, h) && ReachIn(g, a, b, n)
    ensures Reach(h, a, b)
    decreases n
  {
    var c :| c in g[a] && (c == b || ReachIn(g, c, b, n - 1));
    if c != b {
      ReachInGrows(g, h, c, b, n - 1);
    }
    ReachStep(h, a, c, b);
  }

  function AddEdge<N>(g: Edges<N>, u: N, l: N): Edges<N>
    requires u in g
  {
    g[u := g[u] + [l]]
  }

  lemma GrowsRefl<N>(g: Edges<N>)
    ensures Grows(g, g)
  {
  }

  lemma GrowsTrans<N>(g: Edges<N>, h: Edges<N>, k: Edges<N>)
    requires Grows(g, h) && Grows(h, k)
    ensures Grows(g, k)
  {
  }

  lemma GrowsAdd<N>(g: Edges<N>, h: Edges<N>, u: N, l: N)
    requires Grows(g, h) && u in h
    ensures Grows(g, AddEdge(h, u, l))
  {
  }

  /** A journey over the graph with the edge u -> l added is an old one, or one that gets to `u`,
      takes the edge and goes on from `l`. */
  lemma {:induction false} AddEdgeReach<N>(g: Edges<N>, u: N, l: N, a: N, b: N, n: nat)
    requires u in g && ReachIn(AddEdge(g, u, l), a, b, n)
    ensures Reach(g, a, b) || ((a == u || Reach(g, a, u)) && (l == b || Reach(g, l, b)))
    decreases n
  {
    var h := AddEdge(g, u, l);
    var c :| c in h[a] && (c == b || ReachIn(h, c, b, n - 1));
    if c != b {
      AddEdgeReach(g, u, l, c, b, n - 1);
    }
    if c in g[a] {
      if c == b || Reach(g, c, b) {
        ReachStep(g, a, c, b);
      } else if c == u || Reach(g, c, u) {
        ReachStep(g, a, c, u);
      }
    } else {
      assert a == u && c == l;
    }
  }

  /** An edge u -> l may be added to an acyclic graph exactly when it is no self-edge and `u`
      cannot be reached from `l`. */
  lemma {:induction false} AddEdgeAcyclic<N>(g: Edges<N>, u: N, l: N)
    requires Acyclic(g) && u in g
    ensures Acyclic(AddEdge(g, u, l)) <==> u != l && !Reach(g, l, u)
  {
    var h := AddEdge(g, u, l);
    if u != l && !Reach(g, l, u) {
      forall a | a in h ensures !Reach(h, a, a) {
        if Reach(h, a, a) {
          var n: nat :| ReachIn(h, a, a, n);
          AddEdgeReach(g, u, l, a, a, n);
          if a != u && a != l {
            ReachTrans(g, l, a, u);
          }
        }
      }
    } else {
      if u != l {
        ReachGrows(g, h, l, u);
      }
      ReachStep(h, u, l, u);
    }
  }

  /** `h` has every edge of `g` the other way round, as often. */
  ghost predicate Mirror<N>(g: Edges<N>, h: Edges<N>) {
    && g.Keys == h.Keys && Closed(h)
    && forall u, l :: u in g && l in g ==> multiset(g[u])[l] == multiset(h[l])[u]
  }

  lemma AddEdgeMirror<N>(g: Edges<N>, h: Edges<N>, u: N, l: N)
    requires Mirror(g, h) && u in g && l in g
    ensures Mirror(AddEdge(g, u, l), AddEdge(h, l, u))
  {
    var g', h' := AddEdge(g, u, l), AddEdge(h, l, u);
    forall a, b | a in g' && b in g' ensures multiset(g'[a])[b] == multiset(h'[b])[a] {
      assert multiset(g[u] + [l]) == multiset(g[u]) + multiset{l};
      assert multiset(h[l] + [u]) == multiset(h[l]) + multiset{u};
    }
  }

  lemma MirrorIn<N>(g: Edges<N>, h: Edges<N>, u: N, l: N)
    requires Mirror(g, h) && u in g && l in g
    ensures l in g[u] <==> u in h[l]
  {
    assert l in g[u] <==> multiset(g[u])[l] > 0;
    assert u in h[l] <==> multiset(h[l])[u] > 0;
  }

  function AddNode<N>(g: Edges<N>, n: N): Edges<N> {
    g[n := []]
  }

  // A node without edges changes nothing.
  lemma {:induction false} AddNodeReach<N>(g: Edges<N>, n: N, a: N, b: N, k: nat)
    requires Closed(g) && n !in g && ReachIn(AddNode(g, n), a, b, k)
    ensures Reach(g, a, b)
    decreases k
  {
    var h := AddNode(g, n);
    var c :| c in h[a] && (c == b || ReachIn(h, c, b, k - 1));
    if c != b {
      AddNodeReach(g, n, c, b, k - 1);
    }
    ReachStep(g, a, c, b);
  }

  lemma AddNodeKeeps<N>(g: Edges<N>, h: Edges<N>, n: N)
    requires Closed(g) && Mirror(g, h) && Acyclic(g) && n !in g
    ensures Closed(AddNode(g, n)) && Mirror(AddNode(g, n), AddNode(h, n)) && Acyclic(AddNode(g, n))
    ensures Grows(g, AddNode(g, n))
  {
    var g', h' := AddNode(g, n), AddNode(h, n);
    forall a | a in g' ensures !Reach(g', a, a) {
      if Reach(g', a, a) {
        var k: nat :| ReachIn(g', a, a, k);
        AddNodeReach(g, n, a, a, k);
      }
    }
    forall u, l | u in g' && l in g' ensures multiset(g'[u])[l] == multiset(h'[l])[u] {
      if u in g && l in g {
        assert multiset(g[u])[l] == multiset(h[l])[u];
      } else if u in g {
        assert multiset(g[u])[l] > 0 <==> l in g[u];
      } else if l in g {
        assert multiset(h[l])[u] > 0 <==> u in h[l];
      }
    }
  }

  // ---------------------------------------------------------------- descendants

  ghost function Below<N>(g: Edges<N>, a: N): set<N> {
    set b | b in g && Reach(g, a, b)
  }

  // Going down an edge of an acyclic graph leaves strictly fewer nodes below.
  lemma BelowShrinks<N>(g: Edges<N>, a: N, c: N)
    requires Closed(g) && Acyclic(g) && a in g && c in g[a]
    ensures Below(g, c) < Below(g, a)
  {
    ReachEdge(g, a, c);
    forall b | b in Below(g, c) ensures b in Below(g, a) {
      ReachStep(g, a, c, b);
    }
    assert c in Below(g, a) && c !in Below(g, c);
  }

  ghost function Above<N>(g: Edges<N>, b: N): set<N> {
    set a | a in g && Reach(g, a, b)
  }

  lemma AboveShrinks<N>(g: Edges<N>, p: N, b: N)
    requires Acyclic(g) && p in g && b in g[p]
    ensures Above(g, p) < Above(g, b)
  {
    ReachEdge(g, p, b);
    forall a | a in Above(g, p) ensures a in Above(g, b) {
      ReachTrans(g, a, p, b);
    }
    assert p in Above(g, b) && p !in Above(g, p);
  }

  ghost predicate IsRoot<N>(g: Edges<N>, r: N) {
    r in g && forall a :: a in g ==> r !in g[a]
  }

  /** In an acyclic graph every node is a root or can be reached from one. */
  lemma {:induction false} RootAbove<N>(g: Edges<N>, b: N) returns (r: N)
    requires Closed(g) && Acyclic(g) && b in g
    ensures IsRoot(g, r) && (r == b || Reach(g, r, b))
    decreases Above(g, b)
  {
    if IsRoot(g, b) {
      r := b;
    } else {
      var p :| p in g && b in g[p];
      ReachEdge(g, p, b);
      AboveShrinks(g, p, b);
      r := RootAbove(g, p);
      if r != p {
        ReachTrans(g, r, p, b);
      }
    }
  }

  // ---------------------------------------------------------------- orderings of a line

  /** Every edge joins neighbours on the line `ds`, and no two neighbours are joined both ways. */
  ghost predicate OnLine<N>(g: Edges<N>, ds: seq<N>) {
    && NoRepeats(ds)
    && g.Keys == (set i | 0 <= i < |ds| :: ds[i])
    && Closed(g)
    && (forall i, j :: 0 <= i < |ds| && 0 <= j < |ds| && ds[j] in g[ds[i]] ==>
          (j == i + 1 || i == j + 1) && ds[i] !in g[ds[j]])
  }

  /** On such a graph a journey never turns round, so it starts by stepping towards its end. */
  lemma {:induction false} LineReach<N>(g: Edges<N>, ds: seq<N>, i: nat, j: nat, n: nat)
    requires OnLine(g, ds) && i < |ds| && j < |ds| && ReachIn(g, ds[i], ds[j], n)
    ensures i != j
    ensures i < j ==> ds[i + 1] in g[ds[i]]
    ensures j < i ==> ds[i - 1] in g[ds[i]]
    decreases n
  {
    var c :| c in g[ds[i]] && (c == ds[j] || ReachIn(g, c, ds[j], n - 1));
    assert c in g;
    var k :| 0 <= k < |ds| && ds[k] == c;
    if c != ds[j] {
      LineReach(g, ds, k, j, n - 1);
    }
  }

  /** Hence the graph is acyclic, and between neighbours only the direct edge counts. */
  lemma OnLineAcyclic<N>(g: Edges<N>, ds: seq<N>)
    requires OnLine(g, ds)
    ensures Acyclic(g)
    ensures forall i, j :: 0 <= i < |ds| && 0 <= j < |ds| && (j == i + 1 || i == j + 1) ==>
      (Reach(g, ds[i], ds[j]) <==> ds[j] in g[ds[i]])
  {
    forall a | a in g ensures !Reach(g, a, a) {
      var i :| 0 <= i < |ds| && ds[i] == a;
      if Reach(g, a, a) {
        var n: nat :| ReachIn(g, a, a, n);
        LineReach(g, ds, i, i, n);
      }
    }
    forall i, j | 0 <= i < |ds| && 0 <= j < |ds| && (j == i + 1 || i == j + 1)
      ensures Reach(g, ds[i], ds[j]) <==> ds[j] in g[ds[i]]
    {
      if Reach(g, ds[i], ds[j]) {
        var n: nat :| ReachIn(g, ds[i], ds[j], n);
        LineReach(g, ds, i, j, n);
      }
      if ds[j] in g[ds[i]] {
        ReachEdge(g, ds[i], ds[j]);
      }
    }
  }

  /** How two neighbours on the line are ordered: the first depends on the second, or the other
      way round, or neither. */
  datatype Direction = Down | Up | Neither

  function Gaps<N>(ds: seq<N>): nat {
    if ds == [] then 0 else |ds| - 1
  }

  ghost predicate LineIs<N>(g: Edges<N>, ds: seq<N>, dirs: seq<Direction>) {
    && OnLine(g, ds) && |dirs| == Gaps(ds)
    && forall i :: 0 <= i < |dirs| ==>
      (ds[i + 1] in g[ds[i]] <==> dirs[i] == Down) && (ds[i] in g[ds[i + 1]] <==> dirs[i] == Up)
  }

  // The gap an edge stands for.
  lemma LineEdge<N>(g: Edges<N>, ds: seq<N>, dirs: seq<Direction>, u: N, d: N) returns (i: nat)
    requires LineIs(g, ds, dirs) && u in g && d in g[u]
    ensures i < |dirs| && |dirs| == Gaps(ds)
    ensures if dirs[i] == Down then u == ds[i] && d == ds[i + 1] else dirs[i] == Up && u == ds[i + 1] && d == ds[i]
  {
    var j: nat :| j < |ds| && ds[j] == u;
    assert d in g;
    var k: nat :| k < |ds| && ds[k] == d;
    i := if j < k then j else k;
  }

  // Ordering two neighbours, for the first time or once more the same way.
  lemma LineAdd<N>(g: Edges<N>, ds: seq<N>, dirs: seq<Direction>, i: nat, dir: Direction)
    requires LineIs(g, ds, dirs) && i < |dirs|
    requires dir != Neither && (dirs[i] == Neither || dirs[i] == dir)
    ensures var u, l := if dir == Down then ds[i] else ds[i + 1], if dir == Down then ds[i + 1] else ds[i];
            u in g && l in g && u != l && !Reach(g, l, u) && LineIs(AddEdge(g, u, l), ds, dirs[i := dir])
  {
    var u, l := if dir == Down then ds[i] else ds[i + 1], if dir == Down then ds[i + 1] else ds[i];
    LineNoReturn(g, ds, dirs, i, dir);
    hide Reach;
    var h := AddEdge(g, u, l);
    forall a, b | 0 <= a < |ds| && 0 <= b < |ds| && ds[b] in h[ds[a]]
      ensures (b == a + 1 || a == b + 1) && ds[a] !in h[ds[b]]
    {
      hide AddEdge;
      AddEdgeIs(g, u, l, ds[a], ds[b]);
      AddEdgeIs(g, u, l, ds[b], ds[a]);
      if ds[b] !in g[ds[a]] {
        assert ds[a] == u && ds[b] == l;
      }
    }
  }

  lemma AddEdgeIs<N>(g: Edges<N>, u: N, l: N, a: N, b: N)
    requires u in g && a in g
    ensures a in AddEdge(g, u, l) && (b in AddEdge(g, u, l)[a] <==> b in g[a] || (a == u && b == l))
  {
  }

  // Nothing leads back over a gap that is open, or ordered the same way.
  lemma LineNoReturn<N>(g: Edges<N>, ds: seq<N>, dirs: seq<Direction>, i: nat, dir: Direction)
    requires LineIs(g, ds, dirs) && i < |dirs|
    requires dir != Neither && (dirs[i] == Neither || dirs[i] == dir)
    ensures var u, l := if dir == Down then ds[i] else ds[i + 1], if dir == Down then ds[i + 1] else ds[i];
            u in g && l in g && u != l && u !in g[l] && !Reach(g, l, u)
  {
    OnLineAcyclic(g, ds);
  }
}
