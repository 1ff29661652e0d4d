/** The workflow as it is handed out: every root hop unfolded into the tree of what it depends on. */
module Forest {
  import opened Graph
  import opened Lists
  import opened Workflow

  datatype Hop =
    Hop(hopUrn: string, aggregateUrn: string, aggregateUrl: string, importVlans: bool, dependencies: seq<Hop>)

  /** `t` is `d` with everything below it, path by path; a hop imports VLANs exactly when it depends
      on another. */
  ghost predicate Unfolds(t: Hop, d: Dependency, g: Edges<Dependency>) {
    && d in g && t.hopUrn == d.hopUrn && t.aggregateUrn == d.aggregateUrn
    && t.aggregateUrl == d.link.aggregateUrl
    && t.importVlans == (g[d] != []) && |t.dependencies| == |g[d]|
    && forall i :: 0 <= i < |t.dependencies| ==> Unfolds(t.dependencies[i], g[d][i], g)
  }

  predicate Contains(t: Hop, urn: string) {
    t.hopUrn == urn || exists i :: 0 <= i < |t.dependencies| && Contains(t.dependencies[i], urn)
  }

  /** The tree of `d` contains `d`, what can be reached from it, and nothing else. */
  lemma {:induction false} UnfoldsContains(t: Hop, d: Dependency, g: Edges<Dependency>, urn: string)
    requires Unfolds(t, d, g) && Closed(g)
    ensures Contains(t, urn) <==> exists x :: x in g && (x == d || Reach(g, d, x)) && x.hopUrn == urn
  {
    forall i | 0 <= i < |t.dependencies|
      ensures Contains(t.dependencies[i], urn) <==>
        exists x :: x in g && (x == g[d][i] || Reach(g, g[d][i], x)) && x.hopUrn == urn
    {
      UnfoldsContains(t.dependencies[i], g[d][i], g, urn);
    }
    if Contains(t, urn) && t.hopUrn != urn {
      var i :| 0 <= i < |t.dependencies| && Contains(t.dependencies[i], urn);
      var x :| x in g && (x == g[d][i] || Reach(g, g[d][i], x)) && x.hopUrn == urn;
      ReachStep(g, d, g[d][i], x);
    }
    if x :| x in g && (x == d || Reach(g, d, x)) && x.hopUrn == urn {
      if x != d {
        var c := ReachFirst(g, d, x);
        var i :| 0 <= i < |g[d]| && g[d][i] == c;
        assert Contains(t.dependencies[i], urn);
      }
    }
  }

  lemma SoundGraph(ds: seq<Dependency>)
    requires Sound(ds)
    ensures Closed(EdgesOf(ds)) && Acyclic(EdgesOf(ds))
    ensures forall d :: d in ds ==> (d.getVlanFrom <==> d.lowers != [])
  {
  }

  lemma ClosedAt(g: Edges<Dependency>, u: Dependency, l: Dependency)
    requires Closed(g) && u in g && l in g[u]
    ensures l in g
  {
  }

  /** Unfold one hop. The recursion ends because the orderings are acyclic. */
  method DumpRecursive(D: Dependency, ghost ds: seq<Dependency>) returns (t: Hop)
    requires Sound(ds) && D in ds
    ensures Unfolds(t, D, EdgesOf(ds))
    decreases Below(EdgesOf(ds), D)
  {
    hide Sound, Closed, Acyclic;
    ghost var g := EdgesOf(ds);
    SoundGraph(ds);
    var arrayData: seq<Hop> := [];
    var i := 0;
    while i < |D.lowers|
      invariant i <= |D.lowers| && |arrayData| == i
      invariant forall k :: 0 <= k < i ==> Unfolds(arrayData[k], D.lowers[k], g)
    {
      BelowShrinks(g, D, D.lowers[i]);
      ClosedAt(g, D, D.lowers[i]);
      var child := DumpRecursive(D.lowers[i], ds);
      arrayData := arrayData + [child];
      i := i + 1;
    }
    t := Hop(D.hopUrn, D.aggregateUrn, D.link.aggregateUrl, D.getVlanFrom, arrayData);
  }

  // The hops among the first `n` that nothing depends on.
  ghost function RootsAmong(ds: seq<Dependency>, n: nat): seq<Dependency>
    requires n <= |ds|
    reads ds
  {
    if n == 0 then [] else RootsAmong(ds, n - 1) + if ds[n - 1].uppers == [] then [ds[n - 1]] else []
  }

  lemma {:induction false} RootsAmongAre(ds: seq<Dependency>, n: nat, d: Dependency)
    requires n <= |ds| && NoRepeats(ds)
    ensures d in RootsAmong(ds, n) <==> d in ds[..n] && d.uppers == []
    ensures NoRepeats(RootsAmong(ds, n))
  {
    if n > 0 {
      RootsAmongAre(ds, n - 1, d);
      RootsAmongAre(ds, n - 1, ds[n - 1]);
      assert ds[..n] == ds[..n - 1] + [ds[n - 1]];
    }
  }

  /** `roots` are some of `ds`, in their order. */
  ghost predicate InOrderOf(roots: seq<Dependency>, ds: seq<Dependency>) {
    exists at: seq<nat> :: PlacedAt(roots, ds, at)
  }

  ghost predicate PlacedAt(roots: seq<Dependency>, ds: seq<Dependency>, at: seq<nat>) {
    && |at| == |roots| && (forall k :: 0 <= k < |at| ==> at[k] < |ds| && ds[at[k]] == roots[k])
    && forall j, k :: 0 <= j < k < |at| ==> at[j] < at[k]
  }

  lemma {:induction false} RootsPlaced(ds: seq<Dependency>, n: nat) returns (at: seq<nat>)
    requires n <= |ds|
    ensures PlacedAt(RootsAmong(ds, n), ds, at) && forall k :: 0 <= k < |at| ==> at[k] < n
  {
    if n == 0 {
      at := [];
    } else {
      at := RootsPlaced(ds, n - 1);
      if ds[n - 1].uppers == [] {
        at := at + [n - 1];
      }
    }
  }

  lemma RootsInOrder(ds: seq<Dependency>)
    ensures InOrderOf(RootsAmong(ds, |ds|), ds)
  {
    hide RootsAmong;
    var at := RootsPlaced(ds, |ds|);
  }

  lemma RootsAre(ds: seq<Dependency>)
    requires Sound(ds)
    ensures NoRepeats(RootsAmong(ds, |ds|))
    ensures forall d :: d in RootsAmong(ds, |ds|) ==> d in ds && IsRoot(EdgesOf(ds), d)
    ensures forall d :: d in ds && IsRoot(EdgesOf(ds), d) ==> d in RootsAmong(ds, |ds|)
  {
    hide Sound, RootsAmong, IsRoot;
    var roots := RootsAmong(ds, |ds|);
    RootsApart(ds);
    forall d | d in roots ensures d in ds && IsRoot(EdgesOf(ds), d) {
      RootIs(ds, d);
    }
    forall d | d in ds && IsRoot(EdgesOf(ds), d) ensures d in roots {
      RootIs(ds, d);
    }
  }

  lemma RootIs(ds: seq<Dependency>, d: Dependency)
    requires Sound(ds)
    ensures d in RootsAmong(ds, |ds|) <==> d in ds && IsRoot(EdgesOf(ds), d)
  {
    SoundNoRepeats(ds);
    hide Sound, RootsAmong, IsRoot;
    assert ds[..|ds|] == ds;
    RootsAmongAre(ds, |ds|, d);
    if d in ds {
      RootHasNoUppers(ds, d);
    }
  }

  lemma RootsApart(ds: seq<Dependency>)
    requires Sound(ds)
    ensures NoRepeats(RootsAmong(ds, |ds|))
  {
    SoundNoRepeats(ds);
    if ds == [] {
      NoRoots(ds);
    } else {
      RootsAmongAre(ds, |ds|, ds[0]);
    }
  }

  lemma NoRoots(ds: seq<Dependency>)
    ensures RootsAmong(ds, 0) == []
  {
  }

  lemma SoundNoRepeats(ds: seq<Dependency>)
    requires Sound(ds)
    ensures NoRepeats(ds)
  {
  }

  // Every hop of a sound workflow is in the tree of some root.
  lemma ForestContains(ds: seq<Dependency>, forest: seq<Hop>, roots: seq<Dependency>, d: Dependency)
    requires Sound(ds) && d in ds && |forest| == |roots|
    requires forall r :: r in ds && IsRoot(EdgesOf(ds), r) ==> r in roots
    requires forall k :: 0 <= k < |roots| ==> Unfolds(forest[k], roots[k], EdgesOf(ds))
    ensures exists k :: 0 <= k < |forest| && Contains(forest[k], d.hopUrn)
  {
    SoundGraph(ds);
    hide Sound, Closed, Acyclic, Unfolds, Contains, IsRoot;
    var g := EdgesOf(ds);
    var r := RootAbove(g, d);
    assert r in ds;
    var k :| 0 <= k < |roots| && roots[k] == r;
    UnfoldsContains(forest[k], r, g, d.hopUrn);
  }

  /** The roots unfolded, each once and in their order: every hop of the workflow is in one of the
      trees, and the trees start at the hops that nothing depends on. */
  method GenerateXmlRpcData(dependencies: seq<Dependency>) returns (forest: seq<Hop>, ghost roots: seq<Dependency>)
    requires Sound(dependencies)
    ensures |forest| == |roots| && NoRepeats(roots) && InOrderOf(roots, dependencies)
    ensures forall d :: d in roots ==> d in dependencies && IsRoot(EdgesOf(dependencies), d)
    ensures forall d :: d in dependencies && IsRoot(EdgesOf(dependencies), d) ==> d in roots
    ensures forall k :: 0 <= k < |roots| ==>
      IsRoot(EdgesOf(dependencies), roots[k]) && Unfolds(forest[k], roots[k], EdgesOf(dependencies))
    ensures forall d :: d in dependencies ==> exists k :: 0 <= k < |forest| && Contains(forest[k], d.hopUrn)
  {
    hide Sound, Unfolds, Contains, IsRoot, RootsAmong, InOrderOf;
    ghost var g := EdgesOf(dependencies);
    RootsAre(dependencies);
    RootsInOrder(dependencies);
    forest, roots := [], [];
    NoRoots(dependencies);
    var i := 0;
    while i < |dependencies|
      invariant i <= |dependencies| && |forest| == |roots| && roots == RootsAmong(dependencies, i)
      invariant forall k :: 0 <= k < |roots| ==> Unfolds(forest[k], roots[k], g)
    {
      NextRoot(dependencies, i);
      if dependencies[i].uppers == [] {
        var tree := DumpRecursive(dependencies[i], dependencies);
        forest, roots := forest + [tree], roots + [dependencies[i]];
      }
      i := i + 1;
    }
    forall d | d in dependencies ensures exists k :: 0 <= k < |forest| && Contains(forest[k], d.hopUrn) {
      ForestContains(dependencies, forest, roots, d);
    }
  }

  lemma NextRoot(ds: seq<Dependency>, n: nat)
    requires n < |ds|
    ensures RootsAmong(ds, n + 1) == if ds[n].uppers == [] then RootsAmong(ds, n) + [ds[n]] else RootsAmong(ds, n)
  {
  }

  lemma RootHasNoUppers(ds: seq<Dependency>, d: Dependency)
    requires Sound(ds) && d in ds
    ensures d.uppers == [] <==> IsRoot(EdgesOf(ds), d)
  {
    var g, h := EdgesOf(ds), UppersOf(ds);
    if d.uppers == [] {
      forall a | a in g ensures d !in g[a] {
        MirrorIn(g, h, a, d);
      }
    } else {
      var u := d.uppers[0];
      assert u in h[d] && u in h;
      MirrorIn(g, h, u, d);
    }
  }
}
