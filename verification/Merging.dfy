/** Merging the orderings of several paths: hops are matched by URN, and every added ordering is
checked against the cycles it could close.
*/
module Merging {
  import opened Graph
  import opened Workflow

  ghost predicate UniqueUrns(ds: seq<Dependency>) {
    forall a, b :: a in ds && b in ds && a.hopUrn == b.hopUrn ==> a == b
  }

  // The aggregate is a function of the hop URN.
  ghost predicate UrnsAgree(ds: seq<Dependency>, nds: seq<Dependency>) {
    forall a, b :: a in ds && b in nds && a.hopUrn == b.hopUrn ==> a.aggregateUrn == b.aggregateUrn
  }

  /** `d` has the URN, the aggregate and the link of one of the hops `nds`. */
  ghost predicate LikeOneOf(d: Dependency, nds: seq<Dependency>) {
    exists n :: n in nds && n.hopUrn == d.hopUrn && n.aggregateUrn == d.aggregateUrn && n.link == d.link
  }

  lemma LikeCopied(d: Dependency, n: Dependency, nds: seq<Dependency>)
    requires n in nds && d.hopUrn == n.hopUrn && d.aggregateUrn == n.aggregateUrn && d.link == n.link
    ensures LikeOneOf(d, nds)
  {
  }

  ghost predicate Named(ds: seq<Dependency>, n: Dependency) {
    exists d :: d in ds && d.hopUrn == n.hopUrn
  }

  /** `u` depends on `l`, or `l` already leads down to it. */
  ghost predicate Ordered(g: Edges<Dependency>, u: Dependency, l: Dependency) {
    u in g && (l in g[u] || Reach(g, l, u))
  }

  /** The added ordering of `U` over `L` is met by the hops of the same URNs. */
  ghost predicate Met(g: Edges<Dependency>, ds: seq<Dependency>, U: Dependency, L: Dependency) {
    exists u, l :: u in ds && l in ds && u.hopUrn == U.hopUrn && l.hopUrn == L.hopUrn && Ordered(g, u, l)
  }

  lemma MetGrows(g: Edges<Dependency>, ds: seq<Dependency>, g': Edges<Dependency>, ds': seq<Dependency>,
                 U: Dependency, L: Dependency)
    requires Met(g, ds, U, L) && Grows(g, g') && ds <= ds' && forall d :: d in ds' ==> d in g'
    ensures Met(g', ds', U, L)
  {
    var u, l :| u in ds && l in ds && u.hopUrn == U.hopUrn && l.hopUrn == L.hopUrn && Ordered(g, u, l);
    if l !in g[u] {
      ReachGrows(g, g', l, u);
    }
    assert u in ds' && l in ds' && Ordered(g', u, l);
  }

  // Among the orderings to be added is one between hops of these URNs.
  ghost predicate Added(ng: Edges<Dependency>, u: Dependency, l: Dependency) {
    exists U, L :: U in ng && L in ng[U] && U.hopUrn == u.hopUrn && L.hopUrn == l.hopUrn
  }

  /** Every ordering in `g` was there before or was added. */
  ghost predicate NothingInvented(g0: Edges<Dependency>, g: Edges<Dependency>, ng: Edges<Dependency>) {
    forall u, l :: u in g && l in g[u] && !(u in g0 && l in g0[u]) ==> Added(ng, u, l)
  }

  lemma NothingInventedAdd(g0: Edges<Dependency>, g: Edges<Dependency>, ng: Edges<Dependency>,
                           u: Dependency, l: Dependency, U: Dependency, L: Dependency)
    requires NothingInvented(g0, g, ng) && u in g
    requires U in ng && L in ng[U] && U.hopUrn == u.hopUrn && L.hopUrn == l.hopUrn
    ensures NothingInvented(g0, AddEdge(g, u, l), ng)
  {
    var g' := AddEdge(g, u, l);
    forall x, y | x in g' && y in g'[x] && !(x in g0 && y in g0[x]) ensures Added(ng, x, y) {
      if y !in g[x] {
        assert x == u && y == l && U in ng && L in ng[U];
      }
    }
  }

  /** The hop with the URN of `AD`: the one there is, or a copy, with its link, added at the end. */
  method FindOrCopy(w: WorkflowData, AD: Dependency, ghost nds: seq<Dependency>) returns (newD: Dependency)
    requires Sound(w.dependencies) && UniqueUrns(w.dependencies)
    requires AD in nds && UrnsAgree(w.dependencies, nds) && UrnsAgree(nds, nds)
    modifies w
    ensures newD in w.dependencies && newD.hopUrn == AD.hopUrn && newD.aggregateUrn == AD.aggregateUrn
    ensures if Named(old(w.dependencies), AD) then w.dependencies == old(w.dependencies)
            else fresh(newD) && newD.link == AD.link && w.dependencies == old(w.dependencies) + [newD]
    ensures Sound(w.dependencies) && UniqueUrns(w.dependencies) && UrnsAgree(w.dependencies, nds)
    ensures EdgesOf(w.dependencies) == old(EdgesOf(w.dependencies))
      || EdgesOf(w.dependencies) == AddNode(old(EdgesOf(w.dependencies)), newD)
    ensures Grows(old(EdgesOf(w.dependencies)), EdgesOf(w.dependencies))
  {
    hide Sound, Grows;
    GrowsRefl(EdgesOf(w.dependencies));
    var i := 0;
    while i < |w.dependencies|
      invariant i <= |w.dependencies|
      invariant forall k :: 0 <= k < i ==> w.dependencies[k].hopUrn != AD.hopUrn
    {
      if w.dependencies[i].hopUrn == AD.hopUrn {
        newD := w.dependencies[i];
        return;
      }
      i := i + 1;
    }
    ghost var g := EdgesOf(w.dependencies);
    newD := AD.Clone();
    assert EdgesOf(w.dependencies) == g;
    w.Append(newD);
  }

  /** `newD` is put below the hop with the URN of `ADU`, if there is one, it is not there already
      and no cycle closes. */
  method AddUpper(newD: Dependency, ADU: Dependency, ds: seq<Dependency>) returns (ghost D: Dependency?)
    requires Sound(ds) && UniqueUrns(ds) && newD in ds
    requires forall d :: d in ds && d.hopUrn == ADU.hopUrn ==> d.aggregateUrn != newD.aggregateUrn
    modifies ds
    ensures Sound(ds)
    ensures if D == null then !Named(ds, ADU) else D in ds && D.hopUrn == ADU.hopUrn && Ordered(EdgesOf(ds), D, newD)
    ensures EdgesOf(ds) == old(EdgesOf(ds)) || (D != null && EdgesOf(ds) == AddEdge(old(EdgesOf(ds)), D, newD))
  {
    hide Sound;
    D := null;
    var i := 0;
    while i < |ds|
      invariant i <= |ds| && forall k :: 0 <= k < i ==> ds[k].hopUrn != ADU.hopUrn
    {
      if ds[i].hopUrn == ADU.hopUrn {
        D := ds[i];
        var relationExisted := HasUrn(ds[i].lowers, newD.hopUrn);
        LowersInside(ds, ds[i]);
        if !relationExisted {
          var loop_d_new := Workflow.WorkflowData.CheckDependencyLoop(ds[i], newD, ds);
          if !loop_d_new {
            AddOrdering(ds[i], newD, true, ds);
          }
        }
        return;
      }
      i := i + 1;
    }
  }

  /** `newD` is put above the hop with the URN of `ADL`, if there is one, it is not there already
      and no cycle closes. */
  method AddLower(newD: Dependency, ADL: Dependency, ds: seq<Dependency>) returns (ghost D: Dependency?)
    requires Sound(ds) && UniqueUrns(ds) && newD in ds
    requires forall d :: d in ds && d.hopUrn == ADL.hopUrn ==> d.aggregateUrn != newD.aggregateUrn
    modifies ds
    ensures Sound(ds)
    ensures if D == null then !Named(ds, ADL) else D in ds && D.hopUrn == ADL.hopUrn && Ordered(EdgesOf(ds), newD, D)
    ensures EdgesOf(ds) == old(EdgesOf(ds)) || (D != null && EdgesOf(ds) == AddEdge(old(EdgesOf(ds)), newD, D))
  {
    hide Sound;
    D := null;
    var i := 0;
    while i < |ds|
      invariant i <= |ds| && forall k :: 0 <= k < i ==> ds[k].hopUrn != ADL.hopUrn
    {
      if ds[i].hopUrn == ADL.hopUrn {
        D := ds[i];
        var relationExisted := HasUrn(ds[i].uppers, newD.hopUrn);
        UppersInside(ds, ds[i]);
        if !relationExisted {
          var loop_new_d := Workflow.WorkflowData.CheckDependencyLoop(newD, ds[i], ds);
          if !loop_new_d {
            AddOrdering(newD, ds[i], true, ds);
          }
        } else {
          UpperOf(newD, ds[i], ds);
        }
        return;
      }
      i := i + 1;
    }
  }

  /** Whether some hop of the list has this URN. */
  method HasUrn(ds: seq<Dependency>, urn: string) returns (found: bool)
    ensures found <==> exists k :: 0 <= k < |ds| && ds[k].hopUrn == urn
  {
    found := false;
    for i := 0 to |ds|
      invariant forall k :: 0 <= k < i ==> ds[k].hopUrn != urn
    {
      if ds[i].hopUrn == urn {
        return true;
      }
    }
  }

  lemma LowersInside(ds: seq<Dependency>, d: Dependency)
    requires Sound(ds) && d in ds
    ensures forall x :: x in d.lowers ==> x in ds
  {
    assert forall x :: x in EdgesOf(ds)[d] ==> x in EdgesOf(ds);
  }

  lemma UppersInside(ds: seq<Dependency>, d: Dependency)
    requires Sound(ds) && d in ds
    ensures forall x :: x in d.uppers ==> x in ds
  {
    assert forall x :: x in UppersOf(ds)[d] ==> x in UppersOf(ds);
  }

  // ---------------------------------------------------------------- all orderings of one added hop

  /** The merge so far: nothing of `g0` is lost, and nothing but the orderings `ng` is added. */
  ghost predicate Adds(g0: Edges<Dependency>, g: Edges<Dependency>, ng: Edges<Dependency>) {
    Grows(g0, g) && NothingInvented(g0, g, ng)
  }

  lemma AddsOrdering(g0: Edges<Dependency>, g: Edges<Dependency>, ng: Edges<Dependency>,
                    u: Dependency, l: Dependency, U: Dependency, L: Dependency)
    requires Adds(g0, g, ng) && u in g
    requires U in ng && L in ng[U] && U.hopUrn == u.hopUrn && L.hopUrn == l.hopUrn
    ensures Adds(g0, AddEdge(g, u, l), ng) && Grows(g, AddEdge(g, u, l))
  {
    NothingInventedAdd(g0, g, ng, u, l, U, L);
    GrowsAdd(g0, g, u, l);
    GrowsAdd(g, g, u, l);
  }

  // The orderings of the first `n` of `us` over `L`, as far as they are among the hops, are met.
  ghost predicate UppersMet(g: Edges<Dependency>, ds: seq<Dependency>, us: seq<Dependency>, L: Dependency, n: nat)
    requires n <= |us|
  {
    forall k :: 0 <= k < n && Named(ds, us[k]) ==> Met(g, ds, us[k], L)
  }

  ghost predicate LowersMet(g: Edges<Dependency>, ds: seq<Dependency>, U: Dependency, ls: seq<Dependency>, n: nat)
    requires n <= |ls|
  {
    forall k :: 0 <= k < n && Named(ds, ls[k]) ==> Met(g, ds, U, ls[k])
  }

  lemma UppersMetNext(g: Edges<Dependency>, h: Edges<Dependency>, ds: seq<Dependency>, us: seq<Dependency>,
      L: Dependency, n: nat)
    requires n < |us| && UppersMet(g, ds, us, L, n) && Grows(g, h) && forall d :: d in ds ==> d in h
    requires Named(ds, us[n]) ==> Met(h, ds, us[n], L)
    ensures UppersMet(h, ds, us, L, n + 1)
  {
    forall k | 0 <= k < n + 1 && Named(ds, us[k]) ensures Met(h, ds, us[k], L) {
      if k < n {
        MetGrows(g, ds, h, ds, us[k], L);
      }
    }
  }

  lemma LowersMetNext(g: Edges<Dependency>, h: Edges<Dependency>, ds: seq<Dependency>, U: Dependency,
      ls: seq<Dependency>, n: nat)
    requires n < |ls| && LowersMet(g, ds, U, ls, n) && Grows(g, h) && forall d :: d in ds ==> d in h
    requires Named(ds, ls[n]) ==> Met(h, ds, U, ls[n])
    ensures LowersMet(h, ds, U, ls, n + 1)
  {
    forall k | 0 <= k < n + 1 && Named(ds, ls[k]) ensures Met(h, ds, U, ls[k]) {
      if k < n {
        MetGrows(g, ds, h, ds, U, ls[k]);
      }
    }
  }

  /** One upper `ADU` of the added hop `AD`, whose own copy is `newD`. */
  method CopyUpper(newD: Dependency, AD: Dependency, ADU: Dependency, ds: seq<Dependency>,
                   ghost g0: Edges<Dependency>, ghost ng: Edges<Dependency>)
    requires Sound(ds) && UniqueUrns(ds) && Adds(g0, EdgesOf(ds), ng)
    requires newD in ds && newD.hopUrn == AD.hopUrn && ADU in ng && AD in ng[ADU]
    requires forall d :: d in ds && d.hopUrn == ADU.hopUrn ==> d.aggregateUrn != newD.aggregateUrn
    modifies ds
    ensures Sound(ds) && Adds(g0, EdgesOf(ds), ng) && Grows(old(EdgesOf(ds)), EdgesOf(ds))
    ensures Named(ds, ADU) ==> Met(EdgesOf(ds), ds, ADU, AD)
  {
    hide Sound, UniqueUrns, Grows, Adds, Named, Ordered;
    ghost var g := EdgesOf(ds);
    ghost var D := AddUpper(newD, ADU, ds);
    GrowsRefl(g);
    if D != null {
      AddsOrdering(g0, g, ng, D, newD, ADU, AD);
    }
  }

  /** One lower `ADL` of the added hop `AD`, whose own copy is `newD`. */
  method CopyLower(newD: Dependency, AD: Dependency, ADL: Dependency, ds: seq<Dependency>,
                   ghost g0: Edges<Dependency>, ghost ng: Edges<Dependency>)
    requires Sound(ds) && UniqueUrns(ds) && Adds(g0, EdgesOf(ds), ng)
    requires newD in ds && newD.hopUrn == AD.hopUrn && AD in ng && ADL in ng[AD]
    requires forall d :: d in ds && d.hopUrn == ADL.hopUrn ==> d.aggregateUrn != newD.aggregateUrn
    modifies ds
    ensures Sound(ds) && Adds(g0, EdgesOf(ds), ng) && Grows(old(EdgesOf(ds)), EdgesOf(ds))
    ensures Named(ds, ADL) ==> Met(EdgesOf(ds), ds, AD, ADL)
  {
    hide Sound, UniqueUrns, Grows, Adds, Named, Ordered;
    ghost var g := EdgesOf(ds);
    ghost var D := AddLower(newD, ADL, ds);
    GrowsRefl(g);
    if D != null {
      AddsOrdering(g0, g, ng, newD, D, AD, ADL);
    }
  }

  // What is known of the orderings to be added: `ng` down and `nh` up, among `nds`.
  ghost predicate Addable(nds: seq<Dependency>, ng: Edges<Dependency>, nh: Edges<Dependency>) {
    && ng.Keys == (set i | 0 <= i < |nds| :: nds[i])
    && Closed(ng) && Mirror(ng, nh) && AcrossAggregates(ng) && UrnsAgree(nds, nds)
  }

  // An ordering to be added joins hops whose copies are in different aggregates.
  lemma AddableOrdering(nds: seq<Dependency>, ng: Edges<Dependency>, nh: Edges<Dependency>, ds: seq<Dependency>,
                        U: Dependency, L: Dependency)
    requires Addable(nds, ng, nh) && UrnsAgree(ds, nds)
    requires U in ng && L in ng && (L in ng[U] || U in nh[L])
    ensures L in ng[U] && U in nds && L in nds
    ensures forall u, l :: u in ds && l in ds && u.hopUrn == U.hopUrn && l.hopUrn == L.hopUrn ==>
      u.aggregateUrn != l.aggregateUrn
  {
    MirrorIn(ng, nh, U, L);
  }

  /** All uppers of the added hop `AD`. */
  method CopyUppers(newD: Dependency, AD: Dependency, ds: seq<Dependency>, ghost g0: Edges<Dependency>,
                    ghost nds: seq<Dependency>, ghost ng: Edges<Dependency>, ghost nh: Edges<Dependency>)
    requires Sound(ds) && UniqueUrns(ds) && Adds(g0, EdgesOf(ds), ng)
    requires Addable(nds, ng, nh) && UrnsAgree(ds, nds) && AD in ng && AD in nh && AD.uppers == nh[AD] && AD !in ds
    requires newD in ds && newD.hopUrn == AD.hopUrn
    modifies ds
    ensures Sound(ds) && Adds(g0, EdgesOf(ds), ng) && Grows(old(EdgesOf(ds)), EdgesOf(ds))
    ensures UppersMet(EdgesOf(ds), ds, nh[AD], AD, |nh[AD]|)
  {
    hide Sound, UniqueUrns, Adds, Grows, UrnsAgree, Addable;
    ghost var gs := EdgesOf(ds);
    GrowsRefl(gs);
    var i := 0;
    while i < |AD.uppers|
      invariant AD.uppers == nh[AD] && i <= |nh[AD]|
      invariant Sound(ds) && Adds(g0, EdgesOf(ds), ng) && Grows(gs, EdgesOf(ds))
      invariant UppersMet(EdgesOf(ds), ds, nh[AD], AD, i)
    {
      ghost var g := EdgesOf(ds);
      UpperAdded(ng, nh, nds, AD, i);
      AddableOrdering(nds, ng, nh, ds, AD.uppers[i], AD);
      CopyUpper(newD, AD, AD.uppers[i], ds, g0, ng);
      GrowsTrans(gs, g, EdgesOf(ds));
      UppersMetNext(g, EdgesOf(ds), ds, nh[AD], AD, i);
      i := i + 1;
    }
  }

  lemma UpperAdded(ng: Edges<Dependency>, nh: Edges<Dependency>, nds: seq<Dependency>, AD: Dependency, i: nat)
    requires Addable(nds, ng, nh) && AD in ng && i < |nh[AD]|
    ensures nh[AD][i] in ng && nh[AD][i] in nh[AD]
  {
  }

  lemma LowerAdded(ng: Edges<Dependency>, nh: Edges<Dependency>, nds: seq<Dependency>, AD: Dependency, i: nat)
    requires Addable(nds, ng, nh) && AD in ng && i < |ng[AD]|
    ensures ng[AD][i] in ng && ng[AD][i] in ng[AD]
  {
  }

  /** All lowers of the added hop `AD`. */
  method CopyLowers(newD: Dependency, AD: Dependency, ds: seq<Dependency>, ghost g0: Edges<Dependency>,
                    ghost nds: seq<Dependency>, ghost ng: Edges<Dependency>, ghost nh: Edges<Dependency>)
    requires Sound(ds) && UniqueUrns(ds) && Adds(g0, EdgesOf(ds), ng)
    requires Addable(nds, ng, nh) && UrnsAgree(ds, nds) && AD in ng && AD.lowers == ng[AD] && AD !in ds
    requires newD in ds && newD.hopUrn == AD.hopUrn
    modifies ds
    ensures Sound(ds) && Adds(g0, EdgesOf(ds), ng) && Grows(old(EdgesOf(ds)), EdgesOf(ds))
    ensures LowersMet(EdgesOf(ds), ds, AD, ng[AD], |ng[AD]|)
  {
    hide Sound, UniqueUrns, Adds, Grows, UrnsAgree, Addable;
    ghost var gs := EdgesOf(ds);
    GrowsRefl(gs);
    var i := 0;
    while i < |AD.lowers|
      invariant AD.lowers == ng[AD] && i <= |ng[AD]|
      invariant Sound(ds) && Adds(g0, EdgesOf(ds), ng) && Grows(gs, EdgesOf(ds))
      invariant LowersMet(EdgesOf(ds), ds, AD, ng[AD], i)
    {
      ghost var g := EdgesOf(ds);
      LowerAdded(ng, nh, nds, AD, i);
      AddableOrdering(nds, ng, nh, ds, AD, AD.lowers[i]);
      CopyLower(newD, AD, AD.lowers[i], ds, g0, ng);
      GrowsTrans(gs, g, EdgesOf(ds));
      LowersMetNext(g, EdgesOf(ds), ds, AD, ng[AD], i);
      i := i + 1;
    }
  }

  // ---------------------------------------------------------------- the whole merge

  lemma AddsNode(g0: Edges<Dependency>, g: Edges<Dependency>, ng: Edges<Dependency>, n: Dependency)
    requires Adds(g0, g, ng) && n !in g
    ensures Adds(g0, AddNode(g, n), ng)
  {
    var h := AddNode(g, n);
    forall u, l | u in h && l in h[u] && !(u in g0 && l in g0[u]) ensures Added(ng, u, l) {
      assert u in g && l in g[u];
    }
  }

  /** Every ordering among the first `n` added hops is met. */
  ghost predicate AllMet(g: Edges<Dependency>, ds: seq<Dependency>, nds: seq<Dependency>, ng: Edges<Dependency>, n: nat)
  {
    n <= |nds| && (forall a :: 0 <= a < n ==> nds[a] in ng && Named(ds, nds[a])) &&
    forall a, b :: 0 <= a < n && 0 <= b < n && nds[b] in ng[nds[a]] ==> Met(g, ds, nds[a], nds[b])
  }

  lemma AllMetNext(g: Edges<Dependency>, ds: seq<Dependency>, h: Edges<Dependency>, ds': seq<Dependency>,
                   nds: seq<Dependency>, ng: Edges<Dependency>, nh: Edges<Dependency>, n: nat)
    requires Addable(nds, ng, nh) && AllMet(g, ds, nds, ng, n) && n < |nds|
    requires Grows(g, h) && ds <= ds' && Named(ds', nds[n]) && forall d :: d in ds' ==> d in h
    requires nds[n] in ng && UppersMet(h, ds', nh[nds[n]], nds[n], |nh[nds[n]]|)
    requires LowersMet(h, ds', nds[n], ng[nds[n]], |ng[nds[n]]|)
    ensures AllMet(h, ds', nds, ng, n + 1)
  {
    forall a | 0 <= a < n + 1 ensures nds[a] in ng && Named(ds', nds[a]) {
      if a < n {
        assert Named(ds, nds[a]);
        var d :| d in ds && d.hopUrn == nds[a].hopUrn;
        assert d in ds';
      }
    }
    forall a, b | 0 <= a < n + 1 && 0 <= b < n + 1 && nds[b] in ng[nds[a]] ensures Met(h, ds', nds[a], nds[b]) {
      if a == n {
        var k :| 0 <= k < |ng[nds[n]]| && ng[nds[n]][k] == nds[b];
      } else if b == n {
        MirrorIn(ng, nh, nds[a], nds[n]);
        var k :| 0 <= k < |nh[nds[n]]| && nh[nds[n]][k] == nds[a];
      } else {
        MetGrows(g, ds, h, ds', nds[a], nds[b]);
      }
    }
  }

  lemma AddedIsAddable(nds: seq<Dependency>)
    requires Tidy(nds) && UrnsAgree(nds, nds)
    ensures Addable(nds, EdgesOf(nds), UppersOf(nds))
    ensures forall k :: 0 <= k < |nds| ==> nds[k] in EdgesOf(nds) && nds[k] in UppersOf(nds)
  {
  }

  /** Merge the hops of another path and their orderings. Nothing is lost, nothing is invented, every
      added hop is there, and an added ordering is left out only where the hops are already led the
      other way. */
  method MergeDependencies(w: WorkflowData, newDependencies: seq<Dependency>)
    requires Sound(w.dependencies) && UniqueUrns(w.dependencies)
    requires Tidy(newDependencies) && UrnsAgree(w.dependencies, newDependencies)
      && UrnsAgree(newDependencies, newDependencies)
    requires forall d :: d in newDependencies ==> d !in w.dependencies
    modifies w, w.dependencies
    ensures Sound(w.dependencies) && UniqueUrns(w.dependencies) && old(w.dependencies) <= w.dependencies
    ensures Adds(old(EdgesOf(w.dependencies)), EdgesOf(w.dependencies), EdgesOf(newDependencies))
    ensures AllMet(EdgesOf(w.dependencies), w.dependencies, newDependencies, EdgesOf(newDependencies),
      |newDependencies|)
    ensures EdgesOf(newDependencies) == old(EdgesOf(newDependencies))
    ensures forall d :: d in w.dependencies ==>
      d in old(w.dependencies) || (fresh(d) && d !in newDependencies && LikeOneOf(d, newDependencies))
  {
    hide Sound, Tidy, UniqueUrns, Adds, Grows, UrnsAgree, Addable, AllMet, LikeOneOf;
    ghost var nds, ng, nh := newDependencies, EdgesOf(newDependencies), UppersOf(newDependencies);
    ghost var g0, ds0 := EdgesOf(w.dependencies), w.dependencies;
    AddedIsAddable(nds);
    MergeStarts(g0, ds0, nds, ng);
    var i := 0;
    while i < |newDependencies|
      invariant i <= |nds| && ds0 <= w.dependencies
      invariant forall d :: d in w.dependencies ==> d !in nds && (d in ds0 || (fresh(d) && LikeOneOf(d, nds)))
      invariant forall d :: d in nds ==> d.lowers == old(d.lowers) && d.uppers == old(d.uppers)
      invariant Sound(w.dependencies) && UniqueUrns(w.dependencies) && UrnsAgree(w.dependencies, nds)
      invariant Adds(g0, EdgesOf(w.dependencies), ng)
      invariant AllMet(EdgesOf(w.dependencies), w.dependencies, nds, ng, i)
    {
      assert forall k :: 0 <= k < |w.dependencies| ==> w.dependencies[k] in w.dependencies;
      MergeOne(w, newDependencies[i], i, g0, nds, ng, nh);
      i := i + 1;
    }
    assert EdgesOf(nds) == ng;
  }

  lemma MergeStarts(g0: Edges<Dependency>, ds: seq<Dependency>, nds: seq<Dependency>, ng: Edges<Dependency>)
    ensures Adds(g0, g0, ng) && AllMet(g0, ds, nds, ng, 0)
  {
  }

  /** The body of the loop of MergeDependencies. */
  method MergeOne(w: WorkflowData, AD: Dependency, i: nat, ghost g0: Edges<Dependency>,
                  ghost nds: seq<Dependency>, ghost ng: Edges<Dependency>, ghost nh: Edges<Dependency>)
    requires Sound(w.dependencies) && UniqueUrns(w.dependencies) && UrnsAgree(w.dependencies, nds)
    requires Addable(nds, ng, nh) && UrnsAgree(nds, nds) && Adds(g0, EdgesOf(w.dependencies), ng)
    requires i < |nds| && nds[i] == AD && AD in ng && AD in nh && AD.lowers == ng[AD] && AD.uppers == nh[AD]
    requires forall d :: d in w.dependencies ==> d !in nds
    requires AllMet(EdgesOf(w.dependencies), w.dependencies, nds, ng, i)
    modifies w, w.dependencies
    ensures Sound(w.dependencies) && UniqueUrns(w.dependencies) && UrnsAgree(w.dependencies, nds)
    ensures Adds(g0, EdgesOf(w.dependencies), ng)
    ensures old(w.dependencies) <= w.dependencies
    ensures forall d :: d in w.dependencies ==>
      d in old(w.dependencies) || (fresh(d) && d !in nds && LikeOneOf(d, nds))
    ensures AllMet(EdgesOf(w.dependencies), w.dependencies, nds, ng, i + 1)
  {
    hide Sound, UniqueUrns, Adds, Grows, UrnsAgree, Addable, AllMet, UppersMet, LowersMet, LikeOneOf;
    ghost var ds0, g := w.dependencies, EdgesOf(w.dependencies);
    var newD := FindOrCopy(w, AD, nds);
    if newD !in ds0 {
      LikeCopied(newD, AD, nds);
    }
    var ds := w.dependencies;
    ghost var g1 := EdgesOf(ds);
    if g1 != g {
      AddsNode(g0, g, ng, newD);
    }
    CopyUppers(newD, AD, ds, g0, nds, ng, nh);
    ghost var g2 := EdgesOf(ds);
    CopyLowers(newD, AD, ds, g0, nds, ng, nh);
    ghost var g3 := EdgesOf(ds);
    GrowsTrans(g, g1, g2);
    GrowsTrans(g, g2, g3);
    UppersMetGrows(g2, g3, ds, nh[AD], AD);
    AllMetNext(g, ds0, g3, ds, nds, ng, nh, i);
  }

  lemma UppersMetGrows(g: Edges<Dependency>, h: Edges<Dependency>, ds: seq<Dependency>, us: seq<Dependency>,
      L: Dependency)
    requires UppersMet(g, ds, us, L, |us|) && Grows(g, h) && forall d :: d in ds ==> d in h
    ensures UppersMet(h, ds, us, L, |us|)
  {
    forall k | 0 <= k < |us| && Named(ds, us[k]) ensures Met(h, ds, us[k], L) {
      MetGrows(g, ds, h, ds, us[k], L);
    }
  }
}
