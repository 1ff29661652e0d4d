/** Several paths in one workflow: each is loaded and ordered by itself, and merged into the first. */
module Combining {
  import opened Forest
  import opened Graph
  import opened Lists
  import opened Merging
  import opened Workflow

  /** The hops of one path and the orderings the path alone calls for, before any merge. */
  datatype Plan = Plan(hops: seq<Dependency>, orderings: Edges<Dependency>)

  predicate UniqueHops(p: seq<TLink>) {
    forall i, j :: 0 <= i < j < |p| ==> p[i].hopUrn != p[j].hopUrn
  }

  /** The aggregate of a hop is the same wherever its URN occurs. */
  predicate OneAggregate(p: seq<TLink>, q: seq<TLink>) {
    forall i, j :: 0 <= i < |p| && 0 <= j < |q| && p[i].hopUrn == q[j].hopUrn ==>
      p[i].aggregateUrn == q[j].aggregateUrn
  }

  predicate Loaded(hops: seq<Dependency>, p: seq<TLink>) {
    && |hops| == |p|
    && forall i :: 0 <= i < |p| ==>
         hops[i].hopUrn == p[i].hopUrn && hops[i].aggregateUrn == p[i].aggregateUrn && hops[i].link == p[i]
  }

  /** The hops of `p`; its neighbours are ordered the way the path tells, whoever is below a hop of an
      aggregate is so with all hops of its own aggregate, cycles apart, and nothing else is ordered. */
  ghost predicate PlanOf(plan: Plan, p: seq<TLink>) {
    && Loaded(plan.hops, p) && NeighboursOrdered(plan.orderings, plan.hops)
    && Shared(plan.orderings) && CalledForOnly(plan.orderings, plan.hops)
  }

  ghost predicate Shared(g: Edges<Dependency>) {
    forall u, a, b :: u in g && a in g[u] && b in g && SameAggregate(a, b) ==> b in g[u] || Reach(g, b, u)
  }

  ghost predicate CalledForOnly(g: Edges<Dependency>, hops: seq<Dependency>) {
    forall u, l :: u in g && l in g[u] ==> CalledFor(hops, u, l)
  }

  lemma OrderedAsPlanned(ds: seq<Dependency>)
    requires Sound(ds) && UppersShared(EdgesOf(ds), UppersOf(ds)) && OnlyCalledFor(UppersOf(ds), ds)
    ensures Shared(EdgesOf(ds)) && CalledForOnly(EdgesOf(ds), ds)
  {
    var g, h := EdgesOf(ds), UppersOf(ds);
    SoundMirror(ds);
    hide Sound, Mirror, Closed;
    forall u, l | u in g && l in g[u] ensures CalledFor(ds, u, l) {
      EdgeBothWays(g, h, u, l);
    }
    forall u, a, b | u in g && a in g[u] && b in g && SameAggregate(a, b) ensures b in g[u] || Reach(g, b, u) {
      EdgeBothWays(g, h, u, a);
      EdgeBothWays(g, h, u, b);
    }
  }

  lemma SoundMirror(ds: seq<Dependency>)
    requires Sound(ds)
    ensures Closed(EdgesOf(ds)) && Mirror(EdgesOf(ds), UppersOf(ds)) && EdgesOf(ds).Keys == UppersOf(ds).Keys
  {
  }

  lemma EdgeBothWays(g: Edges<Dependency>, h: Edges<Dependency>, u: Dependency, l: Dependency)
    requires Closed(g) && Mirror(g, h) && u in g && g.Keys == h.Keys
    ensures l in g[u] ==> l in h && u in h[l]
    ensures l in h && u in h[l] ==> l in g[u]
  {
    if l in g {
      MirrorIn(g, h, u, l);
    }
  }

  // ---------------------------------------------------------------- what several plans come to

  ghost predicate Planned(plans: seq<Plan>, u: Dependency, l: Dependency) {
    exists k :: 0 <= k < |plans| && Added(plans[k].orderings, u, l)
  }

  // The first plan with a hop of this URN has one like `d`.
  ghost predicate HopPlanned(plans: seq<Plan>, d: Dependency) {
    exists k :: 0 <= k < |plans| && LikeOneOf(d, plans[k].hops) && NewIn(plans, k, d)
  }

  ghost predicate NewIn(plans: seq<Plan>, k: nat, d: Dependency)
    requires k <= |plans|
  {
    forall j :: 0 <= j < k ==> !Named(plans[j].hops, d)
  }

  /** The hops `ds` ordered by `g` hold all plans: every hop of every plan is there, every planned ordering
      is met or contradicted by a path the other way, and no hop and no ordering is of no plan. */
  ghost predicate Holds(ds: seq<Dependency>, g: Edges<Dependency>, plans: seq<Plan>) {
    && (forall k :: 0 <= k < |plans| ==> AllMet(g, ds, plans[k].hops, plans[k].orderings, |plans[k].hops|))
    && (forall u, l :: u in g && l in g[u] ==> Planned(plans, u, l))
    && (forall d :: d in ds ==> HopPlanned(plans, d))
  }

  lemma HoldsFirst(ds: seq<Dependency>, g: Edges<Dependency>)
    requires Closed(g) && forall d :: d in g <==> d in ds
    ensures Holds(ds, g, [Plan(ds, g)])
  {
    hide Added, LikeOneOf, AllMet, Closed;
    var plans := [Plan(ds, g)];
    AllMetItself(ds, g);
    assert plans[0].orderings == g && plans[0].hops == ds;
    forall u, l | u in g && l in g[u] ensures Planned(plans, u, l) {
      AddedItself(g, u, l);
      assert Added(plans[0].orderings, u, l);
    }
    forall d | d in ds ensures HopPlanned(plans, d) {
      LikeCopied(d, d, ds);
      assert LikeOneOf(d, plans[0].hops);
    }
  }

  lemma AllMetItself(ds: seq<Dependency>, g: Edges<Dependency>)
    requires forall d :: d in g <==> d in ds
    ensures AllMet(g, ds, ds, g, |ds|)
  {
    forall a | 0 <= a < |ds| ensures ds[a] in g && Named(ds, ds[a]) {
      assert ds[a] in ds;
    }
    forall a, b | 0 <= a < |ds| && 0 <= b < |ds| && ds[b] in g[ds[a]] ensures Met(g, ds, ds[a], ds[b]) {
      MetItself(g, ds, ds[a], ds[b]);
    }
  }

  lemma MetItself(g: Edges<Dependency>, ds: seq<Dependency>, u: Dependency, l: Dependency)
    requires u in g && l in g[u] && u in ds && l in ds
    ensures Met(g, ds, u, l)
  {
    assert Ordered(g, u, l);
  }

  lemma AddedItself(g: Edges<Dependency>, u: Dependency, l: Dependency)
    requires u in g && l in g[u]
    ensures Added(g, u, l)
  {
    assert u in g && l in g[u] && u.hopUrn == u.hopUrn && l.hopUrn == l.hopUrn;
  }

  lemma AllMetGrows(g: Edges<Dependency>, ds: seq<Dependency>, g': Edges<Dependency>, ds': seq<Dependency>,
                    nds: seq<Dependency>, ng: Edges<Dependency>)
    requires AllMet(g, ds, nds, ng, |nds|) && Grows(g, g') && ds <= ds' && forall d :: d in ds' ==> d in g'
    ensures AllMet(g', ds', nds, ng, |nds|)
  {
    forall a | 0 <= a < |nds| ensures Named(ds', nds[a]) {
      assert Named(ds, nds[a]);
      var d :| d in ds && d.hopUrn == nds[a].hopUrn;
      assert d in ds';
    }
    forall a, b | 0 <= a < |nds| && 0 <= b < |nds| && nds[b] in ng[nds[a]] ensures Met(g', ds', nds[a], nds[b]) {
      MetGrows(g, ds, g', ds', nds[a], nds[b]);
    }
  }

  lemma HoldsMore(ds: seq<Dependency>, g: Edges<Dependency>, ds': seq<Dependency>, g': Edges<Dependency>,
                  plans: seq<Plan>, plan: Plan)
    requires Holds(ds, g, plans) && ds <= ds' && Adds(g, g', plan.orderings) && forall d :: d in ds' ==> d in g'
    requires AllMet(g', ds', plan.hops, plan.orderings, |plan.hops|)
    requires UniqueUrns(ds') && forall d :: d in ds' ==> d in ds || LikeOneOf(d, plan.hops)
    ensures Holds(ds', g', plans + [plan])
  {
    hide AllMet, Added, LikeOneOf, Grows, UniqueUrns, NewIn;
    var more := plans + [plan];
    forall k | 0 <= k < |more| ensures AllMet(g', ds', more[k].hops, more[k].orderings, |more[k].hops|) {
      if k < |plans| {
        AllMetGrows(g, ds, g', ds', plans[k].hops, plans[k].orderings);
      }
    }
    forall u, l | u in g' && l in g'[u] ensures Planned(more, u, l) {
      if u in g && l in g[u] {
        var k :| 0 <= k < |plans| && Added(plans[k].orderings, u, l);
        assert Added(more[k].orderings, u, l);
      } else {
        assert Added(more[|plans|].orderings, u, l);
      }
    }
    forall d | d in ds' ensures HopPlanned(more, d) {
      if d in ds {
        var k :| 0 <= k < |plans| && LikeOneOf(d, plans[k].hops) && NewIn(plans, k, d);
        NewInMore(plans, plan, k, d);
        assert LikeOneOf(d, more[k].hops);
      } else {
        NewAtLast(ds, g, ds', plans, d);
        NewInMore(plans, plan, |plans|, d);
        assert LikeOneOf(d, more[|plans|].hops);
      }
    }
  }

  lemma NewInMore(plans: seq<Plan>, plan: Plan, k: nat, d: Dependency)
    requires k <= |plans| && NewIn(plans, k, d)
    ensures NewIn(plans + [plan], k, d)
  {
  }

  // Hops of the plans so far are there.
  lemma NewAtLast(ds: seq<Dependency>, g: Edges<Dependency>, ds': seq<Dependency>, plans: seq<Plan>, d: Dependency)
    requires Holds(ds, g, plans) && ds <= ds' && UniqueUrns(ds') && d in ds' && d !in ds
    ensures NewIn(plans, |plans|, d)
  {
    hide AllMet;
    forall j, n | 0 <= j < |plans| && n in plans[j].hops ensures n.hopUrn != d.hopUrn {
      MetNamed(g, ds, plans[j].hops, plans[j].orderings, n);
    }
  }

  lemma MetNamed(g: Edges<Dependency>, ds: seq<Dependency>, nds: seq<Dependency>, ng: Edges<Dependency>, n: Dependency)
    requires AllMet(g, ds, nds, ng, |nds|) && n in nds
    ensures Named(ds, n)
  {
  }

  // ---------------------------------------------------------------- one path

  /** A workflow of one path. */
  method LoadOrdered(p: seq<TLink>) returns (w: WorkflowData)
    requires UniqueHops(p) && OneAggregate(p, p)
    ensures fresh(w) && (forall d :: d in w.dependencies ==> fresh(d))
    ensures Sound(w.dependencies) && UniqueUrns(w.dependencies)
    ensures PlanOf(Plan(w.dependencies, EdgesOf(w.dependencies)), p)
  {
    hide Sound, Grows, UppersShared, OnlyCalledFor, NeighboursOrdered, Shared, CalledForOnly;
    w := new WorkflowData();
    NothingSound();
    ghost var added := w.LoadPath(p);
    assert w.dependencies == added;
    w.ComputeDependency();
    OrderedAsPlanned(w.dependencies);
    LoadedUnique(w.dependencies, p);
  }

  lemma LoadedUnique(hops: seq<Dependency>, p: seq<TLink>)
    requires Loaded(hops, p) && UniqueHops(p)
    ensures UniqueUrns(hops)
  {
  }

  // Hops of URNs that have one aggregate.
  lemma PlansAgree(ds: seq<Dependency>, plans: seq<Plan>, paths: seq<seq<TLink>>, nds: seq<Dependency>, p: seq<TLink>)
    requires |plans| <= |paths| && forall k :: 0 <= k < |plans| ==> Loaded(plans[k].hops, paths[k])
    requires (forall k :: 0 <= k < |plans| ==> OneAggregate(paths[k], p)) && Loaded(nds, p)
    requires forall d :: d in ds ==> HopPlanned(plans, d)
    ensures UrnsAgree(ds, nds)
  {
    forall a, b | a in ds && b in nds && a.hopUrn == b.hopUrn ensures a.aggregateUrn == b.aggregateUrn {
      var k :| 0 <= k < |plans| && LikeOneOf(a, plans[k].hops) && NewIn(plans, k, a);
      var n :| n in plans[k].hops && n.hopUrn == a.hopUrn && n.aggregateUrn == a.aggregateUrn;
      var i :| 0 <= i < |plans[k].hops| && plans[k].hops[i] == n;
      var j :| 0 <= j < |nds| && nds[j] == b;
      assert OneAggregate(paths[k], p) && paths[k][i].hopUrn == p[j].hopUrn;
    }
  }

  // ---------------------------------------------------------------- where the trees come from

  /** Every hop of the tree has the aggregate, and the URL, of the hop of its URN in the first plan with one. */
  ghost predicate Given(t: Hop, plans: seq<Plan>) {
    && (exists k :: 0 <= k < |plans| && GivenAt(t, plans, k))
    && forall i :: 0 <= i < |t.dependencies| ==> Given(t.dependencies[i], plans)
  }

  ghost predicate GivenAt(t: Hop, plans: seq<Plan>, k: nat)
    requires k < |plans|
  {
    && (exists n :: n in plans[k].hops && n.hopUrn == t.hopUrn && n.aggregateUrn == t.aggregateUrn
                    && n.link.aggregateUrl == t.aggregateUrl)
    && forall j, n :: 0 <= j < k && n in plans[j].hops ==> n.hopUrn != t.hopUrn
  }

  lemma {:induction false} TreeGiven(t: Hop, d: Dependency, g: Edges<Dependency>, plans: seq<Plan>)
    requires Unfolds(t, d, g) && Closed(g) && forall x :: x in g ==> HopPlanned(plans, x)
    ensures Given(t, plans)
  {
    RootGiven(t, d, plans);
    hide HopPlanned, GivenAt;
    forall i | 0 <= i < |t.dependencies| ensures Given(t.dependencies[i], plans) {
      TreeGiven(t.dependencies[i], g[d][i], g, plans);
    }
  }

  lemma RootGiven(t: Hop, d: Dependency, plans: seq<Plan>)
    requires HopPlanned(plans, d)
    requires t.hopUrn == d.hopUrn && t.aggregateUrn == d.aggregateUrn && t.aggregateUrl == d.link.aggregateUrl
    ensures exists k :: 0 <= k < |plans| && GivenAt(t, plans, k)
  {
    var k :| 0 <= k < |plans| && LikeOneOf(d, plans[k].hops) && NewIn(plans, k, d);
    forall j, n | 0 <= j < k && n in plans[j].hops ensures n.hopUrn != t.hopUrn {
      assert !Named(plans[j].hops, d);
    }
    assert GivenAt(t, plans, k);
  }

  /** One tree for each root, in their order, and every hop in some tree. */
  ghost predicate HandedOut(ds: seq<Dependency>, forest: seq<Hop>, roots: seq<Dependency>)
    reads ds
  {
    && |forest| == |roots| && NoRepeats(roots) && InOrderOf(roots, ds)
    && (forall d :: d in ds && IsRoot(EdgesOf(ds), d) ==> d in roots)
    && (forall k :: 0 <= k < |roots| ==> IsRoot(EdgesOf(ds), roots[k]) && Unfolds(forest[k], roots[k], EdgesOf(ds)))
    && (forall d :: d in ds ==> exists k :: 0 <= k < |forest| && Contains(forest[k], d.hopUrn))
  }

  lemma ForestGiven(ds: seq<Dependency>, forest: seq<Hop>, roots: seq<Dependency>, plans: seq<Plan>)
    requires Sound(ds) && Holds(ds, EdgesOf(ds), plans) && HandedOut(ds, forest, roots)
    ensures forall t :: t in forest ==> Given(t, plans)
  {
    SoundGraph(ds);
    hide Sound, Unfolds, Given, HopPlanned, IsRoot, Contains, AllMet, Planned;
    forall t | t in forest ensures Given(t, plans) {
      var k :| 0 <= k < |forest| && forest[k] == t;
      TreeGiven(t, roots[k], EdgesOf(ds), plans);
    }
  }

  /** Every hop of the tree has the aggregate, and the URL, of the link of its URN on the first path with one. */
  ghost predicate OnPaths(t: Hop, paths: seq<seq<TLink>>) {
    && (exists k, i :: 0 <= k < |paths| && 0 <= i < |paths[k]| && paths[k][i].hopUrn == t.hopUrn
                       && paths[k][i].aggregateUrn == t.aggregateUrn && paths[k][i].aggregateUrl == t.aggregateUrl
                       && forall j, m :: 0 <= j < k && 0 <= m < |paths[j]| ==> paths[j][m].hopUrn != t.hopUrn)
    && forall i :: 0 <= i < |t.dependencies| ==> OnPaths(t.dependencies[i], paths)
  }

  lemma {:induction false} GivenOnPaths(t: Hop, plans: seq<Plan>, paths: seq<seq<TLink>>)
    requires Given(t, plans) && |plans| == |paths| && forall k :: 0 <= k < |plans| ==> Loaded(plans[k].hops, paths[k])
    ensures OnPaths(t, paths)
  {
    var k :| 0 <= k < |plans| && GivenAt(t, plans, k);
    var n :| n in plans[k].hops && n.hopUrn == t.hopUrn && n.aggregateUrn == t.aggregateUrn
             && n.link.aggregateUrl == t.aggregateUrl;
    var i :| 0 <= i < |plans[k].hops| && plans[k].hops[i] == n;
    assert paths[k][i].hopUrn == t.hopUrn;
    forall j, m | 0 <= j < k && 0 <= m < |paths[j]| ensures paths[j][m].hopUrn != t.hopUrn {
      assert plans[j].hops[m] in plans[j].hops;
    }
    forall c | 0 <= c < |t.dependencies| ensures OnPaths(t.dependencies[c], paths) {
      GivenOnPaths(t.dependencies[c], plans, paths);
    }
  }

  // ---------------------------------------------------------------- all paths

  // The workflow after some of the paths.
  ghost predicate Extracted(w: WorkflowData, plans: seq<Plan>, paths: seq<seq<TLink>>)
    reads w, w.dependencies
  {
    && Sound(w.dependencies) && UniqueUrns(w.dependencies) && Holds(w.dependencies, EdgesOf(w.dependencies), plans)
    && |plans| <= |paths| && forall k :: 0 <= k < |plans| ==> PlanOf(plans[k], paths[k])
  }

  /** The paths of a tree in one workflow, and the workflow handed out; without a path there is none. */
  method ExtractWorkflow(paths: seq<seq<TLink>>)
      returns (w: WorkflowData?, forest: seq<Hop>, ghost roots: seq<Dependency>, ghost plans: seq<Plan>)
    requires forall k :: 0 <= k < |paths| ==> UniqueHops(paths[k])
    requires forall j, k :: 0 <= j < |paths| && 0 <= k < |paths| ==> OneAggregate(paths[j], paths[k])
    ensures w == null <==> paths == []
    ensures w != null ==> |plans| == |paths| && Extracted(w, plans, paths)
    ensures w != null ==> HandedOut(w.dependencies, forest, roots)
    ensures w != null ==> forall t :: t in forest ==> OnPaths(t, paths)
  {
    hide Extracted, PlanOf, OneAggregate, UniqueHops, Sound, UniqueUrns, IsRoot, Unfolds, OnPaths;
    forest, roots, plans := [], [], [];
    if |paths| == 0 {
      return null, [], [], [];
    }
    w := LoadOrdered(paths[0]);
    plans := [Plan(w.dependencies, EdgesOf(w.dependencies))];
    ExtractedFirst(w, paths);
    for i := 1 to |paths|
      invariant |plans| == i && w != null && Extracted(w, plans, paths)
      invariant fresh(w) && forall d :: d in w.dependencies ==> fresh(d)
    {
      var workflowAdd := LoadOrdered(paths[i]);
      assert forall k :: 0 <= k < |w.dependencies| ==> w.dependencies[k] in w.dependencies;
      plans := MergePlan(w, workflowAdd, i, paths, plans);
    }
    SoundNow(w, plans, paths);
    forest, roots := GenerateXmlRpcData(w.dependencies);
    ForestOnPaths(w, forest, roots, plans, paths);
  }

  lemma ForestOnPaths(w: WorkflowData, forest: seq<Hop>, roots: seq<Dependency>, plans: seq<Plan>,
                      paths: seq<seq<TLink>>)
    requires Extracted(w, plans, paths) && HandedOut(w.dependencies, forest, roots) && |plans| == |paths|
    ensures forall t :: t in forest ==> OnPaths(t, paths)
  {
    hide Sound, Holds, OnPaths, Given, HandedOut, UniqueUrns, NeighboursOrdered, Shared, CalledForOnly;
    ForestGiven(w.dependencies, forest, roots, plans);
    forall t | t in forest ensures OnPaths(t, paths) {
      assert forall k :: 0 <= k < |plans| ==> PlanOf(plans[k], paths[k]);
      GivenOnPaths(t, plans, paths);
    }
  }

  lemma SoundNow(w: WorkflowData, plans: seq<Plan>, paths: seq<seq<TLink>>)
    requires Extracted(w, plans, paths)
    ensures Sound(w.dependencies)
  {
  }

  lemma ExtractedFirst(w: WorkflowData, paths: seq<seq<TLink>>)
    requires Sound(w.dependencies) && UniqueUrns(w.dependencies) && paths != []
    requires PlanOf(Plan(w.dependencies, EdgesOf(w.dependencies)), paths[0])
    ensures Extracted(w, [Plan(w.dependencies, EdgesOf(w.dependencies))], paths)
  {
    SoundMirror(w.dependencies);
    hide Sound, PlanOf, UniqueUrns, Mirror, Holds;
    HoldsFirst(w.dependencies, EdgesOf(w.dependencies));
  }

  /** One more plan is merged. */
  method MergeHeld(w: WorkflowData, nds: seq<Dependency>, ghost plans: seq<Plan>)
    requires Sound(w.dependencies) && UniqueUrns(w.dependencies)
    requires Holds(w.dependencies, EdgesOf(w.dependencies), plans)
    requires Sound(nds) && UrnsAgree(w.dependencies, nds) && UrnsAgree(nds, nds)
    requires forall d :: d in nds ==> d !in w.dependencies
    modifies w, w.dependencies
    ensures Sound(w.dependencies) && UniqueUrns(w.dependencies)
    ensures Holds(w.dependencies, EdgesOf(w.dependencies), plans + [Plan(nds, EdgesOf(nds))])
    ensures EdgesOf(nds) == old(EdgesOf(nds))
    ensures forall d :: d in w.dependencies ==> d in old(w.dependencies) || fresh(d)
  {
    ghost var ds, g := w.dependencies, EdgesOf(w.dependencies);
    SoundTidy(nds);
    hide Sound, Tidy, UniqueUrns, UrnsAgree, Holds, Adds, AllMet, LikeOneOf;
    MergeDependencies(w, nds);
    HoldsMore(ds, g, w.dependencies, EdgesOf(w.dependencies), plans, Plan(nds, EdgesOf(nds)));
  }

  lemma SoundTidy(ds: seq<Dependency>)
    requires Sound(ds)
    ensures Tidy(ds)
  {
  }

  /** One more path is merged. */
  method MergePlan(w: WorkflowData, workflowAdd: WorkflowData, i: nat, ghost paths: seq<seq<TLink>>,
                   ghost plans: seq<Plan>) returns (ghost more: seq<Plan>)
    requires Extracted(w, plans, paths) && |plans| == i < |paths|
    requires forall k :: 0 <= k <= i ==> OneAggregate(paths[k], paths[i])
    requires Sound(workflowAdd.dependencies) && w != workflowAdd
    requires PlanOf(Plan(workflowAdd.dependencies, EdgesOf(workflowAdd.dependencies)), paths[i])
    requires forall d :: d in workflowAdd.dependencies ==> d !in w.dependencies
    modifies w, w.dependencies
    ensures |more| == i + 1 && Extracted(w, more, paths)
    ensures forall d :: d in w.dependencies ==> d in old(w.dependencies) || fresh(d)
  {
    hide Extracted, Sound, UniqueUrns, UrnsAgree, Holds, OneAggregate, PlanOf;
    ghost var plan := Plan(workflowAdd.dependencies, EdgesOf(workflowAdd.dependencies));
    more := plans + [plan];
    ExtractedAgree(w, plans, paths, plan);
    MergeHeld(w, workflowAdd.dependencies, plans);
    ExtractedMore(w, plans, paths, plan);
  }

  lemma ExtractedAgree(w: WorkflowData, plans: seq<Plan>, paths: seq<seq<TLink>>, plan: Plan)
    requires Extracted(w, plans, paths) && |plans| < |paths| && PlanOf(plan, paths[|plans|])
    requires forall k :: 0 <= k <= |plans| ==> OneAggregate(paths[k], paths[|plans|])
    ensures Sound(w.dependencies) && UniqueUrns(w.dependencies) && Holds(w.dependencies, EdgesOf(w.dependencies), plans)
    ensures UrnsAgree(w.dependencies, plan.hops) && UrnsAgree(plan.hops, plan.hops)
    ensures forall k :: 0 <= k < |plans| ==> PlanOf(plans[k], paths[k])
  {
    hide Sound, UniqueUrns, UrnsAgree, OneAggregate, NeighboursOrdered, Shared, CalledForOnly;
    hide LikeOneOf, AllMet, Planned;
    var p := paths[|plans|];
    PlansAgree(w.dependencies, plans, paths, plan.hops, p);
    assert forall d :: d in plan.hops ==> HopPlanned([plan], d) by {
      forall d | d in plan.hops ensures HopPlanned([plan], d) {
        LikeCopied(d, d, plan.hops);
        assert LikeOneOf(d, [plan][0].hops);
      }
    }
    PlansAgree(plan.hops, [plan], [p], plan.hops, p);
  }

  lemma ExtractedMore(w: WorkflowData, plans: seq<Plan>, paths: seq<seq<TLink>>, plan: Plan)
    requires Sound(w.dependencies) && UniqueUrns(w.dependencies) && |plans| < |paths|
    requires Holds(w.dependencies, EdgesOf(w.dependencies), plans + [plan])
    requires PlanOf(plan, paths[|plans|]) && forall k :: 0 <= k < |plans| ==> PlanOf(plans[k], paths[k])
    ensures Extracted(w, plans + [plan], paths)
  {
    hide Sound, UniqueUrns, Holds, PlanOf;
  }

  // ---------------------------------------------------------------- what this means for a path

  /** Every link of every path has its hop, and two neighbours that a path orders are ordered that way, or
      led the other way. */
  lemma PathKept(ds: seq<Dependency>, g: Edges<Dependency>, plans: seq<Plan>, paths: seq<seq<TLink>>, k: nat, i: nat)
    requires Holds(ds, g, plans) && k < |plans| <= |paths| && PlanOf(plans[k], paths[k]) && i < |paths[k]|
    ensures exists d :: d in ds && d.hopUrn == paths[k][i].hopUrn
    ensures forall j: nat :: j < |paths[k]| && DependsOn(plans[k].hops, i, j) ==>
      exists u, l :: u in ds && l in ds && u.hopUrn == paths[k][i].hopUrn && l.hopUrn == paths[k][j].hopUrn
                     && Ordered(g, u, l)
  {
    hide DependsOn, Ordered, Shared, CalledForOnly, HopPlanned, Planned;
    var hops := plans[k].hops;
    assert AllMet(g, ds, hops, plans[k].orderings, |hops|);
    hide Holds;
    assert Named(ds, hops[i]);
    forall j: nat | j < |hops| && DependsOn(hops, i, j)
      ensures exists u, l :: u in ds && l in ds && u.hopUrn == paths[k][i].hopUrn && l.hopUrn == paths[k][j].hopUrn
                             && Ordered(g, u, l)
    {
      assert Named(ds, hops[j]) && Met(g, ds, hops[i], hops[j]);
    }
  }

  /** Every ordering there is was called for by some path. */
  lemma NothingElse(ds: seq<Dependency>, g: Edges<Dependency>, plans: seq<Plan>, paths: seq<seq<TLink>>,
                    u: Dependency, l: Dependency)
    requires Holds(ds, g, plans) && |plans| <= |paths| && forall k :: 0 <= k < |plans| ==> PlanOf(plans[k], paths[k])
    requires u in g && l in g[u]
    ensures exists k, U, L :: 0 <= k < |plans| && CalledFor(plans[k].hops, U, L)
                              && U.hopUrn == u.hopUrn && L.hopUrn == l.hopUrn
  {
    hide CalledFor, NeighboursOrdered, Shared, AllMet, HopPlanned;
    assert Planned(plans, u, l);
    var k :| 0 <= k < |plans| && Added(plans[k].orderings, u, l);
    var ng := plans[k].orderings;
    var U: Dependency, L: Dependency :| U in ng && L in ng[U] && U.hopUrn == u.hopUrn && L.hopUrn == l.hopUrn;
    assert PlanOf(plans[k], paths[k]);
    assert CalledFor(plans[k].hops, U, L);
  }

  // ---------------------------------------------------------------- workflows of several requests

  // Two workflows without a common hop, whose aggregates agree.
  ghost predicate Apart(v: WorkflowData, w: WorkflowData)
    reads v, w
  {
    && v != w && UrnsAgree(v.dependencies, w.dependencies)
    && forall d :: d in v.dependencies ==> d !in w.dependencies
  }

  ghost predicate PlansApart(plans: seq<Plan>) {
    forall j, k :: 0 <= j < |plans| && 0 <= k < |plans| ==> UrnsAgree(plans[j].hops, plans[k].hops)
  }

  lemma HeldAgree(ds: seq<Dependency>, g: Edges<Dependency>, plans: seq<Plan>, i: nat)
    requires PlansApart(plans) && i < |plans| && Holds(ds, g, plans[..i])
    ensures UrnsAgree(ds, plans[i].hops) && UrnsAgree(plans[i].hops, plans[i].hops)
  {
    forall a, b | a in ds && b in plans[i].hops && a.hopUrn == b.hopUrn ensures a.aggregateUrn == b.aggregateUrn {
      assert HopPlanned(plans[..i], a);
      var k :| 0 <= k < i && LikeOneOf(a, plans[..i][k].hops) && NewIn(plans[..i], k, a);
      assert UrnsAgree(plans[k].hops, plans[i].hops);
    }
  }

  /** The workflows of several requests merged into the first of them. */
  method MergeWorkflows(ws: seq<WorkflowData>)
      returns (forest: seq<Hop>, ghost roots: seq<Dependency>, ghost plans: seq<Plan>)
    requires ws != [] && UniqueUrns(ws[0].dependencies)
    requires forall k :: 0 <= k < |ws| ==>
      Sound(ws[k].dependencies) && UrnsAgree(ws[k].dependencies, ws[k].dependencies)
    requires forall j, k :: 0 <= j < |ws| && 0 <= k < |ws| && j != k ==> Apart(ws[j], ws[k])
    modifies ws[0], ws[0].dependencies
    ensures |plans| == |ws|
    ensures forall k :: 0 <= k < |ws| ==> plans[k] == old(Plan(ws[k].dependencies, EdgesOf(ws[k].dependencies)))
    ensures Sound(ws[0].dependencies) && UniqueUrns(ws[0].dependencies)
    ensures Holds(ws[0].dependencies, EdgesOf(ws[0].dependencies), plans)
    ensures HandedOut(ws[0].dependencies, forest, roots)
    ensures forall t :: t in forest ==> Given(t, plans)
  {
    hide Sound, UniqueUrns, UrnsAgree, Holds, IsRoot, Unfolds, Contains, Closed, Mirror, PlansApart, Given;
    plans := PlansNow(ws);
    AllApart(ws, plans);
    var combined := ws[0];
    SoundMirror(combined.dependencies);
    HoldsFirst(combined.dependencies, EdgesOf(combined.dependencies));
    assert plans[..1] == [plans[0]];
    MergeRest(combined, ws, plans);
    forest, roots := GenerateXmlRpcData(combined.dependencies);
    ForestGiven(combined.dependencies, forest, roots, plans);
  }

  method MergeRest(w: WorkflowData, ws: seq<WorkflowData>, ghost plans: seq<Plan>)
    requires |plans| == |ws| > 0 && w == ws[0] && PlansApart(plans)
    requires Sound(w.dependencies) && UniqueUrns(w.dependencies)
    requires Holds(w.dependencies, EdgesOf(w.dependencies), plans[..1])
    requires forall k :: 1 <= k < |ws| ==> ws[k] != w && ws[k].dependencies == plans[k].hops
    requires forall k :: 1 <= k < |ws| ==> Sound(plans[k].hops) && EdgesOf(plans[k].hops) == plans[k].orderings
    requires forall k, d :: 1 <= k < |ws| && d in plans[k].hops ==> d !in w.dependencies
    modifies w, w.dependencies
    ensures Sound(w.dependencies) && UniqueUrns(w.dependencies) && Holds(w.dependencies, EdgesOf(w.dependencies), plans)
  {
    hide Sound, UniqueUrns, UrnsAgree, Holds, PlansApart;
    for i := 1 to |ws|
      invariant Sound(w.dependencies) && UniqueUrns(w.dependencies)
      invariant Holds(w.dependencies, EdgesOf(w.dependencies), plans[..i])
      invariant forall d :: d in w.dependencies ==> d in old(w.dependencies) || fresh(d)
      invariant forall k :: 1 <= k < |ws| ==> ws[k].dependencies == plans[k].hops
      invariant forall k :: i <= k < |ws| ==> Sound(plans[k].hops) && EdgesOf(plans[k].hops) == plans[k].orderings
    {
      HeldAgree(w.dependencies, EdgesOf(w.dependencies), plans, i);
      assert plans[..i] + [plans[i]] == plans[..i + 1];
      assert forall k :: 0 <= k < |w.dependencies| ==> w.dependencies[k] in w.dependencies;
      MergeHeld(w, ws[i].dependencies, plans[..i]);
    }
    assert plans[..|ws|] == plans;
  }

  lemma PlansNow(ws: seq<WorkflowData>) returns (plans: seq<Plan>)
    ensures |plans| == |ws|
    ensures forall k :: 0 <= k < |ws| ==> plans[k] == Plan(ws[k].dependencies, EdgesOf(ws[k].dependencies))
  {
    plans := [];
    for i := 0 to |ws|
      invariant |plans| == i
      invariant forall k :: 0 <= k < i ==> plans[k] == Plan(ws[k].dependencies, EdgesOf(ws[k].dependencies))
    {
      plans := plans + [Plan(ws[i].dependencies, EdgesOf(ws[i].dependencies))];
    }
  }

  lemma AllApart(ws: seq<WorkflowData>, plans: seq<Plan>)
    requires |plans| == |ws| && forall k :: 0 <= k < |ws| ==> plans[k].hops == ws[k].dependencies
    requires forall k :: 0 <= k < |ws| ==> UrnsAgree(ws[k].dependencies, ws[k].dependencies)
    requires forall j, k :: 0 <= j < |ws| && 0 <= k < |ws| && j != k ==> Apart(ws[j], ws[k])
    ensures PlansApart(plans)
  {
    hide UrnsAgree;
    forall j, k | 0 <= j < |plans| && 0 <= k < |plans| ensures UrnsAgree(plans[j].hops, plans[k].hops) {
      if j != k {
        assert Apart(ws[j], ws[k]);
      }
    }
  }
}
