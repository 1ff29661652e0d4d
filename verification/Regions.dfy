/** When the listing of hops is complete in any topology of paired links: the walk makes its first hop at
the first real link it finds behind artificial nodes, and another root for every such link that it has not
passed when it comes back.
*/
module Regions {
  import opened Graph
  import opened HopForest
  import opened Lists
  import opened Numbering
  import opened Roots

  // ---------------------------------------------------------------- the nodes around the front

  /** Where artificial links lead from each node: those that start or end at an artificial node. */
  ghost function BridgeNeighbours(t: Topology): Edges<nat>
    requires WellFormed(t)
  {
    map n: nat | n < |t.nodes| :: BridgeEnds(t, n, t.nodes[n].localLinks)
  }

  predicate Bridging(t: Topology, n: nat, l: nat)
    requires WellFormed(t) && n < |t.nodes| && l < |t.links|
  {
    FarEnd(t, l).Some? && (Artificial(t, n) || Artificial(t, FarEnd(t, l).value))
  }

  ghost function BridgeEnds(t: Topology, n: nat, ls: seq<nat>): seq<nat>
    requires WellFormed(t) && n < |t.nodes| && forall k :: 0 <= k < |ls| ==> ls[k] < |t.links|
  {
    if ls == [] then []
    else (if Bridging(t, n, ls[0]) then [FarEnd(t, ls[0]).value] else []) + BridgeEnds(t, n, ls[1..])
  }

  lemma {:induction false} BridgeEndsAre(t: Topology, n: nat, ls: seq<nat>, m: nat)
    requires WellFormed(t) && n < |t.nodes| && forall k :: 0 <= k < |ls| ==> ls[k] < |t.links|
    ensures m in BridgeEnds(t, n, ls) <==>
      exists k :: 0 <= k < |ls| && Bridging(t, n, ls[k]) && FarEnd(t, ls[k]) == Some(m)
  {
    if ls != [] {
      BridgeEndsAre(t, n, ls[1..], m);
      if k :| 0 <= k < |ls| && Bridging(t, n, ls[k]) && FarEnd(t, ls[k]) == Some(m) {
        assert k == 0 || ls[1..][k - 1] == ls[k];
      }
    }
  }

  /** `n` is the front node or can be reached from it by artificial links. */
  ghost predicate AroundFront(t: Topology, n: nat)
    requires WellFormed(t)
  {
    n == 0 || Reach(BridgeNeighbours(t), 0, n)
  }

  lemma BridgeFromFront(t: Topology, n: nat, l: nat)
    requires WellFormed(t) && n < |t.nodes| && l in t.nodes[n].localLinks && l < |t.links| && Bridging(t, n, l)
    requires AroundFront(t, n)
    ensures AroundFront(t, FarEnd(t, l).value)
  {
    var g, m := BridgeNeighbours(t), FarEnd(t, l).value;
    BridgeEndsAre(t, n, t.nodes[n].localLinks, m);
    ReachEdge(g, n, m);
    if n != 0 {
      ReachTrans(g, 0, n, m);
    }
  }

  lemma AroundIsFromFront(t: Topology, n: nat)
    requires WellFormed(t) && AroundFront(t, n)
    ensures FromFront(t, n)
  {
    if n != 0 {
      var g: Edges<nat>, h: Edges<nat> := BridgeNeighbours(t), Neighbours(t);
      forall x, c | x in g && c in g[x] ensures x in h && c in h[x] {
        BridgeEndsAre(t, x, t.nodes[x].localLinks, c);
        FarEndsAre(t, t.nodes[x].localLinks, c);
      }
      assert Reach(g, 0, n);
      ReachGrows<nat>(g, h, 0, n);
    }
  }

  /** A real link that starts around the front: the first real link of some way from the front node. */
  ghost predicate FirstReal(t: Topology, r: nat)
    requires WellFormed(t)
  {
    r < |t.links| && Real(t, r) && AroundFront(t, t.links[r].localEnd.value)
  }

  // ---------------------------------------------------------------- finding the first hop

  /** The first real link the walk finds, and the links it has visited by then; or all it visits. */
  datatype Find = Find(root: Option<nat>, seen: set<nat>)

  predicate IsLink(t: Topology, l: nat) {
    l < |t.links|
  }

  function AllLinks(t: Topology): set<nat> {
    set l: nat | l < |t.links| && IsLink(t, l)
  }

  function SearchFrom(t: Topology, v: set<nat>, n: nat, k: nat): (f: Find)
    requires WellFormed(t) && n < |t.nodes| && k <= |t.nodes[n].localLinks|
    ensures v <= f.seen
    decreases AllLinks(t) - v, |t.nodes[n].localLinks| - k + 1
  {
    if k == |t.nodes[n].localLinks| then Find(None, v)
    else
      var f := SearchLink(t, v, n, t.nodes[n].localLinks[k]);
      if f.root.Some? then f else SearchFrom(t, f.seen, n, k + 1)
  }

  function SearchLink(t: Topology, v: set<nat>, n: nat, l: nat): (f: Find)
    requires WellFormed(t) && n < |t.nodes| && l < |t.links|
    ensures v <= f.seen
    decreases AllLinks(t) - v, 0
  {
    if l in v then Find(None, v)
    else if t.links[l].remoteLink.None? || t.links[l].remoteLink.value in v + {l} then Find(None, v + {l})
    else if FarEnd(t, l).None? then Find(None, v + Pair(t, l))
    else if Bridging(t, n, l) then
      assert l in AllLinks(t) - v && l !in AllLinks(t) - (v + Pair(t, l));
      SearchFrom(t, v + Pair(t, l), FarEnd(t, l).value, 0)
    else Find(Some(l), v)
  }

  /** Every real link around the front is passed before the walk along `l` comes back. */
  ghost predicate Covers(t: Topology, l: nat, v: set<nat>)
    requires WellFormed(t) && l < |t.links|
  {
    && t.links[l].remoteLink.Some? && FarEnd(t, l).Some?
    && forall r: nat :: r < |t.links| && FirstReal(t, r) ==> Passed(t, l, v, r)
  }

  ghost predicate Passed(t: Topology, l: nat, v: set<nat>, r: nat)
    requires WellFormed(t) && l < |t.links| && t.links[l].remoteLink.Some? && FarEnd(t, l).Some? && FirstReal(t, r)
  {
    r in Pair(t, l) || Leads(t, v + Pair(t, l), FarEnd(t, l).value, t.links[r].localEnd.value)
  }

  /** The listing is complete: there is nothing to list, or the first hop is at a link that covers the
      front. */
  ghost predicate ListedAll(t: Topology)
    requires WellFormed(t) && |t.nodes| > 0
  {
    var f := SearchFrom(t, {}, 0, 0);
    f.root.Some? && f.root.value < |t.links| ==> Covers(t, f.root.value, f.seen)
  }

  // ---------------------------------------------------------------- the state after the first hop

  ghost predicate AllPassed(t: Topology, s: State)
    requires WellFormed(t) && |s.work| == |t.links|
  {
    forall r: nat :: r < |t.links| && FirstReal(t, r) ==> s.work[r].visited
  }

  /** The first hop was found at `l` when `v` had been visited: from there on no root is added if `l` covers
      the front; if not, one has been, or a real link around the front is left to do so. */
  ghost predicate AfterFirst(t: Topology, l: nat, v: set<nat>, s: State)
    requires WellFormed(t) && |s.work| == |t.links|
  {
    && l < |t.links| && s.par != []
    && (Covers(t, l, v) ==> OneRoot(s.par) && AllPassed(t, s))
    && (!Covers(t, l, v) ==> !OneRoot(s.par) || !AllPassed(t, s))
  }

  // From `s` to `s'` with no hop before: no hop or a root first, and no hop at all if all real links
  // around the front were passed.
  ghost predicate RootsFirstly(t: Topology, s: State, s': State)
    requires WellFormed(t) && |s.work| == |t.links|
  {
    && (s'.par == s.par || (|s.par| < |s'.par| && s'.par[|s.par|] == 0))
    && (AllPassed(t, s) ==> s'.par == s.par)
  }

  /** A part of the walk around the front, of which the search says `f`. */
  ghost predicate Around(t: Topology, s: State, s': State, f: Find)
    requires WellFormed(t)
  {
    && |s.work| == |s'.work| == |t.links| && RootsFirstly(t, s, s')
    && (s.par == [] ==>
          if f.root.None? then s'.par == [] && VisitedLinks(s') == f.seen
          else AfterFirst(t, f.root.value, f.seen, s'))
  }

  lemma AfterFirstStays(t: Topology, l: nat, v: set<nat>, s: State, s': State)
    requires WellFormed(t) && Paired(t) && |s.work| == |s'.work| == |t.links| && AfterFirst(t, l, v, s)
    requires Extended(s, s', true) && Numbered(s) && Numbered(s') && Settled(t, s) && Settled(t, s')
    requires RootsFirstly(t, s, s')
    ensures AfterFirst(t, l, v, s')
  {
    hide Covers, FirstReal, Settled, Numbered, Paired;
    if Covers(t, l, v) {
      assert s'.par == s.par;
    } else if OneRoot(s.par) {
      if AllPassed(t, s') {
        var r: nat :| r < |t.links| && FirstReal(t, r) && !s.work[r].visited;
        NewHop(t, s, s', r);
        assert s'.par[|s.par|] == 0;
      }
    } else {
      var k :| 1 <= k < |s.par| && s.par[k] == 0;
      assert s'.par[k] == 0;
    }
  }

  // A real link newly visited is a new hop.
  lemma NewHop(t: Topology, s: State, s': State, r: nat)
    requires WellFormed(t) && Paired(t) && |s.work| == |s'.work| == |t.links| && FirstReal(t, r)
    requires Extended(s, s', true) && Numbered(s) && Numbered(s') && Settled(t, s) && Settled(t, s')
    requires !s.work[r].visited && s'.work[r].visited
    ensures s'.par != s.par
  {
    assert s'.work[r].id > 0 && s.work[r].id == 0;
    assert forall k :: 0 <= k < |s.order| ==> s.order[k] != r;
    assert s'.order[s'.work[r].id - 1] == r;
  }

  // ---------------------------------------------------------------- one link

  lemma AroundOld(t: Topology, s: State, n: nat, l: nat)
    requires WellFormed(t) && n < |t.nodes| && |s.work| == |t.links| && l < |t.links| && s.work[l].visited
    ensures Around(t, s, s, SearchLink(t, VisitedLinks(s), n, l))
  {
    hide AllPassed, SearchFrom;
    assert l in VisitedLinks(s);
  }

  lemma VisitLinks(s: State, l: nat)
    requires l < |s.work|
    ensures VisitedLinks(Visit(s, l)) == VisitedLinks(s) + {l}
  {
  }

  lemma AroundDead(t: Topology, s: State, n: nat, l: nat)
    requires WellFormed(t) && n < |t.nodes| && |s.work| == |t.links| && l < |t.links| && !s.work[l].visited
    requires t.links[l].remoteLink.None? || Visit(s, l).work[t.links[l].remoteLink.value].visited
    ensures Around(t, s, Visit(s, l), SearchLink(t, VisitedLinks(s), n, l))
  {
    hide AllPassed, SearchFrom;
    VisitLinks(s, l);
    assert l !in VisitedLinks(s);
    assert t.links[l].remoteLink.Some? ==> t.links[l].remoteLink.value in VisitedLinks(Visit(s, l));
  }

  lemma NotVisited(t: Topology, s: State, n: nat, l: nat)
    requires CanFollow(t, s, n, l)
    ensures l !in VisitedLinks(s) && t.links[l].remoteLink.value !in VisitedLinks(s) + {l}
    ensures VisitedLinks(VisitPair(t, s, l)) == VisitedLinks(s) + Pair(t, l)
  {
    hide Numbered, Settled;
    PairVisits(t, s, VisitPair(t, s, l), l);
    VisitLinks(s, l);
    assert t.links[l].remoteLink.value !in VisitedLinks(Visit(s, l));
  }

  lemma AroundNowhere(t: Topology, s: State, n: nat, l: nat)
    requires CanFollow(t, s, n, l) && FarEnd(t, l).None?
    ensures Around(t, s, VisitPair(t, s, l), SearchLink(t, VisitedLinks(s), n, l))
  {
    hide AllPassed, SearchFrom, Numbered, Settled;
    NotVisited(t, s, n, l);
  }

  lemma AroundBridge(t: Topology, s: State, s': State, n: nat, l: nat)
    requires CanFollow(t, s, n, l) && Bridging(t, n, l)
    requires Around(t, VisitPair(t, s, l), s', SearchFrom(t, VisitedLinks(VisitPair(t, s, l)), FarEnd(t, l).value, 0))
    ensures Around(t, s, s', SearchLink(t, VisitedLinks(s), n, l))
  {
    hide SearchFrom, Numbered, Settled, FirstReal, AfterFirst;
    NotVisited(t, s, n, l);
    assert AllPassed(t, s) ==> AllPassed(t, VisitPair(t, s, l));
  }

  /** The first hop: the walk along a real link comes back having passed exactly what it leads to. */
  lemma FirstHop(t: Topology, s: State, s': State, n: nat, l: nat)
    requires CanFollow(t, s, n, l) && Paired(t) && FarEnd(t, l).Some? && |s'.work| == |t.links|
    requires Settled(t, s') && SpreadFrom(t, s, s', l) && s'.work[l].visited
    requires s.par == [] && s'.par != [] && OneRoot(s'.par)
    ensures AfterFirst(t, l, VisitedLinks(s), s')
  {
    var v := VisitedLinks(s);
    hide Numbered, SpreadFrom, Leads, FirstReal, Paired;
    if Covers(t, l, v) {
      forall r: nat | r < |t.links| && FirstReal(t, r) ensures s'.work[r].visited {
        assert Passed(t, l, v, r);
        PassedIsVisited(t, s, s', n, l, r);
      }
    } else {
      var r: nat :| r < |t.links| && FirstReal(t, r) && !Passed(t, l, v, r);
      VisitedIsPassed(t, s, s', n, l, r);
    }
  }

  lemma PassedIsVisited(t: Topology, s: State, s': State, n: nat, l: nat, r: nat)
    requires CanFollow(t, s, n, l) && Paired(t) && FarEnd(t, l).Some? && |s'.work| == |t.links|
    requires Settled(t, s') && SpreadFrom(t, s, s', l) && s'.work[l].visited
    requires FirstReal(t, r) && Passed(t, l, VisitedLinks(s), r)
    ensures s'.work[r].visited
  {
    hide Numbered, SpreadFrom, Leads;
    if r !in Pair(t, l) {
      var m := t.links[r].localEnd.value;
      ComesBack(t, s, s', m, l);
      var k :| 0 <= k < |t.nodes[m].localLinks| && t.nodes[m].localLinks[k] == r;
    }
  }

  lemma VisitedIsPassed(t: Topology, s: State, s': State, n: nat, l: nat, r: nat)
    requires CanFollow(t, s, n, l) && Paired(t) && FarEnd(t, l).Some? && |s'.work| == |t.links|
    requires SpreadFrom(t, s, s', l) && s.par == [] && FirstReal(t, r)
    ensures s'.work[r].visited ==> Passed(t, l, VisitedLinks(s), r)
  {
    hide Leads, Done;
    assert !s.work[r].visited;
    if s'.work[r].visited && r != l {
      assert Newly(s, s', r);
    }
  }

  lemma AroundReal(t: Topology, s: State, s': State, n: nat, l: nat)
    requires CanFollow(t, s, n, l) && Paired(t) && FarEnd(t, l).Some? && !Bridging(t, n, l) && AroundFront(t, n)
    requires |s'.work| == |t.links| && SpreadFrom(t, s, s', l) && Settled(t, s') && s'.work[l].visited
    requires |s.par| < |s'.par| && s'.par[|s.par|] == 0 && FirstRootOnly(s.par, s'.par)
    ensures Around(t, s, s', SearchLink(t, VisitedLinks(s), n, l))
  {
    hide Numbered, Settled, SearchFrom, AroundFront, SpreadFrom;
    NotVisited(t, s, n, l);
    EndIs(t, n, l);
    assert FirstReal(t, l) && !AllPassed(t, s);
    if s.par == [] {
      FirstHop(t, s, s', n, l);
    }
  }

  /** Following link `l` of node `n`; at the `front` there is no hop before it. */
  ghost predicate LinkAround(t: Topology, s: State, s': State, n: nat, l: nat, front: bool)
    requires WellFormed(t) && n < |t.nodes| && l < |t.links|
  {
    front && Paired(t) && AroundFront(t, n) ==> Around(t, s, s', SearchLink(t, VisitedLinks(s), n, l))
  }

  lemma SkipAround(t: Topology, s: State, s': State, n: nat, l: nat, front: bool)
    requires CanFollow(t, s, n, l) && Bridging(t, n, l)
    requires NodeAround(t, VisitPair(t, s, l), s', FarEnd(t, l).value, front)
    ensures LinkAround(t, s, s', n, l, front)
  {
    hide Around, SearchFrom, SearchLink, AroundFront, Numbered, Settled, Paired;
    if front && Paired(t) && AroundFront(t, n) {
      BridgeFromFront(t, n, l);
      AroundBridge(t, s, s', n, l);
    }
  }

  lemma TakeAround(t: Topology, s: State, s1: State, s2: State, n: nat, p: nat, l: nat, front: bool)
    requires CanFollow(t, s, n, l) && FarEnd(t, l).Some? && !Bridging(t, n, l) && p <= |s.order| && (front ==> p == 0)
    requires |s.order| == |s.par| && (p > 0 ==> s.order[p - 1] < |s.work|) && s1 == NumberPair(t, s, p, l)
    requires Grown(t, s1, s2, false) && Followed(t, s, s2, n, l, front) && Settled(t, s2) && s2.work[l].visited
    ensures LinkAround(t, s, s2, n, l, front)
  {
    hide Around, SearchFrom, SearchLink, AroundFront, Numbered, Settled, Paired, NumberPair, SpreadFrom, RealLinks;
    if front && Paired(t) && AroundFront(t, n) {
      NumberPairNumbered(t, s, p, l);
      FirstRootOnlyAfter(t, s, s1, s2, p);
      assert s2.par[|s.par|] == s1.par[|s.par|] == p;
      AroundReal(t, s, s2, n, l);
    }
  }

  // ---------------------------------------------------------------- the links of a node

  /** The walk from node `n`; at the `front` there is no hop before it. */
  ghost predicate NodeAround(t: Topology, s: State, s': State, n: nat, front: bool)
    requires WellFormed(t) && n < |t.nodes|
  {
    front && Paired(t) && AroundFront(t, n) ==> Around(t, s, s', SearchFrom(t, VisitedLinks(s), n, 0))
  }

  ghost predicate NodeSoFar(t: Topology, s: State, s': State, n: nat, k: nat, front: bool)
    requires WellFormed(t) && n < |t.nodes| && k <= |t.nodes[n].localLinks|
  {
    front && Paired(t) && AroundFront(t, n) ==> AroundSoFar(t, s, s', n, k)
  }

  lemma NodeStart(t: Topology, s: State, n: nat, front: bool)
    requires WellFormed(t) && n < |t.nodes| && |s.work| == |t.links|
    ensures NodeSoFar(t, s, s, n, 0, front)
  {
    hide AroundSoFar;
    AroundStart(t, s, n);
  }

  lemma NodeNext(t: Topology, s: State, s1: State, s2: State, n: nat, k: nat, front: bool)
    requires WellFormed(t) && n < |t.nodes| && k < |t.nodes[n].localLinks| && NodeSoFar(t, s, s1, n, k, front)
    requires Grown(t, s, s1, front) && Grown(t, s1, s2, front) && Numbered(s1) && Numbered(s2)
    requires |s1.work| == |s2.work| == |t.links| && Settled(t, s1) && Settled(t, s2)
    requires LinkAround(t, s1, s2, n, t.nodes[n].localLinks[k], front)
    ensures NodeSoFar(t, s, s2, n, k + 1, front)
  {
    hide AroundSoFar, Around, SearchLink, AroundFront, Numbered, Settled, Paired, Extended;
    if front && Paired(t) && AroundFront(t, n) {
      AroundNext(t, s, s1, s2, n, k);
    }
  }

  lemma NodeEnd(t: Topology, s: State, s': State, n: nat, front: bool)
    requires WellFormed(t) && n < |t.nodes| && NodeSoFar(t, s, s', n, |t.nodes[n].localLinks|, front)
    ensures NodeAround(t, s, s', n, front)
  {
    hide AroundSoFar, Around, SearchFrom, AroundFront, Paired;
    if front && Paired(t) && AroundFront(t, n) {
      AroundEnd(t, s, s', n);
    }
  }

  // With `k` links of node `n` followed.
  ghost predicate AroundSoFar(t: Topology, s: State, s': State, n: nat, k: nat)
    requires WellFormed(t) && n < |t.nodes| && k <= |t.nodes[n].localLinks|
  {
    && |s.work| == |s'.work| == |t.links| && RootsFirstly(t, s, s')
    && (s.par == [] ==>
          var f := SearchFrom(t, VisitedLinks(s), n, 0);
          if s'.par == [] then f == SearchFrom(t, VisitedLinks(s'), n, k)
          else f.root.Some? && AfterFirst(t, f.root.value, f.seen, s'))
  }

  lemma AroundStart(t: Topology, s: State, n: nat)
    requires WellFormed(t) && n < |t.nodes| && |s.work| == |t.links|
    ensures AroundSoFar(t, s, s, n, 0)
  {
  }

  lemma AroundNext(t: Topology, s: State, s1: State, s2: State, n: nat, k: nat)
    requires WellFormed(t) && Paired(t) && n < |t.nodes| && k < |t.nodes[n].localLinks|
    requires AroundSoFar(t, s, s1, n, k) && Extended(s, s1, true) && Extended(s1, s2, true)
    requires Numbered(s1) && Numbered(s2) && |s1.work| == |s2.work| == |t.links| && Settled(t, s1) && Settled(t, s2)
    requires Around(t, s1, s2, SearchLink(t, VisitedLinks(s1), n, t.nodes[n].localLinks[k]))
    ensures AroundSoFar(t, s, s2, n, k + 1)
  {
    hide Numbered, Settled, AfterFirst, FirstReal, SearchLink, Paired;
    RootsFirstlyTrans(t, s, s1, s2);
    if s.par == [] && s1.par != [] {
      var f := SearchFrom(t, VisitedLinks(s), n, 0);
      hide SearchFrom;
      AfterFirstStays(t, f.root.value, f.seen, s1, s2);
      NotEmpty(t, f.root.value, f.seen, s2);
    } else if s.par == [] {
      var f1 := SearchLink(t, VisitedLinks(s1), n, t.nodes[n].localLinks[k]);
      if f1.root.Some? {
        NotEmpty(t, f1.root.value, f1.seen, s2);
      }
    }
  }

  lemma NotEmpty(t: Topology, l: nat, v: set<nat>, s: State)
    requires WellFormed(t) && |s.work| == |t.links| && AfterFirst(t, l, v, s)
    ensures s.par != []
  {
  }

  lemma RootsFirstlyTrans(t: Topology, s: State, s1: State, s2: State)
    requires WellFormed(t) && |s.work| == |s1.work| == |t.links| && Extended(s, s1, true) && Extended(s1, s2, true)
    requires RootsFirstly(t, s, s1) && RootsFirstly(t, s1, s2)
    ensures RootsFirstly(t, s, s2)
  {
    hide FirstReal;
    assert AllPassed(t, s) ==> AllPassed(t, s1);
    if s1.par != s.par {
      assert s2.par[|s.par|] == s1.par[|s.par|];
    }
  }

  lemma AroundEnd(t: Topology, s: State, s': State, n: nat)
    requires WellFormed(t) && n < |t.nodes| && AroundSoFar(t, s, s', n, |t.nodes[n].localLinks|)
    ensures Around(t, s, s', SearchFrom(t, VisitedLinks(s), n, 0))
  {
    hide AfterFirst, RootsFirstly;
  }

  // ---------------------------------------------------------------- the whole walk

  /** After the walk from the front node over links not visited before, hop 1 is the only root exactly if
      the topology is listed completely. */
  lemma OneRootInAll(t: Topology, s: State, s': State)
    requires WellFormed(t) && Paired(t) && |t.nodes| > 0 && VisitedLinks(s) == {} && s.par == []
    requires Around(t, s, s', SearchFrom(t, {}, 0, 0)) && Over(t, s') && Numbered(s')
    ensures OneRoot(s'.par) <==> ListedAll(t)
    ensures s'.par == [] <==> SearchFrom(t, {}, 0, 0).root.None?
  {
    hide Covers, SearchFrom, Paired;
    var f := SearchFrom(t, {}, 0, 0);
    if f.root.Some? {
      NotEmpty(t, f.root.value, f.seen, s');
      AllPassedAtEnd(t, s');
    }
  }

  lemma OverSizes(t: Topology, s: State)
    requires WellFormed(t) && Over(t, s)
    ensures |s.work| == |t.links|
  {
  }

  /** The walk from the front node, as a list of hops. */
  lemma WalkListsAll(t: Topology, s: State, s': State)
    requires WellFormed(t) && |t.nodes| > 0 && |s.work| == |t.links| && Numbered(s')
    requires s.par == [] && forall l :: 0 <= l < |s.work| ==> !s.work[l].visited
    requires NodeAround(t, s, s', 0, true) && Over(t, s')
    ensures IsForest(s'.par) && |s'.par| == |s'.order|
    ensures Paired(t) ==>
      && (s'.order == [] <==> SearchFrom(t, {}, 0, 0).root.None?)
      && (s'.order == [] || (ListsAll(s'.order, s'.par) <==> ListedAll(t)))
  {
    hide Paired, Around, SearchFrom, Over, ListsAll, ListedAll;
    assert VisitedLinks(s) == {};
    if Paired(t) {
      OneRootInAll(t, s, s');
    }
    if s'.order != [] {
      ListsAllExactlyWhen(s'.order, s'.par);
    }
  }

  lemma AllPassedAtEnd(t: Topology, s: State)
    requires WellFormed(t) && Paired(t) && Over(t, s) && Numbered(s)
    ensures |s.work| == |t.links| && AllPassed(t, s)
  {
    hide Over, Paired;
    assert |s.work| == |t.links| by { OverSizes(t, s); }
    forall r: nat | r < |t.links| && FirstReal(t, r) ensures s.work[r].visited {
      AroundIsFromFront(t, t.links[r].localEnd.value);
      OverNumbers(t, s, r);
    }
  }
}
