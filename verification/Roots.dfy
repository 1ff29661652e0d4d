/** How far the walk over a multipoint topology spreads from a link, and how many roots the forest of
hops gets from the front node.
*/
module Roots {
  import opened Graph
  import opened HopForest
  import opened Lists
  import opened Numbering

  // ---------------------------------------------------------------- ways around visited links

  ghost function VisitedLinks(s: State): set<nat> {
    set l: nat | l < |s.work| && s.work[l].visited
  }

  /** Where links outside `v` lead from each node. */
  ghost function FreeNeighbours(t: Topology, v: set<nat>): Edges<nat>
    requires WellFormed(t)
  {
    map n: nat | n < |t.nodes| :: FreeEnds(t, t.nodes[n].localLinks, v)
  }

  ghost function FreeEnds(t: Topology, ls: seq<nat>, v: set<nat>): seq<nat>
    requires WellFormed(t) && forall k :: 0 <= k < |ls| ==> ls[k] < |t.links|
  {
    if ls == [] then []
    else (if ls[0] !in v && FarEnd(t, ls[0]).Some? then [FarEnd(t, ls[0]).value] else []) + FreeEnds(t, ls[1..], v)
  }

  lemma {:induction false} FreeEndsAre(t: Topology, ls: seq<nat>, v: set<nat>, n: nat)
    requires WellFormed(t) && forall k :: 0 <= k < |ls| ==> ls[k] < |t.links|
    ensures n in FreeEnds(t, ls, v) <==> exists k :: 0 <= k < |ls| && ls[k] !in v && FarEnd(t, ls[k]) == Some(n)
  {
    if ls != [] {
      FreeEndsAre(t, ls[1..], v, n);
      if k :| 0 <= k < |ls| && ls[k] !in v && FarEnd(t, ls[k]) == Some(n) {
        assert k == 0 || ls[1..][k - 1] == ls[k];
      }
    }
  }

  /** `b` is `a` or can be reached from it by links outside `v`. */
  ghost predicate Leads(t: Topology, v: set<nat>, a: nat, b: nat)
    requires WellFormed(t)
  {
    a == b || Reach(FreeNeighbours(t, v), a, b)
  }

  // Links that lead nowhere make no difference.
  lemma LeadsMore(t: Topology, v: set<nat>, v': set<nat>, a: nat, b: nat)
    requires WellFormed(t) && forall l :: l in v && l < |t.links| && FarEnd(t, l).Some? ==> l in v'
    requires Leads(t, v', a, b)
    ensures Leads(t, v, a, b)
  {
    if a != b {
      var g, h := FreeNeighbours(t, v'), FreeNeighbours(t, v);
      forall x, c | x in g && c in g[x] ensures x in h && c in h[x] {
        FreeEndsAre(t, t.nodes[x].localLinks, v', c);
        FreeEndsAre(t, t.nodes[x].localLinks, v, c);
      }
      assert Reach(g, a, b);
      ReachGrows<nat>(g, h, a, b);
    }
  }

  lemma LeadsStep(t: Topology, v: set<nat>, n: nat, l: nat, b: nat)
    requires WellFormed(t) && n < |t.nodes| && l in t.nodes[n].localLinks && l < |t.links| && l !in v
    requires FarEnd(t, l).Some? && Leads(t, v, FarEnd(t, l).value, b)
    ensures Leads(t, v, n, b)
  {
    FreeEndsAre(t, t.nodes[n].localLinks, v, FarEnd(t, l).value);
    ReachStep(FreeNeighbours(t, v), n, FarEnd(t, l).value, b);
  }

  // ---------------------------------------------------------------- how the walk spreads

  ghost predicate Newly(s: State, s': State, x: nat) {
    x < |s.work| && x < |s'.work| && !s.work[x].visited && s'.work[x].visited
  }

  function Pair(t: Topology, l: nat): set<nat>
    requires l < |t.links| && t.links[l].remoteLink.Some?
  {
    {l, t.links[l].remoteLink.value}
  }

  /** The walk from node `n`: links newly visited start at nodes that are done with, and that `n` leads to
      by links not visited before. */
  ghost predicate Spread(t: Topology, s: State, s': State, n: nat)
    requires WellFormed(t) && |s'.work| == |t.links|
  {
    Paired(t) ==> forall x :: 0 <= x < |t.links| && Newly(s, s', x) ==>
      Done(t, s', t.links[x].localEnd.value) && Leads(t, VisitedLinks(s), n, t.links[x].localEnd.value)
  }

  /** The walk along link `l`: nothing but the link is visited unless it is followed, and then what is
      visited lies behind it. */
  ghost predicate SpreadFrom(t: Topology, s: State, s': State, l: nat)
    requires WellFormed(t) && |s'.work| == |s.work| == |t.links| && l < |t.links|
  {
    Paired(t) ==> forall x :: 0 <= x < |t.links| && x != l && Newly(s, s', x) ==>
      && !s.work[l].visited && FarEnd(t, l).Some?
      && Done(t, s', t.links[x].localEnd.value)
      && Leads(t, VisitedLinks(s) + Pair(t, l), FarEnd(t, l).value, t.links[x].localEnd.value)
  }

  // Some links of node `n` have been followed.
  ghost predicate SpreadSoFar(t: Topology, s: State, s': State, n: nat)
    requires WellFormed(t) && |s'.work| == |t.links|
  {
    Paired(t) ==> forall x :: 0 <= x < |t.links| && Newly(s, s', x) ==>
      && (t.links[x].localEnd.value == n || Done(t, s', t.links[x].localEnd.value))
      && Leads(t, VisitedLinks(s), n, t.links[x].localEnd.value)
  }

  lemma SpreadNothing(t: Topology, s: State, l: nat)
    requires WellFormed(t) && |s.work| == |t.links| && l < |t.links|
    ensures SpreadFrom(t, s, s, l) && SpreadFrom(t, s, Visit(s, l), l)
  {
  }

  lemma SpreadNowhere(t: Topology, s: State, l: nat)
    requires WellFormed(t) && |s.work| == |t.links| && l < |t.links|
    requires t.links[l].remoteLink.Some? && FarEnd(t, l).None?
    ensures SpreadFrom(t, s, VisitPair(t, s, l), l)
  {
  }

  // From the walk at the far end of a pair just visited.
  lemma SpreadPair(t: Topology, s: State, s1: State, s2: State, l: nat)
    requires WellFormed(t) && |s.work| == |s1.work| == |s2.work| == |t.links| && l < |t.links| && FarEnd(t, l).Some?
    requires VisitedLinks(s1) == VisitedLinks(s) + Pair(t, l) && !s.work[l].visited
    requires Spread(t, s1, s2, FarEnd(t, l).value) && Done(t, s2, FarEnd(t, l).value)
    ensures SpreadFrom(t, s, s2, l)
  {
    hide Leads, Done;
    var v := VisitedLinks(s) + Pair(t, l);
    assert Leads(t, v, FarEnd(t, l).value, FarEnd(t, l).value) by { LeadsSelf(t, v, FarEnd(t, l).value); }
    forall x | 0 <= x < |t.links| && x != l && Newly(s, s2, x) && Paired(t)
      ensures Done(t, s2, t.links[x].localEnd.value) && Leads(t, v, FarEnd(t, l).value, t.links[x].localEnd.value)
    {
      if x !in Pair(t, l) {
        assert x !in VisitedLinks(s1);
        assert Newly(s1, s2, x);
      }
    }
  }

  lemma LeadsSelf(t: Topology, v: set<nat>, a: nat)
    requires WellFormed(t)
    ensures Leads(t, v, a, a)
  {
  }

  lemma PairVisits(t: Topology, s: State, s1: State, l: nat)
    requires WellFormed(t) && |s.work| == |t.links| && l < |t.links| && t.links[l].remoteLink.Some?
    requires |s1.work| == |s.work|
    requires forall x :: 0 <= x < |s.work| ==> s1.work[x].visited == VisitPair(t, s, l).work[x].visited
    ensures VisitedLinks(s1) == VisitedLinks(s) + Pair(t, l)
  {
  }

  lemma SpreadNext(t: Topology, s: State, s1: State, s2: State, n: nat, l: nat, roots1: bool, roots2: bool)
    requires WellFormed(t) && |s.work| == |t.links| && n < |t.nodes| && l in t.nodes[n].localLinks && l < |t.links|
    requires Extended(s, s1, roots1) && Extended(s1, s2, roots2) && |s1.work| == |s2.work| == |t.links|
    requires SpreadSoFar(t, s, s1, n) && SpreadFrom(t, s1, s2, l)
    ensures SpreadSoFar(t, s, s2, n)
  {
    hide Leads, Done;
    if Paired(t) {
      forall x | 0 <= x < |t.links| && Newly(s, s2, x)
        ensures t.links[x].localEnd.value == n || Done(t, s2, t.links[x].localEnd.value)
        ensures Leads(t, VisitedLinks(s), n, t.links[x].localEnd.value)
      {
        LeadsSelf(t, VisitedLinks(s), n);
        if x == l {
          EndIs(t, n, l);
        } else if s1.work[x].visited {
          if t.links[x].localEnd.value != n {
            DoneStays(t, s1, s2, roots2, t.links[x].localEnd.value);
          }
        } else {
          LeadsMore(t, VisitedLinks(s), VisitedLinks(s1) + Pair(t, l), FarEnd(t, l).value, t.links[x].localEnd.value);
          LeadsStep(t, VisitedLinks(s), n, l, t.links[x].localEnd.value);
        }
      }
    }
  }

  lemma EndIs(t: Topology, n: nat, l: nat)
    requires WellFormed(t) && Paired(t) && n < |t.nodes| && l in t.nodes[n].localLinks && l < |t.links|
    ensures t.links[l].localEnd == Some(n)
  {
  }

  lemma SpreadEnd(t: Topology, s: State, s': State, n: nat)
    requires WellFormed(t) && |s'.work| == |t.links| && n < |t.nodes| && SpreadSoFar(t, s, s', n) && Done(t, s', n)
    ensures Spread(t, s, s', n)
  {
  }

  // ---------------------------------------------------------------- coming back

  // A link visited with its pair, both seen from the other end.
  lemma FarEndDone(t: Topology, s: State, s': State, l: nat, y: nat)
    requires WellFormed(t) && Paired(t) && |s.work| == |s'.work| == |t.links| && l < |t.links| && y < |t.links|
    requires Settled(t, s) && Settled(t, s') && SpreadFrom(t, s, s', l) && t.links[l].remoteLink.Some?
    requires y == l || y !in VisitedLinks(s) + Pair(t, l)
    requires !s.work[y].visited && s'.work[y].visited && FarEnd(t, y).Some?
    ensures Done(t, s', FarEnd(t, y).value)
  {
    hide Leads, Done;
    var z := t.links[y].remoteLink.value;
    assert t.links[z].remoteLink == Some(y);
    assert !s.work[z].visited && s'.work[z].visited;
    assert z != l;
    assert Newly(s, s', z);
  }

  lemma {:induction false} LeadsToDone(t: Topology, s: State, s': State, l: nat, g: Edges<nat>, a: nat, b: nat,
      steps: nat)
    requires WellFormed(t) && Paired(t) && |s.work| == |s'.work| == |t.links| && l < |t.links| && a < |t.nodes|
    requires Settled(t, s) && Settled(t, s') && SpreadFrom(t, s, s', l) && t.links[l].remoteLink.Some?
    requires g == FreeNeighbours(t, VisitedLinks(s) + Pair(t, l)) && ReachIn(g, a, b, steps) && Done(t, s', a)
    ensures b < |t.nodes| && Done(t, s', b)
    decreases steps
  {
    hide Leads, Settled, SpreadFrom, Paired, FreeEnds;
    var c :| c in g[a] && (c == b || ReachIn(g, c, b, steps - 1));
    FreeEndsAre(t, t.nodes[a].localLinks, VisitedLinks(s) + Pair(t, l), c);
    var k :| 0 <= k < |t.nodes[a].localLinks| && t.nodes[a].localLinks[k] !in VisitedLinks(s) + Pair(t, l)
             && FarEnd(t, t.nodes[a].localLinks[k]) == Some(c);
    FarEndDone(t, s, s', l, t.nodes[a].localLinks[k]);
    if c != b {
      LeadsToDone(t, s, s', l, g, c, b, steps - 1);
    }
  }

  /** A walk along `l` that can come back to where it started finishes with that node. */
  lemma ComesBack(t: Topology, s: State, s': State, n: nat, l: nat)
    requires WellFormed(t) && Paired(t) && |s.work| == |s'.work| == |t.links| && l < |t.links| && n < |t.nodes|
    requires Settled(t, s) && Settled(t, s') && SpreadFrom(t, s, s', l)
    requires !s.work[l].visited && s'.work[l].visited && FarEnd(t, l).Some?
    requires Leads(t, VisitedLinks(s) + Pair(t, l), FarEnd(t, l).value, n)
    ensures Done(t, s', n)
  {
    hide Settled, SpreadFrom, Paired;
    FarEndDone(t, s, s', l, l);
    var g, a := FreeNeighbours(t, VisitedLinks(s) + Pair(t, l)), FarEnd(t, l).value;
    if a != n {
      var steps: nat :| ReachIn(g, a, n, steps);
      LeadsToDone(t, s, s', l, g, a, n, steps);
    }
  }

  // ---------------------------------------------------------------- roots

  /** What following `l` from a node with real links, without a hop before it, does to the forest. */
  ghost predicate RootRule(t: Topology, s: State, s': State, l: nat)
    requires l < |t.links| && |s.work| == |t.links|
  {
    if !s.work[l].visited && t.links[l].remoteLink.Some?
    then |s.par| < |s'.par| && s'.par[|s.par|] == 0 && FirstRootOnly(s.par, s'.par)
    else s'.par == s.par
  }

  lemma NotTwice(t: Topology, s: State, l: nat)
    requires WellFormed(t) && Paired(t) && |s.work| == |t.links| && l < |t.links| && Settled(t, s)
    requires !s.work[l].visited && t.links[l].remoteLink.Some?
    ensures !Visit(s, l).work[t.links[l].remoteLink.value].visited && FarEnd(t, l).Some?
  {
  }

  // The first link of a list that has a remote link.
  function FirstLinked(t: Topology, ls: seq<nat>): (r: Option<nat>)
    requires forall k :: 0 <= k < |ls| ==> ls[k] < |t.links|
    ensures r.Some? ==> r.value in ls && r.value < |t.links| && t.links[r.value].remoteLink.Some?
    ensures r.None? ==> forall k :: 0 <= k < |ls| ==> t.links[ls[k]].remoteLink.None?
  {
    if ls == [] then None
    else if t.links[ls[0]].remoteLink.Some? then Some(ls[0])
    else FirstLinked(t, ls[1..])
  }

  lemma {:induction false} FirstLinkedAppend(t: Topology, ls: seq<nat>, l: nat)
    requires (forall k :: 0 <= k < |ls| ==> ls[k] < |t.links|) && l < |t.links|
    ensures FirstLinked(t, ls + [l]) ==
      if FirstLinked(t, ls).Some? then FirstLinked(t, ls) else if t.links[l].remoteLink.Some? then Some(l) else None
  {
    if ls == [] {
      assert ls + [l] == [l] && [l][1..] == [];
    } else {
      assert (ls + [l])[1..] == ls[1..] + [l];
      FirstLinkedAppend(t, ls[1..], l);
    }
  }

  /** No other link of the list has a remote link. */
  predicate Sole(t: Topology, ls: seq<nat>, l: nat)
    requires forall k :: 0 <= k < |ls| ==> ls[k] < |t.links|
  {
    forall k :: 0 <= k < |ls| && t.links[ls[k]].remoteLink.Some? ==> ls[k] == l
  }

  /** The far end of `l` is, or leads back to, node `n` without the pair of `l`. */
  ghost predicate LeadsBack(t: Topology, l: nat, n: nat)
    requires WellFormed(t) && l < |t.links| && t.links[l].remoteLink.Some?
  {
    FarEnd(t, l).Some? && Leads(t, Pair(t, l), FarEnd(t, l).value, n)
  }

  // The roots after a part of the links of `n`, in a walk that begins at `n`.
  ghost predicate RootsSoFar(t: Topology, s: State, s': State, n: nat, k: nat)
    requires WellFormed(t) && n < |t.nodes| && k <= |t.nodes[n].localLinks| && |s'.work| == |t.links|
  {
    var ls := t.nodes[n].localLinks;
    match FirstLinked(t, ls[..k])
    case None => s'.par == s.par && forall x :: 0 <= x < |t.links| && s'.work[x].visited ==> t.links[x].remoteLink.None?
    case Some(l) =>
      && |s.par| < |s'.par| && s'.work[l].visited
      && if LeadsBack(t, l, n) then Done(t, s', n) && FirstRootOnly(s.par, s'.par)
         else if !Sole(t, ls[..k], l) then !FirstRootOnly(s.par, s'.par)
         else FirstRootOnly(s.par, s'.par) && OthersUntouched(t, s', ls, l)
  }

  ghost predicate OthersUntouched(t: Topology, s: State, ls: seq<nat>, l: nat)
    requires |s.work| == |t.links| && forall k :: 0 <= k < |ls| ==> ls[k] < |t.links|
  {
    forall j :: 0 <= j < |ls| && ls[j] != l && t.links[ls[j]].remoteLink.Some? ==> !s.work[ls[j]].visited
  }

  lemma RootsStart(t: Topology, s: State, n: nat)
    requires WellFormed(t) && n < |t.nodes| && |s.work| == |t.links| && VisitedLinks(s) == {}
    ensures RootsSoFar(t, s, s, n, 0)
  {
    assert forall x :: 0 <= x < |t.links| ==> (s.work[x].visited <==> x in VisitedLinks(s));
  }

  lemma RootsStep(t: Topology, s: State, s1: State, s2: State, n: nat, k: nat)
    requires WellFormed(t) && Paired(t) && n < |t.nodes| && k < |t.nodes[n].localLinks|
    requires |s1.work| == |s2.work| == |t.links| && Settled(t, s1) && Settled(t, s2)
    requires Extended(s1, s2, true) && s2.work[t.nodes[n].localLinks[k]].visited
    requires SpreadFrom(t, s1, s2, t.nodes[n].localLinks[k]) && RootRule(t, s1, s2, t.nodes[n].localLinks[k])
    requires RootsSoFar(t, s, s1, n, k)
    ensures RootsSoFar(t, s, s2, n, k + 1)
  {
    hide Settled, SpreadFrom, Leads, FirstLinked;
    var ls := t.nodes[n].localLinks;
    assert ls[..k + 1] == ls[..k] + [ls[k]];
    FirstLinkedAppend(t, ls[..k], ls[k]);
    match FirstLinked(t, ls[..k]) {
      case None =>
        if t.links[ls[k]].remoteLink.None? {
          RootsNone(t, s, s1, s2, ls[k]);
        } else {
          RootsFirst(t, s, s1, s2, n, k);
        }
      case Some(l) => RootsLater(t, s, s1, s2, n, k, l);
    }
  }

  lemma RootsNone(t: Topology, s: State, s1: State, s2: State, l: nat)
    requires WellFormed(t) && Paired(t) && |s1.work| == |s2.work| == |t.links| && l < |t.links|
    requires SpreadFrom(t, s1, s2, l) && RootRule(t, s1, s2, l) && t.links[l].remoteLink.None?
    requires s1.par == s.par && forall x :: 0 <= x < |t.links| && s1.work[x].visited ==> t.links[x].remoteLink.None?
    ensures s2.par == s.par && forall x :: 0 <= x < |t.links| && s2.work[x].visited ==> t.links[x].remoteLink.None?
  {
    hide Leads, Done;
    forall x: nat | x < |t.links| && x != l && !s1.work[x].visited ensures !Newly(s1, s2, x) {
      assert FarEnd(t, l).None?;
    }
  }

  // The first link with a remote link makes a root; the other links of the node are left alone exactly
  // if the walk cannot come back.
  lemma RootsFirst(t: Topology, s: State, s1: State, s2: State, n: nat, k: nat)
    requires WellFormed(t) && Paired(t) && n < |t.nodes| && k < |t.nodes[n].localLinks|
    requires |s1.work| == |s2.work| == |t.links| && Settled(t, s1) && Settled(t, s2)
    requires s2.work[t.nodes[n].localLinks[k]].visited
    requires SpreadFrom(t, s1, s2, t.nodes[n].localLinks[k]) && RootRule(t, s1, s2, t.nodes[n].localLinks[k])
    requires t.links[t.nodes[n].localLinks[k]].remoteLink.Some? && s1.par == s.par
    requires forall x :: 0 <= x < |t.links| && s1.work[x].visited ==> t.links[x].remoteLink.None?
    ensures var ls, l := t.nodes[n].localLinks, t.nodes[n].localLinks[k];
      && |s.par| < |s2.par| && FirstRootOnly(s.par, s2.par)
      && if LeadsBack(t, l, n) then Done(t, s2, n) else OthersUntouched(t, s2, ls, l)
  {
    hide Settled, Leads, Done;
    var ls, l := t.nodes[n].localLinks, t.nodes[n].localLinks[k];
    var v, far := VisitedLinks(s1) + Pair(t, l), FarEnd(t, l).value;
    NotTwice(t, s1, l);
    if LeadsBack(t, l, n) {
      LeadsMore(t, v, Pair(t, l), far, n);
      hide SpreadFrom;
      ComesBack(t, s1, s2, n, l);
    } else {
      forall j | 0 <= j < |ls| && ls[j] != l && t.links[ls[j]].remoteLink.Some? ensures !s2.work[ls[j]].visited {
        if s2.work[ls[j]].visited {
          assert Newly(s1, s2, ls[j]);
          LeadsMore(t, Pair(t, l), v, far, n);
        }
      }
    }
  }

  lemma RootsLater(t: Topology, s: State, s1: State, s2: State, n: nat, k: nat, l: nat)
    requires WellFormed(t) && Paired(t) && n < |t.nodes| && k < |t.nodes[n].localLinks|
    requires |s1.work| == |s2.work| == |t.links| && Extended(s1, s2, true) && |s.par| < |s1.par| && l < |t.links|
    requires s1.work[l].visited && t.links[l].remoteLink.Some?
    requires SpreadFrom(t, s1, s2, t.nodes[n].localLinks[k]) && RootRule(t, s1, s2, t.nodes[n].localLinks[k])
    requires var ls := t.nodes[n].localLinks;
      if LeadsBack(t, l, n) then Done(t, s1, n) && FirstRootOnly(s.par, s1.par)
      else if !Sole(t, ls[..k], l) then !FirstRootOnly(s.par, s1.par)
      else FirstRootOnly(s.par, s1.par) && OthersUntouched(t, s1, ls, l)
    ensures var ls := t.nodes[n].localLinks;
      if LeadsBack(t, l, n) then Done(t, s2, n) && FirstRootOnly(s.par, s2.par)
      else if !Sole(t, ls[..k + 1], l) then !FirstRootOnly(s.par, s2.par)
      else FirstRootOnly(s.par, s2.par) && OthersUntouched(t, s2, ls, l)
  {
    hide Leads, LeadsBack;
    var ls := t.nodes[n].localLinks;
    assert ls[..k + 1] == ls[..k] + [ls[k]];
    if LeadsBack(t, l, n) {
      assert s1.work[ls[k]].visited;
    } else if !Sole(t, ls[..k], l) {
      var j :| |s.par| <= j < |s1.par| && s1.par[j] == 0 && j != |s.par|;
      assert s2.par[j] == 0;
      var i :| 0 <= i < k && t.links[ls[i]].remoteLink.Some? && ls[i] != l;
      assert ls[..k + 1][i] == ls[i];
    } else if ls[k] == l || t.links[ls[k]].remoteLink.None? {
      assert Sole(t, ls[..k + 1], l);
      forall j | 0 <= j < |ls| && ls[j] != l && t.links[ls[j]].remoteLink.Some? ensures !s2.work[ls[j]].visited {
        assert !s1.work[ls[j]].visited && ls[j] != ls[k] && !Newly(s1, s2, ls[j]);
      }
    } else {
      assert ls[..k + 1][k] == ls[k];
      assert s2.par[|s1.par|] == 0;
    }
  }

  /** The walk from a node with real links begins with one hop if some link has a remote link, and makes
      no other root exactly if no other link has one or the first leads back. */
  ghost predicate FrontRoots(t: Topology, s: State, s': State, n: nat)
    requires WellFormed(t) && n < |t.nodes|
  {
    Paired(t) && RealLinks(t, n) && VisitedLinks(s) == {} ==>
      match FirstLinked(t, t.nodes[n].localLinks)
      case None => s'.par == s.par
      case Some(l) =>
        && |s.par| < |s'.par|
        && (FirstRootOnly(s.par, s'.par) <==> Sole(t, t.nodes[n].localLinks, l) || LeadsBack(t, l, n))
  }

  lemma RootsEnd(t: Topology, s: State, s': State, n: nat)
    requires WellFormed(t) && n < |t.nodes| && |s'.work| == |t.links|
    requires RootsSoFar(t, s, s', n, |t.nodes[n].localLinks|)
    ensures FrontRoots(t, s, s', n)
  {
    hide LeadsBack;
    assert t.nodes[n].localLinks[..|t.nodes[n].localLinks|] == t.nodes[n].localLinks;
  }

  // ---------------------------------------------------------------- a step of the walk, and the walk

  /** What following link `l` of node `n` does; at the `front` there is no hop before it. */
  ghost predicate Followed(t: Topology, s: State, s': State, n: nat, l: nat, front: bool)
    requires WellFormed(t) && l < |t.links|
  {
    && |s.work| == |s'.work| == |t.links| && SpreadFrom(t, s, s', l)
    && (front && RealLinks(t, n) ==> FirstRootOnly(s.par, s'.par) && (Paired(t) ==> RootRule(t, s, s', l)))
  }

  lemma FollowedOld(t: Topology, s: State, n: nat, l: nat, front: bool)
    requires WellFormed(t) && |s.work| == |t.links| && l < |t.links| && s.work[l].visited
    ensures Followed(t, s, s, n, l, front)
  {
    SpreadNothing(t, s, l);
  }

  lemma FollowedDead(t: Topology, s: State, n: nat, l: nat, front: bool)
    requires WellFormed(t) && |s.work| == |t.links| && l < |t.links| && Settled(t, s) && !s.work[l].visited
    requires t.links[l].remoteLink.None? || Visit(s, l).work[t.links[l].remoteLink.value].visited
    ensures Followed(t, s, Visit(s, l), n, l, front)
  {
    SpreadNothing(t, s, l);
  }

  lemma FollowedNowhere(t: Topology, s: State, n: nat, l: nat, front: bool)
    requires CanFollow(t, s, n, l) && FarEnd(t, l).None?
    ensures Followed(t, s, VisitPair(t, s, l), n, l, front)
  {
    hide Numbered;
    SpreadNowhere(t, s, l);
  }

  lemma FollowedArtificial(t: Topology, s: State, s': State, n: nat, l: nat, front: bool)
    requires CanFollow(t, s, n, l) && FarEnd(t, l).Some? && (Artificial(t, n) || Artificial(t, FarEnd(t, l).value))
    requires |s'.work| == |t.links| && Spread(t, VisitPair(t, s, l), s', FarEnd(t, l).value)
    requires Done(t, s', FarEnd(t, l).value)
    ensures Followed(t, s, s', n, l, front)
  {
    hide Numbered, Settled, Spread, SpreadFrom, Done, Artificial;
    PairVisits(t, s, VisitPair(t, s, l), l);
    SpreadPair(t, s, VisitPair(t, s, l), s', l);
  }

  lemma FollowedReal(t: Topology, s: State, s1: State, s2: State, n: nat, p: nat, l: nat, front: bool)
    requires CanFollow(t, s, n, l) && FarEnd(t, l).Some? && (front ==> p == 0) && p <= |s.order|
    requires |s.order| == |s.par| && (p > 0 ==> s.order[p - 1] < |s.work|) && s1 == NumberPair(t, s, p, l)
    requires |s1.work| == |s2.work| == |t.links|
    requires Grown(t, s1, s2, false) && Spread(t, s1, s2, FarEnd(t, l).value) && Done(t, s2, FarEnd(t, l).value)
    ensures Followed(t, s, s2, n, l, front)
  {
    hide Numbered, Settled, Spread, SpreadFrom, Done, RealLinks, FirstRootOnly;
    hide NumberPair;
    NumberPairNumbered(t, s, p, l);
    PairVisits(t, s, s1, l);
    SpreadPair(t, s, s1, s2, l);
    FirstRootOnlyAfter(t, s, s1, s2, p);
    assert s2.par[|s.par|] == s1.par[|s.par|] == p;
  }

  /** What the walk from node `n` does. */
  ghost predicate Walked(t: Topology, s: State, s': State, n: nat, front: bool)
    requires WellFormed(t) && n < |t.nodes|
  {
    && |s'.work| == |t.links| && Spread(t, s, s', n)
    && (front ==> FrontRoots(t, s, s', n))
    && (front && RealLinks(t, n) && |t.nodes[n].localLinks| <= 1 ==> FirstRootOnly(s.par, s'.par))
  }

  // ... with `k` links of the node followed.
  ghost predicate WalkedSoFar(t: Topology, s: State, s': State, n: nat, k: nat, front: bool)
    requires WellFormed(t) && n < |t.nodes| && k <= |t.nodes[n].localLinks|
  {
    && |s.work| == |s'.work| == |t.links| && SpreadSoFar(t, s, s', n)
    && (k == 0 ==> s' == s)
    && (k <= 1 && front && RealLinks(t, n) ==> FirstRootOnly(s.par, s'.par))
    && (front && Paired(t) && RealLinks(t, n) && VisitedLinks(s) == {} ==> RootsSoFar(t, s, s', n, k))
  }

  lemma WalkedStart(t: Topology, s: State, n: nat, front: bool)
    requires WellFormed(t) && |s.work| == |t.links| && n < |t.nodes|
    ensures WalkedSoFar(t, s, s, n, 0, front)
  {
    hide RootsSoFar;
    if VisitedLinks(s) == {} {
      RootsStart(t, s, n);
    }
  }

  lemma WalkedStep(t: Topology, s: State, s1: State, s2: State, n: nat, k: nat, front: bool)
    requires WellFormed(t) && n < |t.nodes| && k < |t.nodes[n].localLinks|
    requires WalkedSoFar(t, s, s1, n, k, front) && Grown(t, s, s1, front) && Grown(t, s1, s2, front)
    requires Settled(t, s1) && Settled(t, s2) && s2.work[t.nodes[n].localLinks[k]].visited
    requires Followed(t, s1, s2, n, t.nodes[n].localLinks[k], front)
    ensures WalkedSoFar(t, s, s2, n, k + 1, front)
  {
    hide Settled, RootsSoFar, SpreadSoFar, SpreadFrom, RootRule, RealLinks, Paired, Extended;
    SpreadNext(t, s, s1, s2, n, t.nodes[n].localLinks[k], front, front);
    if front && Paired(t) && RealLinks(t, n) && VisitedLinks(s) == {} {
      RootsStep(t, s, s1, s2, n, k);
    }
  }

  lemma WalkedEnd(t: Topology, s: State, s': State, n: nat, front: bool)
    requires WellFormed(t) && n < |t.nodes| && |s'.work| == |t.links| && Done(t, s', n)
    requires WalkedSoFar(t, s, s', n, |t.nodes[n].localLinks|, front)
    ensures Walked(t, s, s', n, front)
  {
    hide RootsSoFar, FrontRoots, RealLinks;
    SpreadEnd(t, s, s', n);
    if front {
      if Paired(t) && RealLinks(t, n) && VisitedLinks(s) == {} {
        RootsEnd(t, s, s', n);
      } else {
        NoFrontRoots(t, s, s', n);
      }
    }
  }

  lemma NoFrontRoots(t: Topology, s: State, s': State, n: nat)
    requires WellFormed(t) && n < |t.nodes| && !(Paired(t) && RealLinks(t, n) && VisitedLinks(s) == {})
    ensures FrontRoots(t, s, s', n)
  {
  }

  lemma SoFarStart(t: Topology, s: State, s': State, n: nat, k: nat, front: bool)
    requires WellFormed(t) && n < |t.nodes| && k <= |t.nodes[n].localLinks| && WalkedSoFar(t, s, s', n, k, front)
    ensures k == 0 ==> s' == s
  {
    hide RootsSoFar, SpreadSoFar;
  }

  // ---------------------------------------------------------------- when the listing is complete

  /** The front node has at most one link with a remote link, or the first of them leads back to it
      without its own pair. */
  ghost predicate ListedWhole(t: Topology)
    requires WellFormed(t) && |t.nodes| > 0
  {
    match FirstLinked(t, t.nodes[0].localLinks)
    case None => true
    case Some(l) => Sole(t, t.nodes[0].localLinks, l) || LeadsBack(t, l, 0)
  }

  /** After a walk from the front node over links not visited before, hop 1 is the only root exactly if
      the topology says so. */
  lemma OneRootExactlyWhen(t: Topology, s: State, s': State)
    requires WellFormed(t) && Paired(t) && |t.nodes| > 0 && RealLinks(t, 0)
    requires VisitedLinks(s) == {} && s.par == [] && FrontRoots(t, s, s', 0)
    ensures OneRoot(s'.par) <==> ListedWhole(t)
    ensures s'.par == [] <==> FirstLinked(t, t.nodes[0].localLinks).None?
  {
    hide Paired, RealLinks, VisitedLinks, LeadsBack, Sole;
  }

  /** A state with nothing visited or numbered, at the front node. */
  lemma StartIs(t: Topology, s: State)
    requires WellFormed(t) && |t.nodes| > 0 && |s.work| == |t.links|
    requires s.order == [] && s.par == [] && s.seen == {0}
    requires forall l :: 0 <= l < |s.work| ==> s.work[l] == Work(false, [], 0)
    ensures Numbered(s) && Settled(t, s) && FromFront(t, 0)
  {
  }

  /** What holds when the walk from the front node has come back. */
  lemma WalkIsOver(t: Topology, s: State, s': State)
    requires WellFormed(t) && |t.nodes| > 0 && |s.work| == |s'.work| == |t.links|
    requires s.par == [] && s.seen == {0} && forall l :: 0 <= l < |s.work| ==> !s.work[l].visited
    requires Grown(t, s, s', true) && Walked(t, s, s', 0, true) && Done(t, s', 0)
    requires Numbered(s') && Settled(t, s')
    requires forall n :: n in s'.seen ==> n < |t.nodes| && FromFront(t, n)
    ensures Over(t, s') && IsForest(s'.par) && |s'.par| == |s'.order|
    ensures RealLinks(t, 0) && |t.nodes[0].localLinks| <= 1 ==> OneRoot(s'.par)
    ensures Paired(t) && RealLinks(t, 0) ==>
      && (s'.order == [] <==> FirstLinked(t, t.nodes[0].localLinks).None?)
      && (s'.order == [] || (ListsAll(s'.order, s'.par) <==> ListedWhole(t)))
  {
    hide Settled, Paired, RealLinks, FrontRoots, ListedWhole, Spread, ListsAll;
    assert VisitedLinks(s) == {};
    if Paired(t) && RealLinks(t, 0) {
      OneRootExactlyWhen(t, s, s');
    }
    if s'.order != [] {
      ListsAllExactlyWhen(s'.order, s'.par);
    }
  }

  // A front node with two links to nodes that have no other links.
  const TWO_BRANCHES: Topology := Topology(
    [Node("a", [0, 2]), Node("b", [1]), Node("c", [3])],
    [Link(Some(1), Some(0)), Link(Some(0), Some(1)), Link(Some(3), Some(0)), Link(Some(2), Some(2))])

  lemma TwoBranchesWellFormed()
    ensures WellFormed(TWO_BRANCHES) && |TWO_BRANCHES.nodes| == 3 && |TWO_BRANCHES.links| == 4
  {
    var t := TWO_BRANCHES;
    assert t.nodes[0].localLinks == [0, 2] && t.nodes[1].localLinks == [1] && t.nodes[2].localLinks == [3];
    forall n: nat, k: nat | n < 3 && k < |t.nodes[n].localLinks| ensures t.nodes[n].localLinks[k] < 4 {
      assert n == 0 || n == 1 || n == 2;
    }
  }

  lemma TwoBranchesPaired()
    ensures WellFormed(TWO_BRANCHES) && Paired(TWO_BRANCHES)
  {
    var t := TWO_BRANCHES;
    TwoBranchesWellFormed();
    hide WellFormed;
    assert t.nodes[0].localLinks == [0, 2] && t.nodes[1].localLinks == [1] && t.nodes[2].localLinks == [3];
    assert t.links[0] == Link(Some(1), Some(0)) && t.links[1] == Link(Some(0), Some(1));
    assert t.links[2] == Link(Some(3), Some(0)) && t.links[3] == Link(Some(2), Some(2));
    assert [0, 2][0] == 0 && [0, 2][1] == 2 && [1][0] == 1 && [3][0] == 3;
    forall n: nat, k: nat | n < 3 && k < |t.nodes[n].localLinks|
      ensures t.links[t.nodes[n].localLinks[k]].localEnd == Some(n)
    {
      assert n == 0 || n == 1 || n == 2;
    }
    forall l: nat | l < 4
      ensures t.links[l].localEnd.Some? && l in t.nodes[t.links[l].localEnd.value].localLinks
      ensures t.links[l].remoteLink.value != l && t.links[t.links[l].remoteLink.value].remoteLink == Some(l)
    {
      assert l == 0 || l == 1 || l == 2 || l == 3;
    }
  }

  lemma TwoBranchesLeave()
    ensures WellFormed(TWO_BRANCHES) && !LeadsBack(TWO_BRANCHES, 0, 0)
  {
    var t := TWO_BRANCHES;
    TwoBranchesWellFormed();
    hide WellFormed;
    var g: Edges<nat> := FreeNeighbours(t, Pair(t, 0));
    assert t.nodes[1].localLinks == [1] && 1 in Pair(t, 0);
    assert g[1] == FreeEnds(t, [1], Pair(t, 0));
    assert [1][1..] == [] && g[1] == [];
    assert forall steps: nat :: !ReachIn(g, 1, 0, steps);
  }

  /** A topology that has hops and for which the listing is not complete. */
  lemma TwoBranchesNotWhole()
    ensures WellFormed(TWO_BRANCHES) && Paired(TWO_BRANCHES) && RealLinks(TWO_BRANCHES, 0)
    ensures FirstLinked(TWO_BRANCHES, TWO_BRANCHES.nodes[0].localLinks).Some? && !ListedWhole(TWO_BRANCHES)
  {
    hide LeadsBack, Paired, WellFormed;
    TwoBranchesPaired();
    TwoBranchesLeave();
    var t := TWO_BRANCHES;
    assert t.nodes[0].localLinks == [0, 2];
    assert FirstLinked(t, [0, 2]) == Some(0) && [0, 2][1] == 2;
  }
}
