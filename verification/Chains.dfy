/** Which link comes after which: the hops that the walk over a topology of paired links makes go along it. */
module Chains {
  import opened Graph
  import opened HopForest
  import opened Lists
  import opened Numbering
  import opened Regions

  /** `b` is `a` or can be reached from it by artificial links. */
  ghost predicate Bridged(t: Topology, a: nat, b: nat)
    requires WellFormed(t)
  {
    a == b || Reach(BridgeNeighbours(t), a, b)
  }

  lemma BridgedOn(t: Topology, a: nat, n: nat, l: nat)
    requires WellFormed(t) && n < |t.nodes| && l in t.nodes[n].localLinks && l < |t.links| && Bridging(t, n, l)
    requires Bridged(t, a, n)
    ensures Bridged(t, a, FarEnd(t, l).value)
  {
    var g, m := BridgeNeighbours(t), FarEnd(t, l).value;
    BridgeEndsAre(t, n, t.nodes[n].localLinks, m);
    ReachEdge(g, n, m);
    if a != n {
      ReachTrans(g, a, n, m);
    }
  }

  /** Hops come in pairs, a link and its remote link, the second following the first. A root starts around
      the front; another pair follows the second hop of the pair at whose end it starts, artificial nodes
      in between or not. */
  ghost predicate Chained(t: Topology, order: seq<nat>, par: seq<nat>)
    requires WellFormed(t)
  {
    && |order| == |par| && |order| % 2 == 0
    && forall k :: 0 <= k < |order| ==>
         order[k] < |t.links| && t.links[order[k]].localEnd.Some? && Linked(t, order, par, k)
  }

  ghost predicate Linked(t: Topology, order: seq<nat>, par: seq<nat>, k: nat)
    requires WellFormed(t) && k < |order| == |par| && order[k] < |t.links| && t.links[order[k]].localEnd.Some?
  {
    if k % 2 == 1 then
      par[k] == k && order[k - 1] < |t.links| && t.links[order[k - 1]].remoteLink == Some(order[k])
    else if par[k] == 0 then AroundFront(t, t.links[order[k]].localEnd.value)
    else
      && par[k] % 2 == 0 && par[k] <= k && order[par[k] - 1] < |t.links|
      && t.links[order[par[k] - 1]].localEnd.Some?
      && Bridged(t, t.links[order[par[k] - 1]].localEnd.value, t.links[order[k]].localEnd.value)
  }

  // The walk is at node `n`, behind the second link of a pair or around the front.
  ghost predicate Behind(t: Topology, s: State, n: nat, previous: Option<nat>)
    requires WellFormed(t)
  {
    match previous
    case None => AroundFront(t, n)
    case Some(l) =>
      && l < |s.work| == |t.links| && s.work[l].id > 0 && s.work[l].id % 2 == 0
      && t.links[l].localEnd.Some? && Bridged(t, t.links[l].localEnd.value, n)
  }

  /** A part of the walk keeps the hops chained. */
  ghost predicate KeepsChained(t: Topology, s: State, s': State, n: nat, previous: Option<nat>)
    requires WellFormed(t)
  {
    Paired(t) && Behind(t, s, n, previous) && Chained(t, s.order, s.par) ==> Chained(t, s'.order, s'.par)
  }

  lemma KeepsNothing(t: Topology, s: State, s': State, n: nat, previous: Option<nat>)
    requires WellFormed(t) && s'.order == s.order && s'.par == s.par
    ensures KeepsChained(t, s, s', n, previous)
  {
  }

  // Before the walk, at the front.
  lemma NothingChained(t: Topology, s: State)
    requires WellFormed(t) && s.order == s.par == []
    ensures Chained(t, s.order, s.par) && Behind(t, s, 0, None)
  {
  }

  lemma KeepsMore(t: Topology, s: State, s1: State, s2: State, n: nat, previous: Option<nat>, front: bool)
    requires WellFormed(t) && Grown(t, s, s1, front)
    requires KeepsChained(t, s, s1, n, previous) && KeepsChained(t, s1, s2, n, previous)
    ensures KeepsChained(t, s, s2, n, previous)
  {
    hide Chained, AroundFront, Bridged, Paired;
  }

  lemma SkipChained(t: Topology, s: State, s': State, n: nat, l: nat, previous: Option<nat>)
    requires CanFollow(t, s, n, l) && Bridging(t, n, l)
    requires KeepsChained(t, VisitPair(t, s, l), s', FarEnd(t, l).value, previous)
    ensures KeepsChained(t, s, s', n, previous)
  {
    hide Chained, Bridged, Paired, Numbered, Settled;
    if Behind(t, s, n, previous) {
      if previous.None? {
        BridgeFromFront(t, n, l);
      } else {
        BridgedOn(t, t.links[previous.value].localEnd.value, n, l);
      }
    }
  }

  lemma TakeChained(t: Topology, s: State, s1: State, s': State, n: nat, p: nat, l: nat, previous: Option<nat>)
    requires CanFollow(t, s, n, l) && FarEnd(t, l).Some? && p <= |s.order|
    requires |s.order| == |s.par| && (p > 0 ==> s.order[p - 1] < |s.work|) && s1 == NumberPair(t, s, p, l)
    requires if previous.None? then p == 0 else previous.value < |s.work| && p == s.work[previous.value].id > 0
    requires KeepsChained(t, s1, s', FarEnd(t, l).value, t.links[l].remoteLink)
    ensures KeepsChained(t, s, s', n, previous)
  {
    CanFollowIs(t, s, n, l);
    hide Settled, NumberPair, Numbered, WellFormed, CanFollow, Paired, Chained, Behind, FarEnd;
    if Paired(t) && Behind(t, s, n, previous) && Chained(t, s.order, s.par) {
      TakenPair(t, s, s1, n, p, l, previous);
    }
  }

  // The walk is behind the second link of the new pair.
  lemma TakenPair(t: Topology, s: State, s1: State, n: nat, p: nat, l: nat, previous: Option<nat>)
    requires CanFollow(t, s, n, l) && Paired(t) && FarEnd(t, l).Some? && p <= |s.order| && |s.order| == |s.par|
    requires (p > 0 ==> s.order[p - 1] < |s.work|) && s1 == NumberPair(t, s, p, l)
    requires if previous.None? then p == 0 else previous.value < |s.work| && p == s.work[previous.value].id > 0
    requires Behind(t, s, n, previous) && Chained(t, s.order, s.par)
    ensures Chained(t, s1.order, s1.par) && Behind(t, s1, FarEnd(t, l).value, t.links[l].remoteLink)
  {
    CanFollowIs(t, s, n, l);
    EndOf(t, n, l);
    RemoteEnd(t, l);
    hide *;
    ChainedIs(t, s.order, s.par);
    NumberPairNumbered(t, s, p, l);
    PairOrder(t, s, s1, p, l);
    PairChained(t, s, n, p, l, previous);
    SecondHop(t, s, s1, p, l);
    BehindSecond(t, s1, l);
  }

  lemma CanFollowIs(t: Topology, s: State, n: nat, l: nat)
    requires CanFollow(t, s, n, l)
    ensures WellFormed(t) && |s.work| == |t.links| && Numbered(s) && n < |t.nodes| && l in t.nodes[n].localLinks
    ensures l < |t.links| && t.links[l].remoteLink.Some? && t.links[l].remoteLink.value < |s.work|
    ensures !s.work[l].visited && !Visit(s, l).work[t.links[l].remoteLink.value].visited
  {
    hide Settled, Numbered;
  }

  lemma RemoteEnd(t: Topology, l: nat)
    requires WellFormed(t) && l < |t.links| && FarEnd(t, l).Some?
    ensures t.links[l].remoteLink.Some? && t.links[l].remoteLink.value < |t.links|
    ensures t.links[t.links[l].remoteLink.value].localEnd == FarEnd(t, l)
  {
  }

  lemma PairOrder(t: Topology, s: State, s1: State, p: nat, l: nat)
    requires WellFormed(t) && |s.work| == |t.links| && l < |t.links| && t.links[l].remoteLink.Some?
    requires |s.order| == |s.par| && p <= |s.order| && (p > 0 ==> s.order[p - 1] < |s.work|)
    requires t.links[l].remoteLink.value < |t.links| && s1 == NumberPair(t, s, p, l)
    ensures |s1.work| == |s.work|
  {
    hide WellFormed, FarEnd;
  }

  lemma BehindSecond(t: Topology, s: State, l: nat)
    requires WellFormed(t) && l < |t.links| && FarEnd(t, l).Some? && |s.work| == |t.links|
    requires t.links[l].remoteLink.Some? && t.links[l].remoteLink.value < |t.links|
    requires t.links[t.links[l].remoteLink.value].localEnd == FarEnd(t, l)
    requires s.work[t.links[l].remoteLink.value].id > 0 && s.work[t.links[l].remoteLink.value].id % 2 == 0
    ensures Behind(t, s, FarEnd(t, l).value, t.links[l].remoteLink)
  {
    hide WellFormed;
    BridgedSelf(t, FarEnd(t, l).value);
    hide Bridged, FarEnd;
  }

  lemma BridgedSelf(t: Topology, a: nat)
    requires WellFormed(t)
    ensures Bridged(t, a, a)
  {
  }

  lemma EndOf(t: Topology, n: nat, l: nat)
    requires WellFormed(t) && Paired(t) && n < |t.nodes| && l in t.nodes[n].localLinks && l < |t.links|
    ensures t.links[l].localEnd == Some(n)
  {
  }

  // The second link of a new pair has an even number.
  lemma SecondHop(t: Topology, s: State, s1: State, p: nat, l: nat)
    requires WellFormed(t) && |s.work| == |t.links| && l < |t.links| && t.links[l].remoteLink.Some? && Numbered(s1)
    requires |s.order| == |s.par| && |s.order| % 2 == 0 && s1.order == s.order + [l, t.links[l].remoteLink.value]
    requires |s1.work| == |s.work|
    ensures s1.work[t.links[l].remoteLink.value].id == |s.order| + 2
  {
    assert s1.order[|s.order| + 1] == t.links[l].remoteLink.value;
  }

  lemma PairChained(t: Topology, s: State, n: nat, p: nat, l: nat, previous: Option<nat>)
    requires WellFormed(t) && Numbered(s) && |s.work| == |t.links| && l < |t.links| && t.links[l].remoteLink.Some?
    requires t.links[l].localEnd == Some(n) && FarEnd(t, l).Some?
    requires if previous.None? then p == 0 else previous.value < |s.work| && p == s.work[previous.value].id > 0
    requires Behind(t, s, n, previous) && Chained(t, s.order, s.par)
    ensures Chained(t, s.order + [l, t.links[l].remoteLink.value], s.par + [p, |s.par| + 1])
  {
    hide *;
    var r := t.links[l].remoteLink.value;
    var n0, order, par := |s.order|, s.order + [l, r], s.par + [p, |s.par| + 1];
    ChainedIs(t, s.order, s.par);
    PreviousAt(s, previous, p);
    RemoteEnd(t, l);
    FirstOfPair(t, s, n, p, l, previous, order, par);
    SecondOfPair(t, order, par, n0 + 1);
    forall k | 0 <= k < n0 ensures Linked(t, order, par, k) {
      LinkedStays(t, s.order, s.par, k, l, r, p);
    }
    AllLinked(t, order, par, n0);
  }

  lemma ChainedIs(t: Topology, order: seq<nat>, par: seq<nat>)
    requires WellFormed(t) && Chained(t, order, par)
    ensures |order| == |par| && |order| % 2 == 0
    ensures forall k :: 0 <= k < |order| ==>
      order[k] < |t.links| && t.links[order[k]].localEnd.Some? && Linked(t, order, par, k)
  {
    hide WellFormed, Linked;
  }

  lemma AllLinked(t: Topology, order: seq<nat>, par: seq<nat>, n: nat)
    requires WellFormed(t) && |order| == |par| == n + 2 && n % 2 == 0
    requires forall k :: 0 <= k < |order| ==> order[k] < |t.links| && t.links[order[k]].localEnd.Some?
    requires forall k :: 0 <= k < n ==> Linked(t, order, par, k)
    requires Linked(t, order, par, n) && Linked(t, order, par, n + 1)
    ensures Chained(t, order, par)
  {
    hide Linked, WellFormed;
  }

  lemma PreviousAt(s: State, previous: Option<nat>, p: nat)
    requires Numbered(s)
    requires if previous.None? then p == 0 else previous.value < |s.work| && p == s.work[previous.value].id > 0
    ensures p <= |s.order| && (previous.Some? ==> s.order[p - 1] == previous.value)
  {
  }

  lemma LinkedStays(t: Topology, order: seq<nat>, par: seq<nat>, k: nat, l: nat, r: nat, p: nat)
    requires WellFormed(t) && k < |order| == |par| && order[k] < |t.links| && t.links[order[k]].localEnd.Some?
    requires Linked(t, order, par, k)
    ensures Linked(t, order + [l, r], par + [p, |par| + 1], k)
  {
    hide AroundFront, Bridged;
  }

  // The first link of a new pair.
  lemma FirstOfPair(t: Topology, s: State, n: nat, p: nat, l: nat, previous: Option<nat>, order: seq<nat>,
                    par: seq<nat>)
    requires WellFormed(t) && |s.work| == |t.links| && l < |t.links| && t.links[l].localEnd == Some(n)
    requires |s.order| == |s.par| && |s.order| % 2 == 0 && p <= |s.order| && s.order <= order && |order| == |par|
    requires |s.order| < |order| && order[|s.order|] == l && par[|s.order|] == p
    requires if previous.None? then p == 0
             else previous.value < |s.work| && p == s.work[previous.value].id > 0 && s.order[p - 1] == previous.value
    requires Behind(t, s, n, previous)
    ensures Linked(t, order, par, |s.order|)
  {
    hide AroundFront, Bridged;
    assert p > 0 ==> order[p - 1] == s.order[p - 1];
  }

  // Its remote link.
  lemma SecondOfPair(t: Topology, order: seq<nat>, par: seq<nat>, k: nat)
    requires WellFormed(t) && 0 < k < |order| == |par| && order[k] < |t.links| && t.links[order[k]].localEnd.Some?
    requires k % 2 == 1 && par[k] == k && order[k - 1] < |t.links| && t.links[order[k - 1]].remoteLink == Some(order[k])
    ensures Linked(t, order, par, k)
  {
  }
}
