/** The walk over a multipoint topology that numbers its links as hops, and the listing of the hops. */
module Multipoint {
  import opened Chains
  import opened Graph
  import opened HopForest
  import opened Lists
  import opened Numbering
  import opened Regions
  import opened Roots

  /** What the walk keeps with a link. */
  class WorkData {
    var visited: bool
    var nextHops: seq<nat>
    var hopId: nat

    constructor ()
      ensures View() == Work(false, [], 0)
    {
      visited, nextHops, hopId := false, [], 0;
    }

    ghost function View(): Work
      reads this
    {
      Work(visited, nextHops, hopId)
    }
  }

  ghost function Views(work: seq<WorkData>): (r: seq<Work>)
    reads work
    ensures |r| == |work| && forall i :: 0 <= i < |work| ==> r[i] == work[i].View()
  {
    seq(|work|, i requires 0 <= i < |work| reads work => work[i].View())
  }

  ghost predicate Distinct(work: seq<WorkData>) {
    forall i, j :: 0 <= i < j < |work| ==> work[i] != work[j]
  }

  class Traversal {
    const topology: Topology
    const work: seq<WorkData>
    var hopCount: nat
    var buf: seq<Hop>
    ghost var order: seq<nat>
    ghost var par: seq<nat>
    ghost var seen: set<nat>

    constructor (topology: Topology, work: seq<WorkData>)
      requires WellFormed(topology) && |work| == |topology.links| && Distinct(work)
      ensures this.topology == topology && this.work == work && buf == [] && Shaped()
    {
      this.topology, this.work, hopCount, buf := topology, work, 0, [];
      order, par, seen := [], [], {};
    }

    ghost predicate Shaped() {
      WellFormed(topology) && |work| == |topology.links| && Distinct(work)
    }

    ghost function View(): State
      reads this, work
    {
      State(Views(work), order, par, seen)
    }

    ghost predicate Valid()
      reads this, work
    {
      Shaped() && Numbered(View()) && Settled(topology, View()) && hopCount == |order| && InFront()
    }

    // Only nodes that the front node leads to are seen.
    ghost predicate InFront()
      requires WellFormed(topology)
      reads this
    {
      forall n :: n in seen ==> n < |topology.nodes| && FromFront(topology, n)
    }

    ghost predicate PreviousOk(previousLink: Option<nat>)
      reads this, work
    {
      previousLink.Some? ==> previousLink.value < |work| && work[previousLink.value].hopId > 0
    }

    /** Number the links, then list the hops from hop 1; it fails if no link has number 1. */
    method TraverseMPVBGraph() returns (failed: bool)
      requires Shaped() && |topology.nodes| > 0
      modifies this, work
      ensures Valid() && Over(topology, View())
      ensures failed <==> order == []
      ensures buf == if failed then old(buf) else old(buf) + Listing(order, par, 1)
      ensures old(buf) <= buf && forall h :: h in buf[|old(buf)|..] ==>
                1 <= h.id <= |order| && h.link < |work| && work[h.link].hopId == h.id && Tells(par, h)
      ensures Paired(topology) ==> Chained(topology, order, par)
      ensures RealLinks(topology, 0) && |topology.nodes[0].localLinks| <= 1 ==> OneRoot(par)
      ensures Paired(topology) && RealLinks(topology, 0) ==>
                && (failed <==> FirstLinked(topology, topology.nodes[0].localLinks).None?)
                && (failed || (ListsAll(order, par) <==> ListedWhole(topology)))
      ensures Paired(topology) ==>
                && (failed <==> SearchFrom(topology, {}, 0, 0).root.None?)
                && (failed || (ListsAll(order, par) <==> ListedAll(topology)))
    {
      hide Views, Distinct, Settled, RealLinks, ListedWhole, Listing, Paired, Over, FirstLinked, ListsAll, OneRoot;
      hide Numbered, ListedAll, SearchFrom, Chained, Tells;
      NumberHops();
      var firstHopLink := FindFirst();
      failed := firstHopLink.None?;
      if !failed {
        Finalize(firstHopLink.value);
        ListingNumbered(View());
        assert buf[|old(buf)|..] == Listing(order, par, 1);
      }
    }

    // The walk from the front node over reset links.
    method NumberHops()
      requires Shaped() && |topology.nodes| > 0
      modifies this`hopCount, this`order, this`par, this`seen, work
      ensures Valid() && Over(topology, View()) && IsForest(par) && |order| == |par|
      ensures RealLinks(topology, 0) && |topology.nodes[0].localLinks| <= 1 ==> OneRoot(par)
      ensures Paired(topology) && RealLinks(topology, 0) ==>
                && (order == [] <==> FirstLinked(topology, topology.nodes[0].localLinks).None?)
                && (order == [] || (ListsAll(order, par) <==> ListedWhole(topology)))
      ensures Paired(topology) ==>
                && (order == [] <==> SearchFrom(topology, {}, 0, 0).root.None?)
                && (order == [] || (ListsAll(order, par) <==> ListedAll(topology)))
      ensures Paired(topology) ==> Chained(topology, order, par)
    {
      hide Views, Distinct, Grown, Walked, Settled, RealLinks, ListedWhole, Paired, Over, FirstLinked, ListsAll;
      hide Numbered, OneRoot, Done, NodeAround, ListedAll, SearchFrom, Chained, Behind;
      Reset();
      hopCount := 0;
      order, par, seen := [], [], {0};
      ghost var s := View();
      StartIs(topology, s);
      Nexthop(0, None);
      NothingChained(topology, s);
      WalkIsOver(topology, s, View());
      WalkListsAll(topology, s, View());
    }

    // No link is visited or numbered, or has next hops.
    method Reset()
      requires Shaped()
      modifies work
      ensures forall l :: 0 <= l < |work| ==> Views(work)[l] == Work(false, [], 0)
    {
      hide Distinct;
      for l := 0 to |work|
        invariant forall i :: 0 <= i < l ==> work[i].View() == Work(false, [], 0)
      {
        ResetLink(l);
      }
    }

    method ResetLink(l: nat)
      requires Shaped() && l < |work|
      modifies work[l]
      ensures work[l].View() == Work(false, [], 0)
      ensures forall i :: 0 <= i < |work| && i != l ==> work[i].View() == old(work[i].View())
    {
      work[l].visited, work[l].nextHops, work[l].hopId := false, [], 0;
    }

    // The last link with number 1.
    method FindFirst() returns (first: Option<nat>)
      requires Valid()
      ensures first.None? <==> order == []
      ensures first.Some? ==> first.value < |work| && work[first.value].hopId == 1
    {
      hide Settled, Distinct;
      first := None;
      for l := 0 to |work|
        invariant first.Some? ==> first.value < |work| && work[first.value].hopId == 1
        invariant first.None? ==> forall i :: 0 <= i < l ==> work[i].hopId != 1
      {
        if work[l].hopId == 1 {
          first := Some(l);
        }
      }
      if order != [] {
        assert View().work[order[0]].id == 1;
      }
      if first.Some? {
        assert View().work[first.value].id == 1;
      }
    }

    /** Follow every link of a node; the hops found come after `previousLink`. */
    method Nexthop(node: nat, previousLink: Option<nat>)
      requires Valid() && node in seen && PreviousOk(previousLink)
      modifies this`hopCount, this`order, this`par, this`seen, work
      ensures Valid() && Grown(topology, old(View()), View(), previousLink.None?) && Done(topology, View(), node)
      ensures Walked(topology, old(View()), View(), node, previousLink.None?)
      ensures NodeAround(topology, old(View()), View(), node, previousLink.None?)
      ensures KeepsChained(topology, old(View()), View(), node, previousLink)
      decreases Unvisited(View()), 1
    {
      hide Numbered, Settled, Grown, Unvisited, WalkedSoFar, Walked, Followed, Distinct, Views, FromFront;
      hide NodeSoFar, NodeAround, LinkAround, KeepsChained;
      ghost var s, front := View(), previousLink.None?;
      var links := topology.nodes[node].localLinks;
      GrownRefl(topology, s, front);
      WalkedStart(topology, s, node, front);
      NodeStart(topology, s, node, front);
      KeepsNothing(topology, s, s, node, previousLink);
      for k := 0 to |links|
        invariant Valid() && node in seen && PreviousOk(previousLink)
        invariant Grown(topology, s, View(), front)
        invariant forall j :: 0 <= j < k ==> work[links[j]].visited
        invariant WalkedSoFar(topology, s, View(), node, k, front)
        invariant NodeSoFar(topology, s, View(), node, k, front)
        invariant KeepsChained(topology, s, View(), node, previousLink)
      {
        ghost var before := View();
        GrownUnvisits(topology, s, before, front);
        SoFarStart(topology, s, before, node, k, front);
        Follow(node, previousLink, links[k]);
        GrownUnvisits(topology, before, View(), front);
        WalkedStep(topology, s, before, View(), node, k, front);
        NodeNext(topology, s, before, View(), node, k, front);
        KeepsMore(topology, s, before, View(), node, previousLink, front);
        GrownTrans(topology, s, before, View(), front, front);
      }
      WalkedEnd(topology, s, View(), node, front);
      NodeEnd(topology, s, View(), node, front);
    }

    // One link of a node.
    method Follow(node: nat, previousLink: Option<nat>, localLink: nat)
      requires Valid() && node in seen && PreviousOk(previousLink) && localLink in topology.nodes[node].localLinks
      modifies this`hopCount, this`order, this`par, this`seen, work
      ensures Valid() && Grown(topology, old(View()), View(), previousLink.None?) && work[localLink].visited
      ensures Followed(topology, old(View()), View(), node, localLink, previousLink.None?)
      ensures LinkAround(topology, old(View()), View(), node, localLink, previousLink.None?)
      ensures KeepsChained(topology, old(View()), View(), node, previousLink)
      decreases Unvisited(View()), 0, 2
    {
      hide Numbered, Settled, Grown, Unvisited, Followed, Views, FromFront, Distinct;
      hide Around, SearchLink, VisitedLinks, AroundFront, Paired, KeepsChained;
      ghost var s := View();
      if previousLink == Some(localLink) {
        NumberedVisited(s, localLink);
      }
      if previousLink == Some(localLink) || work[localLink].visited {
        GrownRefl(topology, s, previousLink.None?);
        FollowedOld(topology, s, node, localLink, previousLink.None?);
        AroundOld(topology, s, node, localLink);
        KeepsNothing(topology, s, s, node, previousLink);
        return;
      }
      FollowNew(node, previousLink, localLink);
    }

    // One link of a node that has not been visited.
    method FollowNew(node: nat, previousLink: Option<nat>, localLink: nat)
      requires Valid() && node in seen && PreviousOk(previousLink) && localLink in topology.nodes[node].localLinks
      requires !work[localLink].visited
      modifies this`hopCount, this`order, this`par, this`seen, work
      ensures Valid() && Grown(topology, old(View()), View(), previousLink.None?) && work[localLink].visited
      ensures Followed(topology, old(View()), View(), node, localLink, previousLink.None?)
      ensures LinkAround(topology, old(View()), View(), node, localLink, previousLink.None?)
      ensures KeepsChained(topology, old(View()), View(), node, previousLink)
      decreases Unvisited(View()), 0, 1
    {
      hide Numbered, Settled, Grown, Unvisited, Followed, Views, FromFront, Distinct;
      hide Around, SearchLink, VisitedLinks, AroundFront, Paired, KeepsChained;
      ghost var s := View();
      Mark(localLink);
      var remote := topology.links[localLink].remoteLink;
      if remote.None? || work[remote.value].visited {
        VisitDead(topology, s, localLink, previousLink.None?);
        FollowedDead(topology, s, node, localLink, previousLink.None?);
        AroundDead(topology, s, node, localLink);
        KeepsNothing(topology, s, View(), node, previousLink);
        return;
      }
      FollowPair(node, previousLink, localLink, remote.value, s);
    }

    // The link leads to one that has not been visited either.
    method FollowPair(node: nat, previousLink: Option<nat>, localLink: nat, remoteLink: nat, ghost s: State)
      requires Shaped() && CanFollow(topology, s, node, localLink) && View() == Visit(s, localLink)
      requires hopCount == |order| && InFront() && PreviousOk(previousLink)
      requires topology.links[localLink].remoteLink == Some(remoteLink)
      modifies this`hopCount, this`order, this`par, this`seen, work
      ensures Valid() && Grown(topology, s, View(), previousLink.None?) && work[localLink].visited
      ensures Followed(topology, s, View(), node, localLink, previousLink.None?)
      ensures LinkAround(topology, s, View(), node, localLink, previousLink.None?)
      ensures KeepsChained(topology, s, View(), node, previousLink)
      decreases Unvisited(s), 0, 0
    {
      hide Numbered, Settled, Grown, Unvisited, Followed, Views, FromFront, Distinct;
      hide Around, SearchLink, VisitedLinks, AroundFront, Paired, KeepsChained;
      Mark(remoteLink);
      var next := topology.links[remoteLink].localEnd;
      if next.None? {
        EnterNowhere(topology, s, node, localLink, previousLink.None?);
        FollowedNowhere(topology, s, node, localLink, previousLink.None?);
        AroundNowhere(topology, s, node, localLink);
        KeepsNothing(topology, s, View(), node, previousLink);
        return;
      }
      var nextNode := next.value;
      seen := seen + {nextNode};
      FollowFromFront(topology, node, localLink);
      assert Entered(s, node, localLink, nextNode);
      PairUnvisits(topology, s, node, localLink);
      if '*' in topology.nodes[node].name || '*' in topology.nodes[nextNode].name {
        SkipPair(node, previousLink, localLink, nextNode, s);
      } else {
        TakePair(node, previousLink, localLink, remoteLink, nextNode, s);
      }
    }

    // Between `s` and now a pair has been visited, and the node at its far end seen.
    ghost predicate Entered(s: State, node: nat, localLink: nat, nextNode: nat)
      reads this, work
    {
      && Shaped() && CanFollow(topology, s, node, localLink) && FarEnd(topology, localLink) == Some(nextNode)
      && View() == VisitPair(topology, s, localLink) && hopCount == |order| && InFront()
    }

    // Carry on behind a pair that is left out.
    method SkipPair(node: nat, previousLink: Option<nat>, localLink: nat, nextNode: nat, ghost s: State)
      requires Entered(s, node, localLink, nextNode) && PreviousOk(previousLink)
      requires Artificial(topology, node) || Artificial(topology, nextNode)
      modifies this`hopCount, this`order, this`par, this`seen, work
      ensures Valid() && Grown(topology, s, View(), previousLink.None?) && work[localLink].visited
      ensures Followed(topology, s, View(), node, localLink, previousLink.None?)
      ensures LinkAround(topology, s, View(), node, localLink, previousLink.None?)
      ensures KeepsChained(topology, s, View(), node, previousLink)
      decreases Unvisited(View()), 2
    {
      hide Numbered, Settled, Grown, Unvisited, Extended, Views, FromFront, Distinct, Followed, Spread, FrontRoots;
      hide LinkAround, NodeAround, KeepsChained;
      ghost var s1 := View();
      EnterArtificial(topology, s, node, localLink, previousLink.None?);
      Nexthop(nextNode, previousLink);
      GrownOver(topology, s, s1, View(), nextNode, previousLink.None?, previousLink.None?);
      GrownUnvisits(topology, s1, View(), previousLink.None?);
      FollowedArtificial(topology, s, View(), node, localLink, previousLink.None?);
      SkipAround(topology, s, View(), node, localLink, previousLink.None?);
      SkipChained(topology, s, View(), node, localLink, previousLink);
    }

    // Number a pair, and carry on behind it.
    method TakePair(node: nat, previousLink: Option<nat>, localLink: nat, remoteLink: nat, nextNode: nat,
        ghost s: State)
      requires Entered(s, node, localLink, nextNode) && PreviousOk(previousLink)
      requires topology.links[localLink].remoteLink == Some(remoteLink)
      requires !Artificial(topology, node) && !Artificial(topology, nextNode)
      modifies this`hopCount, this`order, this`par, this`seen, work
      ensures Valid() && Grown(topology, s, View(), previousLink.None?) && work[localLink].visited
      ensures Followed(topology, s, View(), node, localLink, previousLink.None?)
      ensures LinkAround(topology, s, View(), node, localLink, previousLink.None?)
      ensures KeepsChained(topology, s, View(), node, previousLink)
      decreases Unvisited(View()), 2
    {
      hide Numbered, Settled, Grown, Unvisited, Extended, Views, FromFront, Distinct, Followed, Spread, AddHop,
        NumberPair, LinkAround, NodeAround, KeepsChained;
      ghost var p := if previousLink.None? then 0 else work[previousLink.value].hopId;
      if previousLink.Some? {
        VisitPairId(topology, s, localLink, previousLink.value);
      }
      EnterReal(topology, s, node, p, localLink);
      AddHops(previousLink, localLink, remoteLink);
      ghost var s1 := View();
      NumberPairIs(topology, s, node, p, localLink);
      Nexthop(nextNode, Some(remoteLink));
      GrownOver(topology, s, s1, View(), nextNode, previousLink.None?, false);
      GrownUnvisits(topology, s1, View(), false);
      FollowedReal(topology, s, s1, View(), node, p, localLink, previousLink.None?);
      TakeAround(topology, s, s1, View(), node, p, localLink, previousLink.None?);
      TakeChained(topology, s, s1, View(), node, p, localLink, previousLink);
    }

    method Mark(l: nat)
      requires l < |work| && Distinct(work)
      modifies work[l]
      ensures View() == Visit(old(View()), l)
    {
      work[l].visited := true;
    }

    /** A pair of links becomes the next two hops, the second after the first. */
    method AddHops(previousLink: Option<nat>, localLink: nat, remoteLink: nat)
      requires Shaped() && Numbered(View()) && hopCount == |order| && PreviousOk(previousLink)
      requires localLink < |work| && remoteLink < |work| && localLink != remoteLink
      requires work[localLink].hopId == 0 && work[remoteLink].hopId == 0
      modifies this`hopCount, this`order, this`par, work
      ensures hopCount == |order|
      ensures var p := if previousLink.None? then 0 else old(work[previousLink.value].hopId);
              View() == AddHop(AddHop(old(View()), p, localLink), |old(order)| + 1, remoteLink)
    {
      hide Numbered, Views, Distinct, AddHop;
      ghost var s := View();
      ghost var p := if previousLink.None? then 0 else work[previousLink.value].hopId;
      if previousLink.Some? {
        NumberedVisited(s, previousLink.value);
      }
      NumberedSizes(s);
      ghost var w4 := SetHops(previousLink, localLink, remoteLink, s, p);
      order, par := order + [localLink, remoteLink], par + [p, |par| + 1];
      assert Views(work) == w4;
    }

    // The next hops and the numbers kept with the links.
    method SetHops(previousLink: Option<nat>, localLink: nat, remoteLink: nat, ghost s: State, ghost p: nat)
        returns (ghost w4: seq<Work>)
      requires Distinct(work) && s == View() && hopCount == |s.order| == |s.par| && p <= |s.order|
      requires if previousLink.None? then p == 0
               else p > 0 && s.order[p - 1] == previousLink.value && previousLink.value < |work|
      requires localLink < |work| && remoteLink < |work| && localLink != remoteLink
      requires s.work[localLink].id == 0 && s.work[remoteLink].id == 0
      modifies this`hopCount, work
      ensures hopCount == |s.order| + 2 && w4 == Views(work) && p <= |s.order|
      ensures AddHop(AddHop(s, p, localLink), |s.order| + 1, remoteLink)
                == State(w4, s.order + [localLink, remoteLink], s.par + [p, |s.par| + 1], s.seen)
    {
      hide Numbered, Views, Distinct, AddHop;
      ghost var w0 := Views(work);
      if previousLink.Some? {
        PushNext(previousLink.value, localLink);
      }
      ghost var w1 := Views(work);
      PushNext(localLink, remoteLink);
      ghost var w2 := Views(work);
      NumberHop(localLink);
      ghost var w3 := Views(work);
      NumberHop(remoteLink);
      w4 := Views(work);
      AddHopsAre(s, p, localLink, remoteLink, w1, w2, w3, w4);
    }

    method PushNext(l: nat, next: nat)
      requires l < |work| && Distinct(work)
      modifies work[l]
      ensures Views(work) == old(Views(work))[l := old(Views(work))[l].(next := old(Views(work))[l].next + [next])]
    {
      work[l].nextHops := work[l].nextHops + [next];
    }

    // A link without a number gets the next one.
    method NumberHop(l: nat)
      requires l < |work| && Distinct(work)
      modifies this`hopCount, work[l]
      ensures hopCount == old(hopCount) + if old(work[l].hopId) == 0 then 1 else 0
      ensures Views(work) == if old(work[l].hopId) == 0 then old(Views(work))[l := old(Views(work))[l].(id := hopCount)]
                             else old(Views(work))
    {
      if work[l].hopId == 0 {
        hopCount := hopCount + 1;
        work[l].hopId := hopCount;
      }
    }

    /** List a hop, then what follows it. */
    method Finalize(link: nat)
      requires Valid() && link < |work| && work[link].hopId > 0
      modifies this`buf
      ensures buf == old(buf) + Listing(order, par, work[link].hopId)
      decreases |par| - work[link].hopId, 1
    {
      hide Numbered, Settled, Views, FromFront, Listings, Distinct;
      ghost var i := work[link].hopId;
      NextHopsAre(View(), link);
      ghost var cs := Children(par, i);
      var next := NextIds(link);
      buf := buf + [Hop(work[link].hopId, link, next)];
      FinalizeNext(link, cs);
    }

    // The numbers of the next hops.
    method NextIds(link: nat) returns (ids: seq<nat>)
      requires Valid() && link < |work| && work[link].hopId > 0
      ensures ids == Children(par, work[link].hopId)
    {
      hide Numbered, Settled, Views, FromFront, Children, Distinct;
      NextHopsAre(View(), link);
      ids := [];
      for k := 0 to |work[link].nextHops|
        invariant ids == Children(par, work[link].hopId)[..k]
      {
        NextHopIs(View(), link, k);
        ids := ids + [work[work[link].nextHops[k]].hopId];
      }
    }

    // Proceed to the next hops.
    method FinalizeNext(link: nat, ghost cs: seq<nat>)
      requires Valid() && link < |work| && work[link].hopId > 0 && cs == Children(par, work[link].hopId)
      modifies this`buf
      ensures buf == old(buf) + Listings(order, par, work[link].hopId, cs)
      decreases |par| - work[link].hopId, 0
    {
      hide Numbered, Settled, Views, FromFront, Children, Distinct;
      ghost var i := work[link].hopId;
      NextHopsAre(View(), link);
      ghost var all := buf + Listings(order, par, i, cs);
      for k := 0 to |work[link].nextHops|
        invariant Valid() && buf + Listings(order, par, i, cs[k..]) == all
      {
        NextHopIs(View(), link, k);
        assert cs[k..][0] == cs[k] && cs[k..][1..] == cs[k + 1..];
        Finalize(work[link].nextHops[k]);
      }
    }
  }
}
