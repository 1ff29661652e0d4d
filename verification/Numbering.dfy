/** The state of the walk that numbers the hops of a multipoint topology, and what it keeps. */
module Numbering {
  import opened Graph
  import opened HopForest
  import opened Lists

  /** Nodes and links are known by their places in the topology's lists. */
  datatype Node = Node(name: string, localLinks: seq<nat>)
  datatype Link = Link(remoteLink: Option<nat>, localEnd: Option<nat>)
  datatype Topology = Topology(nodes: seq<Node>, links: seq<Link>)

  predicate WellFormed(t: Topology) {
    && (forall n, k :: 0 <= n < |t.nodes| && 0 <= k < |t.nodes[n].localLinks| ==> t.nodes[n].localLinks[k] < |t.links|)
    && (forall l :: 0 <= l < |t.links| ==>
          && (t.links[l].remoteLink.Some? ==> t.links[l].remoteLink.value < |t.links|)
          && (t.links[l].localEnd.Some? ==> t.links[l].localEnd.value < |t.nodes|))
  }

  /** Links come in pairs, one for each direction, and are listed where they start. */
  predicate Paired(t: Topology)
    requires WellFormed(t)
  {
    && (forall n, k :: 0 <= n < |t.nodes| && 0 <= k < |t.nodes[n].localLinks| ==>
          t.links[t.nodes[n].localLinks[k]].localEnd == Some(n))
    && (forall l :: 0 <= l < |t.links| ==>
          && t.links[l].localEnd.Some? && l in t.nodes[t.links[l].localEnd.value].localLinks
          && (t.links[l].remoteLink.Some? ==>
                t.links[l].remoteLink.value != l && t.links[t.links[l].remoteLink.value].remoteLink == Some(l)))
  }

  /** Nodes that were made up to bridge paths have a star in their names. */
  predicate Artificial(t: Topology, n: nat)
    requires n < |t.nodes|
  {
    '*' in t.nodes[n].name
  }

  // The node at the far end of a link.
  function FarEnd(t: Topology, l: nat): (r: Option<nat>)
    requires WellFormed(t) && l < |t.links|
    ensures r.Some? ==> r.value < |t.nodes|
  {
    if t.links[l].remoteLink.None? then None else t.links[t.links[l].remoteLink.value].localEnd
  }

  /** A link between two real nodes. */
  predicate Real(t: Topology, l: nat)
    requires WellFormed(t) && l < |t.links|
  {
    && t.links[l].localEnd.Some? && !Artificial(t, t.links[l].localEnd.value)
    && FarEnd(t, l).Some? && !Artificial(t, FarEnd(t, l).value)
  }

  // ---------------------------------------------------------------- the state

  datatype Work = Work(visited: bool, next: seq<nat>, id: nat)

  /** What the walk keeps with the links; the links in the order of their hop numbers; the forest of
      next hops; and the nodes the walk has come to. */
  datatype State = State(work: seq<Work>, order: seq<nat>, par: seq<nat>, seen: set<nat>)

  /** Every hop number up to the last is one visited link's, and the next hops kept with a link are the
      children of its number. */
  ghost predicate Numbered(s: State) {
    && |s.par| == |s.order| && IsForest(s.par)
    && (forall k :: 0 <= k < |s.order| ==> s.order[k] < |s.work| && s.work[s.order[k]].id == k + 1)
    && (forall l :: 0 <= l < |s.work| ==>
          && s.work[l].id <= |s.order|
          && (s.work[l].id > 0 ==> s.work[l].visited && s.order[s.work[l].id - 1] == l)
          && s.work[l].next == NextOf(s.order, s.par, s.work[l].id))
  }

  // The links whose numbers are the children of `i`.
  ghost function NextOf(order: seq<nat>, par: seq<nat>, i: nat): seq<nat>
    requires IsForest(par) && |par| == |order|
  {
    if i == 0 then [] else LinksAt(order, Children(par, i))
  }

  ghost function LinksAt(order: seq<nat>, ids: seq<nat>): (r: seq<nat>)
    requires forall j :: 0 <= j < |ids| ==> 1 <= ids[j] <= |order|
  {
    seq(|ids|, j requires 0 <= j < |ids| => order[ids[j] - 1])
  }

  // The links kept with a hop are numbered with its children.
  lemma NextHopIs(s: State, l: nat, k: nat)
    requires Numbered(s) && l < |s.work| && s.work[l].id > 0 && k < |s.work[l].next|
    ensures var cs := Children(s.par, s.work[l].id);
      k < |cs| && s.work[l].next[k] < |s.work| && s.work[s.work[l].next[k]].id == cs[k]
  {
    hide Children;
    var cs := Children(s.par, s.work[l].id);
    assert s.work[l].next == LinksAt(s.order, cs);
    assert s.work[l].next[k] == s.order[cs[k] - 1];
  }

  lemma NextHopsAre(s: State, l: nat)
    requires Numbered(s) && l < |s.work| && s.work[l].id > 0
    ensures IsForest(s.par) && |s.order| == |s.par| && s.work[l].id <= |s.par|
    ensures |s.work[l].next| == |Children(s.par, s.work[l].id)| && s.order[s.work[l].id - 1] == l
  {
  }

  // A link, visited before, becomes the next hop of hop `p`, or a root.
  function AddHop(s: State, p: nat, l: nat): State
    requires l < |s.work| && p <= |s.order| && (p > 0 ==> s.order[p - 1] < |s.work|)
  {
    var work := if p == 0 then s.work
                else s.work[s.order[p - 1] := s.work[s.order[p - 1]].(next := s.work[s.order[p - 1]].next + [l])];
    State(work[l := work[l].(id := |s.order| + 1)], s.order + [l], s.par + [p], s.seen)
  }

  lemma AddHopNumbered(s: State, p: nat, l: nat)
    requires Numbered(s) && l < |s.work| && s.work[l].visited && s.work[l].id == 0 && p <= |s.order|
    ensures Numbered(AddHop(s, p, l))
    ensures forall x :: 0 <= x < |s.work| ==> AddHop(s, p, l).work[x].visited == s.work[x].visited
    ensures forall x :: 0 <= x < |s.work| && x != l ==> AddHop(s, p, l).work[x].id == s.work[x].id
  {
    hide NextOf;
    var s' := AddHop(s, p, l);
    assert IsForest(s'.par);
    forall x | 0 <= x < |s.work| ensures s'.work[x].next == NextOf(s'.order, s'.par, s'.work[x].id) {
      hide Numbered;
      AddHopNext(s, p, l, x);
    }
  }

  lemma AddHopNext(s: State, p: nat, l: nat, x: nat)
    requires Numbered(s) && l < |s.work| && s.work[l].id == 0 && p <= |s.order| && x < |s.work|
    ensures IsForest(AddHop(s, p, l).par)
    ensures AddHop(s, p, l).work[x].next == NextOf(s.order + [l], s.par + [p], AddHop(s, p, l).work[x].id)
  {
    hide NextOf, IsForest;
    NextOfAppend(s.order, s.par, p, l, s.work[x].id);
    if x == l {
      NextOfNew(s.order, s.par, p, l);
    }
  }

  lemma NextOfAppend(order: seq<nat>, par: seq<nat>, p: nat, l: nat, i: nat)
    requires |par| == |order| && IsForest(par) && p <= |order| && i <= |order|
    ensures IsForest(par + [p])
    ensures NextOf(order + [l], par + [p], i) == NextOf(order, par, i) + if 0 < i == p then [l] else []
  {
    hide Children, LinksAt, IsForest;
    ChildrenAppend(par, p, i);
    if i > 0 {
      LinksAtMore(order, l, Children(par, i));
    }
  }

  lemma NextOfNew(order: seq<nat>, par: seq<nat>, p: nat, l: nat)
    requires |par| == |order| && IsForest(par) && p <= |order|
    ensures IsForest(par + [p])
    ensures NextOf(order, par, 0) == [] && NextOf(order + [l], par + [p], |order| + 1) == []
  {
    hide Children;
    ChildrenAppend(par, p, |order| + 1);
    NoChildrenYet(par, |order| + 1);
  }

  lemma LinksAtMore(order: seq<nat>, l: nat, ids: seq<nat>)
    requires forall j :: 0 <= j < |ids| ==> 1 <= ids[j] <= |order|
    ensures LinksAt(order + [l], ids) == LinksAt(order, ids)
    ensures LinksAt(order + [l], ids + []) == LinksAt(order, ids)
    ensures LinksAt(order + [l], ids + [|order| + 1]) == LinksAt(order, ids) + [l]
  {
    assert ids + [] == ids;
  }

  // Numbering two links, the second after the first, field by field.
  lemma AddHopsAre(s: State, p: nat, l: nat, r: nat, w1: seq<Work>, w2: seq<Work>, w3: seq<Work>, w4: seq<Work>)
    requires p <= |s.order| == |s.par| && (p > 0 ==> s.order[p - 1] < |s.work|) && l < |s.work| && r < |s.work|
    requires w1 == if p == 0 then s.work
                   else s.work[s.order[p - 1] := s.work[s.order[p - 1]].(next := s.work[s.order[p - 1]].next + [l])]
    requires w2 == w1[l := w1[l].(next := w1[l].next + [r])]
    requires w3 == w2[l := w2[l].(id := |s.order| + 1)]
    requires w4 == w3[r := w3[r].(id := |s.order| + 2)]
    ensures AddHop(AddHop(s, p, l), |s.order| + 1, r) == State(w4, s.order + [l, r], s.par + [p, |s.par| + 1], s.seen)
  {
    var s1 := AddHop(s, p, l);
    assert s1.work == w1[l := w1[l].(id := |s.order| + 1)] && s1.order[|s.order|] == l;
    assert s1.work[l := s1.work[l].(next := s1.work[l].next + [r])] == w3;
    assert s1.order + [r] == s.order + [l, r] && s1.par + [|s.order| + 1] == s.par + [p, |s.order| + 1];
  }

  lemma {:induction false} NoChildrenYet(par: seq<nat>, i: nat)
    requires IsForest(par) && i > |par|
    ensures Children(par, i) == []
  {
    if par != [] {
      NoChildrenYet(par[..|par| - 1], i);
    }
  }

  function Visit(s: State, l: nat): State
    requires l < |s.work|
  {
    s.(work := s.work[l := s.work[l].(visited := true)])
  }

  lemma VisitNumbered(s: State, l: nat)
    requires Numbered(s) && l < |s.work|
    ensures Numbered(Visit(s, l))
  {
  }

  // ---------------------------------------------------------------- how the walk grows

  /** From `s` to `s'`: nothing is unvisited or renumbered, and unless `roots` are allowed every new hop
      has a predecessor. */
  ghost predicate Extended(s: State, s': State, roots: bool) {
    && |s.work| == |s'.work|
    && (forall l :: 0 <= l < |s.work| ==>
          (s.work[l].visited ==> s'.work[l].visited) && (s.work[l].id > 0 ==> s'.work[l].id == s.work[l].id))
    && s.order <= s'.order && s.par <= s'.par && s.seen <= s'.seen
    && (!roots ==> forall k :: |s.par| <= k < |s'.par| ==> s'.par[k] != 0)
  }

  /** ... and every newly seen node is dealt with. */
  ghost predicate Grown(t: Topology, s: State, s': State, roots: bool)
    requires WellFormed(t)
  {
    && |s'.work| == |t.links| && Extended(s, s', roots)
    && forall n :: n in s'.seen ==> n < |t.nodes| && (n in s.seen || Done(t, s', n))
  }

  /** All links of a node have been visited. */
  ghost predicate Done(t: Topology, s: State, n: nat)
    requires WellFormed(t) && |s.work| == |t.links| && n < |t.nodes|
  {
    forall k :: 0 <= k < |t.nodes[n].localLinks| ==> s.work[t.nodes[n].localLinks[k]].visited
  }

  lemma ExtendedTrans(s: State, s1: State, s2: State, roots1: bool, roots2: bool)
    requires Extended(s, s1, roots1) && Extended(s1, s2, roots2)
    ensures Extended(s, s2, roots1 || roots2)
  {
    if !roots1 && !roots2 {
      forall k | |s.par| <= k < |s2.par| ensures s2.par[k] != 0 {
        if k < |s1.par| {
          assert s2.par[k] == s1.par[k];
        }
      }
    }
  }

  lemma DoneStays(t: Topology, s: State, s': State, roots: bool, n: nat)
    requires WellFormed(t) && |s.work| == |t.links| && n < |t.nodes| && Extended(s, s', roots) && Done(t, s, n)
    ensures Done(t, s', n)
  {
  }

  lemma GrownTrans(t: Topology, s: State, s1: State, s2: State, roots1: bool, roots2: bool)
    requires WellFormed(t) && Grown(t, s, s1, roots1) && Grown(t, s1, s2, roots2)
    ensures Grown(t, s, s2, roots1 || roots2)
  {
    hide Extended, Done;
    ExtendedTrans(s, s1, s2, roots1, roots2);
    forall n | n in s2.seen && n !in s.seen ensures Done(t, s2, n) {
      if n in s1.seen {
        DoneStays(t, s1, s2, roots2, n);
      }
    }
  }

  lemma GrownRefl(t: Topology, s: State, roots: bool)
    requires WellFormed(t) && |s.work| == |t.links| && forall n :: n in s.seen ==> n < |t.nodes|
    ensures Grown(t, s, s, roots)
  {
  }

  // One more node was seen, and has been dealt with.
  lemma GrownOver(t: Topology, s: State, s1: State, s2: State, n: nat, roots1: bool, roots2: bool)
    requires WellFormed(t) && |s.work| == |t.links| && n < |t.nodes| && Extended(s, s1, roots1)
      && s1.seen == s.seen + {n}
    requires Grown(t, s1, s2, roots2) && Done(t, s2, n)
    ensures Grown(t, s, s2, roots1 || roots2)
  {
    ExtendedTrans(s, s1, s2, roots1, roots2);
  }

  // What is left to visit.
  ghost function Unvisited(s: State): set<nat> {
    set l: nat | l < |s.work| && !s.work[l].visited
  }

  /** In a topology of paired links: the two links of a pair are visited together, both their nodes
      have been seen, and they are numbered exactly if both nodes are real. */
  ghost predicate Settled(t: Topology, s: State)
    requires WellFormed(t) && |s.work| == |t.links|
  {
    Paired(t) ==> forall l :: 0 <= l < |t.links| && s.work[l].visited ==>
      && (s.work[l].id > 0 <==> Real(t, l))
      && (t.links[l].remoteLink.Some? ==>
            && s.work[t.links[l].remoteLink.value].visited
            && t.links[l].localEnd.value in s.seen && FarEnd(t, l).value in s.seen)
  }

  lemma Unvisits(s: State, s': State, roots: bool)
    requires Extended(s, s', roots)
    ensures Unvisited(s') <= Unvisited(s)
    ensures forall l: nat :: l < |s.work| && !s.work[l].visited && s'.work[l].visited ==> Unvisited(s') < Unvisited(s)
  {
    forall l: nat | l < |s.work| && !s.work[l].visited && s'.work[l].visited ensures Unvisited(s') < Unvisited(s) {
      assert l in Unvisited(s) && l !in Unvisited(s');
    }
  }

  lemma GrownUnvisits(t: Topology, s: State, s': State, roots: bool)
    requires WellFormed(t) && Grown(t, s, s', roots)
    ensures Unvisited(s') <= Unvisited(s) && s.seen <= s'.seen
    ensures forall l :: 0 <= l < |s.work| ==>
      (s.work[l].visited ==> s'.work[l].visited) && (s.work[l].id > 0 ==> s'.work[l].id == s.work[l].id)
  {
    Unvisits(s, s', roots);
  }

  lemma NumberedSizes(s: State)
    requires Numbered(s)
    ensures |s.par| == |s.order|
  {
  }

  lemma NumberedVisited(s: State, l: nat)
    requires Numbered(s) && l < |s.work| && s.work[l].id > 0
    ensures s.work[l].visited && s.work[l].id <= |s.order| && s.order[s.work[l].id - 1] == l
  {
  }

  /** What is listed stands for the links that were numbered. */
  lemma ListingNumbered(s: State)
    requires Numbered(s) && s.par != []
    ensures IsForest(s.par) && |s.order| == |s.par|
    ensures forall h :: h in Listing(s.order, s.par, 1) ==>
      1 <= h.id <= |s.order| && h.link < |s.work| && s.work[h.link].id == h.id && Tells(s.par, h)
  {
    hide Listing, Tells;
    ListingTells(s.order, s.par, 1);
  }

  // Only the first of the new hops is a root.
  ghost predicate FirstRootOnly(par: seq<nat>, par': seq<nat>) {
    forall k :: |par| <= k < |par'| && par'[k] == 0 ==> k == |par|
  }

  lemma FirstRootOnlyAfter(t: Topology, s: State, s1: State, s2: State, p: nat)
    requires WellFormed(t) && s1.par == s.par + [p, |s.par| + 1] && Grown(t, s1, s2, false)
    ensures FirstRootOnly(s.par, s2.par)
  {
    forall k | |s.par| < k < |s2.par| ensures s2.par[k] != 0 {
      if k < |s1.par| {
        assert s2.par[k] == s1.par[k];
      }
    }
  }

  /** Whatever the links of a node lead to is, as the node itself, real. */
  ghost predicate RealLinks(t: Topology, n: nat)
    requires WellFormed(t)
  {
    n < |t.nodes| && forall k :: 0 <= k < |t.nodes[n].localLinks| ==>
      var far := FarEnd(t, t.nodes[n].localLinks[k]); far.Some? ==> !Artificial(t, n) && !Artificial(t, far.value)
  }

  // ---------------------------------------------------------------- one link of a node

  // A link that leads nowhere, or to a link visited before.
  lemma VisitDead(t: Topology, s: State, l: nat, roots: bool)
    requires WellFormed(t) && |s.work| == |t.links| && Numbered(s) && Settled(t, s) && l < |t.links|
      && !s.work[l].visited
    requires forall n :: n in s.seen ==> n < |t.nodes|
    requires t.links[l].remoteLink.None? || Visit(s, l).work[t.links[l].remoteLink.value].visited
    ensures Numbered(Visit(s, l)) && Settled(t, Visit(s, l)) && Grown(t, s, Visit(s, l), roots)
  {
    VisitNumbered(s, l);
  }

  /** Both links of a pair are visited, and the node at the far end is seen. */
  function VisitPair(t: Topology, s: State, l: nat): State
    requires WellFormed(t) && |s.work| == |t.links| && l < |t.links| && t.links[l].remoteLink.Some?
  {
    var s2 := Visit(Visit(s, l), t.links[l].remoteLink.value);
    if FarEnd(t, l).Some? then s2.(seen := s.seen + {FarEnd(t, l).value}) else s2
  }

  lemma VisitPairNumbered(t: Topology, s: State, l: nat, roots: bool)
    requires WellFormed(t) && |s.work| == |t.links| && l < |t.links| && t.links[l].remoteLink.Some? && Numbered(s)
    requires !s.work[l].visited && !Visit(s, l).work[t.links[l].remoteLink.value].visited
    ensures Numbered(VisitPair(t, s, l)) && Extended(s, VisitPair(t, s, l), roots)
    ensures VisitPair(t, s, l).work[l].id == 0 && VisitPair(t, s, l).work[t.links[l].remoteLink.value].id == 0
    ensures l != t.links[l].remoteLink.value
  {
    VisitNumbered(s, l);
    VisitNumbered(Visit(s, l), t.links[l].remoteLink.value);
  }

  // A pair that ends at, or starts from, an artificial node stays without numbers.
  lemma VisitPairSettled(t: Topology, s: State, l: nat)
    requires WellFormed(t) && |s.work| == |t.links| && l < |t.links| && t.links[l].remoteLink.Some? && Numbered(s)
    requires Settled(t, s) && !s.work[l].visited && !Visit(s, l).work[t.links[l].remoteLink.value].visited
    requires Paired(t) ==> t.links[l].localEnd.value in s.seen && !Real(t, l)
    ensures Settled(t, VisitPair(t, s, l))
  {
    hide Numbered, Artificial;
    assert VisitPair(t, s, l).work[l].id == 0 && VisitPair(t, s, l).work[t.links[l].remoteLink.value].id == 0 by {
      VisitPairNumbered(t, s, l, true);
    }
  }

  /** A pair between real nodes is numbered, one link after the other. */
  function NumberPair(t: Topology, s: State, p: nat, l: nat): State
    requires WellFormed(t) && |s.work| == |t.links| && l < |t.links| && t.links[l].remoteLink.Some?
    requires |s.order| == |s.par| && p <= |s.order| && (p > 0 ==> s.order[p - 1] < |s.work|)
  {
    var s1 := AddHop(VisitPair(t, s, l), p, l);
    AddHop(s1, |s1.order|, t.links[l].remoteLink.value)
  }

  lemma NumberPairNumbered(t: Topology, s: State, p: nat, l: nat)
    requires WellFormed(t) && |s.work| == |t.links| && l < |t.links| && t.links[l].remoteLink.Some? && Numbered(s)
    requires !s.work[l].visited && !Visit(s, l).work[t.links[l].remoteLink.value].visited && p <= |s.order|
    ensures var s' := NumberPair(t, s, p, l);
      && Numbered(s') && Extended(s, s', p == 0) && s'.par == s.par + [p, |s.par| + 1]
      && s'.order == s.order + [l, t.links[l].remoteLink.value] && s'.seen == VisitPair(t, s, l).seen
      && (forall x :: 0 <= x < |s.work| ==> s'.work[x].visited == VisitPair(t, s, l).work[x].visited)
      && (forall x :: 0 <= x < |s.work| && x != l && x != t.links[l].remoteLink.value ==> s'.work[x].id == s.work[x].id)
      && s'.work[l].id > 0 && s'.work[t.links[l].remoteLink.value].id > 0
  {
    hide Numbered;
    var s1 := VisitPair(t, s, l);
    VisitPairNumbered(t, s, l, p == 0);
    AddHopNumbered(s1, p, l);
    var s2 := AddHop(s1, p, l);
    AddHopNumbered(s2, |s2.order|, t.links[l].remoteLink.value);
  }

  lemma NumberPairSettled(t: Topology, s: State, p: nat, l: nat)
    requires WellFormed(t) && |s.work| == |t.links| && l < |t.links| && t.links[l].remoteLink.Some? && Numbered(s)
    requires !s.work[l].visited && !Visit(s, l).work[t.links[l].remoteLink.value].visited && p <= |s.order|
    requires Settled(t, s) && (Paired(t) ==> t.links[l].localEnd.value in s.seen && Real(t, l))
    ensures Settled(t, NumberPair(t, s, p, l))
  {
    hide Numbered, AddHop;
    NumberPairNumbered(t, s, p, l);
  }

  /** The walk can follow link `l` of a seen node: neither it nor its remote link has been visited. */
  ghost predicate CanFollow(t: Topology, s: State, n: nat, l: nat)
  {
    && WellFormed(t) && |s.work| == |t.links| && Numbered(s) && Settled(t, s)
    && (forall m :: m in s.seen ==> m < |t.nodes|) && n in s.seen && l in t.nodes[n].localLinks
    && l < |t.links| && t.links[l].remoteLink.Some?
    && !s.work[l].visited && !Visit(s, l).work[t.links[l].remoteLink.value].visited
  }

  // The pair leads to no node.
  lemma EnterNowhere(t: Topology, s: State, n: nat, l: nat, roots: bool)
    requires CanFollow(t, s, n, l) && FarEnd(t, l).None?
    ensures var s' := VisitPair(t, s, l); Numbered(s') && Settled(t, s') && Grown(t, s, s', roots)
  {
    VisitPairNumbered(t, s, l, roots);
  }

  lemma EnterArtificial(t: Topology, s: State, n: nat, l: nat, roots: bool)
    requires CanFollow(t, s, n, l) && FarEnd(t, l).Some? && (Artificial(t, n) || Artificial(t, FarEnd(t, l).value))
    ensures var s' := VisitPair(t, s, l);
      Numbered(s') && Settled(t, s') && Extended(s, s', roots) && Unvisited(s') < Unvisited(s) && s'.work[l].visited
  {
    VisitPairNumbered(t, s, l, roots);
    VisitPairSettled(t, s, l);
    Unvisits(s, VisitPair(t, s, l), roots);
  }

  lemma PairUnvisits(t: Topology, s: State, n: nat, l: nat)
    requires CanFollow(t, s, n, l)
    ensures Unvisited(VisitPair(t, s, l)) < Unvisited(s)
  {
    VisitPairNumbered(t, s, l, true);
    Unvisits(s, VisitPair(t, s, l), true);
  }

  lemma NumberPairIs(t: Topology, s: State, n: nat, p: nat, l: nat)
    requires CanFollow(t, s, n, l) && p <= |s.order|
    ensures |s.order| == |s.par| && (p > 0 ==> s.order[p - 1] < |s.work|)
    ensures NumberPair(t, s, p, l) ==
              AddHop(AddHop(VisitPair(t, s, l), p, l), |s.order| + 1, t.links[l].remoteLink.value)
    ensures Unvisited(NumberPair(t, s, p, l)) == Unvisited(VisitPair(t, s, l))
  {
    NumberPairNumbered(t, s, p, l);
  }

  lemma VisitPairId(t: Topology, s: State, l: nat, x: nat)
    requires WellFormed(t) && |s.work| == |t.links| && l < |t.links| && t.links[l].remoteLink.Some? && Numbered(s)
    requires x < |s.work|
    ensures VisitPair(t, s, l).work[x].id == s.work[x].id <= |s.order|
  {
  }

  lemma EnterReal(t: Topology, s: State, n: nat, p: nat, l: nat)
    requires CanFollow(t, s, n, l) && p <= |s.order|
    requires FarEnd(t, l).Some? && !Artificial(t, n) && !Artificial(t, FarEnd(t, l).value)
    ensures var s' := NumberPair(t, s, p, l);
      && Numbered(s') && Settled(t, s') && Extended(s, s', p == 0) && Unvisited(s') < Unvisited(s)
      && s'.work[l].visited && s'.par == s.par + [p, |s.par| + 1] && s'.work[t.links[l].remoteLink.value].id > 0
      && s'.seen == s.seen + {FarEnd(t, l).value}
    ensures var s' := VisitPair(t, s, l);
      Numbered(s') && s'.work[l].id == 0 && s'.work[t.links[l].remoteLink.value].id == 0
        && l != t.links[l].remoteLink.value
  {
    VisitPairNumbered(t, s, l, true);
    hide AddHop;
    NumberPairNumbered(t, s, p, l);
    NumberPairSettled(t, s, p, l);
    Unvisits(s, NumberPair(t, s, p, l), p == 0);
  }

  /** Where links lead from each node. */
  ghost function Neighbours(t: Topology): Edges<nat>
    requires WellFormed(t)
  {
    map n: nat | n < |t.nodes| :: FarEnds(t, t.nodes[n].localLinks)
  }

  ghost function FarEnds(t: Topology, ls: seq<nat>): seq<nat>
    requires WellFormed(t) && forall k :: 0 <= k < |ls| ==> ls[k] < |t.links|
  {
    if ls == [] then []
    else (if FarEnd(t, ls[0]).Some? then [FarEnd(t, ls[0]).value] else []) + FarEnds(t, ls[1..])
  }

  lemma {:induction false} FarEndsAre(t: Topology, ls: seq<nat>, n: nat)
    requires WellFormed(t) && forall k :: 0 <= k < |ls| ==> ls[k] < |t.links|
    ensures n in FarEnds(t, ls) <==> exists k :: 0 <= k < |ls| && FarEnd(t, ls[k]) == Some(n)
  {
    if ls != [] {
      FarEndsAre(t, ls[1..], n);
      if k :| 0 <= k < |ls| && FarEnd(t, ls[k]) == Some(n) {
        assert k == 0 || ls[1..][k - 1] == ls[k];
      }
    }
  }

  ghost predicate FromFront(t: Topology, n: nat)
    requires WellFormed(t)
  {
    n == 0 || Reach(Neighbours(t), 0, n)
  }

  lemma NextFromFront(t: Topology, n: nat, k: nat)
    requires WellFormed(t) && n < |t.nodes| && FromFront(t, n) && k < |t.nodes[n].localLinks|
    requires FarEnd(t, t.nodes[n].localLinks[k]).Some?
    ensures FromFront(t, FarEnd(t, t.nodes[n].localLinks[k]).value)
  {
    var m := FarEnd(t, t.nodes[n].localLinks[k]).value;
    FarEndsAre(t, t.nodes[n].localLinks, m);
    ReachEdge(Neighbours(t), n, m);
    if n != 0 {
      ReachTrans(Neighbours(t), 0, n, m);
    }
  }

  lemma FollowFromFront(t: Topology, n: nat, l: nat)
    requires WellFormed(t) && n < |t.nodes| && FromFront(t, n) && l in t.nodes[n].localLinks && FarEnd(t, l).Some?
    ensures FromFront(t, FarEnd(t, l).value)
  {
    var k :| 0 <= k < |t.nodes[n].localLinks| && t.nodes[n].localLinks[k] == l;
    NextFromFront(t, n, k);
  }

  /** The walk is over: every node seen is dealt with, and only what the front node leads to is seen. */
  ghost predicate Over(t: Topology, s: State)
    requires WellFormed(t)
  {
    && |s.work| == |t.links| && Settled(t, s) && 0 in s.seen
    && forall n :: n in s.seen ==> n < |t.nodes| && Done(t, s, n) && FromFront(t, n)
  }

  lemma {:induction false} OverSeesAll(t: Topology, s: State, g: Edges<nat>, a: nat, n: nat, steps: nat)
    requires WellFormed(t) && Paired(t) && Over(t, s) && g == Neighbours(t) && a in s.seen && ReachIn(g, a, n, steps)
    ensures n in s.seen
    decreases steps
  {
    hide Over, Paired, WellFormed, Neighbours;
    var c :| c in g[a] && (c == n || ReachIn(g, c, n, steps - 1));
    OverSeesNext(t, s, a, c);
    if c != n {
      OverSeesAll(t, s, g, c, n, steps - 1);
    }
  }

  lemma OverSeesNext(t: Topology, s: State, a: nat, c: nat)
    requires WellFormed(t) && Paired(t) && Over(t, s) && a in s.seen
    requires a in Neighbours(t) && c in Neighbours(t)[a]
    ensures c in s.seen
  {
    hide Paired, FromFront, FarEnds;
    FarEndsAre(t, t.nodes[a].localLinks, c);
    var k :| 0 <= k < |t.nodes[a].localLinks| && FarEnd(t, t.nodes[a].localLinks[k]) == Some(c);
    assert Done(t, s, a);
    assert s.work[t.nodes[a].localLinks[k]].visited;
  }

  /** When the walk is over, the numbered links are exactly those between real nodes that the front
      node leads to. */
  lemma OverNumbers(t: Topology, s: State, l: nat)
    requires WellFormed(t) && Paired(t) && Over(t, s) && Numbered(s) && l < |t.links|
    ensures s.work[l].id > 0 <==> Real(t, l) && FromFront(t, t.links[l].localEnd.value)
  {
    var n := t.links[l].localEnd.value;
    if Real(t, l) && FromFront(t, n) {
      if n != 0 {
        var steps: nat :| ReachIn(Neighbours(t), 0, n, steps);
        OverSeesAll(t, s, Neighbours(t), 0, n, steps);
      }
      assert Done(t, s, n);
      var k :| 0 <= k < |t.nodes[n].localLinks| && t.nodes[n].localLinks[k] == l;
      assert s.work[l].visited;
    }
  }

  /** In a topology of paired links there is no hop to list from exactly when the front node leads to no
      link between real nodes. */
  lemma NoHopsExactlyWhen(t: Topology, s: State)
    requires WellFormed(t) && Paired(t) && Over(t, s) && Numbered(s)
    ensures s.order == [] <==> forall l :: 0 <= l < |t.links| ==>
      !(Real(t, l) && FromFront(t, t.links[l].localEnd.value))
  {
    forall l | 0 <= l < |t.links| ensures s.work[l].id > 0 <==> Real(t, l) && FromFront(t, t.links[l].localEnd.value) {
      OverNumbers(t, s, l);
    }
    if s.order != [] {
      assert s.work[s.order[0]].id == 1;
    }
  }
}
