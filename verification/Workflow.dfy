/** The stitching workflow: hops of the paths through several aggregates, and which hop's VLAN has
to be known before which. A hop's `lowers` are the hops it depends on, its `uppers` those that
depend on it.
*/
module Workflow {
  import opened Graph
  import opened Lists

  /** A range of VLAN tags; an any-tag range carries the flag, not the bits. */
  datatype TagRange = TagRange(any: bool, tags: set<nat>)

  function Intersect(a: TagRange, b: TagRange): TagRange {
    if b.any then a
    else if a.any then TagRange(false, b.tags)
    else TagRange(false, a.tags * b.tags)
  }

  /** What the workflow needs to know about a link of a path, with the URL that is known for its
      aggregate, or none; every link has an L2SC descriptor. */
  datatype TLink = TLink(hopUrn: string, aggregateUrn: string, aggregateUrl: string, capabilities: set<string>,
                         vlanTranslation: bool, availableVlanTags: TagRange)

  class Dependency {
    const hopUrn: string
    const aggregateUrn: string
    const link: TLink
    var uppers: seq<Dependency>
    var lowers: seq<Dependency>
    var getVlanFrom: bool

    constructor (hopUrn: string, aggregateUrn: string, link: TLink)
      ensures this.hopUrn == hopUrn && this.aggregateUrn == aggregateUrn && this.link == link
      ensures uppers == [] && lowers == [] && !getVlanFrom
    {
      this.hopUrn, this.aggregateUrn, this.link := hopUrn, aggregateUrn, link;
      uppers, lowers, getVlanFrom := [], [], false;
    }

    /** A copy without the orderings. */
    method Clone() returns (d: Dependency)
      ensures fresh(d) && d.hopUrn == hopUrn && d.aggregateUrn == aggregateUrn && d.link == link
      ensures d.uppers == [] && d.lowers == [] && !d.getVlanFrom
    {
      d := new Dependency(hopUrn, aggregateUrn, link);
    }
  }

  /** The orderings among `ds`, from each hop down to its lowers ... */
  ghost function EdgesOf(ds: seq<Dependency>): Edges<Dependency>
    reads ds
  {
    map d | d in ds :: d.lowers
  }

  /** ... and from each hop up to its uppers. */
  ghost function UppersOf(ds: seq<Dependency>): Edges<Dependency>
    reads ds
  {
    map d | d in ds :: d.uppers
  }

  ghost predicate AcrossAggregates(g: Edges<Dependency>) {
    forall u, l :: u in g && l in g[u] ==> u.aggregateUrn != l.aggregateUrn
  }

  ghost predicate FlagsTellLowers(ds: seq<Dependency>)
    reads ds
  {
    forall d :: d in ds ==> (d.getVlanFrom <==> d.lowers != [])
  }

  /** The orderings are in good shape, cycles apart: they stay among the hops, uppers and lowers
      mirror each other with multiplicity, every ordering joins two aggregates, and a hop imports
      its VLANs exactly when it depends on another. */
  ghost predicate Tidy(ds: seq<Dependency>)
    reads ds
  {
    && NoRepeats(ds) && FlagsTellLowers(ds)
    && Closed(EdgesOf(ds)) && Mirror(EdgesOf(ds), UppersOf(ds)) && AcrossAggregates(EdgesOf(ds))
  }

  ghost predicate Sound(ds: seq<Dependency>)
    reads ds
  {
    Tidy(ds) && Acyclic(EdgesOf(ds))
  }

  // A workflow may start from nothing.
  lemma NothingSound()
    ensures Sound([])
  {
  }

  method PushLower(U: Dependency, L: Dependency, ghost ds: seq<Dependency>)
    requires U in ds
    modifies U`lowers
    ensures U.lowers == old(U.lowers) + [L]
    ensures EdgesOf(ds) == AddEdge(old(EdgesOf(ds)), U, L) && UppersOf(ds) == old(UppersOf(ds))
  {
    U.lowers := U.lowers + [L];
  }

  method PushUpper(L: Dependency, U: Dependency, ghost ds: seq<Dependency>)
    requires L in ds
    modifies L`uppers
    ensures L.uppers == old(L.uppers) + [U]
    ensures UppersOf(ds) == AddEdge(old(UppersOf(ds)), L, U) && EdgesOf(ds) == old(EdgesOf(ds))
  {
    L.uppers := L.uppers + [U];
  }

  method SetGetVlanFrom(U: Dependency, ghost ds: seq<Dependency>)
    modifies U`getVlanFrom
    ensures U.getVlanFrom && EdgesOf(ds) == old(EdgesOf(ds)) && UppersOf(ds) == old(UppersOf(ds))
  {
    U.getVlanFrom := true;
  }

  /** The updates the source makes whenever it makes `U` depend on `L`; one of the places that do
      so leaves the import flag alone, where `U` already depends on another hop. */
  method PushOrdering(U: Dependency, L: Dependency, importVlans: bool, ghost ds: seq<Dependency>)
    requires U in ds && L in ds && FlagsTellLowers(ds) && (importVlans || U.lowers != [])
    modifies U`lowers, U`getVlanFrom, L`uppers
    ensures U.lowers == old(U.lowers) + [L] && L.uppers == old(L.uppers) + [U]
    ensures EdgesOf(ds) == AddEdge(old(EdgesOf(ds)), U, L) && UppersOf(ds) == AddEdge(old(UppersOf(ds)), L, U)
    ensures FlagsTellLowers(ds)
  {
    PushLower(U, L, ds);
    PushUpper(L, U, ds);
    if importVlans {
      SetGetVlanFrom(U, ds);
    }
  }

  /** An ordering between two aggregates keeps the orderings sound as long as the upper hop cannot
      be reached from the lower one. */
  method AddOrdering(U: Dependency, L: Dependency, importVlans: bool, ghost ds: seq<Dependency>)
    requires Sound(ds) && U in ds && L in ds && U.aggregateUrn != L.aggregateUrn
    requires !Reach(EdgesOf(ds), L, U)
    requires importVlans || U.lowers != []
    modifies U`lowers, U`getVlanFrom, L`uppers
    ensures Sound(ds) && EdgesOf(ds) == AddEdge(old(EdgesOf(ds)), U, L)
      && UppersOf(ds) == AddEdge(old(UppersOf(ds)), L, U)
    ensures U.lowers == old(U.lowers) + [L] && L.uppers == old(L.uppers) + [U]
  {
    AddEdgeMirror(EdgesOf(ds), UppersOf(ds), U, L);
    AddEdgeAcyclic(EdgesOf(ds), U, L);
    AddEdgeAcross(EdgesOf(ds), U, L);
    PushOrdering(U, L, importVlans, ds);
  }

  lemma AddEdgeAcross(g: Edges<Dependency>, u: Dependency, l: Dependency)
    requires u in g && l in g && u.aggregateUrn != l.aggregateUrn && Closed(g) && AcrossAggregates(g)
    ensures Closed(AddEdge(g, u, l)) && AcrossAggregates(AddEdge(g, u, l))
  {
  }

  // ---------------------------------------------------------------- which neighbour depends on which

  predicate Produces(l: TLink) {
    "producer" in l.capabilities
  }

  /** A link that consumes VLANs, and produces none, depends on a neighbour that produces them. */
  predicate Wants(l1: TLink, l2: TLink) {
    Produces(l2) && !Produces(l1) && "consumer" in l1.capabilities
  }

  predicate SameAggregate(a: Dependency, b: Dependency) {
    a.aggregateUrn == b.aggregateUrn
  }

  /** The hops of a path in the aggregate of hop `k`, among the first `n`. */
  function Peers(ds: seq<Dependency>, k: nat, n: nat): set<nat>
    requires k < |ds| && n <= |ds|
  {
    set j: nat | j < n && SameAggregate(ds[k], ds[j])
  }

  /** The VLAN range of hop `k` met with those of its peers among the first `n` hops. */
  function PeerRange(ds: seq<Dependency>, k: nat, n: nat): TagRange
    requires k < |ds| && n <= |ds|
  {
    if n == 0 then ds[k].link.availableVlanTags
    else if n - 1 == k || !SameAggregate(ds[k], ds[n - 1]) then PeerRange(ds, k, n - 1)
    else Intersect(PeerRange(ds, k, n - 1), ds[n - 1].link.availableVlanTags)
  }

  lemma PeerRangeNext(ds: seq<Dependency>, k: nat, x: nat)
    requires k < |ds| && x < |ds|
    ensures PeerRange(ds, k, 0) == ds[k].link.availableVlanTags
    ensures PeerRange(ds, k, x + 1) ==
            if x == k || !SameAggregate(ds[k], ds[x]) then PeerRange(ds, k, x)
            else Intersect(PeerRange(ds, k, x), ds[x].link.availableVlanTags)
  {
    hide Intersect;
  }

  function Produced(ds: seq<Dependency>, i: nat): Direction
    requires i + 1 < |ds|
  {
    var l1, l2 := ds[i].link, ds[i + 1].link;
    if SameAggregate(ds[i], ds[i + 1]) then Neither
    else if Wants(l1, l2) then Down
    else if Wants(l2, l1) then Up
    else Neither
  }

  /** Whether hop `i` yields to hop `i + 1`: the aggregate with more hops goes first, and among
      equals the one with the narrower VLAN range. */
  predicate Yields(ds: seq<Dependency>, i: nat)
    requires i + 1 < |ds|
  {
    var n1, n2 := |Peers(ds, i, |ds|)|, |Peers(ds, i + 1, |ds|)|;
    n1 < n2 || (n1 == n2 && |PeerRange(ds, i, |ds|).tags| >= |PeerRange(ds, i + 1, |ds|).tags|)
  }

  /** How hops `i` and `i + 1` are ordered, from what is known of the path alone: producers first,
      then hops that cannot translate VLANs, then by the aggregates' sizes and ranges. */
  function Ordering(ds: seq<Dependency>, i: nat): Direction
    requires i + 1 < |ds|
  {
    var t1, t2 := ds[i].link.vlanTranslation, ds[i + 1].link.vlanTranslation;
    if SameAggregate(ds[i], ds[i + 1]) then Neither
    else if Produced(ds, i) != Neither then Produced(ds, i)
    else if t1 && t2 then Neither
    else if t1 then Down
    else if t2 then Up
    else if Yields(ds, i) then Down
    else Up
  }

  // ---------------------------------------------------------------- the same, told by the links

  /** Two neighbours of different aggregates. */
  predicate Beside(ds: seq<Dependency>, i: nat, j: nat) {
    i < |ds| && j < |ds| && (j == i + 1 || i == j + 1) && ds[i].aggregateUrn != ds[j].aggregateUrn
  }

  function HopsWith(ds: seq<Dependency>, aggregateUrn: string): set<nat> {
    set j: nat | j < |ds| && ds[j].aggregateUrn == aggregateUrn
  }

  /** The tags that the hops in the aggregate of hop `k` have in common: those in every range that is not
      any; if all are any, those the hop itself lists. */
  ghost predicate CommonTags(ds: seq<Dependency>, k: nat, tags: set<nat>)
    requires k < |ds|
  {
    var peers := HopsWith(ds, ds[k].aggregateUrn);
    forall t: nat :: t in tags <==>
      if forall j :: j in peers ==> ds[j].link.availableVlanTags.any then t in ds[k].link.availableVlanTags.tags
      else forall j :: j in peers && !ds[j].link.availableVlanTags.any ==> t in ds[j].link.availableVlanTags.tags
  }

  // The range met so far, tag by tag.
  lemma {:induction false} PeerRangeUpTo(ds: seq<Dependency>, k: nat, n: nat, t: nat)
    requires k < |ds| && n <= |ds|
    ensures var r := PeerRange(ds, k, n);
      && (r.any <==> forall j :: 0 <= j < |ds| && (j == k || (j < n && SameAggregate(ds[k], ds[j]))) ==>
                       ds[j].link.availableVlanTags.any)
      && (r.any ==> r.tags == ds[k].link.availableVlanTags.tags)
      && (!r.any ==> (t in r.tags <==>
            forall j :: 0 <= j < |ds| && (j == k || (j < n && SameAggregate(ds[k], ds[j]))) ==>
                          ds[j].link.availableVlanTags.any || t in ds[j].link.availableVlanTags.tags))
  {
    if n > 0 {
      PeerRangeUpTo(ds, k, n - 1, t);
    }
  }

  /** The number of hops and the VLAN range that neighbours are compared by. */
  lemma PeersAre(ds: seq<Dependency>, k: nat)
    requires k < |ds|
    ensures Peers(ds, k, |ds|) == HopsWith(ds, ds[k].aggregateUrn)
    ensures CommonTags(ds, k, PeerRange(ds, k, |ds|).tags)
    ensures forall tags :: CommonTags(ds, k, tags) ==> tags == PeerRange(ds, k, |ds|).tags
  {
    var r, peers := PeerRange(ds, k, |ds|), HopsWith(ds, ds[k].aggregateUrn);
    assert forall j: nat :: j in peers <==> j < |ds| && SameAggregate(ds[k], ds[j]);
    forall t: nat
      ensures t in r.tags <==>
        if forall j :: j in peers ==> ds[j].link.availableVlanTags.any then t in ds[k].link.availableVlanTags.tags
        else forall j :: j in peers && !ds[j].link.availableVlanTags.any ==> t in ds[j].link.availableVlanTags.tags
    {
      PeerRangeUpTo(ds, k, |ds|, t);
    }
    forall tags | CommonTags(ds, k, tags) ensures tags == r.tags {
      assert forall t: nat :: t in tags <==> t in r.tags;
    }
  }

  /** Without translation: fewer hops in the aggregate, or as many and more tags in common, or all that equal and
      earlier on the path. */
  ghost predicate ComesLater(ds: seq<Dependency>, i: nat, j: nat)
    requires i < |ds| && j < |ds|
  {
    var n, m := |HopsWith(ds, ds[i].aggregateUrn)|, |HopsWith(ds, ds[j].aggregateUrn)|;
    || n < m
    || (n == m && exists r, s :: CommonTags(ds, i, r) && CommonTags(ds, j, s)
                                 && (|r| > |s| || (|r| == |s| && i < j)))
  }

  /** Whether hop `i` is to depend on its neighbour `j`: it consumes what the other produces; or neither consumes
      so, the other does not translate VLANs, and it does or comes later. */
  ghost predicate DependsOn(ds: seq<Dependency>, i: nat, j: nat)
    requires i < |ds| && j < |ds|
  {
    var d, e := ds[i].link, ds[j].link;
    && Beside(ds, i, j)
    && (Wants(d, e) || (!Wants(e, d) && !e.vlanTranslation && (d.vlanTranslation || ComesLater(ds, i, j))))
  }

  /** The orderings made are those the links tell. */
  lemma OrderingTells(ds: seq<Dependency>, i: nat)
    requires i + 1 < |ds|
    ensures Ordering(ds, i) == Down <==> DependsOn(ds, i, i + 1)
    ensures Ordering(ds, i) == Up <==> DependsOn(ds, i + 1, i)
  {
    hide CommonTags, PeerRange, Peers, HopsWith;
    PeersAre(ds, i);
    PeersAre(ds, i + 1);
  }

  function Orderings(ds: seq<Dependency>): seq<Direction> {
    seq(Gaps(ds), i requires 0 <= i < Gaps(ds) => Ordering(ds, i))
  }

  // The first `n` pairs ordered by `f`-so-far, the others as before.
  function OrderedUpTo(ds: seq<Dependency>, n: nat, done: bool): seq<Direction> {
    seq(Gaps(ds), i requires 0 <= i < Gaps(ds) =>
      if i < n then (if done then Ordering(ds, i) else Produced(ds, i))
      else if done then Produced(ds, i) else Neither)
  }

  /** The hops of one path, soundly ordered, with exactly these orderings of neighbours. */
  ghost predicate Lined(ds: seq<Dependency>, dirs: seq<Direction>)
    reads ds
  {
    Sound(ds) && LineIs(EdgesOf(ds), ds, dirs)
  }

  lemma NoTwins(ds: seq<Dependency>, i: nat, j: nat)
    requires Sound(ds) && i < j < |ds|
    ensures ds[i] != ds[j]
  {
  }

  // What is known of an upper of a hop.
  lemma UpperOf(u: Dependency, d: Dependency, ds: seq<Dependency>)
    requires Sound(ds) && d in ds && u in d.uppers
    ensures u in ds && d in u.lowers && u.aggregateUrn != d.aggregateUrn
  {
    assert d in EdgesOf(ds) && u in UppersOf(ds)[d];
    MirrorIn(EdgesOf(ds), UppersOf(ds), u, d);
    assert d in EdgesOf(ds)[u];
  }

  // ---------------------------------------------------------------- sharing uppers in an aggregate

  // Every upper that `from` had in `h0` is an upper of `to`, or `to` already leads down to it.
  ghost predicate Shares(g: Edges<Dependency>, h: Edges<Dependency>, h0: Edges<Dependency>, from: Dependency,
      to: Dependency)
  {
    from in h0 && to in h && forall u :: u in h0[from] ==> u in h[to] || Reach(g, to, u)
  }

  // Every upper in `h` was in `h0` an upper of some hop of the same aggregate.
  ghost predicate FromPeers(h: Edges<Dependency>, h0: Edges<Dependency>) {
    && h.Keys == h0.Keys
    && forall d, u :: d in h && u in h[d] ==> exists p :: p in h0 && SameAggregate(p, d) && u in h0[p]
  }

  lemma SharesGrows(g: Edges<Dependency>, h: Edges<Dependency>, g': Edges<Dependency>, h': Edges<Dependency>,
                    h0: Edges<Dependency>, from: Dependency, to: Dependency)
    requires Shares(g, h, h0, from, to) && Grows(g, g') && Grows(h, h') && to in h'
    ensures Shares(g', h', h0, from, to)
  {
    forall u | u in h0[from] ensures u in h'[to] || Reach(g', to, u) {
      if u !in h[to] {
        ReachGrows(g, g', to, u);
      }
    }
  }

  // LoopFreeMerge(d1, d2) begun at (g0, h0), after the first `n` uppers of `d1`.
  ghost predicate Merged(g0: Edges<Dependency>, h0: Edges<Dependency>, g: Edges<Dependency>, h: Edges<Dependency>,
                         d1: Dependency, d2: Dependency, n: nat) {
    && d1 in h0 && d1 in h && d2 in h && h[d1] == h0[d1] && n <= |h0[d1]|
    && Grows(g0, g) && Grows(h0, h) && FromPeers(h, h0)
    && forall k :: 0 <= k < n ==> h0[d1][k] in h[d2] || Reach(g, d2, h0[d1][k])
  }

  lemma MergedStart(g0: Edges<Dependency>, h0: Edges<Dependency>, d1: Dependency, d2: Dependency)
    requires d1 in h0 && d2 in h0
    ensures Merged(g0, h0, g0, h0, d1, d2, 0)
  {
  }

  lemma FromPeersAdd(h: Edges<Dependency>, h0: Edges<Dependency>, d1: Dependency, d2: Dependency, u: Dependency)
    requires FromPeers(h, h0) && d1 in h0 && d2 in h && SameAggregate(d1, d2) && u in h0[d1]
    ensures FromPeers(AddEdge(h, d2, u), h0)
  {
    var h' := AddEdge(h, d2, u);
    forall d, x | d in h' && x in h'[d] ensures exists p :: p in h0 && SameAggregate(p, d) && x in h0[p] {
      if !(x in h[d]) {
        assert d1 in h0 && SameAggregate(d1, d) && x in h0[d1];
      }
    }
  }

  lemma SharedSoFar(g: Edges<Dependency>, h: Edges<Dependency>, g': Edges<Dependency>, h': Edges<Dependency>,
                    us: seq<Dependency>, n: nat, d2: Dependency)
    requires Grows(g, g') && Grows(h, h') && d2 in h && d2 in h' && n < |us|
    requires forall k :: 0 <= k < n ==> us[k] in h[d2] || Reach(g, d2, us[k])
    requires us[n] in h'[d2] || Reach(g', d2, us[n])
    ensures forall k :: 0 <= k < n + 1 ==> us[k] in h'[d2] || Reach(g', d2, us[k])
  {
    forall k | 0 <= k < n + 1 ensures us[k] in h'[d2] || Reach(g', d2, us[k]) {
      if k < n && us[k] !in h[d2] {
        ReachGrows(g, g', d2, us[k]);
      }
    }
  }

  lemma MergedStep(g0: Edges<Dependency>, h0: Edges<Dependency>, g: Edges<Dependency>, h: Edges<Dependency>,
                   g': Edges<Dependency>, h': Edges<Dependency>, d1: Dependency, d2: Dependency, n: nat)
    requires Merged(g0, h0, g, h, d1, d2, n) && n < |h0[d1]| && d1 != d2 && SameAggregate(d1, d2)
    requires h0[d1][n] in g
    requires g' == g || g' == AddEdge(g, h0[d1][n], d2)
    requires h' == h || h' == AddEdge(h, d2, h0[d1][n])
    requires h0[d1][n] in h'[d2] || Reach(g', d2, h0[d1][n])
    ensures Merged(g0, h0, g', h', d1, d2, n + 1)
  {
    hide FromPeers;
    FromPeersAdd(h, h0, d1, d2, h0[d1][n]);
    GrowsAdd(g0, g, h0[d1][n], d2);
    GrowsAdd(g, g, h0[d1][n], d2);
    GrowsAdd(h0, h, d2, h0[d1][n]);
    GrowsAdd(h, h, d2, h0[d1][n]);
    SharedSoFar(g, h, g', h', h0[d1], n, d2);
  }

  lemma MergedEnd(g0: Edges<Dependency>, h0: Edges<Dependency>, g: Edges<Dependency>, h: Edges<Dependency>,
                  d1: Dependency, d2: Dependency)
    requires d1 in h0 && Merged(g0, h0, g, h, d1, d2, |h0[d1]|)
    ensures Grows(g0, g) && Grows(h0, h) && Shares(g, h, h0, d1, d2) && FromPeers(h, h0)
  {
    forall u | u in h0[d1] ensures u in h[d2] || Reach(g, d2, u) {
      var k :| 0 <= k < |h0[d1]| && h0[d1][k] == u;
    }
  }

  /** What LoopFreeMerge(d1, d2) does to the orderings. */
  ghost predicate PairMerged(g: Edges<Dependency>, h: Edges<Dependency>, g': Edges<Dependency>, h': Edges<Dependency>,
                             d1: Dependency, d2: Dependency) {
    Grows(g, g') && Grows(h, h') && Shares(g', h', h, d1, d2) && FromPeers(h', h)
  }

  lemma FromPeersTrans(h: Edges<Dependency>, h1: Edges<Dependency>, h0: Edges<Dependency>)
    requires FromPeers(h, h1) && FromPeers(h1, h0)
    ensures FromPeers(h, h0)
  {
    forall d, u | d in h && u in h[d] ensures exists p :: p in h0 && SameAggregate(p, d) && u in h0[p] {
      var p1 :| p1 in h1 && SameAggregate(p1, d) && u in h1[p1];
      var p :| p in h0 && SameAggregate(p, p1) && u in h0[p];
    }
  }

  // The pairs step 4 has dealt with when it is about to deal with hops `i` and `j`.
  predicate Before(i: nat, j: nat, a: nat, b: nat) {
    if a < b then a < i || (a == i && b < j) else b < i || (b == i && a < j)
  }

  // Step 4 begun at (g0, h0).
  ghost predicate Closing(g0: Edges<Dependency>, h0: Edges<Dependency>, g: Edges<Dependency>, h: Edges<Dependency>,
                          ds: seq<Dependency>, i: nat, j: nat) {
    && Grows(g0, g) && Grows(h0, h) && FromPeers(h, h0)
    && forall a, b :: 0 <= a < |ds| && 0 <= b < |ds| && a != b && SameAggregate(ds[a], ds[b]) && Before(i, j, a, b) ==>
         Shares(g, h, h0, ds[a], ds[b])
  }

  lemma ClosingStart(g: Edges<Dependency>, h: Edges<Dependency>, ds: seq<Dependency>)
    ensures Closing(g, h, g, h, ds, 0, 0)
  {
    forall d, u | d in h && u in h[d] ensures exists p :: p in h && SameAggregate(p, d) && u in h[p] {
      assert SameAggregate(d, d);
    }
  }

  lemma ClosingNext(g0: Edges<Dependency>, h0: Edges<Dependency>, g: Edges<Dependency>, h: Edges<Dependency>,
                    ds: seq<Dependency>, i: nat)
    requires Closing(g0, h0, g, h, ds, i, |ds|)
    ensures Closing(g0, h0, g, h, ds, i + 1, i + 1)
  {
  }

  lemma ClosingSkip(g0: Edges<Dependency>, h0: Edges<Dependency>, g: Edges<Dependency>, h: Edges<Dependency>,
                    ds: seq<Dependency>, i: nat, j: nat)
    requires i <= j < |ds| && (i == j || !SameAggregate(ds[i], ds[j]))
    requires Closing(g0, h0, g, h, ds, i, j)
    ensures Closing(g0, h0, g, h, ds, i, j + 1)
  {
  }

  lemma ClosingStep(g0: Edges<Dependency>, h0: Edges<Dependency>, g: Edges<Dependency>, h: Edges<Dependency>,
                    g1: Edges<Dependency>, h1: Edges<Dependency>, g2: Edges<Dependency>, h2: Edges<Dependency>,
                    ds: seq<Dependency>, i: nat, j: nat)
    requires i < j < |ds| && Closing(g0, h0, g, h, ds, i, j)
    requires PairMerged(g, h, g1, h1, ds[i], ds[j]) && PairMerged(g1, h1, g2, h2, ds[j], ds[i])
    requires ds[i] in h0 && ds[j] in h0
    requires forall d :: d in ds ==> d in h2
    ensures Closing(g0, h0, g2, h2, ds, i, j + 1)
  {
    hide Shares, FromPeers, Grows, SameAggregate;
    FromPeersTrans(h1, h, h0);
    FromPeersTrans(h2, h1, h0);
    GrowsTrans(g0, g, g1);
    GrowsTrans(g0, g1, g2);
    GrowsTrans(g, g1, g2);
    GrowsTrans(h0, h, h1);
    GrowsTrans(h0, h1, h2);
    GrowsTrans(h, h1, h2);
    SharesEarlier(g1, h1, h, h0, ds[i], ds[j]);
    SharesGrows(g1, h1, g2, h2, h0, ds[i], ds[j]);
    SharesEarlier(g2, h2, h1, h0, ds[j], ds[i]);
    forall a, b | 0 <= a < |ds| && 0 <= b < |ds| && a != b && SameAggregate(ds[a], ds[b]) && Before(i, j + 1, a, b)
      ensures Shares(g2, h2, h0, ds[a], ds[b])
    {
      if Before(i, j, a, b) {
        SharesGrows(g, h, g2, h2, h0, ds[a], ds[b]);
      } else {
        assert (a == i && b == j) || (a == j && b == i);
      }
    }
  }

  lemma SharesEarlier(g: Edges<Dependency>, h: Edges<Dependency>, h1: Edges<Dependency>, h0: Edges<Dependency>,
                      from: Dependency, to: Dependency)
    requires Shares(g, h, h1, from, to) && Grows(h0, h1) && from in h0
    ensures Shares(g, h, h0, from, to)
  {
  }

  /** The path calls for `d` to depend on `u`: two neighbours are ordered, `u` is the upper one, and `d`
      is the other or in the same aggregate. */
  ghost predicate CalledFor(ds: seq<Dependency>, u: Dependency, d: Dependency) {
    exists i: nat, j: nat :: i < |ds| && j < |ds| && DependsOn(ds, i, j) && u == ds[i] && SameAggregate(ds[j], d)
  }

  ghost predicate OnlyCalledFor(h: Edges<Dependency>, ds: seq<Dependency>) {
    forall d, u :: d in h && u in h[d] ==> CalledFor(ds, u, d)
  }

  lemma LinedCalledFor(ds: seq<Dependency>)
    requires Lined(ds, Orderings(ds))
    ensures OnlyCalledFor(UppersOf(ds), ds)
  {
    hide Ordering, Acyclic, LineIs, DependsOn;
    var g, h := EdgesOf(ds), UppersOf(ds);
    forall d, u | d in h && u in h[d] ensures CalledFor(ds, u, d) {
      UpperOf(u, d, ds);
      hide Sound, LineIs;
      var i := LineEdge(g, ds, Orderings(ds), u, d);
      OrderingTells(ds, i);
    }
  }

  lemma PeersCalledFor(h: Edges<Dependency>, h0: Edges<Dependency>, ds: seq<Dependency>)
    requires FromPeers(h, h0) && OnlyCalledFor(h0, ds)
    ensures OnlyCalledFor(h, ds)
  {
    hide DependsOn, FromPeers;
    forall d, u | d in h && u in h[d] ensures CalledFor(ds, u, d) {
      var p := PeerOf(h, h0, d, u);
      assert CalledFor(ds, u, p);
    }
  }

  /** Hops of one aggregate share their uppers: whoever depends on one of them depends on the
      other, or is led down to by it. */
  ghost predicate UppersShared(g: Edges<Dependency>, h: Edges<Dependency>) {
    forall a, b, u :: a in h && b in h && SameAggregate(a, b) && u in h[a] ==> u in h[b] || Reach(g, b, u)
  }

  lemma ClosingEnd(g0: Edges<Dependency>, h0: Edges<Dependency>, g: Edges<Dependency>, h: Edges<Dependency>,
      ds: seq<Dependency>)
    requires Closing(g0, h0, g, h, ds, |ds|, |ds|) && forall d :: d in h ==> d in ds
    ensures Grows(g0, g) && UppersShared(g, h)
  {
    hide Reach, SameAggregate, Closing, FromPeers;
    ClosingFrom(g0, h0, g, h, ds);
    forall a, b, u | a in h && b in h && SameAggregate(a, b) && u in h[a] ensures u in h[b] || Reach(g, b, u) {
      ClosingUpper(g0, h0, g, h, ds, a, b, u);
    }
  }

  lemma ClosingUpper(g0: Edges<Dependency>, h0: Edges<Dependency>, g: Edges<Dependency>, h: Edges<Dependency>,
                     ds: seq<Dependency>, a: Dependency, b: Dependency, u: Dependency)
    requires Closing(g0, h0, g, h, ds, |ds|, |ds|) && a in ds && b in ds && (forall d :: d in h0 ==> d in ds)
    requires a in h && b in h && SameAggregate(a, b) && u in h[a]
    ensures u in h[b] || Reach(g, b, u)
  {
    hide Reach, SameAggregate, Closing, FromPeers, Grows;
    ClosingFrom(g0, h0, g, h, ds);
    var p := PeerOf(h, h0, a, u);
    SameAggregateTrans(p, a, b);
    var i: nat :| i < |ds| && ds[i] == p;
    var j: nat :| j < |ds| && ds[j] == b;
    if p != b {
      ClosingShares(g0, h0, g, h, ds, i, j, u);
    } else {
      GrowsKeeps(h0, h, p, u);
    }
  }

  lemma PeerOf(h: Edges<Dependency>, h0: Edges<Dependency>, d: Dependency, u: Dependency) returns (p: Dependency)
    requires FromPeers(h, h0) && d in h && u in h[d]
    ensures p in h0 && SameAggregate(p, d) && u in h0[p]
  {
    hide SameAggregate;
    p :| p in h0 && SameAggregate(p, d) && u in h0[p];
  }

  lemma SameAggregateTrans(a: Dependency, b: Dependency, c: Dependency)
    requires SameAggregate(a, b) && SameAggregate(b, c)
    ensures SameAggregate(a, c)
  {
  }

  lemma ClosingFrom(g0: Edges<Dependency>, h0: Edges<Dependency>, g: Edges<Dependency>, h: Edges<Dependency>,
                    ds: seq<Dependency>)
    requires Closing(g0, h0, g, h, ds, |ds|, |ds|)
    ensures Grows(g0, g) && Grows(h0, h) && FromPeers(h, h0) && h.Keys == h0.Keys
  {
  }

  lemma GrowsKeeps(h0: Edges<Dependency>, h: Edges<Dependency>, p: Dependency, u: Dependency)
    requires Grows(h0, h) && p in h0 && u in h0[p]
    ensures p in h && u in h[p]
  {
  }

  // Every pair of hops has been looked at.
  lemma ClosingShares(g0: Edges<Dependency>, h0: Edges<Dependency>, g: Edges<Dependency>, h: Edges<Dependency>,
                      ds: seq<Dependency>, i: nat, j: nat, u: Dependency)
    requires Closing(g0, h0, g, h, ds, |ds|, |ds|) && i < |ds| && j < |ds| && ds[i] != ds[j]
    requires SameAggregate(ds[i], ds[j]) && ds[i] in h0 && u in h0[ds[i]]
    ensures ds[j] in h && (u in h[ds[j]] || Reach(g, ds[j], u))
  {
    hide Reach, SameAggregate, Grows, FromPeers;
    assert Before(|ds|, |ds|, i, j);
    assert Shares(g, h, h0, ds[i], ds[j]);
  }

  lemma AddNodeAcross(g: Edges<Dependency>, n: Dependency)
    requires AcrossAggregates(g)
    ensures AcrossAggregates(AddNode(g, n))
  {
  }

  lemma EdgesAppend(ds: seq<Dependency>, d: Dependency)
    requires d !in ds && d.lowers == [] && d.uppers == []
    ensures EdgesOf(ds + [d]) == AddNode(EdgesOf(ds), d) && UppersOf(ds + [d]) == AddNode(UppersOf(ds), d)
  {
  }

  lemma SoundAppend(ds: seq<Dependency>, d: Dependency)
    requires Sound(ds) && d !in ds && d.lowers == [] && d.uppers == [] && !d.getVlanFrom
    ensures Sound(ds + [d])
    ensures EdgesOf(ds + [d]) == AddNode(EdgesOf(ds), d) && Grows(EdgesOf(ds), EdgesOf(ds + [d]))
  {
    hide Acyclic, Mirror, Grows, Closed, AcrossAggregates;
    AddNodeKeeps(EdgesOf(ds), UppersOf(ds), d);
    AddNodeAcross(EdgesOf(ds), d);
    EdgesAppend(ds, d);
    assert FlagsTellLowers(ds + [d]);
  }

  lemma LinedIs(ds: seq<Dependency>, dirs: seq<Direction>)
    requires Lined(ds, dirs)
    ensures Sound(ds) && LineIs(EdgesOf(ds), ds, dirs)
  {
  }

  lemma StartsLined(ds: seq<Dependency>)
    requires Sound(ds) && forall d :: d in ds ==> d.lowers == []
    ensures Lined(ds, OrderedUpTo(ds, 0, false))
  {
    var g := EdgesOf(ds);
    assert forall i :: 0 <= i < |ds| ==> ds[i] in g && g[ds[i]] == [];
  }

  /** Every two neighbours are ordered the way their links tell. */
  ghost predicate NeighboursOrdered(g: Edges<Dependency>, ds: seq<Dependency>) {
    && (forall d :: d in ds ==> d in g)
    && forall i: nat, j: nat :: i < |ds| && j < |ds| && DependsOn(ds, i, j) ==> ds[j] in g[ds[i]]
  }

  lemma OrdersNeighbours(g: Edges<Dependency>, h: Edges<Dependency>, ds: seq<Dependency>)
    requires LineIs(g, ds, Orderings(ds)) && Grows(g, h) && g.Keys == h.Keys
    ensures NeighboursOrdered(h, ds)
  {
    hide Ordering, Closed, NoRepeats, DependsOn;
    forall i: nat, j: nat | i < |ds| && j < |ds| && DependsOn(ds, i, j) ensures ds[j] in h[ds[i]] {
      AreBeside(ds, i, j);
      var k := if i < j then i else j;
      OrderingTells(ds, k);
      assert Orderings(ds)[k] == Ordering(ds, k);
      assert ds[k] in g && ds[k + 1] in g;
    }
  }

  /** On a path ordered so, one hop is put below another exactly if the links tell it. */
  lemma LinedExactly(ds: seq<Dependency>)
    requires Lined(ds, Orderings(ds))
    ensures forall i: nat, j: nat :: i < |ds| && j < |ds| ==> (ds[j] in ds[i].lowers <==> DependsOn(ds, i, j))
  {
    hide Lined, DependsOn, Orderings;
    forall i: nat, j: nat | i < |ds| && j < |ds| ensures ds[j] in ds[i].lowers <==> DependsOn(ds, i, j) {
      LinedPair(ds, i, j);
    }
  }

  lemma LinedPair(ds: seq<Dependency>, i: nat, j: nat)
    requires Lined(ds, Orderings(ds)) && i < |ds| && j < |ds|
    ensures ds[j] in ds[i].lowers <==> DependsOn(ds, i, j)
  {
    hide Ordering, ComesLater, Sound;
    assert ds[i] in EdgesOf(ds) && EdgesOf(ds)[ds[i]] == ds[i].lowers;
    if j == i + 1 {
      OrderingTells(ds, i);
      assert Orderings(ds)[i] == Ordering(ds, i);
    } else if i == j + 1 {
      OrderingTells(ds, j);
      assert Orderings(ds)[j] == Ordering(ds, j);
    }
  }

  lemma AreBeside(ds: seq<Dependency>, i: nat, j: nat)
    requires i < |ds| && j < |ds| && DependsOn(ds, i, j)
    ensures Beside(ds, i, j)
  {
  }

  /** What the links of hop `i` and its neighbour `j` mean for the two. */
  ghost predicate LinksDecide(ds: seq<Dependency>, i: nat, j: nat)
    requires i < |ds| && j < |ds|
    reads ds
  {
    var d, e := ds[i], ds[j];
    var c, b := d.link.capabilities, e.link.capabilities;
    var first := "consumer" in c && "producer" !in c && "producer" in b;
    var other := "consumer" in b && "producer" !in b && "producer" in c;
    var n, m := |HopsWith(ds, d.aggregateUrn)|, |HopsWith(ds, e.aggregateUrn)|;
    && !(e in d.lowers && d in e.lowers)
    && (first ==> e in d.lowers)
    && (!first && !other && d.link.vlanTranslation && !e.link.vlanTranslation ==> e in d.lowers)
    && (!first && !other && !d.link.vlanTranslation && !e.link.vlanTranslation ==>
          && (n < m ==> e in d.lowers)
          && (n == m ==> forall r, s :: CommonTags(ds, i, r) && CommonTags(ds, j, s) && |r| > |s| ==> e in d.lowers)
          && (n == m && i < j ==>
                forall r, s :: CommonTags(ds, i, r) && CommonTags(ds, j, s) ==> (e in d.lowers <==> |r| >= |s|)))
  }

  lemma LinksDecideAll(ds: seq<Dependency>)
    requires Sound(ds) && NeighboursOrdered(EdgesOf(ds), ds)
    ensures forall i, j :: Beside(ds, i, j) ==> LinksDecide(ds, i, j)
  {
    hide NeighboursOrdered, Sound, LinksDecide;
    forall i: nat, j: nat | Beside(ds, i, j) ensures LinksDecide(ds, i, j) {
      BesideOrdered(ds, i, j);
      DecidesOne(ds, i, j);
    }
  }

  lemma BesideOrdered(ds: seq<Dependency>, i: nat, j: nat)
    requires Sound(ds) && NeighboursOrdered(EdgesOf(ds), ds) && Beside(ds, i, j)
    ensures !(ds[j] in ds[i].lowers && ds[i] in ds[j].lowers)
    ensures (DependsOn(ds, i, j) ==> ds[j] in ds[i].lowers) && (DependsOn(ds, j, i) ==> ds[i] in ds[j].lowers)
  {
    var g := EdgesOf(ds);
    hide DependsOn, Mirror;
    assert ds[i] in g && ds[j] in g;
    if ds[j] in ds[i].lowers && ds[i] in ds[j].lowers {
      ReachEdge(g, ds[i], ds[j]);
      ReachEdge(g, ds[j], ds[i]);
      ReachTrans(g, ds[i], ds[j], ds[i]);
    }
  }

  lemma DecidesOne(ds: seq<Dependency>, i: nat, j: nat)
    requires Beside(ds, i, j)
    requires !(ds[j] in ds[i].lowers && ds[i] in ds[j].lowers)
    requires (DependsOn(ds, i, j) ==> ds[j] in ds[i].lowers) && (DependsOn(ds, j, i) ==> ds[i] in ds[j].lowers)
    ensures LinksDecide(ds, i, j)
  {
    hide CommonTags, HopsWith;
    PeersAre(ds, i);
    PeersAre(ds, j);
  }

  ghost predicate LoadedFrom(d: Dependency, l: TLink)
    reads d
  {
    d.hopUrn == l.hopUrn && d.aggregateUrn == l.aggregateUrn && d.link == l && d.lowers == []
  }

  lemma OrderedNext(ds: seq<Dependency>, i: nat, done: bool)
    requires i < |ds|
    ensures i == Gaps(ds) ==> OrderedUpTo(ds, i + 1, done) == OrderedUpTo(ds, i, done)
    ensures i < Gaps(ds) ==>
      OrderedUpTo(ds, i + 1, done) == OrderedUpTo(ds, i, done)[i := if done then Ordering(ds, i) else Produced(ds, i)]
  {
  }

  class WorkflowData {
    var dependencies: seq<Dependency>

    constructor ()
      ensures dependencies == []
    {
      dependencies := [];
    }

    /** Whether `current` can be reached from `newD`: the check made before `newD` is put below
        `current`. It ends because the orderings so far are acyclic. */
    static method CheckDependencyLoop(current: Dependency, newD: Dependency, ghost ds: seq<Dependency>)
        returns (loops: bool)
      requires Sound(ds) && newD in ds
      ensures loops <==> Reach(EdgesOf(ds), newD, current)
      decreases Below(EdgesOf(ds), newD)
    {
      ghost var g := EdgesOf(ds);
      var i := 0;
      while i < |newD.lowers|
        invariant i <= |newD.lowers|
        invariant forall k :: 0 <= k < i ==> newD.lowers[k] != current && !Reach(g, newD.lowers[k], current)
      {
        var lower := newD.lowers[i];
        ReachEdge(g, newD, lower);
        if lower == current {
          return true;
        }
        BelowShrinks(g, newD, lower);
        assert lower in g;
        loops := CheckDependencyLoop(current, lower, ds);
        if loops {
          ReachStep(g, newD, lower, current);
          return;
        }
        i := i + 1;
      }
      if Reach(g, newD, current) {
        var c := ReachFirst(g, newD, current);
      }
      loops := false;
    }

    /** Neighbours `i` and `i + 1` are ordered in the given direction, if they are not already
        ordered the other way. */
    static method Order(ds: seq<Dependency>, i: nat, dir: Direction, ghost dirs: seq<Direction>)
      requires Lined(ds, dirs) && i < |dirs| == Gaps(ds)
      requires dir != Neither && (dirs[i] == Neither || dirs[i] == dir)
      requires !SameAggregate(ds[i], ds[i + 1])
      modifies ds
      ensures Lined(ds, dirs[i := dir])
    {
      LineAdd(EdgesOf(ds), ds, dirs, i, dir);
      if dir == Down {
        AddOrdering(ds[i], ds[i + 1], true, ds);
      } else {
        AddOrdering(ds[i + 1], ds[i], true, ds);
      }
    }

    static method OrderProducerPair(ds: seq<Dependency>, i: nat, ghost dirs: seq<Direction>)
      requires Lined(ds, dirs) && i < |dirs| == Gaps(ds) && dirs[i] == Neither
      modifies ds
      ensures Lined(ds, dirs[i := Produced(ds, i)])
    {
      hide Lined;
      assert dirs[i := Neither] == dirs;
      // skip same domain/aggregate dependency
      if ds[i].aggregateUrn == ds[i + 1].aggregateUrn {
        return;
      }
      var L1, L2 := ds[i].link, ds[i + 1].link;
      if "producer" in L2.capabilities && "producer" !in L1.capabilities && "consumer" in L1.capabilities {
        Order(ds, i, Down, dirs);
      }
      if "producer" in L1.capabilities && "producer" !in L2.capabilities && "consumer" in L2.capabilities {
        Order(ds, i, Up, dirs);
      }
    }

    /** Step 1 of ComputeDependency: producing and consuming neighbours. */
    static method OrderProducers(ds: seq<Dependency>)
      requires Lined(ds, OrderedUpTo(ds, 0, false))
      modifies ds
      ensures Lined(ds, OrderedUpTo(ds, |ds|, false))
    {
      hide Lined;
      var i := 0;
      while i < |ds|
        invariant i <= |ds|
        invariant Lined(ds, OrderedUpTo(ds, i, false))
      {
        OrderedNext(ds, i, false);
        if i + 1 < |ds| {
          OrderProducerPair(ds, i, OrderedUpTo(ds, i, false));
        }
        i := i + 1;
      }
    }

    /** The number of hops in the aggregate of hop `k`, and their common VLAN range. */
    static method SameDomain(ds: seq<Dependency>, k: nat) returns (hops: nat, range: TagRange)
      requires k < |ds|
      ensures hops == |Peers(ds, k, |ds|)| && range == PeerRange(ds, k, |ds|)
    {
      hide Intersect, PeerRange;
      hops, range := 1, ds[k].link.availableVlanTags;
      PeerRangeNext(ds, k, 0);
      ghost var seen: set<nat> := {k};
      var x := 0;
      while x < |ds|
        invariant x <= |ds| && hops == |seen| && range == PeerRange(ds, k, x)
        invariant forall j: nat :: j in seen <==> j == k || (j < x && SameAggregate(ds[k], ds[j]))
      {
        PeerRangeNext(ds, k, x);
        if x != k && SameAggregate(ds[k], ds[x]) {
          hops := hops + 1;
          range := Intersect(range, ds[x].link.availableVlanTags);
          seen := seen + {x};
        }
        x := x + 1;
      }
      assert seen == Peers(ds, k, |ds|);
    }

    /** The two loop checks made before neighbours are ordered. While all orderings so far are of
        neighbours, a check is true only when the direct ordering the other way exists. */
    static method CheckNeighbours(ds: seq<Dependency>, i: nat, ghost dirs: seq<Direction>)
      returns (loop_d1_d2: bool, loop_d2_d1: bool)
      requires Lined(ds, dirs) && i < |dirs| == Gaps(ds)
      ensures loop_d1_d2 <==> dirs[i] == Up
      ensures loop_d2_d1 <==> dirs[i] == Down
    {
      OnLineAcyclic(EdgesOf(ds), ds);
      loop_d1_d2 := CheckDependencyLoop(ds[i], ds[i + 1], ds);
      loop_d2_d1 := CheckDependencyLoop(ds[i + 1], ds[i], ds);
    }

    /** Steps 2 and 3 of ComputeDependency, for one pair of neighbours. */
    static method OrderVlanPair(ds: seq<Dependency>, i: nat, ghost dirs: seq<Direction>)
      requires Lined(ds, dirs) && i < |dirs| == Gaps(ds) && dirs[i] == Produced(ds, i)
      modifies ds
      ensures Lined(ds, dirs[i := Ordering(ds, i)])
    {
      hide Lined, Peers, PeerRange;
      var D1, D2 := ds[i], ds[i + 1];
      assert dirs[i := dirs[i]] == dirs;
      if SameAggregate(D1, D2) {
        return;
      }
      var hops1, range1 := SameDomain(ds, i);
      var hops2, range2 := SameDomain(ds, i + 1);
      var loop_d1_d2, loop_d2_d1 := CheckNeighbours(ds, i, dirs);
      if !D1.link.vlanTranslation && !D2.link.vlanTranslation {
        if !loop_d1_d2 && (hops1 < hops2 || (hops1 == hops2 && |range1.tags| >= |range2.tags|)) {
          Order(ds, i, Down, dirs);
        } else if !loop_d2_d1 && (hops1 > hops2 || (hops1 == hops2 && |range1.tags| <= |range2.tags|)) {
          Order(ds, i, Up, dirs);
        }
      } else if D1.link.vlanTranslation && !D2.link.vlanTranslation {
        if !loop_d1_d2 {
          Order(ds, i, Down, dirs);
        }
      } else if !D1.link.vlanTranslation && D2.link.vlanTranslation {
        if !loop_d2_d1 {
          Order(ds, i, Up, dirs);
        }
      }
    }

    /** Steps 2 and 3 of ComputeDependency. */
    static method OrderVlans(ds: seq<Dependency>)
      requires Lined(ds, OrderedUpTo(ds, 0, true))
      modifies ds
      ensures Lined(ds, Orderings(ds))
      ensures forall i: nat, j: nat :: i < |ds| && j < |ds| ==> (ds[j] in ds[i].lowers <==> DependsOn(ds, i, j))
    {
      hide Lined, DependsOn;
      var i := 0;
      while i < |ds|
        invariant i <= |ds|
        invariant Lined(ds, OrderedUpTo(ds, i, true))
      {
        OrderedNext(ds, i, true);
        if i + 1 < |ds| {
          OrderVlanPair(ds, i, OrderedUpTo(ds, i, true));
        }
        i := i + 1;
      }
      assert OrderedUpTo(ds, |ds|, true) == Orderings(ds);
      LinedExactly(ds);
    }

    /** Step 4 for two hops of one aggregate: whoever depends on `D1` is made to depend on `D2`,
        unless `D2` already leads down to it. */
    static method LoopFreeMerge(D1: Dependency, D2: Dependency, ghost ds: seq<Dependency>)
      requires Sound(ds) && D1 in ds && D2 in ds && D1 != D2 && SameAggregate(D1, D2)
      modifies ds
      ensures Sound(ds)
      ensures PairMerged(old(EdgesOf(ds)), old(UppersOf(ds)), EdgesOf(ds), UppersOf(ds), D1, D2)
    {
      hide Sound, Merged, Grows, Shares, FromPeers;
      ghost var g0, h0 := EdgesOf(ds), UppersOf(ds);
      MergedStart(g0, h0, D1, D2);
      var i := 0;
      while i < |D1.uppers|
        invariant D1.uppers == h0[D1] && i <= |D1.uppers|
        invariant Sound(ds) && Merged(g0, h0, EdgesOf(ds), UppersOf(ds), D1, D2, i)
      {
        ghost var g, h := EdgesOf(ds), UppersOf(ds);
        MergeUpper(D1, D2, D1.uppers[i], ds);
        MergedStep(g0, h0, g, h, EdgesOf(ds), UppersOf(ds), D1, D2, i);
        i := i + 1;
      }
      MergedEnd(g0, h0, EdgesOf(ds), UppersOf(ds), D1, D2);
    }

    /** The body of the loop of LoopFreeMerge. */
    static method MergeUpper(D1: Dependency, D2: Dependency, aD1: Dependency, ghost ds: seq<Dependency>)
      requires Sound(ds) && D1 in ds && D2 in ds && D1 != D2 && SameAggregate(D1, D2) && aD1 in D1.uppers
      modifies ds
      ensures Sound(ds) && aD1 in ds && D1.uppers == old(D1.uppers)
      ensures EdgesOf(ds) == old(EdgesOf(ds)) || EdgesOf(ds) == AddEdge(old(EdgesOf(ds)), aD1, D2)
      ensures UppersOf(ds) == old(UppersOf(ds)) || UppersOf(ds) == AddEdge(old(UppersOf(ds)), D2, aD1)
      ensures aD1 in D2.uppers || Reach(EdgesOf(ds), D2, aD1)
    {
      hide Sound;
      UpperOf(aD1, D1, ds);
      var i := 0;
      while i < |D2.uppers|
        invariant i <= |D2.uppers| && aD1 !in D2.uppers[..i]
      {
        if D2.uppers[i] == aD1 {
          return;
        }
        i := i + 1;
      }
      assert D2.uppers[..i] == D2.uppers;
      var loops := CheckDependencyLoop(aD1, D2, ds);
      if !loops {
        AddOrdering(aD1, D2, false, ds);
      }
    }

    /** Step 4 of ComputeDependency: a hop gets the uppers of the other hops of its aggregate. */
    static method CloseAggregates(ds: seq<Dependency>)
      requires Sound(ds)
      modifies ds
      ensures Sound(ds) && Grows(old(EdgesOf(ds)), EdgesOf(ds)) && UppersShared(EdgesOf(ds), UppersOf(ds))
      ensures FromPeers(UppersOf(ds), old(UppersOf(ds)))
    {
      hide Sound, Closing, PairMerged, Grows, UppersShared, FromPeers;
      ghost var g0, h0 := EdgesOf(ds), UppersOf(ds);
      ClosingStart(g0, h0, ds);
      var i := 0;
      while i < |ds|
        invariant i <= |ds| && Sound(ds) && Closing(g0, h0, EdgesOf(ds), UppersOf(ds), ds, i, i)
      {
        var j := i;
        while j < |ds|
          invariant i <= j <= |ds| && Sound(ds) && Closing(g0, h0, EdgesOf(ds), UppersOf(ds), ds, i, j)
        {
          ghost var g, h := EdgesOf(ds), UppersOf(ds);
          if i != j && SameAggregate(ds[i], ds[j]) {
            NoTwins(ds, i, j);
            LoopFreeMerge(ds[i], ds[j], ds);
            ghost var g1, h1 := EdgesOf(ds), UppersOf(ds);
            LoopFreeMerge(ds[j], ds[i], ds);
            ClosingStep(g0, h0, g, h, g1, h1, EdgesOf(ds), UppersOf(ds), ds, i, j);
          } else {
            ClosingSkip(g0, h0, g, h, ds, i, j);
          }
          j := j + 1;
        }
        ClosingNext(g0, h0, EdgesOf(ds), UppersOf(ds), ds, i);
        i := i + 1;
      }
      ClosingEnd(g0, h0, EdgesOf(ds), UppersOf(ds), ds);
      ClosingFrom(g0, h0, EdgesOf(ds), UppersOf(ds), ds);
    }

    /** A hop without orderings joins the others. */
    method Append(D: Dependency)
      requires Sound(dependencies) && D !in dependencies && D.lowers == [] && D.uppers == [] && !D.getVlanFrom
      modifies this
      ensures dependencies == old(dependencies) + [D] && Sound(dependencies)
      ensures EdgesOf(dependencies) == AddNode(old(EdgesOf(dependencies)), D)
      ensures Grows(old(EdgesOf(dependencies)), EdgesOf(dependencies))
    {
      hide Sound, Grows;
      SoundAppend(dependencies, D);
      dependencies := dependencies + [D];
    }

    /** The links of a path become hops without orderings. */
    method LoadPath(tp: seq<TLink>) returns (ghost added: seq<Dependency>)
      requires Sound(dependencies)
      modifies this
      ensures dependencies == old(dependencies) + added && |added| == |tp|
      ensures Sound(dependencies) && Grows(old(EdgesOf(dependencies)), EdgesOf(dependencies))
      ensures forall k :: 0 <= k < |tp| ==> fresh(added[k]) && LoadedFrom(added[k], tp[k])
    {
      hide Sound, Grows;
      added := [];
      ghost var ds, g0 := dependencies, EdgesOf(dependencies);
      GrowsRefl(g0);
      for i := 0 to |tp|
        invariant dependencies == ds + added && |added| == i
        invariant Sound(dependencies) && Grows(g0, EdgesOf(dependencies))
        invariant forall k :: 0 <= k < i ==> fresh(added[k]) && LoadedFrom(added[k], tp[k])
      {
        ghost var g := EdgesOf(dependencies);
        var D := new Dependency(tp[i].hopUrn, tp[i].aggregateUrn, tp[i]);
        assert EdgesOf(dependencies) == g;
        Append(D);
        GrowsTrans(g0, g, EdgesOf(dependencies));
        added := added + [D];
      }
    }

    /** Order the hops of one path, from what the path alone tells, and close the orderings in
        each aggregate. */
    method ComputeDependency()
      requires Sound(dependencies) && forall d :: d in dependencies ==> d.lowers == []
      modifies dependencies
      ensures Sound(dependencies)
      ensures NeighboursOrdered(EdgesOf(dependencies), dependencies)
      ensures UppersShared(EdgesOf(dependencies), UppersOf(dependencies))
      ensures OnlyCalledFor(UppersOf(dependencies), dependencies)
      ensures forall i, j :: Beside(dependencies, i, j) ==> LinksDecide(dependencies, i, j)
    {
      hide Sound, Lined, LineIs, Grows, UppersShared, NeighboursOrdered, FromPeers, OnlyCalledFor;
      ghost var ds := dependencies;
      StartsLined(ds);
      OrderProducers(dependencies);
      assert OrderedUpTo(ds, |ds|, false) == OrderedUpTo(ds, 0, true);
      OrderVlans(dependencies);
      ghost var g := EdgesOf(ds);
      LinedIs(ds, Orderings(ds));
      LinedCalledFor(ds);
      ghost var h := UppersOf(ds);
      CloseAggregates(dependencies);
      OrdersNeighbours(g, EdgesOf(ds), ds);
      PeersCalledFor(UppersOf(ds), h, ds);
      LinksDecideAll(ds);
    }
  }
}
