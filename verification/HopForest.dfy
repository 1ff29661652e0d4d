/** The next-hop forest that a multipoint stitching topology is turned into, and its listing.

Hops are numbered from 1. `par[k - 1]` is the hop whose next hop `k` is, or 0 for a root.
*/
module HopForest {

  /** A next hop comes later than the hop it follows. */
  predicate IsForest(par: seq<nat>) {
    forall k :: 0 <= k < |par| ==> par[k] <= k
  }

  /** The next hops of hop `i` in the order of their numbers. */
  function Children(par: seq<nat>, i: nat): (r: seq<nat>)
    requires IsForest(par)
    ensures forall j :: 0 <= j < |r| ==> i < r[j] <= |par| && par[r[j] - 1] == i
  {
    if par == [] then []
    else
      var n := |par|;
      Children(par[..n - 1], i) + if par[n - 1] == i then [n] else []
  }

  lemma {:induction false} ChildrenAre(par: seq<nat>, i: nat, k: nat)
    requires IsForest(par)
    ensures k in Children(par, i) <==> 1 <= k <= |par| && par[k - 1] == i
    ensures forall x, y :: 0 <= x < y < |Children(par, i)| ==> Children(par, i)[x] < Children(par, i)[y]
  {
    if par != [] {
      ChildrenAre(par[..|par| - 1], i, k);
    }
  }

  lemma ChildrenAppend(par: seq<nat>, p: nat, i: nat)
    requires IsForest(par) && p <= |par|
    ensures IsForest(par + [p])
    ensures Children(par + [p], i) == Children(par, i) + if p == i then [|par| + 1] else []
  {
    assert (par + [p])[..|par|] == par;
  }

  // ---------------------------------------------------------------- who comes below whom

  /** Hop `m` is hop `i` or is reached from it by next hops. */
  predicate Follows(par: seq<nat>, i: nat, m: nat)
    requires IsForest(par) && 1 <= m <= |par|
    decreases m
  {
    m == i || (par[m - 1] != 0 && Follows(par, i, par[m - 1]))
  }

  // The next hop of `i` on the way to `m`, or 0.
  function Via(par: seq<nat>, i: nat, m: nat): nat
    requires IsForest(par) && 1 <= m <= |par|
    decreases m
  {
    if par[m - 1] == i then m else if par[m - 1] == 0 then 0 else Via(par, i, par[m - 1])
  }

  lemma {:induction false} ViaIs(par: seq<nat>, i: nat, m: nat)
    requires IsForest(par) && 1 <= m <= |par| && 1 <= i
    ensures var v := Via(par, i, m);
      && v <= m && (v != 0 ==> par[v - 1] == i && i < m)
      && (Follows(par, i, m) <==> m == i || v != 0)
      && forall c :: 1 <= c <= |par| && par[c - 1] == i ==> (Follows(par, c, m) <==> c == v)
    decreases m
  {
    if par[m - 1] == i {
      NotBelowSelf(par, m, i);
      forall c | 1 <= c <= |par| && par[c - 1] == i ensures Follows(par, c, i) == false {
        NotBelowSelf(par, c, i);
      }
    } else if par[m - 1] != 0 {
      ViaIs(par, i, par[m - 1]);
    }
  }

  // Nothing follows a later hop.
  lemma {:induction false} NotBelowSelf(par: seq<nat>, c: nat, m: nat)
    requires IsForest(par) && 1 <= m < c
    requires m <= |par|
    ensures !Follows(par, c, m)
    decreases m
  {
    if par[m - 1] != 0 {
      NotBelowSelf(par, c, par[m - 1]);
    }
  }

  predicate AllFollow(par: seq<nat>, i: nat)
    requires IsForest(par)
  {
    forall m :: 1 <= m <= |par| ==> Follows(par, i, m)
  }

  predicate OneRoot(par: seq<nat>) {
    forall k :: 1 <= k < |par| ==> par[k] != 0
  }

  /** Everything follows hop 1 exactly when hop 1 is the only root. */
  lemma AllFollowFirst(par: seq<nat>)
    requires IsForest(par)
    ensures AllFollow(par, 1) <==> OneRoot(par)
  {
    if OneRoot(par) {
      forall m | 1 <= m <= |par| ensures Follows(par, 1, m) {
        FollowsFirst(par, m);
      }
    } else {
      var k :| 1 <= k < |par| && par[k] == 0;
      assert !Follows(par, 1, k + 1);
    }
  }

  lemma {:induction false} FollowsFirst(par: seq<nat>, m: nat)
    requires IsForest(par) && 1 <= m <= |par| && OneRoot(par)
    ensures Follows(par, 1, m)
    decreases m
  {
    if m > 1 {
      FollowsFirst(par, par[m - 1]);
    }
  }

  // ---------------------------------------------------------------- the listing

  /** One `hop` element: its number, the link it stands for, and the numbers of its next hops. */
  datatype Hop = Hop(id: nat, link: nat, next: seq<nat>)

  function Entry(order: seq<nat>, par: seq<nat>, i: nat): Hop
    requires IsForest(par) && |order| == |par| && 1 <= i <= |par|
  {
    Hop(i, order[i - 1], Children(par, i))
  }

  /** Hop `i`, then the listings of its next hops one after another. */
  function Listing(order: seq<nat>, par: seq<nat>, i: nat): seq<Hop>
    requires IsForest(par) && |order| == |par| && 1 <= i <= |par|
    decreases |par| - i, 1, 0
  {
    [Entry(order, par, i)] + Listings(order, par, i, Children(par, i))
  }

  function Listings(order: seq<nat>, par: seq<nat>, i: nat, cs: seq<nat>): seq<Hop>
    requires IsForest(par) && |order| == |par| && i <= |par|
    requires forall j :: 0 <= j < |cs| ==> i < cs[j] <= |par|
    decreases |par| - i, 0, |cs|
  {
    if cs == [] then [] else Listing(order, par, cs[0]) + Listings(order, par, i, cs[1..])
  }

  function Times(hops: seq<Hop>, m: nat): nat {
    if hops == [] then 0 else (if hops[0].id == m then 1 else 0) + Times(hops[1..], m)
  }

  lemma {:induction false} TimesConcat(a: seq<Hop>, b: seq<Hop>, m: nat)
    ensures Times(a + b, m) == Times(a, m) + Times(b, m)
  {
    if a == [] {
      assert a + b == b;
    } else {
      assert (a + b)[1..] == a[1..] + b;
      TimesConcat(a[1..], b, m);
    }
  }

  /** The listing from hop `i` has every hop that follows it once, and no other. */
  lemma {:induction false} ListingOnce(order: seq<nat>, par: seq<nat>, i: nat, m: nat)
    requires IsForest(par) && |order| == |par| && 1 <= i <= |par| && 1 <= m <= |par|
    ensures Times(Listing(order, par, i), m) == if Follows(par, i, m) then 1 else 0
    decreases |par| - i, 1, 0
  {
    var cs := Children(par, i);
    ChildrenAre(par, i, Via(par, i, m));
    ListingsOnce(order, par, i, cs, m);
    TimesConcat([Entry(order, par, i)], Listings(order, par, i, cs), m);
    ViaIs(par, i, m);
    assert [Entry(order, par, i)][1..] == [];
  }

  lemma {:induction false} ListingsOnce(order: seq<nat>, par: seq<nat>, i: nat, cs: seq<nat>, m: nat)
    requires IsForest(par) && |order| == |par| && 1 <= i <= |par| && 1 <= m <= |par|
    requires forall j :: 0 <= j < |cs| ==> i < cs[j] <= |par| && par[cs[j] - 1] == i
    requires forall x, y :: 0 <= x < y < |cs| ==> cs[x] < cs[y]
    ensures Times(Listings(order, par, i, cs), m) == if Via(par, i, m) in cs then 1 else 0
    decreases |par| - i, 0, |cs|
  {
    hide Via, Follows, Listing;
    if cs != [] {
      ListingOnce(order, par, cs[0], m);
      ListingsOnce(order, par, i, cs[1..], m);
      TimesConcat(Listing(order, par, cs[0]), Listings(order, par, i, cs[1..]), m);
      ViaIs(par, i, m);
      assert cs == [cs[0]] + cs[1..];
    }
  }

  predicate ListsAll(order: seq<nat>, par: seq<nat>)
    requires IsForest(par) && |order| == |par| && par != []
  {
    forall m :: 1 <= m <= |par| ==> Times(Listing(order, par, 1), m) == 1
  }

  /** The listing from hop 1 has every hop exactly when there is no other root; a second root and what
      follows it are left out. */
  lemma ListsAllExactlyWhen(order: seq<nat>, par: seq<nat>)
    requires IsForest(par) && |order| == |par| && par != []
    ensures ListsAll(order, par) <==> OneRoot(par)
  {
    forall m | 1 <= m <= |par| ensures Times(Listing(order, par, 1), m) == if Follows(par, 1, m) then 1 else 0 {
      ListingOnce(order, par, 1, m);
    }
    AllFollowFirst(par);
    if !AllFollow(par, 1) {
      var m :| 1 <= m <= |par| && !Follows(par, 1, m);
      assert Times(Listing(order, par, 1), m) == 0;
    }
  }

  /** Every entry of a listing names its own next hops. */
  lemma {:induction false} ListingEntries(order: seq<nat>, par: seq<nat>, i: nat)
    requires IsForest(par) && |order| == |par| && 1 <= i <= |par|
    ensures forall h :: h in Listing(order, par, i) ==> 1 <= h.id <= |par| && h == Entry(order, par, h.id)
    decreases |par| - i, 1, 0
  {
    ListingsEntries(order, par, i, Children(par, i));
  }

  lemma {:induction false} ListingsEntries(order: seq<nat>, par: seq<nat>, i: nat, cs: seq<nat>)
    requires IsForest(par) && |order| == |par| && i <= |par|
    requires forall j :: 0 <= j < |cs| ==> i < cs[j] <= |par|
    ensures forall h :: h in Listings(order, par, i, cs) ==> 1 <= h.id <= |par| && h == Entry(order, par, h.id)
    decreases |par| - i, 0, |cs|
  {
    if cs != [] {
      ListingEntries(order, par, cs[0]);
      ListingsEntries(order, par, i, cs[1..]);
    }
  }

  /** What an entry tells of the forest: `m` is among its next hops exactly if its parent is the hop of the
      entry, and they are in the order of their numbers. */
  ghost predicate Tells(par: seq<nat>, h: Hop) {
    && (forall m: nat :: m in h.next <==> 1 <= m <= |par| && par[m - 1] == h.id)
    && (forall x, y :: 0 <= x < y < |h.next| ==> h.next[x] < h.next[y])
  }

  lemma EntryTells(order: seq<nat>, par: seq<nat>, i: nat)
    requires IsForest(par) && |order| == |par| && 1 <= i <= |par|
    ensures Tells(par, Entry(order, par, i))
    ensures Entry(order, par, i).id == i && Entry(order, par, i).link == order[i - 1]
  {
    forall m: nat ensures m in Children(par, i) <==> 1 <= m <= |par| && par[m - 1] == i {
      ChildrenAre(par, i, m);
    }
    ChildrenAre(par, i, 0);
  }

  /** Every listed hop stands for the link of its number and names exactly the hops that follow it next. */
  lemma ListingTells(order: seq<nat>, par: seq<nat>, i: nat)
    requires IsForest(par) && |order| == |par| && 1 <= i <= |par|
    ensures forall h :: h in Listing(order, par, i) ==>
      1 <= h.id <= |par| && h.link == order[h.id - 1] && Tells(par, h)
  {
    hide Listing, Tells, Entry;
    ListingEntries(order, par, i);
    forall h | h in Listing(order, par, i) ensures h.link == order[h.id - 1] && Tells(par, h) {
      EntryTells(order, par, h.id);
    }
  }

  // ---------------------------------------------------------------- the order of the listing

  ghost predicate Precedes(hops: seq<Hop>, a: nat, b: nat) {
    exists p, q :: 0 <= p < q < |hops| && hops[p].id == a && hops[q].id == b
  }

  ghost predicate Occurs(hops: seq<Hop>, a: nat) {
    exists p :: 0 <= p < |hops| && hops[p].id == a
  }

  lemma PrecedesConcat(x: seq<Hop>, y: seq<Hop>, a: nat, b: nat)
    ensures Precedes(x, a, b) || Precedes(y, a, b) || (Occurs(x, a) && Occurs(y, b)) ==> Precedes(x + y, a, b)
  {
    if Precedes(x, a, b) {
      var p, q :| 0 <= p < q < |x| && x[p].id == a && x[q].id == b;
      assert (x + y)[p].id == a && (x + y)[q].id == b;
    } else if Precedes(y, a, b) {
      var p, q :| 0 <= p < q < |y| && y[p].id == a && y[q].id == b;
      assert (x + y)[|x| + p].id == a && (x + y)[|x| + q].id == b;
    } else if Occurs(x, a) && Occurs(y, b) {
      var p :| 0 <= p < |x| && x[p].id == a;
      var q :| 0 <= q < |y| && y[q].id == b;
      assert (x + y)[p].id == a && (x + y)[|x| + q].id == b;
    }
  }

  lemma OccursConcat(x: seq<Hop>, y: seq<Hop>, a: nat)
    ensures Occurs(x, a) || Occurs(y, a) ==> Occurs(x + y, a)
  {
    if Occurs(x, a) {
      var p :| 0 <= p < |x| && x[p].id == a;
      assert (x + y)[p].id == a;
    } else if Occurs(y, a) {
      var p :| 0 <= p < |y| && y[p].id == a;
      assert (x + y)[|x| + p].id == a;
    }
  }

  lemma ListingHasFirst(order: seq<nat>, par: seq<nat>, i: nat)
    requires IsForest(par) && |order| == |par| && 1 <= i <= |par|
    ensures Occurs(Listing(order, par, i), i)
  {
    assert Listing(order, par, i)[0].id == i;
  }

  // What comes in the listing of one of `cs`, comes in theirs.
  lemma {:induction false} InListings(order: seq<nat>, par: seq<nat>, i: nat, cs: seq<nat>, c: nat, a: nat, b: nat)
    requires IsForest(par) && |order| == |par| && i <= |par| && c in cs
    requires forall j :: 0 <= j < |cs| ==> i < cs[j] <= |par|
    ensures Precedes(Listing(order, par, c), a, b) ==> Precedes(Listings(order, par, i, cs), a, b)
    ensures Occurs(Listings(order, par, i, cs), c)
    decreases |cs|
  {
    hide Listing, Precedes, Occurs;
    var first, rest := Listing(order, par, cs[0]), Listings(order, par, i, cs[1..]);
    PrecedesConcat(first, rest, a, b);
    OccursConcat(first, rest, c);
    if c == cs[0] {
      ListingHasFirst(order, par, c);
    } else {
      InListings(order, par, i, cs[1..], c, a, b);
    }
  }

  /** Next hops are listed in the order of their numbers. */
  lemma {:induction false} NextInOrder(order: seq<nat>, par: seq<nat>, i: nat, cs: seq<nat>, x: nat, y: nat)
    requires IsForest(par) && |order| == |par| && i <= |par| && x < y < |cs|
    requires forall j :: 0 <= j < |cs| ==> i < cs[j] <= |par|
    ensures Precedes(Listings(order, par, i, cs), cs[x], cs[y])
    decreases |cs|
  {
    hide Listing, Precedes, Occurs;
    var first, rest := Listing(order, par, cs[0]), Listings(order, par, i, cs[1..]);
    PrecedesConcat(first, rest, cs[x], cs[y]);
    if x == 0 {
      ListingHasFirst(order, par, cs[0]);
      assert cs[y] == cs[1..][y - 1];
      InListings(order, par, i, cs[1..], cs[y], 0, 0);
    } else {
      NextInOrder(order, par, i, cs[1..], x - 1, y - 1);
    }
  }

  /** A hop is listed before the hops that follow it. */
  lemma {:induction false} ListedBefore(order: seq<nat>, par: seq<nat>, i: nat, m: nat)
    requires IsForest(par) && |order| == |par| && 1 <= i <= |par| && 1 <= m <= |par|
    requires Follows(par, i, m) && m != i
    ensures par[m - 1] != 0 && Precedes(Listing(order, par, i), par[m - 1], m)
    decreases |par| - i
  {
    var c, cs := Via(par, i, m), Children(par, i);
    ViaIs(par, i, m);
    ViaParent(par, i, m);
    ChildrenAre(par, i, c);
    hide Via, Follows, Precedes, Occurs, Children, Listings, Entry;
    ListingIs(order, par, i);
    hide Listing;
    var first, rest := [Entry(order, par, i)], Listings(order, par, i, cs);
    PrecedesConcat(first, rest, par[m - 1], m);
    if m == c {
      EntryOccurs(order, par, i);
      InListings(order, par, i, cs, c, 0, 0);
    } else {
      ListedBefore(order, par, c, m);
      InListings(order, par, i, cs, c, par[m - 1], m);
    }
  }

  lemma ViaParent(par: seq<nat>, i: nat, m: nat)
    requires IsForest(par) && 1 <= m <= |par| && 1 <= i && Follows(par, i, m) && m != i
    ensures par[m - 1] != 0 && Via(par, i, m) in Children(par, i) && (m == Via(par, i, m) ==> par[m - 1] == i)
    ensures m != Via(par, i, m) ==> Follows(par, Via(par, i, m), m)
  {
    var c := Via(par, i, m);
    ViaIs(par, i, m);
    ChildrenAre(par, i, c);
    hide Children;
  }

  lemma ListingIs(order: seq<nat>, par: seq<nat>, i: nat)
    requires IsForest(par) && |order| == |par| && 1 <= i <= |par|
    ensures Listing(order, par, i) == [Entry(order, par, i)] + Listings(order, par, i, Children(par, i))
  {
    hide Listings, Children, Entry;
  }

  lemma EntryOccurs(order: seq<nat>, par: seq<nat>, i: nat)
    requires IsForest(par) && |order| == |par| && 1 <= i <= |par|
    ensures Occurs([Entry(order, par, i)], i)
  {
    assert [Entry(order, par, i)][0].id == i;
  }
}
