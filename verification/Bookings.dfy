/** Whole runs over a delta series: adding deltas, removing deltas that are present, and asking
for the peak. The state is the series together with the list of deltas that are live.
*/
module Bookings {
  import opened Segments

  datatype Op = Add(d: Seg) | Remove(which: nat)

  datatype Book = Book(segs: seq<Seg>, live: seq<Seg>)

  const EMPTY: Book := Book([], [])

  // An added delta is proper and leaves the total under 64 bits; a removed one is live.
  ghost predicate Legal(book: Book, op: Op) {
    match op
    case Add(d) => Proper(d) && forall t :: Load(book.live, t) + At(d, t) < U64
    case Remove(k) => k < |book.live|
  }

  ghost function Step(book: Book, op: Op): Book
    requires Legal(book, op)
  {
    match op
    case Add(d) => Book(Overlay(book.segs, d, Combine), book.live + [d])
    case Remove(k) => Book(Strip(book.segs, book.live[k]), book.live[..k] + book.live[k + 1..])
  }

  ghost predicate LegalRun(book: Book, ops: seq<Op>)
    decreases |ops|
  {
    ops == [] || (Legal(book, ops[0]) && LegalRun(Step(book, ops[0]), ops[1..]))
  }

  ghost function Run(book: Book, ops: seq<Op>): Book
    requires LegalRun(book, ops)
    decreases |ops|
  {
    if ops == [] then book else Run(Step(book, ops[0]), ops[1..])
  }

  // ---------------------------------------------------------------- the invariant

  ghost predicate LoadIsSum(book: Book) {
    forall t :: Load(book.segs, t) == Load(book.live, t)
  }

  // Both ends of a live delta that carries bandwidth are cut points of the series.
  ghost predicate CutAtLiveEnds(book: Book) {
    forall k :: 0 <= k < |book.live| && book.live[k].bw > 0 ==>
      NoStraddle(book.segs, book.live[k].start) && NoStraddle(book.segs, book.live[k].end)
  }

  ghost predicate AllProper(live: seq<Seg>) {
    forall k :: 0 <= k < |live| ==> Proper(live[k])
  }

  ghost predicate Consistent(book: Book) {
    Sorted(book.segs) && AllProper(book.live) && LoadIsSum(book) && CutAtLiveEnds(book)
  }

  // A run may start from nothing.
  lemma EmptyConsistent()
    ensures Consistent(EMPTY)
  {
  }

  lemma {:induction false} LoadAtLeast(live: seq<Seg>, k: nat, t: int)
    requires k < |live|
    ensures Load(live, t) == At(live[k], t) + Load(live[..k] + live[k + 1..], t)
  {
    assert live == live[..k] + ([live[k]] + live[k + 1..]);
    LoadConcat(live[..k], [live[k]] + live[k + 1..], t);
    LoadConcat([live[k]], live[k + 1..], t);
    LoadConcat(live[..k], live[k + 1..], t);
  }

  // A live delta that carries bandwidth is covered by segments throughout its window.
  lemma LiveIsCovered(book: Book, k: nat, t: int)
    requires Consistent(book) && k < |book.live| && book.live[k].bw > 0 && Covers(book.live[k], t)
    ensures Covered(book.segs, t)
  {
    LoadAtLeast(book.live, k, t);
    assert Load(book.segs, t) == Load(book.live, t);
    if !Covered(book.segs, t) {
      LoadUncovered(book.segs, t);
    }
  }

  lemma AddKeepsCuts(book: Book, d: Seg, k: nat, p: int)
    requires Consistent(book) && Proper(d)
    requires k < |book.live| && book.live[k].bw > 0 && (p == book.live[k].start || p == book.live[k].end)
    ensures NoStraddle(Overlay(book.segs, d, Combine), p)
  {
    var l := book.live[k];
    LiveIsCovered(book, k, l.start);
    LiveIsCovered(book, k, l.end - 1);
    OverlayNoStraddle(book.segs, d, Combine, p);
  }

  lemma AddKeepsConsistent(book: Book, d: Seg)
    requires Consistent(book) && Legal(book, Add(d))
    ensures Consistent(Step(book, Add(d)))
  {
    var after := Step(book, Add(d));
    OverlaySortedAll(book.segs, d, Combine);
    forall t ensures Load(after.segs, t) == Load(after.live, t) {
      OverlayLoad(book.segs, d, Combine, t);
      LoadConcat(book.live, [d], t);
      assert Load(book.live, t) + At(d, t) < U64;
      assert Load(book.segs, t) == Load(book.live, t);
    }
    OverlayCutsAtEnds(book.segs, d, Combine, d.start);
    OverlayCutsAtEnds(book.segs, d, Combine, d.end);
    forall k | 0 <= k < |after.live| && after.live[k].bw > 0
      ensures NoStraddle(after.segs, after.live[k].start) && NoStraddle(after.segs, after.live[k].end)
    {
      if k < |book.live| {
        AddKeepsCuts(book, d, k, book.live[k].start);
        AddKeepsCuts(book, d, k, book.live[k].end);
      }
    }
  }

  // The reason removal need not split: a live delta is aligned with the series and fully booked.
  lemma LiveCanBeRemoved(book: Book, k: nat)
    requires Consistent(book) && k < |book.live|
    ensures RemovedExactly(book.segs, book.live[k])
  {
    var d := book.live[k];
    if d.bw > 0 {
      forall t | Covers(d, t) ensures d.bw <= Load(book.segs, t) {
        LoadAtLeast(book.live, k, t);
        assert Load(book.segs, t) == Load(book.live, t);
      }
    }
    RemovedExactlyWhen(book.segs, d);
  }

  lemma RemoveKeepsConsistent(book: Book, k: nat)
    requires Consistent(book) && k < |book.live|
    ensures Consistent(Step(book, Remove(k)))
  {
    var d := book.live[k];
    var after := Step(book, Remove(k));
    LiveCanBeRemoved(book, k);
    StripSorted(book.segs, d);
    if book.segs != [] { StripKeepsWindows(book.segs, d, book.segs[0].start); }
    forall t ensures Load(after.segs, t) == Load(after.live, t) {
      LoadAtLeast(book.live, k, t);
      assert Load(Strip(book.segs, d), t) + At(d, t) == Load(book.segs, t);
      assert Load(book.segs, t) == Load(book.live, t);
    }
    forall j | 0 <= j < |after.live| && after.live[j].bw > 0
      ensures NoStraddle(after.segs, after.live[j].start) && NoStraddle(after.segs, after.live[j].end)
    {
      var was := if j < k then j else j + 1;
      assert after.live[j] == book.live[was];
      assert NoStraddle(book.segs, book.live[was].start) && NoStraddle(book.segs, book.live[was].end);
    }
  }

  /** After any run that only removes live deltas, the load at every instant is the sum of the
      live deltas, although removal never splits a segment. */
  lemma {:induction false} RunKeepsConsistent(book: Book, ops: seq<Op>)
    requires Consistent(book) && LegalRun(book, ops)
    ensures Consistent(Run(book, ops))
    decreases |ops|
  {
    if ops != [] {
      match ops[0] {
        case Add(d) => AddKeepsConsistent(book, d);
        case Remove(k) => RemoveKeepsConsistent(book, k);
      }
      RunKeepsConsistent(Step(book, ops[0]), ops[1..]);
    }
  }

  // ---------------------------------------------------------------- the peak of what was added

  /** The series built by adding `ds` one after another. */
  ghost function AddAll(ds: seq<Seg>): seq<Seg>
    decreases |ds|
  {
    if ds == [] then [] else Overlay(AddAll(ds[..|ds| - 1]), ds[|ds| - 1], Combine)
  }

  lemma WrapAdd(x: nat, y: nat)
    requires y < U64
    ensures (x % U64 + y) % U64 == (x + y) % U64
  {
    var q, r := x / U64, x % U64;
    assert x + y == q * U64 + (r + y);
    if r + y < U64 {
      assert (x + y) / U64 == q;
    } else {
      assert (x + y) / U64 == q + 1;
    }
  }

  lemma {:induction false} AddAllSorted(ds: seq<Seg>)
    requires AllProper(ds)
    ensures Sorted(AddAll(ds))
    decreases |ds|
  {
    if ds != [] {
      AddAllSorted(ds[..|ds| - 1]);
      OverlaySortedAll(AddAll(ds[..|ds| - 1]), ds[|ds| - 1], Combine);
    }
  }

  /** In a series built by additions the booked instants are exactly those of the deltas ... */
  lemma {:induction false} AddAllCovered(ds: seq<Seg>, t: int)
    requires AllProper(ds)
    ensures Covered(AddAll(ds), t) <==> Covered(ds, t)
    decreases |ds|
  {
    if ds != [] {
      var front, d := ds[..|ds| - 1], ds[|ds| - 1];
      assert ds == front + [d];
      AddAllCovered(front, t);
      AddAllSorted(front);
      OverlayCovered(AddAll(front), d, Combine, t);
      CoveredConcat(front, [d], t);
      CoveredOne(d, t);
    }
  }

  /** ... and the load is the sum of the deltas, in 64 bits. */
  lemma {:induction false} AddAllLoad(ds: seq<Seg>, t: int)
    requires AllProper(ds)
    ensures Load(AddAll(ds), t) == Load(ds, t) % U64
    decreases |ds|
  {
    if ds != [] {
      var front, d := ds[..|ds| - 1], ds[|ds| - 1];
      assert ds == front + [d];
      AddAllLoad(front, t);
      AddAllSorted(front);
      OverlayLoad(AddAll(front), d, Combine, t);
      LoadConcat(front, [d], t);
      assert Load([d], t) == At(d, t);
      hide Load, AddAll, Overlay;
      SpecOfWrapped(d, t, Load(front, t));
    }
  }

  lemma SpecOfWrapped(d: Seg, t: int, x: nat)
    requires Proper(d)
    ensures Spec(Combine, d, t, x % U64) == (x + At(d, t)) % U64
  {
    if Covers(d, t) {
      WrapAdd(x, d.bw);
    }
  }

  ghost predicate IsPeak(segs: seq<Seg>, start: int, end: int, peak: nat) {
    && (exists t :: start <= t < end && Load(segs, t) == peak)
    && (forall t :: start <= t < end ==> Load(segs, t) <= peak)
  }

  // The largest bandwidth among the segments that meet the window.
  ghost predicate IsLargest(segs: seq<Seg>, start: int, end: int, bw: nat) {
    && (exists i :: 0 <= i < |segs| && Overlaps(segs[i], start, end) && segs[i].bw == bw)
    && (forall i :: 0 <= i < |segs| && Overlaps(segs[i], start, end) ==> segs[i].bw <= bw)
  }

  lemma LargestIsPeak(segs: seq<Seg>, start: int, end: int, bw: nat)
    requires Sorted(segs) && start < end && IsLargest(segs, start, end, bw)
    ensures IsPeak(segs, start, end, bw)
  {
    var i :| 0 <= i < |segs| && Overlaps(segs[i], start, end) && segs[i].bw == bw;
    var t := if segs[i].start < start then start else segs[i].start;
    LoadCovered(segs, i, t);
    forall t | start <= t < end ensures Load(segs, t) <= bw {
      if Covered(segs, t) {
        var j :| 0 <= j < |segs| && Covers(segs[j], t);
        LoadCovered(segs, j, t);
        assert Overlaps(segs[j], start, end);
      } else {
        LoadUncovered(segs, t);
      }
    }
  }

  ghost predicate Meets(segs: seq<Seg>, start: int, end: int) {
    exists i :: 0 <= i < |segs| && Overlaps(segs[i], start, end)
  }

  lemma MeetsIffCovered(segs: seq<Seg>, start: int, end: int)
    requires AllProper(segs) && start < end
    ensures Meets(segs, start, end) <==> exists t :: start <= t < end && Covered(segs, t)
  {
    if Meets(segs, start, end) {
      var i :| 0 <= i < |segs| && Overlaps(segs[i], start, end);
      var t := if segs[i].start < start then start else segs[i].start;
      assert Covers(segs[i], t) && Covered(segs, t);
    }
    if t :| start <= t < end && Covered(segs, t) {
      var i :| 0 <= i < |segs| && Covers(segs[i], t);
      assert Overlaps(segs[i], start, end);
    }
  }

  /** The peak of the series over a window is the peak of the summed deltas, and the series meets
      the window exactly when some delta does. */
  lemma PeakOfAdded(ds: seq<Seg>, start: int, end: int, peak: nat)
    requires AllProper(ds) && start < end
    requires forall t :: start <= t < end ==> Load(ds, t) < U64
    ensures IsPeak(AddAll(ds), start, end, peak) <==> IsPeak(ds, start, end, peak)
    ensures Meets(AddAll(ds), start, end) <==> Meets(ds, start, end)
  {
    forall t ensures Load(AddAll(ds), t) == Load(ds, t) % U64
             ensures Covered(AddAll(ds), t) <==> Covered(ds, t)
    {
      AddAllLoad(ds, t);
      AddAllCovered(ds, t);
    }
    forall t | start <= t < end ensures Load(AddAll(ds), t) == Load(ds, t) {
      assert Load(ds, t) < U64;
    }
    AddAllSorted(ds);
    MeetsIffCovered(AddAll(ds), start, end);
    MeetsIffCovered(ds, start, end);
  }

  // ---------------------------------------------------------------- what a run books

  ghost predicate Positive(ds: seq<Seg>) {
    forall k :: 0 <= k < |ds| ==> ds[k].bw > 0
  }

  ghost predicate AddsPositive(ops: seq<Op>) {
    forall i :: 0 <= i < |ops| && ops[i].Add? ==> ops[i].d.bw > 0
  }

  /** Booked is exactly when a live delta is in force. */
  ghost predicate BookedAsLive(book: Book) {
    Positive(book.live) && forall t :: Covered(book.segs, t) <==> Covered(book.live, t)
  }

  lemma {:induction false} CoveredIsLoaded(ds: seq<Seg>, t: int)
    requires Positive(ds)
    ensures Covered(ds, t) <==> Load(ds, t) > 0
  {
    if ds != [] {
      assert [ds[0]] + ds[1..] == ds;
      CoveredConcat([ds[0]], ds[1..], t);
      CoveredOne(ds[0], t);
      CoveredIsLoaded(ds[1..], t);
    }
  }

  lemma AddKeepsBooked(book: Book, d: Seg)
    requires Consistent(book) && Legal(book, Add(d)) && BookedAsLive(book) && d.bw > 0
    ensures BookedAsLive(Step(book, Add(d)))
  {
    var after := Step(book, Add(d));
    forall t ensures Covered(after.segs, t) <==> Covered(after.live, t) {
      OverlayCovered(book.segs, d, Combine, t);
      CoveredConcat(book.live, [d], t);
      CoveredOne(d, t);
      assert Covered(book.segs, t) <==> Covered(book.live, t);
    }
  }

  /** Removing a live delta drops the segments that no other live delta books, and no others. */
  lemma RemoveKeepsBooked(book: Book, k: nat)
    requires Consistent(book) && k < |book.live| && BookedAsLive(book)
    ensures BookedAsLive(Step(book, Remove(k)))
  {
    var after := Step(book, Remove(k));
    LiveCanBeRemoved(book, k);
    RemovedExactlyWhen(book.segs, book.live[k]);
    hide Strip, RemovedExactly;
    forall t ensures Covered(after.segs, t) <==> Covered(after.live, t) {
      RemovedBooked(book, k, t);
    }
  }

  lemma RemovedBooked(book: Book, k: nat, t: int)
    requires Consistent(book) && k < |book.live| && BookedAsLive(book) && Aligned(book.segs, book.live[k])
    ensures Covered(Strip(book.segs, book.live[k]), t) <==> Covered(book.live[..k] + book.live[k + 1..], t)
  {
    var d, left := book.live[k], book.live[..k] + book.live[k + 1..];
    LoadAtLeast(book.live, k, t);
    StripCovered(book.segs, d, t);
    CoveredIsLoaded(left, t);
    CoveredIsLoaded(book.live, t);
    assert Load(book.segs, t) == Load(book.live, t) && (Covered(book.segs, t) <==> Covered(book.live, t));
    hide Consistent, Strip, Load, Covered;
    if Covers(d, t) {
      BookedIsTouched(book.segs, d, t);
    } else {
      NotTouchedOutside(book.segs, d, t);
    }
  }

  lemma NotTouchedOutside(segs: seq<Seg>, d: Seg, t: int)
    requires Aligned(segs, d) && !Covers(d, t)
    ensures !Touched(segs, d, t)
  {
  }

  /** After any run that adds deltas with bandwidth and removes live ones, exactly the instants of the live
      deltas are booked: no segment without bandwidth is left behind. */
  lemma {:induction false} RunKeepsBooked(book: Book, ops: seq<Op>)
    requires Consistent(book) && BookedAsLive(book) && LegalRun(book, ops) && AddsPositive(ops)
    ensures BookedAsLive(Run(book, ops))
    decreases |ops|
  {
    if ops != [] {
      var next := Step(book, ops[0]);
      match ops[0] {
        case Add(d) =>
          AddKeepsConsistent(book, d);
          AddKeepsBooked(book, d);
        case Remove(k) =>
          RemoveKeepsConsistent(book, k);
          RemoveKeepsBooked(book, k);
      }
      assert AddsPositive(ops[1..]);
      hide Consistent, BookedAsLive, Legal;
      RunKeepsBooked(next, ops[1..]);
    }
  }

  /** After such a run the series meets a window exactly when a live delta does, and has its peak there
      exactly where their sum has. */
  lemma PeakOfRun(ops: seq<Op>, start: int, end: int, peak: nat)
    requires LegalRun(EMPTY, ops) && AddsPositive(ops) && start < end
    ensures var book := Run(EMPTY, ops);
      && (Meets(book.segs, start, end) <==> Meets(book.live, start, end))
      && (IsPeak(book.segs, start, end, peak) <==> IsPeak(book.live, start, end, peak))
  {
    var book := Run(EMPTY, ops);
    EmptyConsistent();
    RunKeepsConsistent(EMPTY, ops);
    RunKeepsBooked(EMPTY, ops);
    hide Run;
    MeetsIffCovered(book.segs, start, end);
    MeetsIffCovered(book.live, start, end);
    assert forall t :: Load(book.segs, t) == Load(book.live, t);
  }

  // ---------------------------------------------------------------- availability

  function Avail(capacity: nat, booked: nat): nat {
    if capacity > booked then capacity - booked else 0
  }

  /** `m` read as a step function has value `v` at `t`: the greatest key not after `t` maps to `v`. */
  ghost predicate StepValue(m: map<int, nat>, t: int, v: nat) {
    exists k :: k in m && k <= t && m[k] == v && forall j :: j in m && j <= t ==> j <= k
  }

  /** `m` is the availability over [start, end) of a link of this capacity carrying `segs`. */
  ghost predicate IsAvailability(m: map<int, nat>, segs: seq<Seg>, start: int, end: int, capacity: nat) {
    && (forall t :: start <= t < end ==> StepValue(m, t, Avail(capacity, Load(segs, t))))
    && end in m && m[end] == 0
    && (forall k :: k in m ==> k <= end)
  }

  /** The least availability over the window is the capacity less the peak, floored at zero. */
  lemma LeastAvailability(m: map<int, nat>, segs: seq<Seg>, start: int, end: int, capacity: nat, peak: nat)
    requires IsAvailability(m, segs, start, end, capacity) && IsPeak(segs, start, end, peak)
    ensures exists t :: start <= t < end && StepValue(m, t, Avail(capacity, peak))
    ensures forall t, v :: start <= t < end && StepValue(m, t, v) ==> Avail(capacity, peak) <= v
  {
    forall t, v | start <= t < end && StepValue(m, t, v) ensures Avail(capacity, peak) <= v {
      assert StepValue(m, t, Avail(capacity, Load(segs, t)));
      assert Load(segs, t) <= peak;
    }
    var t :| start <= t < end && Load(segs, t) == peak;
    assert StepValue(m, t, Avail(capacity, Load(segs, t)));
  }

  // ---------------------------------------------------------------- drawing the steps

  // The steps up to `upto` are drawn, and none at or after it.
  ghost predicate DrawnTo(m: map<int, nat>, w: seq<Seg>, start: int, upto: int, capacity: nat) {
    && (forall t :: start <= t < upto ==> StepValue(m, t, Avail(capacity, Load(w, t))))
    && (forall k :: k in m ==> k < upto)
  }

  // One step at `at` draws on to `upto` when the availability is constant in between.
  lemma DrawStep(m: map<int, nat>, w: seq<Seg>, start: int, at: int, x: nat, upto: int, capacity: nat)
    requires DrawnTo(m, w, start, at, capacity) && at < upto
    requires forall t :: start <= t && at <= t < upto ==> Avail(capacity, Load(w, t)) == x
    ensures DrawnTo(m[at := x], w, start, upto, capacity)
  {
    var m' := m[at := x];
    forall t | start <= t < upto ensures StepValue(m', t, Avail(capacity, Load(w, t))) {
      if t < at {
        assert StepValue(m, t, Avail(capacity, Load(w, t)));
        var k :| k in m && k <= t && m[k] == Avail(capacity, Load(w, t)) && forall j :: j in m && j <= t ==> j <= k;
        assert k in m' && m'[k] == m[k];
      } else {
        assert at in m' && m'[at] == x;
      }
    }
  }

  lemma DrawSegment(m: map<int, nat>, w: seq<Seg>, i: nat, start: int, upto: int, capacity: nat)
    requires Sorted(w) && i < |w| && w[i].start < upto <= w[i].end
    requires DrawnTo(m, w, start, w[i].start, capacity)
    ensures DrawnTo(m[w[i].start := Avail(capacity, w[i].bw)], w, start, upto, capacity)
  {
    forall t | w[i].start <= t < upto ensures Load(w, t) == w[i].bw {
      LoadCovered(w, i, t);
    }
    DrawStep(m, w, start, w[i].start, Avail(capacity, w[i].bw), upto, capacity);
  }

  // Between the segments before number `i` and the others nothing is booked.
  lemma DrawGap(m: map<int, nat>, w: seq<Seg>, i: nat, start: int, at: int, upto: int, capacity: nat)
    requires Sorted(w) && i <= |w| && at < upto
    requires (i > 0 ==> w[i - 1].end <= at) && (i < |w| ==> upto <= w[i].start)
    requires DrawnTo(m, w, start, at, capacity)
    ensures DrawnTo(m[at := capacity], w, start, upto, capacity)
  {
    forall t | at <= t < upto ensures Load(w, t) == 0 {
      LoadUncovered(w, t);
    }
    DrawStep(m, w, start, at, capacity, upto, capacity);
  }

  // Closing the graph with the step (end, 0).
  lemma DrawEnd(m: map<int, nat>, v: seq<Seg>, w: seq<Seg>, start: int, end: int, capacity: nat)
    requires DrawnTo(m, w, start, end, capacity)
    requires forall t :: start <= t < end ==> Load(v, t) == Load(w, t)
    ensures IsAvailability(m[end := 0], v, start, end, capacity)
  {
    var m' := m[end := 0];
    forall t | start <= t < end ensures StepValue(m', t, Avail(capacity, Load(v, t))) {
      assert StepValue(m, t, Avail(capacity, Load(w, t)));
      var k :| k in m && k <= t && m[k] == Avail(capacity, Load(w, t)) && forall j :: j in m && j <= t ==> j <= k;
      assert k in m' && m'[k] == m[k];
    }
  }

  // Over a window only the segments that meet it matter.
  lemma WindowLoad(v: seq<Seg>, lo: nat, hi: nat, start: int, end: int)
    requires lo <= hi <= |v|
    requires forall i :: 0 <= i < lo ==> v[i].end <= start
    requires forall i :: hi <= i < |v| ==> end <= v[i].start
    ensures forall t :: start <= t < end ==> Load(v, t) == Load(v[lo..hi], t)
  {
    forall t | start <= t < end ensures Load(v, t) == Load(v[lo..hi], t) {
      assert v == v[..lo] + (v[lo..hi] + v[hi..]);
      LoadConcat(v[..lo], v[lo..hi] + v[hi..], t);
      LoadConcat(v[lo..hi], v[hi..], t);
      LoadUncovered(v[..lo], t);
      LoadUncovered(v[hi..], t);
    }
  }
}
