/** Interval segments as values: what an aggregate delta series stands for.

A list of segments denotes a load function over time, `Load`. `Overlay` and `Strip` are the
one-pass functional forms of adding and removing a delta; the classes of module Scheduling are
proved to compute them, and the lemmas here say what they mean for the load.
*/
module Segments {

  const U64: nat := 0x1_0000_0000_0000_0000

  /** Bandwidth `bw` and VLAN tags over the half-open window [start, end), on some target. */
  datatype Seg = Seg(start: int, end: int, bw: nat, tags: set<nat>, target: object?)

  /** How a delta meets what is already booked: summed in 64 bits, or the larger of the two. */
  datatype Mode = Combine | Join

  function Meet(mode: Mode, x: nat, y: nat): nat {
    match mode
    case Combine => (x + y) % U64
    case Join => if x < y then y else x
  }

  // 64-bit subtraction as the deltas do it: never below zero.
  function Minus(x: nat, y: nat): nat {
    if x > y then x - y else 0
  }

  predicate Covers(s: Seg, t: int) {
    s.start <= t < s.end
  }

  predicate Overlaps(s: Seg, start: int, end: int) {
    s.start < end && start < s.end
  }

  predicate Proper(s: Seg) {
    s.start < s.end && s.bw < U64
  }

  // Proper segments, in time order, no two sharing an instant.
  predicate Sorted(segs: seq<Seg>) {
    && (forall i :: 0 <= i < |segs| ==> Proper(segs[i]))
    && (forall i, j :: 0 <= i < j < |segs| ==> segs[i].end <= segs[j].start)
  }

  function At(s: Seg, t: int): nat {
    if Covers(s, t) then s.bw else 0
  }

  /** The bandwidth booked at instant `t`: the sum over all segments in force at `t`. */
  function Load(segs: seq<Seg>, t: int): nat {
    if segs == [] then 0 else At(segs[0], t) + Load(segs[1..], t)
  }

  ghost predicate Covered(segs: seq<Seg>, t: int) {
    exists i :: 0 <= i < |segs| && Covers(segs[i], t)
  }

  lemma {:induction false} LoadConcat(a: seq<Seg>, b: seq<Seg>, t: int)
    ensures Load(a + b, t) == Load(a, t) + Load(b, t)
  {
    if a == [] {
      assert a + b == b;
    } else {
      assert (a + b)[1..] == a[1..] + b;
      LoadConcat(a[1..], b, t);
    }
  }

  lemma {:induction false} LoadUncovered(segs: seq<Seg>, t: int)
    requires !Covered(segs, t)
    ensures Load(segs, t) == 0
  {
    if segs != [] {
      forall i | 0 <= i < |segs[1..]| ensures !Covers(segs[1..][i], t) {
        assert segs[1..][i] == segs[i + 1];
      }
      LoadUncovered(segs[1..], t);
      assert !Covers(segs[0], t);
    }
  }

  // In a sorted series one segment decides the load at an instant it covers.
  lemma {:induction false} LoadCovered(segs: seq<Seg>, i: nat, t: int)
    requires Sorted(segs) && i < |segs| && Covers(segs[i], t)
    ensures Load(segs, t) == segs[i].bw
  {
    if i == 0 {
      LoadUncovered(segs[1..], t);
    } else {
      LoadCovered(segs[1..], i - 1, t);
    }
  }

  // ---------------------------------------------------------------- adding a delta

  /** `d` laid over `segs`: split at the edges of `d`, meet inside, fill the gaps. */
  function Overlay(segs: seq<Seg>, d: Seg, mode: Mode): seq<Seg>
    decreases |segs|
  {
    if segs == [] then [d]
    else
      var a, rest := segs[0], segs[1..];
      if a.end <= d.start then [a] + Overlay(rest, d, mode)
      else if d.end <= a.start then [d] + segs
      else Cut(a, d, mode) + (if a.end < d.end then Overlay(rest, d.(start := a.end), mode) else rest)
  }

  /** One booked segment `a` cut against an overlapping `d`: everything either of them
      books before the end of `a`. */
  function Cut(a: Seg, d: Seg, mode: Mode): seq<Seg> {
    Head(a, d) + [Middle(a, d, mode)] + Tail(a, d)
  }

  // The left end of `a`, or the part of `d` in front of `a`.
  function Head(a: Seg, d: Seg): seq<Seg> {
    if a.start < d.start then [a.(end := d.start)]
    else if d.start < a.start then [d.(end := a.start)]
    else []
  }

  function Middle(a: Seg, d: Seg, mode: Mode): Seg {
    Seg(if a.start < d.start then d.start else a.start,
        if a.end > d.end then d.end else a.end,
        Meet(mode, a.bw, d.bw), a.tags + d.tags, a.target)
  }

  // What remains of `a` after `d`.
  function Tail(a: Seg, d: Seg): seq<Seg> {
    if a.end > d.end then [a.(start := d.end)] else []
  }

  lemma {:induction false} OverlaySkips(front: seq<Seg>, segs: seq<Seg>, d: Seg, mode: Mode)
    requires forall i :: 0 <= i < |front| ==> front[i].end <= d.start
    ensures Overlay(front + segs, d, mode) == front + Overlay(segs, d, mode)
  {
    if front == [] {
      assert front + segs == segs;
    } else {
      hide Overlay;
      OverlaySkips(front[1..], segs, d, mode);
      OverlaySkipsFirst(front[0], front[1..] + segs, d, mode);
      assert front + segs == [front[0]] + (front[1..] + segs);
      assert front + Overlay(segs, d, mode) == [front[0]] + (front[1..] + Overlay(segs, d, mode));
    }
  }

  lemma OverlaySkipsFirst(a: Seg, rest: seq<Seg>, d: Seg, mode: Mode)
    requires a.end <= d.start
    ensures Overlay([a] + rest, d, mode) == [a] + Overlay(rest, d, mode)
  {
    assert ([a] + rest)[1..] == rest;
  }

  /** `d` laid over `segs` when there is something of it left to lay. */
  function Leftover(segs: seq<Seg>, d: Seg, mode: Mode): seq<Seg> {
    if d.start < d.end then Overlay(segs, d, mode) else segs
  }

  // The first step of an overlay.
  lemma OverlayFirst(segs: seq<Seg>, d: Seg, mode: Mode)
    requires segs != []
    ensures var a, rest := segs[0], segs[1..];
      Overlay(segs, d, mode) ==
        if a.end <= d.start then [a] + Overlay(rest, d, mode)
        else if d.end <= a.start then [d] + segs
        else Cut(a, d, mode) + if a.end < d.end then Overlay(rest, d.(start := a.end), mode) else rest
  {
    hide Cut;
  }

  // What one overlapping segment contributes, and what is left to do behind it.
  lemma OverlayUnfold(done: seq<Seg>, segs: seq<Seg>, d: Seg, mode: Mode)
    requires segs != [] && Proper(d) && Overlaps(segs[0], d.start, d.end)
    ensures segs[0].end > d.end ==> done + Overlay(segs, d, mode) == done + Cut(segs[0], d, mode) + segs[1..]
    ensures segs[0].end <= d.end ==>
      done + Overlay(segs, d, mode) ==
        done + Cut(segs[0], d, mode) + Leftover(segs[1..], d.(start := segs[0].end), mode)
  {
  }

  predicate AllFrom(segs: seq<Seg>, lo: int) {
    forall i :: 0 <= i < |segs| ==> lo <= segs[i].start
  }

  predicate AllTo(segs: seq<Seg>, hi: int) {
    forall i :: 0 <= i < |segs| ==> segs[i].end <= hi
  }

  lemma SortedConcat(a: seq<Seg>, b: seq<Seg>, cut: int)
    requires Sorted(a) && Sorted(b) && AllTo(a, cut) && AllFrom(b, cut)
    ensures Sorted(a + b)
  {
  }

  lemma CutSorted(a: Seg, d: Seg, mode: Mode, lo: int)
    requires Proper(a) && Proper(d) && Overlaps(a, d.start, d.end)
    requires lo <= a.start && lo <= d.start
    ensures Sorted(Cut(a, d, mode)) && AllFrom(Cut(a, d, mode), lo) && AllTo(Cut(a, d, mode), a.end)
  {
  }

  // A segment that ends with or before `d` leaves nothing behind its end.
  lemma CutEnds(a: Seg, d: Seg, mode: Mode)
    requires Proper(a) && Proper(d) && Overlaps(a, d.start, d.end) && a.end <= d.end
    ensures AllTo(Cut(a, d, mode), a.end)
  {
  }

  // What is left in front of the rest is put there.
  lemma LeftoverInGap(segs: seq<Seg>, d: Seg, mode: Mode)
    requires Proper(d) && (segs != [] ==> d.end <= segs[0].start && Proper(segs[0]))
    ensures Leftover(segs, d, mode) == [d] + segs
  {
  }

  lemma {:induction false} OverlaySorted(segs: seq<Seg>, d: Seg, mode: Mode, lo: int)
    requires Sorted(segs) && Proper(d)
    requires AllFrom(segs, lo) && lo <= d.start
    ensures Sorted(Overlay(segs, d, mode)) && AllFrom(Overlay(segs, d, mode), lo)
    decreases |segs|
  {
    if segs != [] {
      var a, rest := segs[0], segs[1..];
      assert AllFrom(rest, a.end);
      if a.end <= d.start {
        OverlaySorted(rest, d, mode, a.end);
        SortedConcat([a], Overlay(rest, d, mode), a.end);
      } else if d.end <= a.start {
        SortedConcat([d], segs, d.end);
      } else {
        CutSorted(a, d, mode, lo);
        if a.end < d.end {
          OverlaySorted(rest, d.(start := a.end), mode, a.end);
          SortedConcat(Cut(a, d, mode), Overlay(rest, d.(start := a.end), mode), a.end);
        } else {
          SortedConcat(Cut(a, d, mode), rest, a.end);
        }
      }
    }
  }

  lemma OverlaySortedAll(segs: seq<Seg>, d: Seg, mode: Mode)
    requires Sorted(segs) && Proper(d)
    ensures Sorted(Overlay(segs, d, mode))
  {
    OverlaySorted(segs, d, mode, if segs != [] && segs[0].start < d.start then segs[0].start else d.start);
  }

  function Spec(mode: Mode, d: Seg, t: int, x: nat): nat {
    if Covers(d, t) then Meet(mode, x, d.bw) else x
  }

  lemma LoadBefore(segs: seq<Seg>, lo: int, t: int)
    requires AllFrom(segs, lo) && t < lo
    ensures Load(segs, t) == 0
  {
    LoadUncovered(segs, t);
  }

  lemma CutLoad(a: Seg, d: Seg, mode: Mode, t: int)
    requires Proper(a) && Proper(d) && Overlaps(a, d.start, d.end)
    ensures Load(Cut(a, d, mode), t) == if t < a.end then Spec(mode, d, t, At(a, t)) else 0
  {
    LoadConcat(Head(a, d) + [Middle(a, d, mode)], Tail(a, d), t);
    LoadConcat(Head(a, d), [Middle(a, d, mode)], t);
  }

  // The step of OverlayLoad in which the first segment and the delta share an instant; the last
  // requires is the claim for the segments after it.
  lemma OverlayLoadCut(segs: seq<Seg>, d: Seg, mode: Mode, t: int)
    requires Sorted(segs) && Proper(d) && segs != [] && Overlaps(segs[0], d.start, d.end)
    requires segs[0].end < d.end ==>
      var later := d.(start := segs[0].end);
      Load(Overlay(segs[1..], later, mode), t) == Spec(mode, later, t, Load(segs[1..], t))
    ensures Load(Overlay(segs, d, mode), t) == Spec(mode, d, t, Load(segs, t))
  {
    var a, rest := segs[0], segs[1..];
    if t < a.end {
      LoadBefore(rest, a.end, t);
    }
    CutLoad(a, d, mode, t);
    var behind := if a.end < d.end then Overlay(rest, d.(start := a.end), mode) else rest;
    LoadConcat(Cut(a, d, mode), behind, t);
  }

  /** Laying `d` over a series changes the load by exactly `d`, instant by instant: the sum (or,
      in join mode, the maximum) inside the window of `d`, nothing outside it. */
  lemma {:induction false} OverlayLoad(segs: seq<Seg>, d: Seg, mode: Mode, t: int)
    requires Sorted(segs) && Proper(d)
    ensures Load(Overlay(segs, d, mode), t) == Spec(mode, d, t, Load(segs, t))
    decreases |segs|
  {
    if segs != [] {
      OverlayFirst(segs, d, mode);
      hide Cut, Overlay;
      var a, rest := segs[0], segs[1..];
      if a.end <= d.start {
        OverlayLoad(rest, d, mode, t);
        LoadConcat([a], Overlay(rest, d, mode), t);
        if t < a.end { LoadBefore(rest, a.end, t); }
      } else if d.end <= a.start {
        LoadConcat([d], segs, t);
        if t < d.end { LoadBefore(segs, d.end, t); }
      } else {
        if a.end < d.end {
          OverlayLoad(rest, d.(start := a.end), mode, t);
        }
        OverlayLoadCut(segs, d, mode, t);
      }
    }
  }

  // Overlaying books exactly the instants already booked and those of `d`.
  lemma {:induction false} OverlayCovered(segs: seq<Seg>, d: Seg, mode: Mode, t: int)
    requires Sorted(segs) && Proper(d)
    ensures Covered(Overlay(segs, d, mode), t) <==> Covered(segs, t) || Covers(d, t)
    decreases |segs|
  {
    if segs == [] {
      assert Covers(d, t) ==> Covers([d][0], t);
    } else {
      var a, rest := segs[0], segs[1..];
      CoveredConcat([a], rest, t);
      CoveredOne(a, t);
      assert [a] + rest == segs;
      if a.end <= d.start {
        OverlayCovered(rest, d, mode, t);
        CoveredConcat([a], Overlay(rest, d, mode), t);
      } else if d.end <= a.start {
        CoveredConcat([d], segs, t);
        CoveredOne(d, t);
      } else {
        CutCovered(a, d, mode, t);
        var behind := if a.end < d.end then Overlay(rest, d.(start := a.end), mode) else rest;
        CoveredConcat(Cut(a, d, mode), behind, t);
        if a.end < d.end {
          OverlayCovered(rest, d.(start := a.end), mode, t);
        }
      }
    }
  }

  lemma CoveredOne(a: Seg, t: int)
    ensures Covered([a], t) <==> Covers(a, t)
  {
    assert [a][0] == a;
  }

  lemma CoveredConcat(a: seq<Seg>, b: seq<Seg>, t: int)
    ensures Covered(a + b, t) <==> Covered(a, t) || Covered(b, t)
  {
    if Covered(a, t) {
      var i :| 0 <= i < |a| && Covers(a[i], t);
      assert Covers((a + b)[i], t);
    }
    if Covered(b, t) {
      var i :| 0 <= i < |b| && Covers(b[i], t);
      assert Covers((a + b)[|a| + i], t);
    }
  }

  lemma CutCovered(a: Seg, d: Seg, mode: Mode, t: int)
    requires Proper(a) && Proper(d) && Overlaps(a, d.start, d.end)
    ensures Covered(Cut(a, d, mode), t) <==> Covers(a, t) || (Covers(d, t) && t < a.end)
  {
    CoveredConcat(Head(a, d) + [Middle(a, d, mode)], Tail(a, d), t);
    CoveredConcat(Head(a, d), [Middle(a, d, mode)], t);
    CoveredOne(Middle(a, d, mode), t);
    CoveredOne(a.(start := d.end), t);
    CoveredOne(a.(end := d.start), t);
    CoveredOne(d.(end := a.start), t);
  }

  // ---------------------------------------------------------------- cut points

  /** No segment has the instant `p` strictly inside it. */
  predicate NoStraddle(segs: seq<Seg>, p: int) {
    forall i :: 0 <= i < |segs| ==> !(segs[i].start < p < segs[i].end)
  }

  lemma NoStraddleConcat(a: seq<Seg>, b: seq<Seg>, p: int)
    ensures NoStraddle(a + b, p) <==> NoStraddle(a, p) && NoStraddle(b, p)
  {
    forall i | 0 <= i < |a| ensures a[i] == (a + b)[i] {}
    forall i | 0 <= i < |b| ensures b[i] == (a + b)[|a| + i] {}
  }

  lemma CutNoStraddle(a: Seg, d: Seg, mode: Mode, p: int)
    requires Proper(a) && Proper(d) && Overlaps(a, d.start, d.end)
    requires !(a.start < p < a.end) && !(d.start < p < a.start)
    ensures NoStraddle(Cut(a, d, mode), p)
  {
  }

  // A booked instant is booked by the first segment or by a later one.
  lemma CoveredFrom(segs: seq<Seg>, t: int)
    requires Sorted(segs) && segs != [] && Covered(segs, t)
    ensures segs[0].start <= t
    ensures segs[0].end <= t ==> Covered(segs[1..], t)
  {
    var i :| 0 <= i < |segs| && Covers(segs[i], t);
    if i > 0 {
      assert segs[1..][i - 1] == segs[i];
    }
  }

  // Overlaying keeps a cut point, unless `d` bridges it across a gap.
  lemma {:induction false} OverlayNoStraddle(segs: seq<Seg>, d: Seg, mode: Mode, p: int)
    requires Sorted(segs) && Proper(d) && NoStraddle(segs, p)
    requires d.start < p < d.end ==> Covered(segs, p) || Covered(segs, p - 1)
    ensures NoStraddle(Overlay(segs, d, mode), p)
    decreases |segs|
  {
    if segs != [] {
      OverlayFirst(segs, d, mode);
      hide Cut, Overlay;
      var a, rest := segs[0], segs[1..];
      if Covered(segs, p) { CoveredFrom(segs, p); }
      if Covered(segs, p - 1) { CoveredFrom(segs, p - 1); }
      if a.end <= d.start {
        OverlayNoStraddle(rest, d, mode, p);
        NoStraddleConcat([a], Overlay(rest, d, mode), p);
      } else if d.end <= a.start {
        NoStraddleConcat([d], segs, p);
      } else {
        CutNoStraddle(a, d, mode, p);
        var behind := if a.end < d.end then Overlay(rest, d.(start := a.end), mode) else rest;
        if a.end < d.end {
          OverlayNoStraddle(rest, d.(start := a.end), mode, p);
        }
        NoStraddleConcat(Cut(a, d, mode), behind, p);
      }
    }
  }

  lemma CutAtEnds(a: Seg, d: Seg, mode: Mode, p: int)
    requires Proper(a) && Proper(d) && Overlaps(a, d.start, d.end) && (p <= d.start || p == d.end)
    requires p < d.start ==> !(a.start < p < a.end)
    ensures NoStraddle(Cut(a, d, mode), p)
  {
    NoStraddleConcat(Head(a, d) + [Middle(a, d, mode)], Tail(a, d), p);
    NoStraddleConcat(Head(a, d), [Middle(a, d, mode)], p);
  }

  // Overlaying makes both ends of `d` cut points.
  lemma {:induction false} OverlayCutsAtEnds(segs: seq<Seg>, d: Seg, mode: Mode, p: int)
    requires Sorted(segs) && Proper(d) && (p <= d.start || p == d.end)
    requires p < d.start ==> NoStraddle(segs, p)
    ensures NoStraddle(Overlay(segs, d, mode), p)
    decreases |segs|
  {
    if segs != [] {
      OverlayFirst(segs, d, mode);
      hide Cut, Overlay;
      var a, rest := segs[0], segs[1..];
      if a.end <= d.start {
        OverlayCutsAtEnds(rest, d, mode, p);
        NoStraddleConcat([a], Overlay(rest, d, mode), p);
      } else if d.end <= a.start {
        NoStraddleConcat([d], segs, p);
      } else {
        var behind := if a.end < d.end then Overlay(rest, d.(start := a.end), mode) else rest;
        if a.end < d.end {
          OverlayCutsAtEnds(rest, d.(start := a.end), mode, p);
        }
        CutAtEnds(a, d, mode, p);
        NoStraddleConcat(Cut(a, d, mode), behind, p);
      }
    }
  }

  /** The VLAN tags held at instant `t`. */
  function TagsAt(segs: seq<Seg>, t: int): set<nat> {
    if segs == [] then {} else (if Covers(segs[0], t) then segs[0].tags else {}) + TagsAt(segs[1..], t)
  }

  lemma {:induction false} TagsConcat(a: seq<Seg>, b: seq<Seg>, t: int)
    ensures TagsAt(a + b, t) == TagsAt(a, t) + TagsAt(b, t)
  {
    if a == [] {
      assert a + b == b;
    } else {
      assert (a + b)[1..] == a[1..] + b;
      TagsConcat(a[1..], b, t);
    }
  }

  lemma {:induction false} NoTagsBefore(segs: seq<Seg>, lo: int, t: int)
    requires AllFrom(segs, lo) && t < lo
    ensures TagsAt(segs, t) == {}
  {
    if segs != [] {
      NoTagsBefore(segs[1..], lo, t);
    }
  }

  lemma CutTags(a: Seg, d: Seg, mode: Mode, t: int)
    requires Proper(a) && Proper(d) && Overlaps(a, d.start, d.end)
    ensures TagsAt(Cut(a, d, mode), t) ==
      (if Covers(a, t) then a.tags else {}) + if Covers(d, t) && t < a.end then d.tags else {}
  {
    TagsConcat(Head(a, d) + [Middle(a, d, mode)], Tail(a, d), t);
    TagsConcat(Head(a, d), [Middle(a, d, mode)], t);
    OneTags(Middle(a, d, mode), t);
    assert |Head(a, d)| == 1 ==> Head(a, d) == [Head(a, d)[0]];
    assert |Tail(a, d)| == 1 ==> Tail(a, d) == [Tail(a, d)[0]];
    if |Head(a, d)| == 1 { OneTags(Head(a, d)[0], t); }
    if |Tail(a, d)| == 1 { OneTags(Tail(a, d)[0], t); }
  }

  lemma OneTags(a: Seg, t: int)
    ensures TagsAt([a], t) == if Covers(a, t) then a.tags else {}
  {
    assert [a][1..] == [];
  }

  /** Overlaying adds the tags of `d` inside its window, and changes none outside. */
  lemma {:induction false} OverlayTags(segs: seq<Seg>, d: Seg, mode: Mode, t: int)
    requires Sorted(segs) && Proper(d)
    ensures TagsAt(Overlay(segs, d, mode), t) == TagsAt(segs, t) + if Covers(d, t) then d.tags else {}
    decreases |segs|
  {
    if segs == [] {
      OneTags(d, t);
    } else {
      var a, rest := segs[0], segs[1..];
      OverlayFirst(segs, d, mode);
      assert AllFrom(rest, a.end);
      hide Overlay, Cut;
      if a.end <= d.start {
        OverlayTags(rest, d, mode, t);
        TagsConcat([a], Overlay(rest, d, mode), t);
        OneTags(a, t);
      } else if d.end <= a.start {
        TagsConcat([d], segs, t);
        OneTags(d, t);
      } else {
        CutTags(a, d, mode, t);
        if a.end < d.end {
          var later := d.(start := a.end);
          OverlayTags(rest, later, mode, t);
          TagsConcat(Cut(a, d, mode), Overlay(rest, later, mode), t);
        } else {
          TagsConcat(Cut(a, d, mode), rest, t);
        }
      }
    }
  }

  ghost predicate TargetAt(segs: seq<Seg>, t: int, o: object?) {
    exists i :: 0 <= i < |segs| && Covers(segs[i], t) && segs[i].target == o
  }

  lemma TargetConcat(a: seq<Seg>, b: seq<Seg>, t: int, o: object?)
    ensures TargetAt(a + b, t, o) <==> TargetAt(a, t, o) || TargetAt(b, t, o)
  {
    if TargetAt(a, t, o) {
      var i :| 0 <= i < |a| && Covers(a[i], t) && a[i].target == o;
      assert Covers((a + b)[i], t);
    }
    if TargetAt(b, t, o) {
      var i :| 0 <= i < |b| && Covers(b[i], t) && b[i].target == o;
      assert Covers((a + b)[|a| + i], t);
    }
  }

  lemma OneTarget(a: Seg, t: int, o: object?)
    ensures TargetAt([a], t, o) <==> Covers(a, t) && a.target == o
  {
    assert [a][0] == a;
  }

  lemma CutTarget(a: Seg, d: Seg, mode: Mode, t: int, o: object?)
    requires Proper(a) && Proper(d) && Overlaps(a, d.start, d.end)
    ensures TargetAt(Cut(a, d, mode), t, o) <==>
      (Covers(a, t) && o == a.target) || (!Covers(a, t) && t < a.end && Covers(d, t) && o == d.target)
  {
    TargetConcat(Head(a, d) + [Middle(a, d, mode)], Tail(a, d), t, o);
    TargetConcat(Head(a, d), [Middle(a, d, mode)], t, o);
    OneTarget(Middle(a, d, mode), t, o);
    if |Head(a, d)| == 1 { assert Head(a, d) == [Head(a, d)[0]]; OneTarget(Head(a, d)[0], t, o); }
    if |Tail(a, d)| == 1 { assert Tail(a, d) == [Tail(a, d)[0]]; OneTarget(Tail(a, d)[0], t, o); }
  }

  /** What was booked keeps its target; what fills a gap has the target of `d`. */
  lemma {:induction false} OverlayTarget(segs: seq<Seg>, d: Seg, mode: Mode, t: int, o: object?)
    requires Sorted(segs) && Proper(d)
    ensures TargetAt(Overlay(segs, d, mode), t, o) <==>
      TargetAt(segs, t, o) || (!Covered(segs, t) && Covers(d, t) && o == d.target)
    decreases |segs|
  {
    if segs == [] {
      OneTarget(d, t, o);
    } else {
      var a, rest := segs[0], segs[1..];
      OverlayFirst(segs, d, mode);
      assert AllFrom(rest, a.end) && [a] + rest == segs;
      TargetConcat([a], rest, t, o);
      CoveredConcat([a], rest, t);
      OneTarget(a, t, o);
      CoveredOne(a, t);
      if t < a.end {
        NotCoveredBefore(rest, a.end, t);
      }
      if t < d.end <= a.start {
        NotCoveredBefore(segs, a.start, t);
      }
      assert Sorted(rest);
      hide Overlay, Cut, Sorted, Covered, TargetAt;
      if a.end <= d.start {
        OverlayTarget(rest, d, mode, t, o);
        TargetConcat([a], Overlay(rest, d, mode), t, o);
      } else if d.end <= a.start {
        TargetConcat([d], segs, t, o);
        OneTarget(d, t, o);
      } else {
        CutTarget(a, d, mode, t, o);
        if a.end < d.end {
          var later := d.(start := a.end);
          OverlayTarget(rest, later, mode, t, o);
          TargetConcat(Cut(a, d, mode), Overlay(rest, later, mode), t, o);
        } else {
          TargetConcat(Cut(a, d, mode), rest, t, o);
        }
      }
    }
  }

  // ---------------------------------------------------------------- removing a delta

  /** `d` taken off every segment it overlaps, whole segment by whole segment; what reaches zero
      is dropped. Nothing is split. */
  function Strip(segs: seq<Seg>, d: Seg): seq<Seg>
    decreases |segs|
  {
    if segs == [] then [] else StripOne(segs[0], d) + Strip(segs[1..], d)
  }

  function StripOne(a: Seg, d: Seg): seq<Seg> {
    if !Overlaps(a, d.start, d.end) then [a]
    else if Minus(a.bw, d.bw) == 0 then []
    else [a.(bw := Minus(a.bw, d.bw), tags := a.tags - d.tags)]
  }

  lemma {:induction false} StripConcat(a: seq<Seg>, b: seq<Seg>, d: Seg)
    ensures Strip(a + b, d) == Strip(a, d) + Strip(b, d)
  {
    if a == [] {
      assert a + b == b;
    } else {
      assert (a + b)[1..] == a[1..] + b;
      StripConcat(a[1..], b, d);
    }
  }

  lemma StripUnfold(done: seq<Seg>, segs: seq<Seg>, d: Seg)
    requires segs != []
    ensures done + Strip(segs, d) == done + StripOne(segs[0], d) + Strip(segs[1..], d)
  {
  }

  // Every segment left is a former one, with the same window.
  lemma {:induction false} StripKeepsWindows(segs: seq<Seg>, d: Seg, lo: int)
    requires Sorted(segs) && AllFrom(segs, lo)
    ensures Sorted(Strip(segs, d)) && AllFrom(Strip(segs, d), lo)
    ensures forall p :: NoStraddle(segs, p) ==> NoStraddle(Strip(segs, d), p)
  {
    if segs != [] {
      var a, rest := segs[0], segs[1..];
      StripKeepsWindows(rest, d, a.end);
      SortedConcat(StripOne(a, d), Strip(rest, d), a.end);
      forall p | NoStraddle(segs, p) ensures NoStraddle(Strip(segs, d), p) {
        assert [a] + rest == segs;
        NoStraddleConcat([a], rest, p);
        NoStraddleConcat(StripOne(a, d), Strip(rest, d), p);
      }
    }
  }

  lemma StripSorted(segs: seq<Seg>, d: Seg)
    requires Sorted(segs)
    ensures Sorted(Strip(segs, d))
  {
    if segs != [] { StripKeepsWindows(segs, d, segs[0].start); }
  }

  lemma {:induction false} StripMisses(segs: seq<Seg>, d: Seg)
    requires forall i :: 0 <= i < |segs| ==> !Overlaps(segs[i], d.start, d.end)
    ensures Strip(segs, d) == segs
  {
    if segs != [] {
      StripMisses(segs[1..], d);
    }
  }

  // An instant whose segment the window of `d` reaches, wherever in the segment it lies.
  predicate Touched(segs: seq<Seg>, d: Seg, t: int) {
    exists i :: 0 <= i < |segs| && Covers(segs[i], t) && Overlaps(segs[i], d.start, d.end)
  }

  lemma {:induction false} StripLoad(segs: seq<Seg>, d: Seg, t: int)
    requires Sorted(segs)
    ensures Load(Strip(segs, d), t) == if Touched(segs, d, t) then Minus(Load(segs, t), d.bw) else Load(segs, t)
  {
    if segs != [] {
      var a, rest := segs[0], segs[1..];
      StripLoad(rest, d, t);
      LoadConcat(StripOne(a, d), Strip(rest, d), t);
      assert Load(StripOne(a, d), t) ==
        if Overlaps(a, d.start, d.end) && Covers(a, t) then Minus(a.bw, d.bw) else At(a, t);
      if Covers(a, t) {
        LoadBefore(rest, a.end, t);
        assert Overlaps(a, d.start, d.end) <==> Touched(segs, d, t);
      } else {
        assert Touched(segs, d, t) <==> Touched(rest, d, t) by {
          forall i | 0 <= i < |rest| ensures rest[i] == segs[i + 1] {}
        }
      }
    }
  }

  /** Removal takes the tags of `d` off the segments it touches, and all tags with those it drops. */
  lemma {:induction false} StripTags(segs: seq<Seg>, d: Seg, t: int)
    requires Sorted(segs)
    ensures TagsAt(Strip(segs, d), t) ==
      if !Touched(segs, d, t) then TagsAt(segs, t) else if Load(segs, t) > d.bw then TagsAt(segs, t) - d.tags else {}
  {
    if segs != [] {
      var a, rest := segs[0], segs[1..];
      StripTags(rest, d, t);
      TagsConcat(StripOne(a, d), Strip(rest, d), t);
      assert Strip(segs, d) == StripOne(a, d) + Strip(rest, d);
      FirstDecides(segs, d, t);
      StripOneTags(a, d, t);
      FirstTags(segs, d, t);
      hide Covered, Touched, Sorted, Overlaps, Load, TagsAt, Strip, StripOne;
    }
  }

  lemma StripOneTags(a: Seg, d: Seg, t: int)
    ensures TagsAt(StripOne(a, d), t) ==
      if !Covers(a, t) then {} else if !Overlaps(a, d.start, d.end) then a.tags
      else if a.bw > d.bw then a.tags - d.tags else {}
  {
    if StripOne(a, d) != [] { OneTags(StripOne(a, d)[0], t); }
  }

  lemma FirstTags(segs: seq<Seg>, d: Seg, t: int)
    requires Sorted(segs) && segs != []
    ensures TagsAt(segs, t) == if Covers(segs[0], t) then segs[0].tags else TagsAt(segs[1..], t)
    ensures Covers(segs[0], t) ==> TagsAt(Strip(segs[1..], d), t) == {}
  {
    var rest := segs[1..];
    if Covers(segs[0], t) {
      NoTagsBefore(rest, segs[0].end, t);
      StripKeepsWindows(rest, d, segs[0].end);
      NoTagsBefore(Strip(rest, d), segs[0].end, t);
    }
  }

  /** Removal drops exactly the segments it touches that have no more bandwidth than `d`: an instant stays
      booked if its segment is not touched, or keeps some bandwidth. */
  lemma {:induction false} StripCovered(segs: seq<Seg>, d: Seg, t: int)
    requires Sorted(segs)
    ensures Covered(Strip(segs, d), t) <==> Covered(segs, t) && (Touched(segs, d, t) ==> Load(segs, t) > d.bw)
  {
    if segs != [] {
      var a, rest := segs[0], segs[1..];
      StripCovered(rest, d, t);
      CoveredConcat(StripOne(a, d), Strip(rest, d), t);
      FirstDecides(segs, d, t);
      hide Covered, Touched, Sorted, Overlaps;
      if Covers(a, t) {
        StrippedCovers(a, d, t);
      } else {
        StrippedElsewhere(a, d, t);
      }
    }
  }

  // Whether the first segment covers an instant decides what is to be known of it.
  lemma FirstDecides(segs: seq<Seg>, d: Seg, t: int)
    requires Sorted(segs) && segs != []
    ensures if Covers(segs[0], t)
      then Covered(segs, t) && !Covered(segs[1..], t) && !Covered(Strip(segs[1..], d), t)
           && Load(segs, t) == segs[0].bw && (Touched(segs, d, t) <==> Overlaps(segs[0], d.start, d.end))
      else (Covered(segs, t) <==> Covered(segs[1..], t)) && Load(segs, t) == Load(segs[1..], t)
           && (Touched(segs, d, t) <==> Touched(segs[1..], d, t))
  {
    var rest := segs[1..];
    if Covers(segs[0], t) {
      StripKeepsWindows(rest, d, segs[0].end);
      NotCoveredBefore(rest, segs[0].end, t);
      NotCoveredBefore(Strip(rest, d), segs[0].end, t);
      LoadCovered(segs, 0, t);
    } else {
      CoveredConcat([segs[0]], rest, t);
      CoveredOne(segs[0], t);
      assert [segs[0]] + rest == segs;
      forall i | 0 <= i < |rest| ensures rest[i] == segs[i + 1] {}
    }
  }

  lemma StrippedCovers(a: Seg, d: Seg, t: int)
    requires Covers(a, t)
    ensures Covered(StripOne(a, d), t) <==> (Overlaps(a, d.start, d.end) ==> a.bw > d.bw)
  {
    if Overlaps(a, d.start, d.end) ==> a.bw > d.bw {
      assert Covers(StripOne(a, d)[0], t);
    }
  }

  lemma StrippedElsewhere(a: Seg, d: Seg, t: int)
    requires !Covers(a, t)
    ensures !Covered(StripOne(a, d), t)
  {
  }

  lemma NotCoveredBefore(segs: seq<Seg>, lo: int, t: int)
    requires Sorted(segs) && AllFrom(segs, lo) && t < lo
    ensures !Covered(segs, t)
  {
  }

  /** Segments that `d` overlaps lie wholly inside its window. */
  predicate Aligned(segs: seq<Seg>, d: Seg) {
    forall i :: 0 <= i < |segs| && Overlaps(segs[i], d.start, d.end) ==>
      d.start <= segs[i].start && segs[i].end <= d.end
  }

  /** Removing `d` lowers the load by exactly `d`, at every instant. */
  ghost predicate RemovedExactly(segs: seq<Seg>, d: Seg) {
    forall t :: Load(Strip(segs, d), t) + At(d, t) == Load(segs, t)
  }

  ghost predicate BookedThroughout(segs: seq<Seg>, d: Seg) {
    forall t :: Covers(d, t) ==> d.bw <= Load(segs, t)
  }

  /** The whole condition under which removal without splitting is right: the segments met do not
      stick out of the window of `d`, and `d` is fully booked. (A delta of no bandwidth may always go.) */
  lemma RemovedExactlyWhen(segs: seq<Seg>, d: Seg)
    requires Sorted(segs) && Proper(d)
    ensures RemovedExactly(segs, d) <==> d.bw == 0 || (Aligned(segs, d) && BookedThroughout(segs, d))
  {
    forall t
      ensures Load(Strip(segs, d), t) == if Touched(segs, d, t) then Minus(Load(segs, t), d.bw) else Load(segs, t)
    {
      StripLoad(segs, d, t);
    }
    if d.bw != 0 && RemovedExactly(segs, d) {
      assert BookedThroughout(segs, d);
      forall i | 0 <= i < |segs| && Overlaps(segs[i], d.start, d.end)
        ensures d.start <= segs[i].start && segs[i].end <= d.end
      {
        InsideWhenRemoved(segs, d, i);
      }
    }
    if d.bw != 0 && Aligned(segs, d) && BookedThroughout(segs, d) {
      forall t ensures Load(Strip(segs, d), t) + At(d, t) == Load(segs, t) {
        if Covers(d, t) {
          BookedIsTouched(segs, d, t);
        }
      }
    }
  }

  /** A segment that sticks out of the window goes with all of its bandwidth. */
  lemma SplitNeeded(bw: nat)
    requires 0 < bw < U64
    ensures var segs, d := [Seg(0, 10, bw, {}, null)], Seg(0, 5, bw, {}, null);
      Sorted(segs) && Proper(d) && !RemovedExactly(segs, d)
  {
    var segs, d := [Seg(0, 10, bw, {}, null)], Seg(0, 5, bw, {}, null);
    assert segs[0].end == 10 && Overlaps(segs[0], d.start, d.end);
    RemovedExactlyWhen(segs, d);
  }

  lemma BookedIsTouched(segs: seq<Seg>, d: Seg, t: int)
    requires Covers(d, t) && 0 < Load(segs, t)
    ensures Touched(segs, d, t)
  {
    if !Covered(segs, t) {
      LoadUncovered(segs, t);
    }
    var i :| 0 <= i < |segs| && Covers(segs[i], t);
    assert Overlaps(segs[i], d.start, d.end);
  }

  lemma LoweredInside(segs: seq<Seg>, d: Seg, i: nat, t: int)
    requires Sorted(segs) && Proper(d) && d.bw != 0 && RemovedExactly(segs, d)
    requires i < |segs| && Overlaps(segs[i], d.start, d.end) && Covers(segs[i], t) && segs[i].bw > 0
    ensures Covers(d, t)
  {
    assert Load(Strip(segs, d), t) + At(d, t) == Load(segs, t);
    assert Touched(segs, d, t);
    LoadCovered(segs, i, t);
    StripLoad(segs, d, t);
  }

  lemma InsideWhenRemoved(segs: seq<Seg>, d: Seg, i: nat)
    requires Sorted(segs) && Proper(d) && d.bw != 0 && RemovedExactly(segs, d)
    requires i < |segs| && Overlaps(segs[i], d.start, d.end)
    ensures d.start <= segs[i].start && segs[i].end <= d.end
  {
    var a := segs[i];
    // an instant of the segment inside the window of `d`: the segment carries bandwidth there
    var inside := if d.start < a.start then a.start else d.start;
    LoadCovered(segs, i, inside);
    assert Load(Strip(segs, d), inside) + At(d, inside) == Load(segs, inside);
    // an instant of the segment outside: it would be lowered too
    forall t | Covers(a, t) ensures Covers(d, t) {
      LoweredInside(segs, d, i, t);
    }
    assert Covers(a, a.start) && Covers(a, a.end - 1);
  }
}
