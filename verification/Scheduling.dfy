/** The aggregate delta series of a resource and the bandwidth availability graph drawn from it.

The series is a list of delta objects that AddDelta splits, trims and re-joins in place. Its
methods are proved to compute Overlay and Strip of module Segments on the segments the objects
stand for; modules Segments and Bookings say what that means for the load.
*/
module Scheduling {
  import opened Segments
  import opened Reservation
  import opened Bookings
  import opened Lists

  /** The segments a list of deltas stands for, in order. */
  ghost function Values(ds: seq<TLinkDelta>): (vs: seq<Seg>)
    reads ds
    ensures |vs| == |ds| && forall i :: 0 <= i < |ds| ==> vs[i] == ds[i].Value()
  {
    seq(|ds|, i requires 0 <= i < |ds| reads ds => ds[i].Value())
  }

  lemma ValuesConcat(a: seq<TLinkDelta>, b: seq<TLinkDelta>)
    ensures Values(a + b) == Values(a) + Values(b)
  {
  }

  lemma {:induction false} WithoutOne(front: seq<TLinkDelta>, d: TLinkDelta, tail: seq<TLinkDelta>)
    requires d !in front && d !in tail
    ensures Without(front + [d] + tail, d) == front + tail
  {
    if front != [] {
      assert (front + [d] + tail)[1..] == front[1..] + [d] + tail;
      WithoutOne(front[1..], d, tail);
      assert front == [front[0]] + front[1..];
    } else {
      assert (front + [d] + tail)[1..] == tail;
    }
  }

  ghost predicate AllValid(ds: seq<TLinkDelta>)
    reads ds
  {
    forall x :: x in ds ==> x.Valid()
  }

  lemma Regroup<T>(a: seq<T>, b: seq<T>, c: seq<T>, d: seq<T>, e: seq<T>)
    ensures a + b + c + d + e == a + (b + c + d) + e
  {
  }

  // Cutting `a` against `d` may be done in two halves, meeting where both have started.
  lemma CutInTwo(a: Seg, d: Seg, a2: Seg, d2: Seg, mode: Mode)
    requires Overlaps(a, d.start, d.end)
    requires a2 == a.(start := d2.start) && d2 == d.(start := if a.start > d.start then a.start else d.start)
    ensures Cut(a, d, mode) == Head(a, d) + [Middle(a2, d2, mode)] + Tail(a2, d2)
  {
  }

  lemma FrontStarts(front: seq<TLinkDelta>, cut: int)
    requires AllValid(front) && AllTo(Values(front), cut)
    ensures forall x :: x in front ==> x.startTime < cut
  {
    forall x | x in front ensures x.startTime < cut {
      var i :| 0 <= i < |front| && front[i] == x;
      assert Values(front)[i].end <= cut;
    }
  }

  lemma TailIs<T>(s: seq<T>, i: nat)
    requires i < |s|
    ensures s[i..][0] == s[i] && s[i..][1..] == s[i + 1..]
  {
  }

  // The first delta of a series ends before the next starts, and is none of the others.
  lemma FirstApart(rest: seq<TLinkDelta>)
    requires Sorted(Values(rest)) && rest != []
    ensures rest[0] !in rest[1..] && (|rest| > 1 ==> rest[0].endTime <= rest[1].startTime)
  {
    var vs := Values(rest);
    forall i | 0 < i < |rest| ensures rest[i] != rest[0] {
      assert Proper(vs[0]) && vs[0].end <= vs[i].start;
    }
    assert |rest| > 1 ==> vs[0].end <= vs[1].start;
  }

  lemma SortedTail(vs: seq<Seg>)
    requires Sorted(vs) && vs != []
    ensures Sorted(vs[1..])
  {
  }

  lemma RestProper(rest: seq<TLinkDelta>)
    requires Sorted(Values(rest))
    ensures rest != [] ==> Proper(Values(rest)[0])
  {
  }

  // Of the first `i` deltas those from `lo` to `hi` meet the window.
  ghost predicate Window(vs: seq<Seg>, lo: nat, hi: nat, i: nat, start: int, end: int) {
    && lo <= hi <= i <= |vs|
    && (forall k :: 0 <= k < lo ==> vs[k].end <= start)
    && (forall k :: lo <= k < hi ==> Overlaps(vs[k], start, end))
    && (forall k :: hi <= k < i ==> end <= vs[k].start)
  }

  lemma WindowStart(vs: seq<Seg>, start: int, end: int)
    ensures Window(vs, 0, 0, 0, start, end)
  {
  }

  lemma WindowNext(vs: seq<Seg>, lo: nat, hi: nat, i: nat, start: int, end: int)
    requires Sorted(vs) && start < end && i < |vs| && Window(vs, lo, hi, i, start, end)
    ensures var touches := (vs[i].start >= start && vs[i].start < end) || (vs[i].end > start && vs[i].end <= end)
                           || (vs[i].start <= start && vs[i].end >= end);
      if touches then hi == i && Window(vs, lo, i + 1, i + 1, start, end)
      else if vs[i].end <= start then lo == hi && Window(vs, i + 1, i + 1, i + 1, start, end)
      else Window(vs, lo, hi, i + 1, start, end)
  {
    assert Proper(vs[i]);
    assert lo < hi ==> Overlaps(vs[lo], start, end) && vs[lo].end <= vs[i].start;
    assert hi < i ==> end <= vs[hi].start && Proper(vs[hi]) && vs[hi].end <= vs[i].start;
  }

  lemma WindowEnd(vs: seq<Seg>, lo: nat, hi: nat, start: int, end: int)
    requires Window(vs, lo, hi, |vs|, start, end)
    ensures lo <= hi <= |vs| && forall i :: 0 <= i < |vs| ==>
      if i < lo then vs[i].end <= start else if i < hi then Overlaps(vs[i], start, end) else end <= vs[i].start
  {
  }

  // The window of a delta of the series meets no other.
  lemma WindowAlone(vs: seq<Seg>, k: nat, lo: nat, hi: nat)
    requires Sorted(vs) && k < |vs| && Window(vs, lo, hi, |vs|, vs[k].start, vs[k].end)
    ensures lo == k && hi == k + 1
  {
    assert Proper(vs[k]) && lo <= k < hi;
    var a, b := lo, hi - 1;
    assert a == k || vs[a].end <= vs[k].start;
    assert b == k || vs[k].end <= vs[b].start;
    assert Overlaps(vs[a], vs[k].start, vs[k].end) && Overlaps(vs[b], vs[k].start, vs[k].end);
  }

  /** `joined` has the window and the target of the first segment that meets the window, and the tags of all
      that do. */
  ghost predicate IsJoined(vs: seq<Seg>, start: int, end: int, joined: Seg) {
    && (exists i :: 0 <= i < |vs| && FirstMet(vs, start, end, i)
                    && joined.start == vs[i].start && joined.end == vs[i].end && joined.target == vs[i].target)
    && (forall x :: x in joined.tags <==> TagMet(vs, start, end, x))
  }

  ghost predicate FirstMet(vs: seq<Seg>, start: int, end: int, i: nat)
    requires i < |vs|
  {
    Overlaps(vs[i], start, end) && forall j :: 0 <= j < i ==> !Overlaps(vs[j], start, end)
  }

  /** `d` taken off the segments it touches: their bandwidth falls by that of `d`, and they lose its tags; what
      has no bandwidth left is no longer booked. */
  ghost predicate Stripped(vs: seq<Seg>, d: Seg, after: seq<Seg>) {
    forall t ::
      && Load(after, t) == (if Touched(vs, d, t) then Minus(Load(vs, t), d.bw) else Load(vs, t))
      && (Covered(after, t) <==> Covered(vs, t) && (Touched(vs, d, t) ==> Load(vs, t) > d.bw))
      && TagsAt(after, t) ==
         if !Touched(vs, d, t) then TagsAt(vs, t) else if Load(vs, t) > d.bw then TagsAt(vs, t) - d.tags else {}
  }

  lemma IsStripped(vs: seq<Seg>, d: Seg)
    requires Sorted(vs)
    ensures Stripped(vs, d, Strip(vs, d))
  {
    hide Strip, Touched, Load, Covered, TagsAt;
    forall t
      ensures Load(Strip(vs, d), t) == if Touched(vs, d, t) then Minus(Load(vs, t), d.bw) else Load(vs, t)
      ensures Covered(Strip(vs, d), t) <==> Covered(vs, t) && (Touched(vs, d, t) ==> Load(vs, t) > d.bw)
      ensures TagsAt(Strip(vs, d), t) ==
        if !Touched(vs, d, t) then TagsAt(vs, t) else if Load(vs, t) > d.bw then TagsAt(vs, t) - d.tags else {}
    {
      StripLoad(vs, d, t);
      StripCovered(vs, d, t);
      StripTags(vs, d, t);
    }
  }

  ghost predicate TagMet(vs: seq<Seg>, start: int, end: int, x: nat) {
    exists i :: 0 <= i < |vs| && Overlaps(vs[i], start, end) && x in vs[i].tags
  }

  lemma JoinedFirst(vs: seq<Seg>, v: Seg, start: int, end: int, joined: Seg)
    requires !Meets(vs, start, end) && Overlaps(v, start, end) && joined == v
    ensures IsJoined(vs + [v], start, end, joined)
  {
    var all := vs + [v];
    assert all[|vs|] == v && FirstMet(all, start, end, |vs|);
  }

  lemma JoinedMore(vs: seq<Seg>, v: Seg, start: int, end: int, joined: Seg, more: Seg)
    requires IsJoined(vs, start, end, joined)
    requires more == if Overlaps(v, start, end) then joined.(tags := joined.tags + v.tags, bw := more.bw) else joined
    ensures IsJoined(vs + [v], start, end, more)
  {
    var all := vs + [v];
    var i :| 0 <= i < |vs| && FirstMet(vs, start, end, i)
             && joined.start == vs[i].start && joined.end == vs[i].end && joined.target == vs[i].target;
    assert FirstMet(all, start, end, i);
    forall x
      ensures TagMet(all, start, end, x) <==> TagMet(vs, start, end, x) || (Overlaps(v, start, end) && x in v.tags)
    {
      assert all[|vs|] == v;
      if TagMet(vs, start, end, x) {
        var j :| 0 <= j < |vs| && Overlaps(vs[j], start, end) && x in vs[j].tags;
        assert all[j] == vs[j];
      }
    }
  }

  class AggregateDeltaSeries {
    var ADS: seq<TLinkDelta>

    constructor ()
      ensures ADS == []
    {
      ADS := [];
    }

    ghost predicate Valid()
      reads this, ADS
    {
      && Sorted(Values(ADS))
      && forall x :: x in ADS ==> x.Valid()
    }

    lemma Distinct()
      requires Valid()
      ensures forall i, j :: 0 <= i < j < |ADS| ==> ADS[i] != ADS[j]
    {
      forall i, j | 0 <= i < j < |ADS| ensures ADS[i] != ADS[j] {
        assert Proper(Values(ADS)[i]) && Values(ADS)[i].end <= Values(ADS)[j].start;
      }
    }

    // The two parts of the series before and from number `k`.
    lemma SplitAt(k: nat)
      requires Valid() && k <= |ADS|
      ensures ADS == ADS[..k] + ADS[k..] && Values(ADS) == Values(ADS)[..k] + Values(ADS)[k..]
      ensures Values(ADS[..k]) == Values(ADS)[..k] && Values(ADS[k..]) == Values(ADS)[k..]
      ensures AllValid(ADS[..k]) && AllValid(ADS[k..]) && Sorted(Values(ADS[k..]))
      ensures forall x :: x in ADS[..k] ==> x !in ADS[k..]
    {
      Distinct();
    }

    // The deltas of a stretch that overlaps the window, and of no other, are those that overlap it.
    lemma WindowIs(lo: nat, hi: nat, start: int, end: int)
      requires lo <= hi <= |ADS| && start < end
      requires forall i :: 0 <= i < lo ==> ADS[i].endTime <= start
      requires forall i :: lo <= i < hi ==> Overlaps(ADS[i].Value(), start, end)
      requires forall i :: hi <= i < |ADS| ==> end <= ADS[i].startTime
      ensures forall i :: 0 <= i < |ADS| ==> (ADS[i] in ADS[lo..hi] <==> Overlaps(ADS[i].Value(), start, end))
    {
    }

    /** The deltas that meet the window, in order: the stretch lo..hi of the list. */
    method GetADSInWindow(start: int, end: int) returns (deltaList: seq<TLinkDelta>, ghost lo: nat, ghost hi: nat)
      requires Valid() && start < end
      ensures forall i :: 0 <= i < |ADS| ==> (ADS[i] in deltaList <==> Overlaps(ADS[i].Value(), start, end))
      ensures lo <= hi <= |ADS| && deltaList == ADS[lo..hi]
      ensures forall i :: 0 <= i < lo ==> ADS[i].endTime <= start
      ensures forall i :: lo <= i < hi ==> Overlaps(ADS[i].Value(), start, end)
      ensures forall i :: hi <= i < |ADS| ==> end <= ADS[i].startTime
    {
      hide Window, Overlaps, Sorted;
      deltaList := [];
      lo, hi := 0, 0;
      ghost var vs := Values(ADS);
      WindowStart(vs, start, end);
      for i := 0 to |ADS|
        invariant lo <= hi <= i && deltaList == ADS[lo..hi]
        invariant Window(vs, lo, hi, i, start, end)
      {
        var delta := ADS[i];
        WindowNext(vs, lo, hi, i, start, end);
        assert vs[i] == delta.Value();
        if (delta.startTime >= start && delta.startTime < end)
           || (delta.endTime > start && delta.endTime <= end)
           || (delta.startTime <= start && delta.endTime >= end) {
          assert ADS[lo..i + 1] == ADS[lo..i] + [delta];
          deltaList := deltaList + [delta];
          hi := i + 1;
        } else if delta.endTime <= start {
          lo, hi := i + 1, i + 1;
        }
      }
      WindowEnd(vs, lo, hi, start, end);
      WindowIs(lo, hi, start, end);
    }

    /** Put a delta before the first one that starts at or after its end. Every list splits
        uniquely into the deltas in front of that place and those behind it. */
    method Insert(delta: TLinkDelta, ghost front: seq<TLinkDelta>, ghost back: seq<TLinkDelta>)
      requires ADS == front + back
      requires forall x :: x in front ==> x.startTime < delta.endTime
      requires back != [] ==> delta.endTime <= back[0].startTime
      modifies this`ADS
      ensures ADS == front + [delta] + back
    {
      var itd := 0;
      while itd < |ADS|
        invariant itd <= |front|
      {
        assert itd < |front| ==> ADS[itd] in front;
        if ADS[itd].startTime >= delta.endTime {
          break;
        }
        assert itd < |front|;
        itd := itd + 1;
      }
      assert itd == |front|;
      ADS := ADS[..itd] + [delta] + ADS[itd..];
    }

    /** The deltas of the window joined into one: absent when none meets the window, otherwise a
        new delta whose bandwidth is the peak of the load over the window. */
    method JoinADSInWindow(start: int, end: int) returns (deltaA: TLinkDelta?)
      requires Valid() && start < end
      ensures deltaA == null <==> !Meets(Values(ADS), start, end)
      ensures deltaA != null ==> fresh(deltaA) && IsPeak(Values(ADS), start, end, deltaA.bandwidth)
      ensures deltaA != null ==> IsJoined(Values(ADS), start, end, deltaA.Value())
    {
      hide IsJoined;
      deltaA := null;
      ghost var vs := Values(ADS);
      for i := 0 to |ADS|
        invariant ADS == old(ADS)
        invariant forall x :: x in ADS ==> unchanged(x)
        invariant deltaA == null <==> !Meets(vs[..i], start, end)
        invariant deltaA != null ==> fresh(deltaA) && IsLargest(vs[..i], start, end, deltaA.bandwidth)
        invariant deltaA != null ==> IsJoined(vs[..i], start, end, deltaA.Value())
      {
        var delta := ADS[i];
        assert Proper(vs[i]) && vs[i] == delta.Value();
        assert vs[..i + 1] == vs[..i] + [vs[i]];
        ghost var was := if deltaA == null then vs[i] else deltaA.Value();
        if (delta.startTime >= start && delta.startTime < end)
           || (delta.endTime > start && delta.endTime <= end)
           || (delta.startTime <= start && delta.endTime >= end) {
          if deltaA == null {
            assert delta in ADS;
            deltaA := delta.Clone();
            JoinedFirst(vs[..i], vs[i], start, end, was);
          } else {
            deltaA.Join(delta);
            JoinedMore(vs[..i], vs[i], start, end, was, deltaA.Value());
          }
        } else if deltaA != null {
          JoinedMore(vs[..i], vs[i], start, end, was, was);
        }
      }
      assert vs[..|ADS|] == vs;
      if deltaA != null {
        LargestIsPeak(vs, start, end, deltaA.bandwidth);
      }
    }

    // AddDelta under way: `front` is done with, `rest` is untouched, `delta` is still to be added.
    ghost predicate Ready(front: seq<TLinkDelta>, rest: seq<TLinkDelta>, delta: TLinkDelta)
      reads this, front, rest, delta
    {
      && ADS == front + rest && delta !in front && delta !in rest
      && (forall x :: x in front ==> x !in rest)
      && AllValid(front) && AllTo(Values(front), delta.startTime)
      && AllValid(rest) && Sorted(Values(rest))
    }

    // The delta ends at `time`; a new one has the rest of it.
    method SplitDelta(delta: TLinkDelta, time: int) returns (later: TLinkDelta)
      requires delta.Valid() && delta.startTime < time < delta.endTime
      modifies delta
      ensures fresh(later) && later.Valid() && later.Value() == old(delta.Value()).(start := time)
      ensures delta.Valid() && delta.Value() == old(delta.Value()).(end := time)
    {
      later := delta.Clone();
      delta.SetEndTime(time);
      later.SetStartTime(time);
    }

    // A new delta that ends at `time`.
    method CloneUntil(delta: TLinkDelta, time: int) returns (earlier: TLinkDelta)
      requires delta.Valid() && delta.startTime < time < delta.endTime
      ensures fresh(earlier) && earlier.Valid() && earlier.Value() == delta.Value().(end := time)
    {
      earlier := delta.Clone();
      earlier.SetEndTime(time);
    }

    /** First half of a step of AddDelta: split whichever of `deltaA1` and `delta` starts first, so
        that the returned delta starts together with `delta`. */
    method AlignStart(delta: TLinkDelta, deltaA1: TLinkDelta, ghost front: seq<TLinkDelta>, ghost tail: seq<TLinkDelta>)
      returns (deltaA2: TLinkDelta, ghost head: seq<TLinkDelta>)
      requires ADS == front + [deltaA1] + tail && delta != deltaA1
      requires delta.Valid() && deltaA1.Valid() && Overlaps(deltaA1.Value(), delta.startTime, delta.endTime)
      requires forall x :: x in front ==> x.startTime < deltaA1.startTime && x.startTime < delta.startTime
      requires tail != [] ==> deltaA1.endTime <= tail[0].startTime
      modifies this`ADS, delta, deltaA1
      ensures ADS == front + head + [deltaA2] + tail
      ensures Values(head) == Head(old(deltaA1.Value()), old(delta.Value())) && AllValid(head)
      ensures forall x :: x in front + head ==> x.startTime < delta.startTime
      ensures tail != [] ==> deltaA2.endTime <= tail[0].startTime
      ensures forall x :: x in head ==> x == deltaA1 || fresh(x)
      ensures delta.Valid() && delta.Value() == old(delta.Value()).(start := delta.startTime)
      ensures delta.startTime ==
        if old(deltaA1.startTime) > old(delta.startTime) then old(deltaA1.startTime) else old(delta.startTime)
      ensures deltaA2.Valid() && deltaA2.Value() == old(deltaA1.Value()).(start := delta.startTime)
      ensures (deltaA2 == deltaA1 || fresh(deltaA2)) && deltaA2 != delta
    {
      if deltaA1.startTime < delta.startTime {
        deltaA2 := SplitDelta(deltaA1, delta.startTime);
        head := [deltaA1];
        assert deltaA1.Valid() && AllValid(head);
        Insert(deltaA2, front + head, tail);
      } else if deltaA1.startTime > delta.startTime {
        deltaA2 := CloneUntil(delta, deltaA1.startTime);
        head := [deltaA2];
        assert deltaA2.Valid() && AllValid(head);
        assert ADS == front + ([deltaA1] + tail);
        Insert(deltaA2, front, [deltaA1] + tail);
        delta.SetStartTime(deltaA1.startTime);
        deltaA2 := deltaA1;
      } else {
        deltaA2 := deltaA1;
        head := [];
        assert front + head == front;
      }
    }

    /** Second half of a step: `deltaA2` starts with `delta`. Cut off what reaches past `delta`,
        meet the two, and either finish with the cut-off end or move `delta` past `deltaA2`. */
    method MeetFrom(delta: TLinkDelta, deltaA2: TLinkDelta, mode: Mode, ghost front: seq<TLinkDelta>,
        ghost tail: seq<TLinkDelta>)
      returns (finished: bool, ghost rem: seq<TLinkDelta>)
      requires ADS == front + [deltaA2] + tail && delta != deltaA2
      requires delta.Valid() && deltaA2.Valid() && delta.startTime == deltaA2.startTime
      requires forall x :: x in front ==> x.startTime < deltaA2.startTime
      requires tail != [] ==> deltaA2.endTime <= tail[0].startTime
      modifies this`ADS, delta, deltaA2
      ensures ADS == front + [deltaA2] + rem + tail
      ensures deltaA2.Valid() && deltaA2.Value() == Middle(old(deltaA2.Value()), old(delta.Value()), mode)
      ensures Values(rem) == Tail(old(deltaA2.Value()), old(delta.Value())) && AllValid(rem)
      ensures forall x :: x in rem ==> fresh(x)
      ensures finished <==> old(deltaA2.endTime) > old(delta.endTime)
      ensures delta.endTime == old(delta.endTime) && delta.bandwidth == old(delta.bandwidth)
      ensures delta.vlanTags == old(delta.vlanTags)
      ensures !finished ==> delta.startTime == deltaA2.endTime == old(deltaA2.endTime)
      ensures !finished && delta.startTime < delta.endTime ==> delta.Valid()
    {
      var deltaA3: TLinkDelta? := null;
      rem := [];
      if deltaA2.endTime > delta.endTime {
        deltaA3 := SplitDelta(deltaA2, delta.endTime);
      } else {
        delta.SetStartTime(deltaA2.endTime);
      }
      match mode {
        case Join => deltaA2.Join(delta);
        case Combine => deltaA2.Combine(delta);
      }
      finished := deltaA3 != null;
      if deltaA3 != null {
        rem := [deltaA3];
        assert deltaA3.Valid() && AllValid(rem);
        Insert(deltaA3, front + [deltaA2], tail);
      } else {
        assert front + [deltaA2] + rem == front + [deltaA2];
      }
    }

    /** One step of AddDelta against a delta in contact: that delta is replaced by what it and
        `delta` book before its end; `delta` keeps what comes after. */
    method Step(delta: TLinkDelta, deltaA1: TLinkDelta, mode: Mode, ghost front: seq<TLinkDelta>,
        ghost tail: seq<TLinkDelta>)
      returns (finished: bool, ghost now: seq<TLinkDelta>)
      requires ADS == front + [deltaA1] + tail && delta != deltaA1
      requires delta.Valid() && deltaA1.Valid() && Overlaps(deltaA1.Value(), delta.startTime, delta.endTime)
      requires forall x :: x in front ==> x.startTime < deltaA1.startTime && x.startTime < delta.startTime
      requires tail != [] ==> deltaA1.endTime <= tail[0].startTime
      modifies this`ADS, delta, deltaA1
      ensures ADS == front + now + tail && AllValid(now)
      ensures Values(now) == Cut(old(deltaA1.Value()), old(delta.Value()), mode)
      ensures forall x :: x in now ==> x == deltaA1 || fresh(x)
      ensures finished <==> old(deltaA1.endTime) > old(delta.endTime)
      ensures delta.endTime == old(delta.endTime) && delta.bandwidth == old(delta.bandwidth)
      ensures delta.vlanTags == old(delta.vlanTags)
      ensures !finished ==> delta.startTime == old(deltaA1.endTime)
      ensures !finished && delta.startTime < delta.endTime ==> delta.Valid()
    {
      ghost var a, d := deltaA1.Value(), delta.Value();
      var deltaA2, head := AlignStart(delta, deltaA1, front, tail);
      ghost var a2, d2 := deltaA2.Value(), delta.Value();
      ghost var rem;
      finished, rem := MeetFrom(delta, deltaA2, mode, front + head, tail);
      now := head + [deltaA2] + rem;
      assert Values(now) == Values(head) + [deltaA2.Value()] + Values(rem) && AllValid(now);
      Regroup(front, head, [deltaA2], rem, tail);
      CutInTwo(a, d, a2, d2, mode);
    }

    /** As Step, for a delta in contact that heads the untouched part of the series. */
    method StepReady(delta: TLinkDelta, deltaA1: TLinkDelta, mode: Mode,
                     ghost front: seq<TLinkDelta>, ghost rest: seq<TLinkDelta>)
      returns (finished: bool, ghost now: seq<TLinkDelta>)
      requires Ready(front, rest, delta) && delta.Valid() && rest != [] && rest[0] == deltaA1
      requires Overlaps(deltaA1.Value(), delta.startTime, delta.endTime)
      requires AllTo(Values(front), deltaA1.startTime)
      modifies this`ADS, delta, deltaA1
      ensures ADS == front + now + rest[1..] && AllValid(ADS)
      ensures Values(front + now) == old(Values(front)) + Cut(old(deltaA1.Value()), old(delta.Value()), mode)
      ensures Values(rest[1..]) == old(Values(rest))[1..]
      ensures forall x :: x in now ==> x == deltaA1 || fresh(x)
      ensures finished <==> old(deltaA1.endTime) > old(delta.endTime)
      ensures delta.endTime == old(delta.endTime) && delta.bandwidth == old(delta.bandwidth)
      ensures delta.vlanTags == old(delta.vlanTags)
      ensures !finished ==> delta.startTime == old(deltaA1.endTime) && Ready(front + now, rest[1..], delta)
      ensures !finished && delta.startTime < delta.endTime ==> delta.Valid()
    {
      hide Cut, Overlay, Leftover;
      ghost var vs, tail := Values(rest), rest[1..];
      if deltaA1.endTime <= delta.endTime {
        CutEnds(deltaA1.Value(), delta.Value(), mode);
      }
      assert rest == [deltaA1] + tail;
      FirstApart(rest);
      FrontStarts(front, deltaA1.startTime);
      FrontStarts(front, delta.startTime);
      finished, now := Step(delta, deltaA1, mode, front, tail);
    }

    // The state of AddDelta between two steps: `total` is what the series will stand for.
    ghost predicate Underway(front: seq<TLinkDelta>, rest: seq<TLinkDelta>, delta: TLinkDelta, mode: Mode,
        total: seq<Seg>)
      reads this, front, rest, delta
    {
      && Ready(front, rest, delta)
      && (if delta.startTime < delta.endTime then delta.Valid()
          else delta.startTime == delta.endTime && (rest != [] ==> delta.endTime <= rest[0].startTime))
      && (rest != [] ==> AllTo(Values(front), rest[0].startTime) && delta.startTime < rest[0].endTime)
      && total == Values(front) + Leftover(Values(rest), delta.Value(), mode)
    }

    /** The body of the loop of AddDelta. */
    method AddToFirst(delta: TLinkDelta, deltaA1: TLinkDelta, mode: Mode,
                      ghost front: seq<TLinkDelta>, ghost rest: seq<TLinkDelta>, ghost total: seq<Seg>)
      returns (finished: bool, ghost now: seq<TLinkDelta>)
      requires Underway(front, rest, delta, mode, total) && rest != [] && rest[0] == deltaA1
      requires deltaA1.startTime < delta.endTime
      modifies this`ADS, delta, deltaA1
      ensures finished ==> Values(ADS) == total && AllValid(ADS)
      ensures !finished ==> Underway(front + now, rest[1..], delta, mode, total)
      ensures ADS == front + now + rest[1..] && Values(rest[1..]) == old(Values(rest))[1..]
      ensures delta.endTime == old(delta.endTime)
      ensures forall x :: x in now ==> x == deltaA1 || fresh(x)
    {
      ghost var vf, vr, d := Values(front), Values(rest), delta.Value();
      OverlayUnfold(vf, vr, d, mode);
      assert rest[1..] != [] ==> vr[0].end <= vr[1].start;
      finished, now := StepReady(delta, deltaA1, mode, front, rest);
      ValuesConcat(front + now, rest[1..]);
    }

    /** The loop of AddDelta, over the deltas in contact, which head `rest`, and the insertion of
        what is left of `delta`. */
    method AddInContact(delta: TLinkDelta, contactDeltaList: seq<TLinkDelta>, mode: Mode,
                        ghost done: seq<TLinkDelta>, ghost todo: seq<TLinkDelta>, ghost total: seq<Seg>)
      requires Underway(done, todo, delta, mode, total) && contactDeltaList <= todo
      requires forall i :: 0 <= i < |contactDeltaList| ==> contactDeltaList[i].startTime < delta.endTime
      requires forall i :: |contactDeltaList| <= i < |todo| ==> delta.endTime <= todo[i].startTime
      modifies this`ADS, delta, contactDeltaList
      ensures Values(ADS) == total && AllValid(ADS)
      ensures forall x :: x in ADS ==> x in old(ADS) || fresh(x) || x == delta
    {
      hide Underway, Values, AllValid;
      ghost var front, rest, v := done, todo, Values(todo);
      UnderwayIs(front, rest, delta, mode, total);
      assert forall k :: 0 <= k < |todo| ==> todo[k] in ADS;
      var itcd := 0;
      while itcd < |contactDeltaList|
        invariant itcd <= |contactDeltaList| && rest == todo[itcd..] && Values(rest) == v[itcd..]
        invariant Underway(front, rest, delta, mode, total) && delta.endTime == old(delta.endTime)
        invariant forall x :: x in front ==> x in old(ADS) || fresh(x)
      {
        var finished; ghost var now;
        TailIs(todo, itcd);
        TailIs(v, itcd);
        assert contactDeltaList[itcd] == todo[itcd] && rest[0].Value() == v[itcd];
        finished, now := AddToFirst(delta, contactDeltaList[itcd], mode, front, rest, total);
        if finished {
          return;
        }
        front, rest := front + now, rest[1..];
        itcd := itcd + 1;
      }
      UnderwayIs(front, rest, delta, mode, total);
      if itcd < |todo| {
        TailIs(todo, itcd);
        TailIs(v, itcd);
        assert rest[0].Value() == v[itcd];
      }
      if delta.startTime != delta.endTime {
        InsertLeft(delta, mode, front, rest, total);
      }
    }

    lemma UnderwayIs(front: seq<TLinkDelta>, rest: seq<TLinkDelta>, delta: TLinkDelta, mode: Mode, total: seq<Seg>)
      requires Underway(front, rest, delta, mode, total)
      ensures ADS == front + rest && AllValid(ADS)
      ensures if delta.startTime != delta.endTime then delta.Valid() else Values(ADS) == total
    {
      ValuesConcat(front, rest);
    }

    /** What is left of `delta` goes in front of the deltas not in contact. */
    method InsertLeft(delta: TLinkDelta, mode: Mode, ghost front: seq<TLinkDelta>, ghost rest: seq<TLinkDelta>,
                      ghost total: seq<Seg>)
      requires Underway(front, rest, delta, mode, total) && delta.Valid()
      requires rest != [] ==> delta.endTime <= rest[0].startTime
      modifies this`ADS
      ensures ADS == front + [delta] + rest && Values(ADS) == total && AllValid(ADS)
    {
      hide Leftover, Overlay, Sorted, AllTo;
      FrontStarts(front, delta.startTime);
      ghost var vr := Values(rest);
      RestProper(rest);
      LeftoverInGap(vr, delta.Value(), mode);
      Insert(delta, front, rest);
      ValuesConcat(front + [delta], rest);
      ValuesConcat(front, [delta]);
      assert Values([delta]) == [delta.Value()];
      assert Values(front) + ([delta.Value()] + vr) == (Values(front) + [delta.Value()]) + vr;
    }

    lemma BeginsUnderway(delta: TLinkDelta, mode: Mode, lo: nat)
      requires Valid() && delta.Valid() && delta !in ADS && lo <= |ADS|
      requires forall i :: 0 <= i < lo ==> ADS[i].endTime <= delta.startTime
      requires lo < |ADS| ==> delta.startTime < ADS[lo].endTime
      ensures Underway(ADS[..lo], ADS[lo..], delta, mode, Overlay(Values(ADS), delta.Value(), mode))
    {
      var v := Values(ADS);
      SplitAt(lo);
      assert AllTo(v[..lo], delta.startTime);
      OverlaySkips(v[..lo], v[lo..], delta.Value(), mode);
      assert lo < |ADS| ==> AllTo(v[..lo], v[lo].start);
    }

    /** AddDelta on a series that is not empty, with the copy `delta` it works on. */
    method AddCopy(delta: TLinkDelta, mode: Mode)
      requires Valid() && delta.Valid() && delta !in ADS
      modifies this`ADS, ADS, delta
      ensures Values(ADS) == Overlay(old(Values(ADS)), old(delta.Value()), mode) && AllValid(ADS)
      ensures forall x :: x in ADS ==> x in old(ADS) || fresh(x) || x == delta
    {
      hide Overlay, Underway, Leftover;
      ghost var total := Overlay(Values(ADS), delta.Value(), mode);
      var contactDeltaList, lo, hi := GetADSInWindow(delta.startTime, delta.endTime);
      BeginsUnderway(delta, mode, lo);
      AddFrom(delta, contactDeltaList, mode, lo, hi, total);
    }

    // The copy is added to the part of the series it meets, or where that would be.
    method AddFrom(delta: TLinkDelta, contactDeltaList: seq<TLinkDelta>, mode: Mode, ghost lo: nat, ghost hi: nat,
                   ghost total: seq<Seg>)
      requires lo <= hi <= |ADS| && contactDeltaList == ADS[lo..hi] && delta.Valid()
      requires Underway(ADS[..lo], ADS[lo..], delta, mode, total)
      requires forall i :: lo <= i < hi ==> ADS[i].startTime < delta.endTime
      requires forall i :: hi <= i < |ADS| ==> delta.endTime <= ADS[i].startTime
      modifies this`ADS, ADS, delta
      ensures Values(ADS) == total && AllValid(ADS)
      ensures forall x :: x in ADS ==> x in old(ADS) || fresh(x) || x == delta
    {
      hide *;
      if contactDeltaList == [] {
        InsertLeft(delta, mode, ADS[..lo], ADS[lo..], total);
      } else {
        AddInContact(delta, contactDeltaList, mode, ADS[..lo], ADS[lo..], total);
      }
    }

    /** Add a copy of `d` to the series: the series becomes the old one overlaid with `d`. */
    method AddDelta(d: TLinkDelta, mode: Mode)
      requires Valid() && d.Valid()
      modifies this`ADS, ADS
      ensures Valid()
      ensures Values(ADS) == Overlay(old(Values(ADS)), old(d.Value()), mode)
      ensures forall t :: Load(Values(ADS), t) == Spec(mode, old(d.Value()), t, Load(old(Values(ADS)), t))
      ensures forall t ::
        TagsAt(Values(ADS), t) ==
        TagsAt(old(Values(ADS)), t) + if Covers(old(d.Value()), t) then old(d.vlanTags) else {}
      ensures forall x :: x in ADS ==> x in old(ADS) || fresh(x)
    {
      ghost var v, dv := Values(ADS), d.Value();
      OverlaySortedAll(v, dv, mode);
      forall t ensures TagsAt(Overlay(v, dv, mode), t) == TagsAt(v, t) + if Covers(dv, t) then dv.tags else {} {
        OverlayTags(v, dv, mode, t);
      }
      forall t ensures Load(Overlay(v, dv, mode), t) == Spec(mode, dv, t, Load(v, t)) {
        OverlayLoad(v, dv, mode, t);
      }
      var delta := d.Clone();
      if ADS == [] {
        ADS := [delta];
      } else {
        AddCopy(delta, mode);
      }
    }

    /** One step of RemoveDelta: take `delta` off `deltaA`, and drop it when nothing is left of it. */
    method TakeOff(delta: TLinkDelta, deltaA: TLinkDelta, ghost front: seq<TLinkDelta>, ghost rest: seq<TLinkDelta>)
      returns (ghost now: seq<TLinkDelta>)
      requires ADS == front + rest && AllValid(rest)
      requires rest != [] && rest[0] == deltaA && deltaA !in front && deltaA !in rest[1..]
      requires Overlaps(deltaA.Value(), delta.startTime, delta.endTime)
      modifies this`ADS, deltaA
      ensures ADS == (front + now) + rest[1..] && AllValid(now) && forall x :: x in now ==> x == deltaA
      ensures Values(now) == StripOne(old(deltaA.Value()), old(delta.Value()))
      ensures delta != deltaA ==> unchanged(delta)
    {
      assert deltaA in rest;
      deltaA.Decombine(delta);
      now := [deltaA];
      assert rest == now + rest[1..];
      assert front + rest == (front + now) + rest[1..];
      if deltaA.bandwidth == 0 {
        ADS := Without(ADS, deltaA);
        WithoutOne(front, deltaA, rest[1..]);
        now := [];
        assert front + now == front;
      }
    }

    // RemoveDelta under way: `front` is done with, `rest` is untouched.
    ghost predicate Removing(front: seq<TLinkDelta>, rest: seq<TLinkDelta>, d: Seg, total: seq<Seg>)
      reads this, front, rest
    {
      && ADS == front + rest && AllValid(front) && AllValid(rest) && Sorted(Values(rest))
      && (forall x :: x in front ==> x !in rest)
      && total == Values(front) + Strip(Values(rest), d)
    }

    method RemoveFromFirst(delta: TLinkDelta, deltaA: TLinkDelta, ghost front: seq<TLinkDelta>,
        ghost rest: seq<TLinkDelta>, ghost total: seq<Seg>)
      returns (ghost now: seq<TLinkDelta>)
      requires Removing(front, rest, delta.Value(), total) && rest != [] && rest[0] == deltaA
      requires Overlaps(deltaA.Value(), delta.startTime, delta.endTime)
      modifies this`ADS, deltaA
      ensures Removing(front + now, rest[1..], old(delta.Value()), total)
      ensures delta != deltaA ==> unchanged(delta)
      ensures Values(rest[1..]) == old(Values(rest))[1..]
      ensures forall x :: x in now ==> x == deltaA
    {
      ghost var vf, vr := Values(front), Values(rest);
      assert forall i :: 0 < i < |rest| ==> Proper(vr[0]) && vr[0].end <= vr[i].start && rest[i] != deltaA;
      assert deltaA in rest && deltaA !in front && deltaA !in rest[1..];
      hide Strip, StripOne, Sorted;
      StripUnfold(vf, vr, delta.Value());
      SortedTail(vr);
      now := TakeOff(delta, deltaA, front, rest);
      assert Values(front) == vf && Values(rest[1..]) == vr[1..];
      ValuesConcat(front, now);
    }

    lemma BeginsRemoving(lo: nat, d: Seg)
      requires Valid() && lo <= |ADS| && forall i :: 0 <= i < lo ==> !Overlaps(ADS[i].Value(), d.start, d.end)
      ensures Removing(ADS[..lo], ADS[lo..], d, Strip(Values(ADS), d))
    {
      var v := Values(ADS);
      SplitAt(lo);
      StripConcat(v[..lo], v[lo..], d);
      StripMisses(v[..lo], d);
    }

    lemma EndsRemoving(front: seq<TLinkDelta>, rest: seq<TLinkDelta>, d: Seg, total: seq<Seg>)
      requires Removing(front, rest, d, total)
      requires forall i :: 0 <= i < |rest| ==> !Overlaps(rest[i].Value(), d.start, d.end)
      ensures Values(ADS) == total && AllValid(ADS)
    {
      StripMisses(Values(rest), d);
      ValuesConcat(front, rest);
    }

    /** The loop of RemoveDelta. */
    method RemoveInContact(delta: TLinkDelta, contactDeltaList: seq<TLinkDelta>,
                           ghost done: seq<TLinkDelta>, ghost todo: seq<TLinkDelta>, ghost total: seq<Seg>)
      requires Removing(done, todo, delta.Value(), total) && contactDeltaList <= todo
      requires delta !in contactDeltaList || contactDeltaList == [delta]
      requires forall i :: 0 <= i < |contactDeltaList| ==>
        Overlaps(contactDeltaList[i].Value(), delta.startTime, delta.endTime)
      requires forall i :: |contactDeltaList| <= i < |todo| ==>
        !Overlaps(todo[i].Value(), delta.startTime, delta.endTime)
      modifies this`ADS, contactDeltaList
      ensures Values(ADS) == total && AllValid(ADS)
      ensures forall x :: x in ADS ==> x in old(ADS)
    {
      hide Removing, Values, AllValid, Overlaps;
      ghost var front, rest, v, d := done, todo, Values(todo), delta.Value();
      RemovingIs(front, rest, d, total);
      assert forall k :: 0 <= k < |todo| ==> todo[k] in ADS;
      var itcd := 0;
      while itcd < |contactDeltaList|
        invariant itcd <= |contactDeltaList| && rest == todo[itcd..] && Values(rest) == v[itcd..]
        invariant itcd < |contactDeltaList| ==> delta.Value() == d
        invariant Removing(front, rest, d, total)
        invariant forall x :: x in front ==> x in old(ADS)
      {
        ghost var now;
        TailIs(todo, itcd);
        TailIs(v, itcd);
        var deltaA := contactDeltaList[itcd];
        assert deltaA == todo[itcd] && rest[0].Value() == v[itcd];
        now := RemoveFromFirst(delta, deltaA, front, rest, total);
        front, rest := front + now, rest[1..];
        itcd := itcd + 1;
      }
      RemovingIs(front, rest, d, total);
      forall i | 0 <= i < |rest| ensures !Overlaps(rest[i].Value(), d.start, d.end) {
        assert rest[i].Value() == v[itcd + i];
      }
      EndsRemoving(front, rest, d, total);
    }

    lemma RemovingIs(front: seq<TLinkDelta>, rest: seq<TLinkDelta>, d: Seg, total: seq<Seg>)
      requires Removing(front, rest, d, total)
      ensures ADS == front + rest
    {
    }

    // What of the window of `delta` the loop of RemoveDelta wants to know.
    lemma Contacts(delta: TLinkDelta, lo: nat, hi: nat)
      requires Valid() && lo <= hi <= |ADS| && delta.startTime < delta.endTime
      requires forall i :: 0 <= i < lo ==> ADS[i].endTime <= delta.startTime
      requires forall i :: lo <= i < hi ==> Overlaps(ADS[i].Value(), delta.startTime, delta.endTime)
      requires forall i :: hi <= i < |ADS| ==> delta.endTime <= ADS[i].startTime
      ensures forall i :: 0 <= i < lo ==> !Overlaps(ADS[i].Value(), delta.startTime, delta.endTime)
      ensures ADS[lo..hi] <= ADS[lo..]
      ensures forall i :: 0 <= i < hi - lo ==> Overlaps(ADS[lo..hi][i].Value(), delta.startTime, delta.endTime)
      ensures forall i :: hi - lo <= i < |ADS| - lo ==> !Overlaps(ADS[lo..][i].Value(), delta.startTime, delta.endTime)
    {
      var front, back := ADS[lo..hi], ADS[lo..];
      forall i | 0 <= i < hi - lo ensures front[i] == ADS[lo + i] == back[i] {}
      forall i | hi - lo <= i < |ADS| - lo ensures back[i] == ADS[lo + i] {}
    }

    // The delta itself is met alone.
    lemma ContactAlone(delta: TLinkDelta, lo: nat, hi: nat)
      requires Valid() && lo <= hi <= |ADS| && delta.startTime < delta.endTime
      requires forall i :: 0 <= i < lo ==> ADS[i].endTime <= delta.startTime
      requires forall i :: lo <= i < hi ==> Overlaps(ADS[i].Value(), delta.startTime, delta.endTime)
      requires forall i :: hi <= i < |ADS| ==> delta.endTime <= ADS[i].startTime
      ensures delta !in ADS[lo..hi] || ADS[lo..hi] == [delta]
    {
      if delta in ADS {
        var k: nat :| k < |ADS| && ADS[k] == delta;
        WindowAlone(Values(ADS), k, lo, hi);
        assert ADS[k..k + 1] == [delta];
      } else {
        assert forall x :: x in ADS[lo..hi] ==> x in ADS;
      }
    }

    /** Take `delta` off the series: every delta its window meets loses its bandwidth, none is split. */
    method RemoveDelta(delta: TLinkDelta)
      requires Valid() && delta.startTime < delta.endTime
      modifies this`ADS, ADS
      ensures Valid()
      ensures Values(ADS) == Strip(old(Values(ADS)), old(delta.Value()))
      ensures Stripped(old(Values(ADS)), old(delta.Value()), Values(ADS))
      ensures forall x :: x in ADS ==> x in old(ADS)
    {
      hide Strip, Removing, Sorted, Overlaps, Stripped;
      ghost var d, total := delta.Value(), Strip(Values(ADS), delta.Value());
      StripSorted(Values(ADS), d);
      IsStripped(Values(ADS), d);
      var contactDeltaList, lo, hi := GetADSInWindow(delta.startTime, delta.endTime);
      Contacts(delta, lo, hi);
      ContactAlone(delta, lo, hi);
      BeginsRemoving(lo, d);
      RemoveInContact(delta, contactDeltaList, ADS[..lo], ADS[lo..], total);
    }
  }

  lemma DrawStart(w: seq<Seg>, start: int, upto: int, capacity: nat)
    requires upto <= start
    ensures DrawnTo(map[], w, start, upto, capacity)
  {
  }

  // What is known of a delta of the window.
  lemma WindowAt(w: seq<Seg>, i: nat, start: int, end: int)
    requires Sorted(w) && i < |w| && forall k :: 0 <= k < |w| ==> Overlaps(w[k], start, end)
    ensures w[i].start < w[i].end && w[i].start < end
    ensures i + 1 < |w| ==> w[i].end <= w[i + 1].start < end
  {
    assert Proper(w[i]);
    assert i + 1 < |w| ==> Proper(w[i + 1]) && Overlaps(w[i + 1], start, end);
  }

  class BandwidthAvailabilityGraph {
    var TBSF: map<int, nat>

    constructor ()
      ensures TBSF == map[]
    {
      TBSF := map[];
    }

    /** `steps`, what is drawn over the `older` steps, gets one more. */
    method AddStep(t: int, bw: nat, ghost older: map<int, nat>, ghost steps: map<int, nat>)
      requires TBSF == older + steps
      modifies this
      ensures TBSF == old(TBSF)[t := bw] == older + steps[t := bw]
    {
      TBSF := TBSF[t := bw];
    }

    /** Draw the availability over [start, end) of a link of this capacity carrying `ads`, over
        whatever has been drawn before. */
    method LoadADS(ads: AggregateDeltaSeries, start: int, end: int, capacity: nat) returns (ghost steps: map<int, nat>)
      requires ads.Valid() && start < end
      modifies this
      ensures TBSF == old(TBSF) + steps
      ensures IsAvailability(steps, Values(ads.ADS), start, end, capacity)
    {
      ghost var older := TBSF;
      steps := map[];
      assert older + steps == older;
      var deltaList, lo, hi := ads.GetADSInWindow(start, end);
      ghost var v := Values(ads.ADS);
      ghost var w := v[lo..hi];
      WindowLoad(v, lo, hi, start, end);
      if |deltaList| == 0 {
        AddStep(start, capacity, older, steps);
        steps := steps[start := capacity];
        DrawGap(map[], w, 0, start, start, end, capacity);
      } else {
        steps := DrawSteps(deltaList, w, start, end, capacity);
      }
      AddStep(end, 0, older, steps);
      DrawEnd(steps, v, w, start, end, capacity);
      steps := steps[end := 0];
    }

    /** The steps for the deltas that meet the window, up to its end. */
    method DrawSteps(deltaList: seq<TLinkDelta>, ghost w: seq<Seg>, start: int, end: int, capacity: nat)
        returns (ghost steps: map<int, nat>)
      requires w == Values(deltaList) && Sorted(w) && w != []
      requires forall i :: 0 <= i < |w| ==> Overlaps(w[i], start, end)
      modifies this
      ensures TBSF == old(TBSF) + steps && DrawnTo(steps, w, start, end, capacity)
    {
      hide DrawnTo, Sorted, Overlaps;
      ghost var older := TBSF;
      steps := map[];
      assert older + steps == older;
      DrawStart(w, start, if w[0].start > start then start else w[0].start, capacity);
      if deltaList[0].startTime > start {
        AddStep(start, capacity, older, steps);
        DrawGap(steps, w, 0, start, start, w[0].start, capacity);
        steps := steps[start := capacity];
      }
      var i := 0;
      while i < |deltaList|
        invariant 0 <= i <= |deltaList| && w == Values(deltaList) && TBSF == older + steps
        invariant DrawnTo(steps, w, start, if i < |w| then w[i].start else end, capacity)
      {
        WindowAt(w, i, start, end);
        var bw := deltaList[i].bandwidth;
        var left := if capacity > bw then capacity - bw else 0;
        AddStep(deltaList[i].startTime, left, older, steps);
        if deltaList[i].endTime >= end {
          DrawSegment(steps, w, i, start, end, capacity);
          steps := steps[w[i].start := left];
          return;
        }
        DrawSegment(steps, w, i, start, w[i].end, capacity);
        steps := steps[w[i].start := left];
        if i + 1 == |deltaList| || deltaList[i + 1].startTime > deltaList[i].endTime {
          AddStep(deltaList[i].endTime, capacity, older, steps);
          DrawGap(steps, w, i + 1, start, w[i].end, if i + 1 < |w| then w[i + 1].start else end, capacity);
          steps := steps[w[i].end := capacity];
        }
        i := i + 1;
      }
    }
  }
}
