/** Links, and the link deltas that reservations put on them.

A delta carries its schedule (start, end, 32-bit duration), a 64-bit bandwidth and VLAN tags.
The source's assertions are preconditions here, so every call is proved not to trip them.
*/
module Reservation {
  import opened Segments

  const U32: nat := 0x1_0000_0000
  const PRIORITIES: nat := 8

  /** What a delta asks of its link. */
  datatype Claim = Claim(bw: nat, tags: set<nat>)

  /** The reservation state of a link, as a value. */
  datatype LinkState = LinkState(unreserved: seq<nat>, available: set<nat>, held: set<nat>)

  function Give(x: nat, bw: nat, max: nat): nat {
    if (x + bw) % U64 > max then max else (x + bw) % U64
  }

  function Taken(s: LinkState, c: Claim): LinkState {
    LinkState(seq(|s.unreserved|, i requires 0 <= i < |s.unreserved| => Minus(s.unreserved[i], c.bw)),
              s.available - c.tags, s.held + c.tags)
  }

  function Returned(s: LinkState, c: Claim, max: nat): LinkState {
    LinkState(seq(|s.unreserved|, i requires 0 <= i < |s.unreserved| => Give(s.unreserved[i], c.bw, max)),
              s.available + c.tags, s.held - c.tags)
  }

  class Link {
    const maxReservable: nat
    const unreserved: array<nat>
    var availableVlanTags: set<nat>
    var assignedVlanTags: set<nat>

    constructor (maxReservable: nat, available: set<nat>)
      ensures this.maxReservable == maxReservable && fresh(unreserved) && unreserved.Length == PRIORITIES
      ensures State() == LinkState(seq(PRIORITIES, _ => maxReservable), available, {})
    {
      this.maxReservable := maxReservable;
      unreserved := new nat[PRIORITIES](_ => maxReservable);
      availableVlanTags := available;
      assignedVlanTags := {};
    }

    ghost function State(): LinkState
      reads this, unreserved
    {
      LinkState(unreserved[..], availableVlanTags, assignedVlanTags)
    }
  }

  // The duration field the setters store: the window length in 32 bits.
  function Duration32(start: int, end: int): nat {
    (end - start) % U32
  }

  // The assertion of the schedule constructor that every Clone goes through.
  predicate ScheduleOk(start: int, end: int, duration: nat) {
    0 < duration <= end - start
  }

  /** A window that a setter left behind can be cloned exactly when its length is positive and not
      a multiple of 2^32 seconds; in particular every proper window shorter than that can. */
  lemma CloneableWhen(start: int, end: int)
    requires start <= end
    ensures ScheduleOk(start, end, Duration32(start, end)) <==> (end - start) % U32 != 0
    ensures start < end && end - start < U32 ==> ScheduleOk(start, end, Duration32(start, end))
    ensures !ScheduleOk(0, U32, Duration32(0, U32))
  {
    var n := end - start;
    assert n == n / U32 * U32 + n % U32;
  }

  class TLinkDelta {
    var startTime: int
    var endTime: int
    var duration: nat
    var bandwidth: nat
    var vlanTags: set<nat>
    var applied: bool
    const target: Link?

    constructor (start: int, end: int, duration: nat, bandwidth: nat, vlanTags: set<nat>, target: Link?)
      requires ScheduleOk(start, end, duration)
      ensures startTime == start && endTime == end && this.duration == duration
      ensures this.bandwidth == bandwidth && this.vlanTags == vlanTags && this.target == target && !applied
    {
      startTime, endTime, this.duration := start, end, duration;
      this.bandwidth, this.vlanTags, this.target := bandwidth, vlanTags, target;
      applied := false;
    }

    /** The delta as a segment. */
    ghost function Value(): Seg
      reads this
    {
      Seg(startTime, endTime, bandwidth, vlanTags, target)
    }

    ghost function Asks(): Claim
      reads this
    {
      Claim(bandwidth, vlanTags)
    }

    // A delta whose window is proper and short enough for every piece of it to be cloned.
    ghost predicate Valid()
      reads this
    {
      Proper(Value()) && endTime - startTime < U32 && ScheduleOk(startTime, endTime, duration)
    }

    method Clone() returns (d: TLinkDelta)
      requires ScheduleOk(startTime, endTime, duration)
      ensures fresh(d) && d.Value() == Value() && d.duration == duration
      ensures d.vlanTags == vlanTags && d.target == target && !d.applied
    {
      d := new TLinkDelta(startTime, endTime, duration, bandwidth, vlanTags, target);
    }

    method SetStartTime(t: int)
      requires t <= endTime
      modifies this`startTime, this`duration
      ensures startTime == t && duration == Duration32(t, endTime)
    {
      startTime := t;
      duration := (endTime - t) % U32;
    }

    method SetEndTime(t: int)
      requires startTime <= t
      modifies this`endTime, this`duration
      ensures endTime == t && duration == Duration32(startTime, t)
    {
      endTime := t;
      duration := (t - startTime) % U32;
    }

    method Combine(d: TLinkDelta)
      modifies this`bandwidth, this`vlanTags
      ensures bandwidth == Meet(Mode.Combine, old(bandwidth), old(d.bandwidth))
      ensures vlanTags == old(vlanTags) + old(d.vlanTags)
    {
      bandwidth := (bandwidth + d.bandwidth) % U64;
      vlanTags := vlanTags + d.vlanTags;
    }

    method Join(d: TLinkDelta)
      modifies this`bandwidth, this`vlanTags
      ensures bandwidth == Meet(Mode.Join, old(bandwidth), old(d.bandwidth))
      ensures vlanTags == old(vlanTags) + old(d.vlanTags)
    {
      if bandwidth < d.bandwidth {
        bandwidth := d.bandwidth;
      }
      vlanTags := vlanTags + d.vlanTags;
    }

    method Decombine(d: TLinkDelta)
      modifies this`bandwidth, this`vlanTags
      ensures bandwidth == Minus(old(bandwidth), old(d.bandwidth))
      ensures vlanTags == old(vlanTags) - old(d.vlanTags)
    {
      if bandwidth > d.bandwidth {
        bandwidth := bandwidth - d.bandwidth;
      } else {
        bandwidth := 0;
      }
      vlanTags := vlanTags - d.vlanTags;
    }

    /** Book the delta on its link, once. */
    method Apply()
      requires target != null ==> target.unreserved.Length == PRIORITIES
      modifies this`applied, target, if target == null then {} else {target.unreserved}
      ensures applied == (old(applied) || target != null)
      ensures target != null ==>
        target.State() == if old(applied) then old(target.State()) else Taken(old(target.State()), Asks())
    {
      if target == null || applied {
        return;
      }
      applied := true;
      ghost var before := target.State();
      for i := 0 to PRIORITIES
        invariant applied && target.availableVlanTags == before.available && target.assignedVlanTags == before.held
        invariant forall k :: 0 <= k < i ==> target.unreserved[k] == Minus(before.unreserved[k], bandwidth)
        invariant forall k :: i <= k < PRIORITIES ==> target.unreserved[k] == before.unreserved[k]
      {
        if target.unreserved[i] > bandwidth {
          target.unreserved[i] := target.unreserved[i] - bandwidth;
        } else {
          target.unreserved[i] := 0;
        }
      }
      target.availableVlanTags := target.availableVlanTags - vlanTags;
      target.assignedVlanTags := target.assignedVlanTags + vlanTags;
    }

    /** Take the delta off its link, if it is on it. */
    method Revoke()
      requires target != null ==> target.unreserved.Length == PRIORITIES
      modifies this`applied, target, if target == null then {} else {target.unreserved}
      ensures applied == (old(applied) && target == null)
      ensures target != null ==>
        target.State() == if old(applied) then Returned(old(target.State()), Asks(), target.maxReservable)
                          else old(target.State())
    {
      if target == null || !applied {
        return;
      }
      applied := false;
      ghost var before := target.State();
      for i := 0 to PRIORITIES
        invariant !applied && target.availableVlanTags == before.available && target.assignedVlanTags == before.held
        invariant forall k :: 0 <= k < i ==>
          target.unreserved[k] == Give(before.unreserved[k], bandwidth, target.maxReservable)
        invariant forall k :: i <= k < PRIORITIES ==> target.unreserved[k] == before.unreserved[k]
      {
        target.unreserved[i] := (target.unreserved[i] + bandwidth) % U64;
        if target.unreserved[i] > target.maxReservable {
          target.unreserved[i] := target.maxReservable;
        }
      }
      target.availableVlanTags := target.availableVlanTags + vlanTags;
      target.assignedVlanTags := target.assignedVlanTags - vlanTags;
    }
  }

  // ---------------------------------------------------------------- runs on one link

  datatype Event = Apply(which: nat) | Revoke(which: nat)

  /** A link and, for each of its deltas, whether it is applied. */
  datatype Desk = Desk(link: LinkState, applied: seq<bool>)

  /** One call of Apply or Revoke on one of the deltas, as the methods above compute it. */
  function Step(desk: Desk, claims: seq<Claim>, max: nat, e: Event): Desk
    requires |desk.applied| == |claims| && e.which < |claims|
  {
    match e
    case Apply(k) =>
      if desk.applied[k] then desk else Desk(Taken(desk.link, claims[k]), desk.applied[k := true])
    case Revoke(k) =>
      if desk.applied[k] then Desk(Returned(desk.link, claims[k], max), desk.applied[k := false]) else desk
  }

  function Run(desk: Desk, claims: seq<Claim>, max: nat, events: seq<Event>): (end: Desk)
    requires |desk.applied| == |claims| && forall i :: 0 <= i < |events| ==> events[i].which < |claims|
    ensures |end.applied| == |claims|
    decreases |events|
  {
    if events == [] then desk else Run(Step(desk, claims, max, events[0]), claims, max, events[1..])
  }

  function Total(claims: seq<Claim>, on: seq<bool>): nat
    requires |on| == |claims|
  {
    if claims == [] then 0 else (if on[0] then claims[0].bw else 0) + Total(claims[1..], on[1..])
  }

  function Tags(claims: seq<Claim>, on: seq<bool>): set<nat>
    requires |on| == |claims|
  {
    set k, t | 0 <= k < |claims| && on[k] && t in claims[k].tags :: t
  }

  ghost predicate Fits(start: LinkState, claims: seq<Claim>, max: nat) {
    && max < U64
    && Total(claims, seq(|claims|, _ => true)) <= max
    && (forall i, j :: 0 <= i < j < |claims| ==> claims[i].tags !! claims[j].tags)
    && (forall i :: 0 <= i < |claims| ==> claims[i].tags <= start.available && claims[i].tags !! start.held)
  }

  /** The link holds exactly what the applied deltas ask for. */
  ghost predicate Balanced(desk: Desk, start: LinkState, claims: seq<Claim>, max: nat) {
    && |desk.applied| == |claims| && |desk.link.unreserved| == PRIORITIES
    && (forall i :: 0 <= i < PRIORITIES ==> desk.link.unreserved[i] == max - Total(claims, desk.applied))
    && desk.link.available == start.available - Tags(claims, desk.applied)
    && desk.link.held == start.held + Tags(claims, desk.applied)
  }

  lemma {:induction false} TotalSwitch(claims: seq<Claim>, on: seq<bool>, k: nat)
    requires |on| == |claims| && k < |claims| && !on[k]
    ensures Total(claims, on[k := true]) == Total(claims, on) + claims[k].bw
  {
    if k > 0 {
      assert on[k := true][1..] == on[1..][k - 1 := true];
      TotalSwitch(claims[1..], on[1..], k - 1);
    } else {
      assert on[0 := true][1..] == on[1..];
    }
  }

  lemma {:induction false} TotalAtMost(claims: seq<Claim>, on: seq<bool>)
    requires |on| == |claims|
    ensures Total(claims, on) <= Total(claims, seq(|claims|, _ => true))
  {
    if claims != [] {
      var all := seq(|claims|, _ => true);
      assert all[1..] == seq(|claims| - 1, _ => true);
      TotalAtMost(claims[1..], on[1..]);
    }
  }

  lemma StepBalanced(desk: Desk, start: LinkState, claims: seq<Claim>, max: nat, e: Event)
    requires Fits(start, claims, max) && Balanced(desk, start, claims, max) && e.which < |claims|
    ensures Balanced(Step(desk, claims, max, e), start, claims, max)
  {
    var k, on := e.which, desk.applied;
    TotalAtMost(claims, on[k := true]);
    TotalSwitch(claims, on[k := false], k);
    assert on[k := false][k := true] == on[k := true];
    if on[k] {
      assert on[k := true] == on;
      assert Tags(claims, on[k := false]) == Tags(claims, on) - claims[k].tags;
    } else {
      assert on[k := false] == on;
      assert Tags(claims, on[k := true]) == Tags(claims, on) + claims[k].tags;
    }
  }

  lemma {:induction false} TotalNone(claims: seq<Claim>, on: seq<bool>)
    requires |on| == |claims| && forall i :: 0 <= i < |on| ==> !on[i]
    ensures Total(claims, on) == 0
  {
    if claims != [] {
      TotalNone(claims[1..], on[1..]);
    }
  }

  /** A link of which nothing is reserved is balanced with no delta applied. */
  lemma StartBalanced(start: LinkState, claims: seq<Claim>, max: nat)
    requires start.unreserved == seq(PRIORITIES, _ => max)
    ensures Balanced(Desk(start, seq(|claims|, _ => false)), start, claims, max)
  {
    TotalNone(claims, seq(|claims|, _ => false));
  }

  /** Any interleaving of repeated Apply and Revoke calls leaves the link with exactly what the
      deltas now applied ask for. */
  lemma {:induction false} RunBalanced(desk: Desk, start: LinkState, claims: seq<Claim>, max: nat, events: seq<Event>)
    requires Fits(start, claims, max) && Balanced(desk, start, claims, max)
    requires forall i :: 0 <= i < |events| ==> events[i].which < |claims|
    ensures Balanced(Run(desk, claims, max, events), start, claims, max)
    decreases |events|
  {
    if events != [] {
      StepBalanced(desk, start, claims, max, events[0]);
      RunBalanced(Step(desk, claims, max, events[0]), start, claims, max, events[1..]);
    }
  }

  /** Whether the deltas fit or not: no unreserved value ever leaves 0 to the maximum. */
  lemma {:induction false} RunInBounds(desk: Desk, claims: seq<Claim>, max: nat, events: seq<Event>)
    requires |desk.applied| == |claims| && forall i :: 0 <= i < |events| ==> events[i].which < |claims|
    requires forall i :: 0 <= i < |desk.link.unreserved| ==> 0 <= desk.link.unreserved[i] <= max
    ensures var end := Run(desk, claims, max, events);
      && |end.link.unreserved| == |desk.link.unreserved|
      && forall i :: 0 <= i < |end.link.unreserved| ==> 0 <= end.link.unreserved[i] <= max
    decreases |events|
  {
    if events != [] {
      RunInBounds(Step(desk, claims, max, events[0]), claims, max, events[1..]);
    }
  }

  /** A delta that asks for more than is left takes all of it, and gives back what it asked for, up to the
      maximum. */
  lemma OverBooked(desk: Desk, claims: seq<Claim>, max: nat, k: nat, i: nat)
    requires |desk.applied| == |claims| && k < |claims| && !desk.applied[k] && i < |desk.link.unreserved|
    requires desk.link.unreserved[i] < claims[k].bw <= max < U64
    ensures var took := Step(desk, claims, max, Apply(k));
      && took.link.unreserved[i] == 0
      && Step(took, claims, max, Revoke(k)).link.unreserved[i] == claims[k].bw
  {
  }
}
