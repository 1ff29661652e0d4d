/** The event loop comes to an end: once no action is created any more and no turn finds a message
missing, every action in the queues is over after a number of turns that the number of actions bounds.
*/
module Progress {
  import opened ActionTree
  import opened ActionLoop
  import opened Lists

  // ---------------------------------------------------------------- what is left to do

  // How many more turns an action may need that get it on.
  function Rank(s: State): nat {
    match s
    case Idle => 3
    case Started => 3
    case WaitingMessages => 2
    case WaitingChildren => 1
    case _ => 0
  }

  function Work(acts: Acts): nat {
    if acts == [] then 0 else Work(acts[..|acts| - 1]) + Rank(acts[|acts| - 1].state)
  }

  /** No action has more left to do than before, and what was scheduled still is. */
  ghost predicate Falls(acts: Acts, after: Acts) {
    RanksFall(acts, after) && forall y :: 0 <= y < |acts| ==> acts[y].scheduled <= after[y].scheduled
  }

  ghost predicate RanksFall(acts: Acts, after: Acts) {
    |after| == |acts| && forall y :: 0 <= y < |acts| ==> Rank(after[y].state) <= Rank(acts[y].state)
  }

  lemma FallsTrans(acts: Acts, acts1: Acts, after: Acts)
    requires Falls(acts, acts1) && Falls(acts1, after)
    ensures Falls(acts, after)
  {
  }

  lemma {:induction false} WorkFalls(acts: Acts, after: Acts, a: nat)
    requires RanksFall(acts, after)
    ensures Work(after) <= Work(acts)
    ensures a < |acts| && Rank(after[a].state) < Rank(acts[a].state) ==> Work(after) < Work(acts)
  {
    if acts != [] {
      WorkFalls(acts[..|acts| - 1], after[..|acts| - 1], a);
    }
  }

  lemma {:induction false} WorkAtMost(acts: Acts)
    ensures Work(acts) <= 3 * |acts|
  {
    if acts != [] {
      WorkAtMost(acts[..|acts| - 1]);
    }
  }

  // ---------------------------------------------------------------- one action's turn

  // The queues and what is scheduled stay, apart from `a` going back to the end of the nice queue.
  ghost predicate Stays(w: World, w': World, a: nat) {
    && |w'.acts| == |w.acts| && w'.priorities == w.priorities && (w'.nices == w.nices || w'.nices == w.nices + [a])
    && forall y :: 0 <= y < |w.acts| ==> w'.acts[y].scheduled == w.acts[y].scheduled
  }

  /** Nothing keeps `a` from getting on: it is not over, and does not wait for children that are not. */
  predicate CanMove(acts: Acts, a: nat)
    requires Tree(acts) && a < |acts|
  {
    !Terminal(acts[a].state) && (acts[a].state.WaitingChildren? ==> KidsOver(acts, a))
  }

  // `a` has got on, or could not and nothing else has changed.
  ghost predicate Turned(w: World, w': World, a: nat)
    requires Tree(w.acts) && a < |w.acts|
  {
    && Falls(w.acts, w'.acts)
    && (Rank(w'.acts[a].state) < Rank(w.acts[a].state) || (!CanMove(w.acts, a) && Stays(w, w', a)))
  }

  lemma CleanFalls(acts: Acts, a: nat, s: State)
    requires InOrder(acts) && a < |acts| && Terminal(s) && (s.Finished? ==> KidsOver(acts, a))
    requires if Terminal(acts[a].state) then s == acts[a].state else !s.Cancelled?
    ensures var after := CleanUp(WithState(acts, a, s), a);
      && Falls(acts, after) && Terminal(after[a].state)
      && forall y :: 0 <= y < |acts| ==> after[y].scheduled == acts[y].scheduled
  {
    hide Tree, NodeOk;
    CleanInOrder(acts, a, s);
    var acts0 := WithState(acts, a, s);
    var after := CleanUp(acts0, a);
    forall y | 0 <= y < |acts|
      ensures Rank(after[y].state) <= Rank(acts[y].state) && after[y].scheduled == acts[y].scheduled
    {
      assert after[y] == acts0[y].(state := after[y].state, repeats := after[y].repeats);
    }
  }

  lemma FailTurned(w: World, a: nat)
    requires Tree(w.acts) && a < |w.acts| && Running(w, a) && !Terminal(w.acts[a].state)
    ensures Falls(w.acts, Fail(w, a).acts) && Rank(Fail(w, a).acts[a].state) == 0
  {
    hide Tree, KidsOver;
    RunningInOrder(w, a);
    CleanFalls(w.acts, a, Failed);
  }

  lemma FinishTurned(w: World, a: nat)
    requires Tree(w.acts) && a < |w.acts| && Running(w, a) && !Terminal(w.acts[a].state) && KidsOver(w.acts, a)
    ensures var w' := Remove(w.(acts := CleanUp(WithState(w.acts, a, Finished), a)), a);
      Falls(w.acts, w'.acts) && Rank(w'.acts[a].state) == 0
  {
    RunningInOrder(w, a);
    CleanSound(w, a, Finished);
    CleanFalls(w.acts, a, Finished);
    RemoveNothing(w.(acts := CleanUp(WithState(w.acts, a, Finished), a)), a);
  }

  lemma WaitTurned(w: World, a: nat, s: State)
    requires Tree(w.acts) && a < |w.acts| && Running(w, a) && !Terminal(w.acts[a].state) && w.acts[a].nice
    requires (s.WaitingMessages? && KidsScheduled(w.acts, a, 0)) || (s.WaitingChildren? && KidsScheduled(w.acts, a, 1))
    requires Rank(s) <= Rank(w.acts[a].state)
    ensures var w' := Wait(w.(acts := WithState(w.acts, a, s)), a);
      Falls(w.acts, w'.acts) && w'.acts[a].state == s && Stays(w, w', a)
  {
    hide Tree, KidsScheduled;
    WaitSound(w, a, s);
    WaitSchedules(w.(acts := WithState(w.acts, a, s)), a);
  }

  lemma OverTurned(w: World, a: nat, ch: Choice)
    requires Tree(w.acts) && a < |w.acts| && Running(w, a) && Terminal(w.acts[a].state)
    ensures Turned(w, RunAction(w, a, ch), a)
  {
    hide Tree, KidsOver;
    var s := w.acts[a].state;
    assert WithState(w.acts, a, s) == w.acts;
    FinishedOver(w.acts, a);
    RunningInOrder(w, a);
    CleanFalls(w.acts, a, s);
    CleanSound(w, a, s);
    RemoveNothing(w.(acts := CleanUp(w.acts, a)), a);
  }

  lemma ChildrenTurned(w: World, a: nat, ch: Choice)
    requires Tree(w.acts) && a < |w.acts| && Running(w, a) && w.acts[a].nice && KidsScheduled(w.acts, a, 1)
    requires !Terminal(w.acts[a].state) && Rank(w.acts[a].state) >= 1
    ensures var w' := RunWaitingChildren(w, a, ch);
      && Falls(w.acts, w'.acts) && Rank(w'.acts[a].state) <= 1
      && (Rank(w'.acts[a].state) == 0 || (!KidsOver(w.acts, a) && Stays(w, w', a)))
  {
    hide Running, KidsScheduled, KidsOver, Tree;
    if ch.throwsKids {
      FailTurned(w, a);
    } else if !KidsOver(w.acts, a) {
      WaitTurned(w, a, WaitingChildren);
    } else {
      FinishTurned(w, a);
    }
  }

  lemma ProceedTurned(w: World, a: nat, throws: bool)
    requires Tree(w.acts) && a < |w.acts| && Running(w, a) && w.acts[a].nice && KidsScheduled(w.acts, a, 0)
    requires w.acts[a].state.Started?
    ensures Falls(w.acts, Proceed(w, a, throws).acts) && Rank(Proceed(w, a, throws).acts[a].state) < 3
  {
    hide Running, KidsScheduled, Tree, Stays;
    if throws {
      FailTurned(w, a);
    } else if w.acts[a].awaiting == 0 {
      if w.acts[a].kids == [] {
        FinishAtOnceTurned(w, a);
      } else {
        KidsUpToNone(w.acts, a);
        ScheduleKidsRunning(w, a, 0);
        var w2 := ScheduleKids(w, a, 0);
        ScheduleKidsMore(w, a, 0);
        OnlyScheduledFalls(w, w2);
        WaitTurned(w2, a, WaitingChildren);
        FallsTrans(w.acts, w2.acts, Proceed(w, a, throws).acts);
      }
    } else {
      WaitTurned(w, a, WaitingMessages);
    }
  }

  lemma FinishAtOnceTurned(w: World, a: nat)
    requires Tree(w.acts) && a < |w.acts| && Running(w, a) && !Terminal(w.acts[a].state)
    ensures var w' := Remove(w.(acts := WithState(w.acts, a, Finished)), a);
      Falls(w.acts, w'.acts) && Rank(w'.acts[a].state) == 0
  {
    RemoveNothing(w.(acts := WithState(w.acts, a, Finished)), a);
  }

  lemma {:induction false} ScheduleKidsMore(w: World, a: nat, k: nat)
    requires Tree(w.acts) && a < |w.acts| && k <= |w.acts[a].kids|
    ensures var w' := ScheduleKids(w, a, k);
      |w'.acts| == |w.acts| && forall y :: 0 <= y < |w.acts| ==> w.acts[y].scheduled <= w'.acts[y].scheduled
    decreases |w.acts[a].kids| - k
  {
    if k < |w.acts[a].kids| {
      ScheduleKidMore(w, w.acts[a].kids[k]);
      hide Tree, ScheduleKid;
      ScheduleKidsMore(ScheduleKid(w, w.acts[a].kids[k]), a, k + 1);
    }
  }

  lemma ScheduleKidMore(w: World, c: nat)
    requires Tree(w.acts) && c < |w.acts|
    ensures var w' := ScheduleKid(w, c);
      |w'.acts| == |w.acts| && forall y :: 0 <= y < |w.acts| ==> w.acts[y].scheduled <= w'.acts[y].scheduled
  {
    hide Tree;
  }

  lemma OnlyScheduledFalls(w: World, w': World)
    requires OnlyScheduled(w, w')
    requires forall y :: 0 <= y < |w.acts| ==> w.acts[y].scheduled <= w'.acts[y].scheduled
    ensures Falls(w.acts, w'.acts)
    ensures forall y :: 0 <= y < |w.acts| ==> w'.acts[y].state == w.acts[y].state && w'.acts[y].nice == w.acts[y].nice
  {
  }

  lemma BeginTurned(w: World, a: nat, ch: Choice)
    requires Tree(w.acts) && a < |w.acts| && w.acts[a].state.Idle? && ch.spawn == []
    ensures Falls(w.acts, Begin(w, a, ch).acts) && Begin(w, a, ch).acts[a].nice == w.acts[a].nice
  {
  }

  /** Unless it is over or its children are not, an action that has its messages gets on. */
  lemma RunTurned(w: World, a: nat, ch: Choice)
    requires Tree(w.acts) && a < |w.acts| && Running(w, a) && !w.acts[a].state.Started? && w.acts[a].nice
    requires w.acts[a].state.Idle? ==> w.acts[a].processed == 0
    requires w.acts[a].state.Idle? || w.acts[a].state.WaitingMessages? ==> KidsScheduled(w.acts, a, 0)
    requires w.acts[a].state.WaitingChildren? ==> KidsScheduled(w.acts, a, 1)
    requires ch.spawn == [] && (w.acts[a].state.WaitingMessages? ==> w.acts[a].awaiting == 0)
    ensures Turned(w, RunAction(w, a, ch), a)
  {
    hide Running, KidsScheduled, Tree, KidsOver, Stays, Begin, Proceed;
    match w.acts[a].state {
      case Idle =>
        BeginOk(w, a, ch);
        BeginTurned(w, a, ch);
        var w1 := Begin(w, a, ch);
        ProceedTurned(w1, a, ch.throws);
        FallsTrans(w.acts, w1.acts, Proceed(w1, a, ch.throws).acts);
      case WaitingMessages =>
        if ch.throws {
          FailTurned(w, a);
        } else {
          KidsUpToNone(w.acts, a);
          ScheduleKidsRunning(w, a, 0);
          var w2 := ScheduleKids(w, a, 0);
          ScheduleKidsMore(w, a, 0);
          OnlyScheduledFalls(w, w2);
          ChildrenTurned(w2, a, ch);
          FallsTrans(w.acts, w2.acts, RunWaitingChildren(w2, a, ch).acts);
        }
      case WaitingChildren => ChildrenTurned(w, a, ch);
      case Finished => OverTurned(w, a, ch);
      case Cancelled => OverTurned(w, a, ch);
      case Failed => OverTurned(w, a, ch);
    }
  }

  // ---------------------------------------------------------------- the last open action

  /** Scheduled, and not over. */
  predicate Open(acts: Acts, x: nat)
    requires x < |acts|
  {
    acts[x].scheduled == 1 && !Terminal(acts[x].state)
  }

  // The open action with the largest number below `n`.
  function LastOpen(acts: Acts, n: nat): (x: Option<nat>)
    requires n <= |acts|
    ensures x.Some? ==> x.value < n && Open(acts, x.value) && forall y :: x.value < y < n ==> !Open(acts, y)
    ensures x.None? ==> forall y :: 0 <= y < n ==> !Open(acts, y)
  {
    if n == 0 then None else if Open(acts, n - 1) then Some(n - 1) else LastOpen(acts, n - 1)
  }

  lemma {:induction false} LastOpenSame(acts: Acts, after: Acts, n: nat)
    requires n <= |acts| == |after| && forall y :: 0 <= y < n ==> (Open(acts, y) <==> Open(after, y))
    ensures LastOpen(acts, n) == LastOpen(after, n)
  {
    if n > 0 {
      LastOpenSame(acts, after, n - 1);
    }
  }

  // Its children are over, so it gets on as soon as it has a turn.
  lemma LastOpenMoves(w: World, x: nat)
    requires Sound(w) && LastOpen(w.acts, |w.acts|) == Some(x)
    ensures Tree(w.acts) && x < |w.acts| && CanMove(w.acts, x) && Queued(w, x) && Rank(w.acts[x].state) > 0
  {
    assert ActOk(w, x);
    if w.acts[x].state.WaitingChildren? {
      forall k | 0 <= k < |w.acts[x].kids| ensures Terminal(w.acts[w.acts[x].kids[k]].state) {
        assert !Open(w.acts, w.acts[x].kids[k]);
      }
    }
  }

  // ---------------------------------------------------------------- places in the queues

  function Index(q: seq<nat>, x: nat): nat {
    if q == [] || q[0] == x then 0 else 1 + Index(q[1..], x)
  }

  lemma {:induction false} IndexAppend(q: seq<nat>, x: nat, b: nat)
    ensures x in q ==> Index(q + [b], x) == Index(q, x) < |q|
    ensures x !in q ==> Index(q + [x], x) == |q|
  {
    if q != [] {
      assert (q + [b])[1..] == q[1..] + [b] && (q + [x])[1..] == q[1..] + [x];
      IndexAppend(q[1..], x, b);
    }
  }

  lemma {:induction false} DistinctAtMost(q: seq<nat>, n: nat)
    requires NoRepeats(q) && forall i :: 0 <= i < |q| ==> q[i] < n
    ensures |q| <= n
    decreases n
  {
    if q != [] {
      assert q[0] < n;
      var m: nat := n - 1;
      if k :| 0 <= k < |q| && q[k] == m {
        DistinctAtMost(q[..k] + q[k + 1..], m);
      } else {
        DistinctAtMost(q, m);
      }
    }
  }

  /** How many passes it takes at most until `x` has its turn. */
  function Place(w: World, x: nat): nat {
    if x in w.nices then Index(w.nices, x) else |w.acts| + 1 + Index(w.priorities, x)
  }

  lemma PlaceAtMost(w: World, x: nat)
    requires QueuesOk(w) && Queued(w, x)
    ensures Place(w, x) <= 2 * |w.acts|
  {
    DistinctAtMost(w.nices, |w.acts|);
    DistinctAtMost(w.priorities, |w.acts|);
    IndexAppend(w.nices, x, x);
    IndexAppend(w.priorities, x, x);
  }

  lemma PromotePlace(w: World, x: nat)
    requires QueuesOk(w) && Queued(w, x)
    ensures Queued(Promote(w), x)
    ensures if x in w.nices then x in Promote(w).nices && Place(Promote(w), x) == Place(w, x)
            else Place(Promote(w), x) < Place(w, x)
  {
    if w.priorities != [] {
      var b := w.priorities[0];
      assert w.priorities == [b] + w.priorities[1..];
      IndexAppend(w.nices, x, b);
      DistinctAtMost(w.nices, |w.acts|);
    }
  }

  lemma ServePlace(w: World, w2: World, w': World, a: nat, x: nat)
    requires w.nices != [] && a == w.nices[0] && x != a && Queued(w, x)
    requires w2 == w.(nices := w.nices[1..]) && Stays(w2, w', a)
    ensures if x in w.nices then Place(w', x) < Place(w, x) else Place(w', x) == Place(w, x)
  {
    assert w.nices == [a] + w2.nices;
    IndexAppend(w2.nices, x, a);
  }

  // The children of `a` from number `k` on that are marked for the nice queue, or those that are not.
  function KidsMarked(acts: Acts, a: nat, k: nat, nice: bool): seq<nat>
    requires Tree(acts) && a < |acts| && k <= |acts[a].kids|
    decreases |acts[a].kids| - k
  {
    if k == |acts[a].kids| then []
    else
      var c := acts[a].kids[k];
      (if acts[c].nice == nice then [c] else []) + KidsMarked(acts, a, k + 1, nice)
  }

  lemma {:induction false} KidsMarkedSame(acts: Acts, after: Acts, a: nat, k: nat, nice: bool)
    requires Tree(acts) && Tree(after) && SameShape(acts, after) && a < |acts| && k <= |acts[a].kids|
    requires forall y :: 0 <= y < |acts| ==> after[y].nice == acts[y].nice
    ensures KidsMarked(after, a, k, nice) == KidsMarked(acts, a, k, nice)
    decreases |acts[a].kids| - k
  {
    hide Tree;
    if k < |acts[a].kids| {
      KidAt(acts, a, k);
      KidsMarkedStep(acts, a, k, nice);
      KidsMarkedStep(after, a, k, nice);
      hide KidsMarked;
      KidsMarkedSame(acts, after, a, k + 1, nice);
    }
  }

  lemma KidsMarkedStep(acts: Acts, a: nat, k: nat, nice: bool)
    requires Tree(acts) && a < |acts| && k < |acts[a].kids|
    ensures acts[a].kids[k] < |acts|
    ensures KidsMarked(acts, a, k, nice) ==
            (if acts[acts[a].kids[k]].nice == nice then [acts[a].kids[k]] else []) + KidsMarked(acts, a, k + 1, nice)
  {
    KidAt(acts, a, k);
    hide Tree;
  }

  lemma ScheduleKidQueues(w: World, c: nat)
    requires Tree(w.acts) && c < |w.acts|
    ensures ScheduleKid(w, c).priorities == w.priorities + if w.acts[c].nice then [] else [c]
    ensures ScheduleKid(w, c).nices == w.nices + if w.acts[c].nice then [c] else []
    ensures forall y :: 0 <= y < |w.acts| ==> ScheduleKid(w, c).acts[y].nice == w.acts[y].nice
  {
    hide Tree;
  }

  lemma KidsFirst(w: World, a: nat, k: nat)
    requires Tree(w.acts) && a < |w.acts| && k < |w.acts[a].kids|
    ensures w.acts[a].kids[k] < |w.acts| && SameShape(w.acts, ScheduleKid(w, w.acts[a].kids[k]).acts)
    ensures var c := w.acts[a].kids[k];
      && |ScheduleKid(w, c).acts| == |w.acts| && ScheduleKid(w, c).acts[a].kids == w.acts[a].kids
      && ScheduleKids(w, a, k) == ScheduleKids(ScheduleKid(w, c), a, k + 1)
      && KidsMarked(w.acts, a, k, false) == (if w.acts[c].nice then [] else [c]) + KidsMarked(w.acts, a, k + 1, false)
      && KidsMarked(w.acts, a, k, true) == (if w.acts[c].nice then [c] else []) + KidsMarked(w.acts, a, k + 1, true)
  {
    KidAt(w.acts, a, k);
    hide Tree;
  }

  lemma NoKidsLeft(w: World, a: nat, k: nat)
    requires Tree(w.acts) && a < |w.acts| && k == |w.acts[a].kids|
    ensures ScheduleKids(w, a, k) == w && forall nice :: KidsMarked(w.acts, a, k, nice) == []
  {
    hide Tree;
  }

  lemma Regroup(q: seq<nat>, x: seq<nat>, q1: seq<nat>, r1: seq<nat>, r: seq<nat>, q2: seq<nat>)
    requires q1 == q + x && r == x + r1 && q2 == q1 + r1
    ensures q2 == q + r
  {
    assert (q + x) + r1 == q + (x + r1);
  }

  /** Children join the ends of their queues in the order in which they were added. */
  lemma {:induction false} ScheduleKidsInOrder(w: World, a: nat, k: nat)
    requires Tree(w.acts) && a < |w.acts| && k <= |w.acts[a].kids|
    ensures ScheduleKids(w, a, k).priorities == w.priorities + KidsMarked(w.acts, a, k, false)
    ensures ScheduleKids(w, a, k).nices == w.nices + KidsMarked(w.acts, a, k, true)
    decreases |w.acts[a].kids| - k
  {
    hide *;
    if k == |w.acts[a].kids| {
      NoKidsLeft(w, a, k);
    } else {
      KidsFirst(w, a, k);
      var c := w.acts[a].kids[k];
      var w1 := ScheduleKid(w, c);
      ScheduleKidQueues(w, c);
      ScheduleKidsInOrder(w1, a, k + 1);
      KidsMarkedSame(w.acts, w1.acts, a, k + 1, false);
      KidsMarkedSame(w.acts, w1.acts, a, k + 1, true);
      var x, y: seq<nat> := if w.acts[c].nice then [] else [c], if w.acts[c].nice then [c] else [];
      Regroup(w.priorities, x, w1.priorities, KidsMarked(w.acts, a, k + 1, false), KidsMarked(w.acts, a, k, false),
        ScheduleKids(w, a, k).priorities);
      Regroup(w.nices, y, w1.nices, KidsMarked(w.acts, a, k + 1, true), KidsMarked(w.acts, a, k, true),
        ScheduleKids(w, a, k).nices);
    }
  }

  // ---------------------------------------------------------------- a pass of the loop

  // Work counts for more than any place in the queues.
  function Weigh(work: nat, place: nat, n: nat): (weight: nat)
    ensures weight > place
  {
    work * (2 * n + 2) + place + 1
  }

  lemma LessWork(work': nat, place': nat, work: nat, place: nat, n: nat)
    requires work' < work && place' <= 2 * n
    ensures Weigh(work', place', n) < Weigh(work, place, n)
  {
    assert (work' + 1) * (2 * n + 2) <= work * (2 * n + 2);
  }

  lemma LessPlace(work: nat, place': nat, place: nat, n: nat)
    requires place' < place
    ensures Weigh(work, place', n) < Weigh(work, place, n)
  {
  }

  lemma MoreWeighs(work: nat, place: nat, work': nat, place': nat, n: nat)
    requires work <= work' && place <= place'
    ensures Weigh(work, place, n) <= Weigh(work', place', n)
  {
    assert work * (2 * n + 2) <= work' * (2 * n + 2);
  }

  /** What is left to do, and how long it takes until some of it is done. */
  function Measure(w: World): nat {
    match LastOpen(w.acts, |w.acts|)
    case None => 0
    case Some(x) => Weigh(Work(w.acts), Place(w, x), |w.acts|)
  }

  // The action a pass runs.
  function Served(w: World): Option<nat>
    requires InRange(w)
  {
    if w.halted || Promote(w).nices == [] then None else Some(Promote(w).nices[0])
  }

  /** A pass that gets to the nice queue creates nothing, and no message is missing; passes taken by other
      events may come in between. */
  ghost predicate Quiet(w: World, ch: Choice)
    requires InRange(w)
  {
    ch.serve ==>
    && ch.spawn == []
    && (Served(w).Some? && Served(w).value < |w.acts| && w.acts[Served(w).value].state.WaitingMessages? ==>
          w.acts[Served(w).value].awaiting == 0)
  }

  lemma PromoteKeeps(w: World)
    requires InRange(w)
    ensures |Promote(w).acts| == |w.acts|
    ensures forall y :: 0 <= y < |w.acts| ==> Promote(w).acts[y] == w.acts[y].(nice := Promote(w).acts[y].nice)
  {
  }

  lemma ServedTurned(w: World, ch: Choice)
    requires Sound(w) && InRange(w) && Quiet(w, ch) && ch.serve && Served(w).Some?
    ensures var w1 := Promote(w); var a := w1.nices[0]; var w2 := w1.(nices := w1.nices[1..]);
      && Tree(w1.acts) && Sound(w1) && a < |w1.acts| && w1.acts[a].scheduled == 1 && Turned(w2, LoopStep(w, ch), a)
  {
    hide Sound, Running, RunAction, Turned, KidsScheduled;
    PromoteSound(w);
    PromoteKeeps(w);
    var w1 := Promote(w);
    PopRunning(w1);
    var a, w2 := w1.nices[0], w1.(nices := w1.nices[1..]);
    HeadIs(w1);
    RunActionSound(w2, a, ch);
    RunTurned(w2, a, ch);
    AfterRunNothing(RunAction(w2, a, ch), a);
  }

  lemma HeadIs(w: World)
    requires Sound(w) && w.nices != []
    ensures Tree(w.acts) && w.nices[0] < |w.acts| && w.acts[w.nices[0]].nice && w.acts[w.nices[0]].scheduled == 1
  {
    assert ActOk(w, w.nices[0]) && Queued(w, w.nices[0]);
  }

  /** A quiet pass leaves less to do, or brings the last open action closer to its turn. */
  lemma PassMeasure(w: World, ch: Choice)
    requires Sound(w) && InRange(w) && Tree(w.acts) && !w.halted && Quiet(w, ch) && ch.serve
    ensures Falls(w.acts, LoopStep(w, ch).acts)
    ensures Measure(LoopStep(w, ch)) == 0 || Measure(LoopStep(w, ch)) < Measure(w)
  {
    hide Sound, LoopStep, Place, Stays, CanMove, Work, Weigh, Promote, LastOpen, Tree, QueuesOk;
    PromoteSound(w);
    PromoteKeeps(w);
    var w1, w' := Promote(w), LoopStep(w, ch);
    LoopStepSound(w, ch);
    FallsSame(w.acts, w1.acts);
    if Served(w).None? {
      NoneServed(w, ch);
    } else {
      ServedTurned(w, ch);
      FallsTrans(w.acts, w1.acts, w'.acts);
      var a, w2 := w1.nices[0], w1.(nices := w1.nices[1..]);
      WorkFalls(w1.acts, w'.acts, a);
      WorkSame(w.acts, w1.acts);
      LastOpenSame(w.acts, w1.acts, |w.acts|);
      if LastOpen(w'.acts, |w'.acts|).Some? {
        var x' := LastOpen(w'.acts, |w'.acts|).value;
        LastOpenMoves(w', x');
        SoundQueues(w');
        PlaceAtMost(w', x');
        if Rank(w'.acts[a].state) < Rank(w1.acts[a].state) {
          HasOpen(w1, a);
          LessWork(Work(w'.acts), Place(w', x'), Work(w.acts), Place(w, LastOpen(w.acts, |w.acts|).value), |w.acts|);
        } else {
          PassCloser(w, w', a);
        }
      }
    }
  }

  /** A pass that does not get to the nice queue sets nothing back. */
  lemma OtherPassMeasure(w: World, ch: Choice)
    requires Sound(w) && InRange(w) && Tree(w.acts) && !w.halted && !ch.serve
    ensures Falls(w.acts, LoopStep(w, ch).acts) && Measure(LoopStep(w, ch)) <= Measure(w)
  {
    var w1 := Promote(w);
    SoundQueues(w);
    PromoteKeeps(w);
    hide Sound, Place, Promote, Weigh, Work, QueuesOk, Tree;
    FallsSame(w.acts, w1.acts);
    WorkSame(w.acts, w1.acts);
    LastOpenSame(w.acts, w1.acts, |w.acts|);
    if LastOpen(w.acts, |w.acts|).Some? {
      var x := LastOpen(w.acts, |w.acts|).value;
      LastOpenMoves(w, x);
      PromotePlace(w, x);
      MoreWeighs(Work(w.acts), Place(w1, x), Work(w.acts), Place(w, x), |w.acts|);
    }
  }

  lemma FallsSame(acts: Acts, after: Acts)
    requires |after| == |acts|
    requires forall y :: 0 <= y < |acts| ==> after[y].state == acts[y].state && after[y].scheduled == acts[y].scheduled
    ensures Falls(acts, after) && Falls(acts, acts)
  {
  }

  lemma WorkSame(acts: Acts, after: Acts)
    requires |after| == |acts| && forall y :: 0 <= y < |acts| ==> after[y].state == acts[y].state
    ensures Work(after) == Work(acts)
  {
    WorkFalls(acts, after, 0);
    WorkFalls(after, acts, 0);
  }

  lemma SoundQueues(w: World)
    requires Sound(w)
    ensures QueuesOk(w) && Tree(w.acts)
  {
  }

  // An action that got on was open.
  lemma HasOpen(w: World, a: nat)
    requires a < |w.acts| && w.acts[a].scheduled == 1 && Rank(w.acts[a].state) > 0
    ensures LastOpen(w.acts, |w.acts|).Some?
  {
    assert Open(w.acts, a);
  }

  lemma NoneServed(w: World, ch: Choice)
    requires Sound(w) && InRange(w) && Tree(w.acts) && !w.halted && Served(w).None?
    ensures LoopStep(w, ch) == w && Measure(w) == 0
  {
    assert w.priorities == [] && w.nices == [];
    if LastOpen(w.acts, |w.acts|).Some? {
      LastOpenMoves(w, LastOpen(w.acts, |w.acts|).value);
    }
  }

  // The action had to wait: all others have moved up by one place.
  lemma PassCloser(w: World, w': World, a: nat)
    requires Sound(w) && InRange(w) && Sound(w') && Tree(w'.acts) && |w.acts| == |w'.acts|
    requires Promote(w).nices != [] && a == Promote(w).nices[0] && a < |w.acts| && Tree(Promote(w).acts)
    requires var w1 := Promote(w); var w2 := w1.(nices := w1.nices[1..]);
      && Falls(w1.acts, w'.acts) && !CanMove(w1.acts, a) && Stays(w2, w', a)
    requires LastOpen(w'.acts, |w'.acts|).Some?
    ensures Measure(w') < Measure(w)
  {
    hide Sound, Place, Promote, Weigh, Work, LastOpen, QueuesOk, CanMove;
    PromoteKeeps(w);
    var w1 := Promote(w);
    var w2 := w1.(nices := w1.nices[1..]);
    WorkSame(w.acts, w1.acts);
    WorkFalls(w1.acts, w'.acts, 0);
    var x' := LastOpen(w'.acts, |w'.acts|).value;
    StaysOpen(w2, w', a, x');
    HasOpen(w, x');
    SoundQueues(w');
    PlaceAtMost(w', x') by { LastOpenMoves(w', x'); }
    if Work(w'.acts) < Work(w.acts) {
      LessWork(Work(w'.acts), Place(w', x'), Work(w.acts), Place(w, LastOpen(w.acts, |w.acts|).value), |w.acts|);
    } else {
      OpenSame(w, w2, w', a);
      LastOpenSame(w.acts, w'.acts, |w.acts|);
      LastOpenMoves(w, x');
      CanMoveSame(w.acts, w1.acts, x');
      SoundQueues(w);
      PromotePlace(w, x');
      ServePlace(w1, w2, w', a, x');
      LessPlace(Work(w.acts), Place(w', x'), Place(w, x'), |w.acts|);
    }
  }

  lemma StaysOpen(w: World, w': World, a: nat, x: nat)
    requires Falls(w.acts, w'.acts) && Stays(w, w', a) && x < |w.acts| && Open(w'.acts, x)
    ensures Open(w.acts, x)
  {
  }

  lemma OpenSame(w: World, w2: World, w': World, a: nat)
    requires |w.acts| == |w2.acts| && Falls(w2.acts, w'.acts) && Stays(w2, w', a) && Work(w'.acts) == Work(w.acts)
    requires forall y :: 0 <= y < |w.acts| ==> w2.acts[y] == w.acts[y].(nice := w2.acts[y].nice)
    ensures forall y :: 0 <= y < |w.acts| ==> (Open(w.acts, y) <==> Open(w'.acts, y))
  {
    WorkSame(w.acts, w2.acts);
    forall y | 0 <= y < |w.acts| ensures Open(w.acts, y) <==> Open(w'.acts, y) {
      WorkFalls(w2.acts, w'.acts, y);
    }
  }

  lemma CanMoveSame(acts: Acts, after: Acts, x: nat)
    requires Tree(acts) && Tree(after) && SameShape(acts, after) && x < |acts| && CanMove(acts, x)
    requires forall y :: 0 <= y < |acts| ==> after[y].state == acts[y].state
    ensures CanMove(after, x)
  {
  }

  // ---------------------------------------------------------------- whole runs

  /** All passes of the run are quiet. */
  ghost predicate QuietRun(w: World, events: seq<Event>)
    requires Sound(w)
    decreases |events|
  {
    events == [] || ((events[0].Turn? ==> Quiet(w, events[0].ch)) && QuietRun(Step(w, events[0]), events[1..]))
  }

  // The passes that get to the nice queue.
  function Turns(events: seq<Event>): nat {
    if events == [] then 0 else (if events[0].Turn? && events[0].ch.serve then 1 else 0) + Turns(events[1..])
  }

  // How many messages the next turn would find missing.
  ghost function Missing(w: World): nat
    requires Sound(w)
  {
    if Served(w).Some? && Served(w).value < |w.acts| && w.acts[Served(w).value].state.WaitingMessages?
    then w.acts[Served(w).value].awaiting else 0
  }

  /** From any sound world there are quiet runs of any length: messages are delivered as they are missed. */
  lemma {:induction false} QuietRuns(w: World, n: nat) returns (events: seq<Event>)
    requires Sound(w)
    ensures QuietRun(w, events) && Turns(events) == n
    decreases n, Missing(w)
  {
    if n == 0 {
      events := [];
    } else {
      var e := if Missing(w) == 0 then Turn(Choice(true, [], 0, false, false)) else Message(Served(w).value);
      if Missing(w) > 0 {
        DeliverMissing(w);
      }
      hide Sound, Missing, Served;
      var more := QuietRuns(Step(w, e), if e.Turn? then n - 1 else n);
      events := [e] + more;
      assert events[1..] == more;
    }
  }

  lemma DeliverMissing(w: World)
    requires Sound(w) && Missing(w) > 0
    ensures Missing(Step(w, Message(Served(w).value))) < Missing(w)
  {
    hide Sound;
  }

  /** Every action that has been scheduled is over. */
  ghost predicate AllOver(acts: Acts) {
    forall x :: 0 <= x < |acts| && acts[x].scheduled == 1 ==> Terminal(acts[x].state)
  }

  lemma DeliverMeasure(w: World, to: nat)
    requires Sound(w)
    ensures Measure(Deliver(w, to)) == Measure(w) && Falls(w.acts, Deliver(w, to).acts)
    ensures Deliver(w, to).halted == w.halted
  {
    hide Sound;
    var w' := Deliver(w, to);
    WorkSame(w.acts, w'.acts);
    LastOpenSame(w.acts, w'.acts, |w.acts|);
  }

  lemma StepMeasure(w: World, e: Event)
    requires Sound(w) && (e.Turn? ==> Quiet(w, e.ch)) && !w.halted
    ensures Falls(w.acts, Step(w, e).acts)
    ensures Measure(Step(w, e)) == 0 || Measure(Step(w, e)) + Turns([e]) <= Measure(w)
  {
    hide Sound, Measure, Quiet, LoopStep, Deliver;
    assert [e][1..] == [];
    match e {
      case Turn(ch) =>
        SoundQueues(w);
        if ch.serve {
          PassMeasure(w, ch);
        } else {
          OtherPassMeasure(w, ch);
        }
      case Message(to) => DeliverMeasure(w, to);
    }
  }

  lemma {:induction false} HaltedStays(w: World, events: seq<Event>)
    requires Sound(w) && w.halted
    ensures Run(w, events).halted && Falls(w.acts, Run(w, events).acts)
    decreases |events|
  {
    if events == [] {
      FallsSame(w.acts, w.acts);
    } else {
      StepHalted(w, events[0]);
      hide Sound, Step, Falls;
      HaltedStays(Step(w, events[0]), events[1..]);
      FallsTrans(w.acts, Step(w, events[0]).acts, Run(w, events).acts);
    }
  }

  lemma StepHalted(w: World, e: Event)
    requires Sound(w) && w.halted
    ensures Step(w, e).halted && Falls(w.acts, Step(w, e).acts)
  {
    hide Sound;
  }

  lemma {:induction false} RunMeasure(w: World, events: seq<Event>)
    requires Sound(w) && QuietRun(w, events)
    ensures Falls(w.acts, Run(w, events).acts)
    ensures var end := Run(w, events); end.halted || Measure(end) == 0 || Measure(end) + Turns(events) <= Measure(w)
    decreases |events|
  {
    hide Sound, Measure, Quiet, Step;
    if events != [] {
      var w1 := Step(w, events[0]);
      if w.halted {
        HaltedStays(w, events);
      } else {
        StepMeasure(w, events[0]);
        assert [events[0]][1..] == [];
        RunMeasure(w1, events[1..]);
      }
    }
  }

  /** How many quiet turns are enough for so many actions. */
  function Enough(n: nat): nat {
    Weigh(3 * n, 2 * n, n)
  }

  /** Once nothing is created any more and no turn finds a message missing, all scheduled actions are
      over after a number of turns that depends only on how many actions there are, or an exception of
      a root action has left the loop. */
  lemma RunEnds(w: World, events: seq<Event>)
    requires Sound(w) && QuietRun(w, events) && Turns(events) >= Enough(|w.acts|)
    ensures var end := Run(w, events);
      && |end.acts| == |w.acts|
      && (end.halted || forall x :: 0 <= x < |w.acts| && w.acts[x].scheduled == 1 ==> Terminal(end.acts[x].state))
      && (end.halted || AllOver(end.acts))
  {
    hide Sound, QuietRun, Run, Measure, Enough, Turns, AllOver;
    RunMeasure(w, events);
    MeasureAtMost(w);
    if Measure(Run(w, events)) == 0 {
      NoneOpen(Run(w, events));
      StillScheduled(w, Run(w, events));
    }
  }

  lemma StillScheduled(w: World, end: World)
    requires Falls(w.acts, end.acts) && Sound(end) && AllOver(end.acts)
    ensures forall x :: 0 <= x < |w.acts| && w.acts[x].scheduled == 1 ==> Terminal(end.acts[x].state)
  {
    SoundQueues(end);
    forall x | 0 <= x < |w.acts| && w.acts[x].scheduled == 1 ensures Terminal(end.acts[x].state) {
      hide Tree, InOrder, QueuesOk, KidsScheduled;
      assert ActOk(end, x);
    }
  }

  lemma NoneOpen(w: World)
    requires Sound(w) && Measure(w) == 0
    ensures AllOver(w.acts)
  {
    hide Sound, Weigh;
    forall x | 0 <= x < |w.acts| && w.acts[x].scheduled == 1 ensures Terminal(w.acts[x].state) {
      assert !Open(w.acts, x);
    }
  }

  lemma MeasureAtMost(w: World)
    requires Sound(w)
    ensures Measure(w) <= Enough(|w.acts|)
  {
    hide Sound, Place;
    if LastOpen(w.acts, |w.acts|).Some? {
      var x := LastOpen(w.acts, |w.acts|).value;
      LastOpenMoves(w, x);
      SoundQueues(w);
      PlaceAtMost(w, x);
      WorkAtMost(w.acts);
      var n := |w.acts|;
      hide Work, LastOpen;
      MoreWeighs(Work(w.acts), Place(w, x), 3 * n, 2 * n, n);
    }
  }
}
