/** The event loop of a compute worker running a tree of actions, as a transition system.

One step is one pass of the loop that fetches an event. What the actions' own code does is a choice:
what Process creates and expects, and whether it or a later check throws.
*/
module ActionLoop {
  import opened ActionTree
  import opened Lists

  /** `halted`: an exception of a root action has left the loop. */
  datatype World = World(acts: Acts, priorities: seq<nat>, nices: seq<nat>, halted: bool)

  /** `serve`: this pass gets to the nice queue; `spawn`: under which actions Process puts new ones,
      one after another; `topics`: how many messages it expects; `throws`: Process or ProcessMessages
      throws; `throwsKids`: ProcessChildren throws. */
  datatype Choice = Choice(serve: bool, spawn: seq<nat>, topics: nat, throws: bool, throwsKids: bool)

  // ---------------------------------------------------------------- the event queues

  function Schedule(w: World, a: nat): World
    requires a < |w.acts|
  {
    if w.acts[a].nice then w.(nices := w.nices + [a]) else w.(priorities := w.priorities + [a])
  }

  function Remove(w: World, a: nat): World
    requires a < |w.acts|
  {
    var w1 := w.(acts := w.acts[a := w.acts[a].(repeats := 0)]);
    if w.acts[a].nice then w1.(nices := Without(w.nices, a)) else w1.(priorities := Without(w.priorities, a))
  }

  /** Wait for the next turn: asked to repeat forever, but Remove takes the request back, so that
      the loop does not put the action into the queue a second time. */
  function Wait(w: World, a: nat): World
    requires a < |w.acts|
  {
    Schedule(Remove(w.(acts := w.acts[a := w.acts[a].(repeats := FOREVER)]), a), a)
  }

  // A parent puts its children from number `k` on into the queues.
  function ScheduleKids(w: World, a: nat, k: nat): (w': World)
    requires Tree(w.acts) && a < |w.acts| && k <= |w.acts[a].kids|
    ensures SameShape(w.acts, w'.acts) && Tree(w'.acts)
    decreases |w.acts[a].kids| - k
  {
    if k == |w.acts[a].kids| then w else ScheduleKids(ScheduleKid(w, w.acts[a].kids[k]), a, k + 1)
  }

  function ScheduleKid(w: World, c: nat): (w': World)
    requires Tree(w.acts) && c < |w.acts|
    ensures SameShape(w.acts, w'.acts) && Tree(w'.acts)
  {
    var acts1 := w.acts[c := w.acts[c].(scheduled := w.acts[c].scheduled + 1)];
    TreeSame(w.acts, acts1);
    Schedule(w.(acts := acts1), c)
  }

  // ---------------------------------------------------------------- running an action

  predicate MayAdopt(acts: Acts, a: nat, p: nat) {
    p < |acts| && (p == a || (acts[p].state.Idle? && acts[p].scheduled == 0))
  }

  /** New idle actions under the running action, or under actions not yet scheduled. */
  function Spawn(acts: Acts, a: nat, ps: seq<nat>): Acts
    decreases |ps|
  {
    if ps == [] then acts
    else if MayAdopt(acts, a, ps[0]) then Spawn(Adopt(acts, ps[0]), a, ps[1..])
    else Spawn(acts, a, ps[1..])
  }

  function Adopt(acts: Acts, p: nat): Acts
    requires p < |acts|
  {
    acts[p := acts[p].(kids := acts[p].kids + [|acts|])] + [Act(Idle, p, [], 0, 0, false, 0, 0)]
  }

  // The action fails: everything under it is cleaned up, and a root leaves the loop.
  function Fail(w: World, a: nat): World
    requires Tree(w.acts) && a < |w.acts|
  {
    w.(acts := CleanUp(WithState(w.acts, a, Failed), a), halted := w.halted || w.acts[a].parent == NO_PARENT)
  }

  predicate KidsOver(acts: Acts, a: nat)
    requires Tree(acts) && a < |acts|
  {
    forall k :: 0 <= k < |acts[a].kids| ==> Terminal(acts[acts[a].kids[k]].state)
  }

  // Process runs: the action has started, and what it creates is there.
  function Begin(w: World, a: nat, ch: Choice): (w': World)
    requires Tree(w.acts) && a < |w.acts|
    ensures Tree(w'.acts) && |w.acts| <= |w'.acts|
  {
    var began := w.acts[a].(state := Started, processed := w.acts[a].processed + 1, awaiting := ch.topics);
    TreeSame(w.acts, w.acts[a := began]);
    SpawnTree(w.acts[a := began], a, ch.spawn);
    w.(acts := Spawn(w.acts[a := began], a, ch.spawn))
  }

  // What follows Process: fail, finish at once, or wait for children or messages.
  function Proceed(w: World, a: nat, throws: bool): World
    requires Tree(w.acts) && a < |w.acts|
  {
    if throws then Fail(w, a)
    else if w.acts[a].awaiting == 0 then
      if w.acts[a].kids == [] then Remove(w.(acts := WithState(w.acts, a, Finished)), a)
      else
        var w2 := ScheduleKids(w, a, 0);
        Wait(w2.(acts := WithState(w2.acts, a, WaitingChildren)), a)
    else Wait(w.(acts := WithState(w.acts, a, WaitingMessages)), a)
  }

  function RunWaitingChildren(w: World, a: nat, ch: Choice): World
    requires Tree(w.acts) && a < |w.acts|
  {
    if ch.throwsKids then Fail(w, a)
    else if !KidsOver(w.acts, a) then Wait(w.(acts := WithState(w.acts, a, WaitingChildren)), a)
    else Remove(w.(acts := CleanUp(WithState(w.acts, a, Finished), a)), a)
  }

  function RunAction(w: World, a: nat, ch: Choice): World
    requires Tree(w.acts) && a < |w.acts|
  {
    match w.acts[a].state
    case Idle => Proceed(Begin(w, a, ch), a, ch.throws)
    case WaitingMessages =>
      if ch.throws then Fail(w, a)
      else if w.acts[a].awaiting != 0 then Wait(w, a)
      else RunWaitingChildren(ScheduleKids(w, a, 0), a, ch)
    case WaitingChildren => RunWaitingChildren(w, a, ch)
    case Finished => Remove(w.(acts := CleanUp(w.acts, a)), a)
    case Cancelled => w.(acts := CleanUp(w.acts, a))
    case Failed => w.(acts := CleanUp(w.acts, a))
    case Started => w.(acts := CleanUp(w.acts, a), halted := true)
  }

  lemma {:induction false} SpawnTree(acts: Acts, a: nat, ps: seq<nat>)
    requires Tree(acts)
    ensures Tree(Spawn(acts, a, ps)) && |acts| <= |Spawn(acts, a, ps)|
    decreases |ps|
  {
    if ps != [] {
      if MayAdopt(acts, a, ps[0]) {
        AdoptTree(acts, ps[0]);
        SpawnTree(Adopt(acts, ps[0]), a, ps[1..]);
      } else {
        SpawnTree(acts, a, ps[1..]);
      }
    }
  }

  lemma AdoptTree(acts: Acts, p: nat)
    requires Tree(acts) && p < |acts|
    ensures Tree(Adopt(acts, p))
  {
    hide Tree;
    var after := Adopt(acts, p);
    forall x, k | 0 <= x < |after| && 0 <= k < |after[x].kids|
      ensures x < after[x].kids[k] < |after| && after[after[x].kids[k]].parent == x
    {
      AdoptKid(acts, p, x, k);
    }
    forall x, j, k | 0 <= x < |after| && 0 <= j < k < |after[x].kids| ensures after[x].kids[j] != after[x].kids[k] {
      AdoptKids(acts, p, x, j, k);
    }
    forall x | 0 <= x < |after|
      ensures NO_PARENT <= after[x].parent < x
      ensures after[x].parent != NO_PARENT ==> x in after[after[x].parent].kids
    {
      AdoptParent(acts, p, x);
    }
    TreeIs(after);
  }

  lemma TreeIs(acts: Acts)
    requires forall a, k :: 0 <= a < |acts| && 0 <= k < |acts[a].kids| ==>
      a < acts[a].kids[k] < |acts| && acts[acts[a].kids[k]].parent == a
    requires forall a, j, k :: 0 <= a < |acts| && 0 <= j < k < |acts[a].kids| ==> acts[a].kids[j] != acts[a].kids[k]
    requires forall a :: 0 <= a < |acts| ==>
      NO_PARENT <= acts[a].parent < a && (acts[a].parent != NO_PARENT ==> a in acts[acts[a].parent].kids)
    ensures Tree(acts)
  {
  }

  lemma AdoptKid(acts: Acts, p: nat, x: nat, k: nat)
    requires Tree(acts) && p < |acts| && x <= |acts| && k < |Adopt(acts, p)[x].kids|
    ensures var after := Adopt(acts, p); x < after[x].kids[k] < |after| && after[after[x].kids[k]].parent == x
  {
  }

  lemma AdoptKids(acts: Acts, p: nat, x: nat, j: nat, k: nat)
    requires Tree(acts) && p < |acts| && x <= |acts| && j < k < |Adopt(acts, p)[x].kids|
    ensures Adopt(acts, p)[x].kids[j] != Adopt(acts, p)[x].kids[k]
  {
    AdoptKid(acts, p, x, j);
    if x < |acts| && j < |acts[x].kids| {
      KidAt(acts, x, j);
    }
  }

  lemma AdoptParent(acts: Acts, p: nat, x: nat)
    requires Tree(acts) && p < |acts| && x <= |acts|
    ensures var after := Adopt(acts, p);
      NO_PARENT <= after[x].parent < x && (after[x].parent != NO_PARENT ==> x in after[after[x].parent].kids)
  {
    var after := Adopt(acts, p);
    if x == |acts| {
      assert after[p].kids[|acts[p].kids|] == x;
    } else if acts[x].parent != NO_PARENT {
      assert x in acts[acts[x].parent].kids;
    }
  }

  // ---------------------------------------------------------------- the loop

  /** One pass of the loop: an action at the head of the priority queue moves to the nice queue; if
      the pass gets that far, the head of the nice queue is run, and put back if it asks to repeat. */
  function LoopStep(w: World, ch: Choice): World
    requires Tree(w.acts) && InRange(w)
  {
    if w.halted then w
    else if !ch.serve || Promote(w).nices == [] then Promote(w)
    else
      var w1 := Promote(w);
      TreeSame(w.acts, w1.acts);
      var a := w1.nices[0];
      AfterRun(RunAction(w1.(nices := w1.nices[1..]), a, ch), a)
  }

  predicate InRange(w: World) {
    && (forall i :: 0 <= i < |w.priorities| ==> w.priorities[i] < |w.acts|)
    && (forall i :: 0 <= i < |w.nices| ==> w.nices[i] < |w.acts|)
  }

  function Promote(w: World): (w': World)
    requires InRange(w)
    ensures SameShape(w.acts, w'.acts) && InRange(w')
  {
    if w.priorities == [] then w
    else
      var a := w.priorities[0];
      World(w.acts[a := w.acts[a].(nice := true)], w.priorities[1..], w.nices + [a], w.halted)
  }

  predicate Repeats(n: int) {
    n > 0 || n == FOREVER
  }

  function AfterRun(w: World, a: nat): World {
    if w.halted || a >= |w.acts| || !Repeats(w.acts[a].repeats) then w
    else
      var n := if w.acts[a].repeats > 0 then w.acts[a].repeats - 1 else w.acts[a].repeats;
      Schedule(w.(acts := w.acts[a := w.acts[a].(repeats := n)]), a)
  }

  // A message an action expects arrives.
  function Deliver(w: World, a: nat): World {
    if a < |w.acts| && w.acts[a].awaiting > 0
    then w.(acts := w.acts[a := w.acts[a].(awaiting := w.acts[a].awaiting - 1)]) else w
  }

  // ---------------------------------------------------------------- the invariant

  predicate Queued(w: World, a: nat) {
    a in w.priorities || a in w.nices
  }

  /** Each queue holds an action at most once, and only actions marked for it; so no action has two
      entries in all. */
  ghost predicate QueuesOk(w: World) {
    && InRange(w) && NoRepeats(w.priorities) && NoRepeats(w.nices)
    && (forall i :: 0 <= i < |w.priorities| ==> !w.acts[w.priorities[i]].nice)
    && (forall i :: 0 <= i < |w.nices| ==> w.acts[w.nices[i]].nice)
  }

  /** One action between two steps: scheduled at most once, processed at most once and not while
      idle, waiting in a queue unless it is over, and with its children not scheduled before it waits
      for them. */
  ghost predicate ActOk(w: World, x: nat)
    requires Tree(w.acts) && x < |w.acts|
  {
    var t := w.acts[x];
    && !t.state.Started? && t.repeats == 0 && t.processed <= 1 && t.scheduled <= 1
    && (t.state.Idle? ==> t.processed == 0)
    && (t.scheduled == 0 ==>
          !Queued(w, x) && t.processed == 0 && (t.state.Idle? || t.state.Cancelled? || t.state.Failed?))
    && (t.scheduled == 1 && !Terminal(t.state) ==> Queued(w, x))
    && (t.state.Idle? || t.state.WaitingMessages? ==> KidsScheduled(w.acts, x, 0))
    && (t.state.WaitingChildren? ==> KidsScheduled(w.acts, x, 1))
  }

  ghost predicate KidsScheduled(acts: Acts, x: nat, n: nat)
    requires Tree(acts) && x < |acts|
  {
    forall k :: 0 <= k < |acts[x].kids| ==> acts[acts[x].kids[k]].scheduled == n
  }

  ghost predicate Sound(w: World) {
    InOrder(w.acts) && QueuesOk(w) && forall x :: 0 <= x < |w.acts| ==> ActOk(w, x)
  }

  // While action `a` runs: it is in no queue, and the others are as between steps.
  ghost predicate Running(w: World, a: nat) {
    && InOrder(w.acts) && QueuesOk(w) && a < |w.acts| && !Queued(w, a)
    && w.acts[a].scheduled == 1 && w.acts[a].processed <= 1 && w.acts[a].repeats == 0
    && forall x :: 0 <= x < |w.acts| && x != a ==> ActOk(w, x)
  }

  // ---------------------------------------------------------------- clean-up inside the loop

  // The tree is in order after a part of it is cleaned up.
  lemma CleanInOrder(acts: Acts, a: nat, s: State)
    requires InOrder(acts) && a < |acts| && Terminal(s)
    requires if Terminal(acts[a].state) then s == acts[a].state else !s.Cancelled?
    requires s.Finished? ==> KidsOver(acts, a)
    ensures var acts0 := WithState(acts, a, s);
            Cleanable(acts0, a) && Cleaned(acts0, CleanUp(acts0, a), a) && InOrder(CleanUp(acts0, a))
  {
    var acts0 := WithState(acts, a, s);
    forall x | a < x < |acts| ensures NodeOk(acts0, x) {
      assert NodeOk(acts, x);
    }
    FinishedKids(acts, a, s);
    CleanUpOk(acts0, a);
    var after := CleanUp(acts0, a);
    forall x | 0 <= x < a ensures NodeOk(after, x) {
      assert NodeOk(acts, x);
      if x == acts[a].parent {
        ParentNodeOk(acts, a, s, x);
      } else {
        OtherNode(acts, a, s, x);
        NodeOkElsewhere(acts0, after, a, x);
      }
    }
  }

  lemma FinishedKids(acts: Acts, a: nat, s: State)
    requires InOrder(acts) && a < |acts| && Terminal(s) && (s.Finished? ==> KidsOver(acts, a))
    requires if Terminal(acts[a].state) then s == acts[a].state else !s.Cancelled?
    ensures s.Finished? ==> forall k :: 0 <= k < |acts[a].kids| ==>
              acts[acts[a].kids[k]].state.Finished? || acts[acts[a].kids[k]].state.Failed?
  {
    assert NodeOk(acts, a);
    assert forall k :: 0 <= k < |acts[a].kids| ==> KidOk(acts[a].state, acts[acts[a].kids[k]].state);
  }

  lemma OtherNode(acts: Acts, a: nat, s: State, x: nat)
    requires Tree(acts) && a < |acts| && x < a && x != acts[a].parent && NodeOk(acts, x)
    ensures NodeOk(WithState(acts, a, s), x)
  {
    forall k | 0 <= k < |acts[x].kids|
      ensures acts[x].kids[k] != a && KidOk(acts[x].state, acts[acts[x].kids[k]].state)
    {
      assert acts[acts[x].kids[k]].parent == x;
    }
  }

  lemma ParentNodeOk(acts: Acts, a: nat, s: State, x: nat)
    requires InOrder(acts) && a < |acts| && x < a && x == acts[a].parent && Terminal(s)
    requires if Terminal(acts[a].state) then s == acts[a].state else !s.Cancelled?
    requires var acts0 := WithState(acts, a, s); Cleanable(acts0, a) && Cleaned(acts0, CleanUp(acts0, a), a)
    ensures NodeOk(CleanUp(WithState(acts, a, s), a), x)
  {
    hide Tree, StatesOnly;
    var acts0 := WithState(acts, a, s);
    var after := CleanUp(acts0, a);
    assert NodeOk(acts, x);
    CleanUpKeeps(acts0, a);
    if Terminal(acts[a].state) {
      assert acts0 == acts && NodeOk(acts, a);
    }
    LocalBefore(acts0, after, a, x);
    forall k | 0 <= k < |after[x].kids|
      ensures after[x].kids[k] < |after| && KidOk(after[x].state, after[after[x].kids[k]].state)
    {
      var y := acts[x].kids[k];
      KidAt(acts, x, k);
      assert KidOk(acts[x].state, acts[y].state);
    }
  }

  // Clean-up neither schedules nor processes nor queues anything.
  lemma CleanActOk(w: World, a: nat, acts0: Acts, after: Acts, x: nat)
    requires Tree(w.acts) && a < |w.acts| && x < |w.acts|
    requires SameShape(w.acts, acts0) && Tree(acts0) && SameShape(acts0, after) && Tree(after)
    requires acts0 == WithState(w.acts, a, acts0[a].state) && Terminal(acts0[a].state) && Cleaned(acts0, after, a)
    requires if x == a then w.acts[a].scheduled == 1 && w.acts[a].processed <= 1 && w.acts[a].repeats == 0
             else ActOk(w, x)
    ensures ActOk(w.(acts := after), x)
  {
    CleanedStates(w.acts, acts0, after, a);
    KidsScheduledSame(w.acts, after, x);
    hide Tree, NodeOk, InOrder, KidsScheduled, SameShape, Cleaned;
  }

  // What clean-up leaves of every action.
  lemma CleanedStates(acts: Acts, acts0: Acts, after: Acts, a: nat)
    requires Tree(acts) && a < |acts| && SameShape(acts, acts0) && Tree(acts0) && SameShape(acts0, after) && Tree(after)
    requires acts0 == WithState(acts, a, acts0[a].state) && Cleaned(acts0, after, a)
    ensures SameShape(acts, after) && SameScheduled(acts, after)
    ensures forall y :: 0 <= y < |acts| ==>
      && after[y].processed == acts[y].processed && (after[y].repeats == acts[y].repeats || after[y].repeats == 0)
      && (after[y].state == acts0[y].state || (Terminal(after[y].state) && !after[y].state.Finished?))
  {
    hide Tree, NodeOk;
    forall y | 0 <= y < |acts|
      ensures after[y].scheduled == acts[y].scheduled && after[y].processed == acts[y].processed
    {
      assert after[y] == acts0[y].(state := after[y].state, repeats := after[y].repeats);
    }
  }

  lemma CleanSound(w: World, a: nat, s: State)
    requires Running(w, a) && Terminal(s)
    requires if Terminal(w.acts[a].state) then s == w.acts[a].state else !s.Cancelled?
    requires s.Finished? ==> KidsOver(w.acts, a)
    ensures Sound(w.(acts := CleanUp(WithState(w.acts, a, s), a)))
    ensures CleanUp(WithState(w.acts, a, s), a)[a].repeats == 0
  {
    var acts0 := WithState(w.acts, a, s);
    var after := CleanUp(acts0, a);
    CleanInOrder(w.acts, a, s);
    forall x | 0 <= x < |w.acts| ensures ActOk(w.(acts := after), x) {
      CleanActOk(w, a, acts0, after, x);
    }
    forall y | 0 <= y < |w.acts| ensures after[y].nice == w.acts[y].nice {
      assert after[y] == acts0[y].(state := after[y].state, repeats := after[y].repeats);
    }
  }

  lemma FailSound(w: World, a: nat)
    requires Running(w, a) && (Terminal(w.acts[a].state) ==> w.acts[a].state.Failed?)
    ensures Sound(Fail(w, a))
  {
    CleanSound(w, a, Failed);
    var after := CleanUp(WithState(w.acts, a, Failed), a);
    SoundHalted(w.(acts := after), w.halted || w.acts[a].parent == NO_PARENT);
  }

  lemma SoundHalted(w: World, h: bool)
    requires Sound(w)
    ensures Sound(w.(halted := h))
  {
    forall x | 0 <= x < |w.acts| ensures ActOk(w.(halted := h), x) {
      assert ActOk(w, x);
    }
  }

  // Removing an action that is in no queue and does not repeat changes nothing.
  lemma RemoveNothing(w: World, a: nat)
    requires a < |w.acts| && !Queued(w, a) && w.acts[a].repeats == 0
    ensures Remove(w, a) == w
  {
    assert w.acts[a := w.acts[a].(repeats := 0)] == w.acts;
  }

  // Wait is Schedule for an action that is in no queue: the request to repeat does not survive.
  lemma WaitSchedules(w: World, a: nat)
    requires a < |w.acts| && !Queued(w, a) && w.acts[a].repeats == 0
    ensures Wait(w, a) == Schedule(w, a)
  {
    var w1 := w.(acts := w.acts[a := w.acts[a].(repeats := FOREVER)]);
    assert Remove(w1, a) == w.(acts := w.acts[a := w.acts[a]]);
    assert w.acts[a := w.acts[a]] == w.acts;
  }

  // ---------------------------------------------------------------- going to wait

  lemma WaitSound(w: World, a: nat, s: State)
    requires Running(w, a) && !Terminal(w.acts[a].state)
    requires (s.WaitingMessages? && KidsScheduled(w.acts, a, 0)) || (s.WaitingChildren? && KidsScheduled(w.acts, a, 1))
    ensures Sound(Wait(w.(acts := WithState(w.acts, a, s)), a))
    ensures Wait(w.(acts := WithState(w.acts, a, s)), a).acts == WithState(w.acts, a, s)
  {
    var w1 := w.(acts := WithState(w.acts, a, s));
    WaitSchedules(w1, a);
    var w2 := Schedule(w1, a);
    forall x | 0 <= x < |w.acts| ensures NodeOk(w2.acts, x) {
      WaitNodeOk(w.acts, a, s, x);
    }
    QueuesAppend(w1, a);
    forall x | 0 <= x < |w.acts| ensures ActOk(w2, x) {
      WaitActOk(w, a, s, x);
    }
  }

  lemma WaitActOk(w: World, a: nat, s: State, x: nat)
    requires Tree(w.acts) && a < |w.acts| && x < |w.acts|
    requires if x == a then w.acts[a].scheduled == 1 && w.acts[a].processed <= 1 && w.acts[a].repeats == 0
             else ActOk(w, x)
    requires (s.WaitingMessages? && KidsScheduled(w.acts, a, 0)) || (s.WaitingChildren? && KidsScheduled(w.acts, a, 1))
    ensures ActOk(Schedule(w.(acts := WithState(w.acts, a, s)), a), x)
  {
    var w2 := Schedule(w.(acts := WithState(w.acts, a, s)), a);
    assert Queued(w2, x) <==> x == a || Queued(w, x);
    KidsScheduledSame(w.acts, w2.acts, x);
    if x != a {
      ActOkSame(w, w2, x);
    }
  }

  ghost predicate SameScheduled(acts: Acts, after: Acts) {
    |acts| == |after| && forall y :: 0 <= y < |acts| ==> after[y].scheduled == acts[y].scheduled
  }

  lemma KidsScheduledSame(acts: Acts, after: Acts, x: nat)
    requires Tree(acts) && Tree(after) && SameShape(acts, after) && SameScheduled(acts, after) && x < |acts|
    ensures forall n :: KidsScheduled(acts, x, n) <==> KidsScheduled(after, x, n)
  {
    assert forall k :: 0 <= k < |acts[x].kids| ==> after[acts[x].kids[k]].scheduled == acts[acts[x].kids[k]].scheduled;
  }

  // What ActOk looks at is the same.
  lemma ActOkSame(w: World, w': World, x: nat)
    requires Tree(w.acts) && Tree(w'.acts) && SameShape(w.acts, w'.acts) && SameScheduled(w.acts, w'.acts)
    requires x < |w.acts| && ActOk(w, x) && (Queued(w', x) <==> Queued(w, x))
    requires w'.acts[x].state == w.acts[x].state && w'.acts[x].processed == w.acts[x].processed
    requires w'.acts[x].repeats == w.acts[x].repeats
    ensures ActOk(w', x)
  {
    hide Tree;
    KidsScheduledSame(w.acts, w'.acts, x);
  }

  lemma NodeOkSame(acts: Acts, after: Acts, x: nat)
    requires Tree(acts) && Tree(after) && SameShape(acts, after) && x < |acts| && NodeOk(acts, x)
    requires forall y :: 0 <= y < |acts| ==> after[y].state == acts[y].state
    ensures NodeOk(after, x)
  {
    assert forall k :: 0 <= k < |acts[x].kids| ==> KidOk(acts[x].state, acts[acts[x].kids[k]].state);
  }

  lemma WaitNodeOk(acts: Acts, a: nat, s: State, x: nat)
    requires InOrder(acts) && a < |acts| && x < |acts| && !Terminal(acts[a].state) && !Terminal(s)
    ensures NodeOk(WithState(acts, a, s), x)
  {
    assert NodeOk(acts, x);
    forall k | 0 <= k < |acts[x].kids|
      ensures KidOk(WithState(acts, a, s)[x].state, WithState(acts, a, s)[acts[x].kids[k]].state)
    {
      assert KidOk(acts[x].state, acts[acts[x].kids[k]].state);
    }
  }

  lemma QueuesAppend(w: World, a: nat)
    requires QueuesOk(w) && a < |w.acts| && !Queued(w, a)
    ensures QueuesOk(Schedule(w, a))
    ensures forall x :: Queued(Schedule(w, a), x) <==> x == a || Queued(w, x)
  {
  }

  // ---------------------------------------------------------------- scheduling the children

  ghost predicate KidsScheduledUpTo(acts: Acts, a: nat, n: nat)
    requires Tree(acts) && a < |acts| && n <= |acts[a].kids|
  {
    forall k :: 0 <= k < |acts[a].kids| ==> acts[acts[a].kids[k]].scheduled == if k < n then 1 else 0
  }

  // Nothing has changed but what is scheduled.
  ghost predicate OnlyScheduled(w: World, w': World) {
    && w'.halted == w.halted && |w'.acts| == |w.acts|
    && forall x :: 0 <= x < |w.acts| ==> w'.acts[x] == w.acts[x].(scheduled := w'.acts[x].scheduled)
  }

  lemma {:induction false} ScheduleKidsRunning(w: World, a: nat, n: nat)
    requires Running(w, a) && n <= |w.acts[a].kids| && KidsScheduledUpTo(w.acts, a, n)
    ensures var w' := ScheduleKids(w, a, n);
            Running(w', a) && KidsScheduled(w'.acts, a, 1) && OnlyScheduled(w, w')
    decreases |w.acts[a].kids| - n
  {
    if n < |w.acts[a].kids| {
      var w1 := ScheduleKid(w, w.acts[a].kids[n]);
      ScheduleKidRunning(w, a, n);
      ScheduleKidsAfter(w, a, n, w1);
    }
  }

  lemma {:induction false} ScheduleKidsAfter(w: World, a: nat, n: nat, w1: World)
    requires a < |w.acts| && Tree(w.acts) && SameShape(w.acts, w1.acts) && n < |w.acts[a].kids| && OnlyScheduled(w, w1)
    requires Running(w1, a) && KidsScheduledUpTo(w1.acts, a, n + 1)
    ensures var w' := ScheduleKids(w1, a, n + 1);
            Running(w', a) && KidsScheduled(w'.acts, a, 1) && OnlyScheduled(w, w')
    decreases |w.acts[a].kids| - n, 0
  {
    hide Running;
    ScheduleKidsRunning(w1, a, n + 1);
  }

  lemma ScheduleKidRunning(w: World, a: nat, n: nat)
    requires Running(w, a) && n < |w.acts[a].kids| && KidsScheduledUpTo(w.acts, a, n)
    ensures var w1 := ScheduleKid(w, w.acts[a].kids[n]);
            Running(w1, a) && KidsScheduledUpTo(w1.acts, a, n + 1) && OnlyScheduled(w, w1)
  {
    var c := w.acts[a].kids[n];
    assert w.acts[c].parent == a;
    ScheduleOne(w, a, c);
    assert forall k :: 0 <= k < |w.acts[a].kids| && k != n ==> w.acts[a].kids[k] != c;
  }

  lemma ScheduleOne(w: World, a: nat, c: nat)
    requires Running(w, a) && a < c < |w.acts| && w.acts[c].parent == a && w.acts[c].scheduled == 0
    ensures Running(ScheduleKid(w, c), a) && OnlyScheduled(w, ScheduleKid(w, c))
  {
    var w0, w1 := w.(acts := w.acts[c := w.acts[c].(scheduled := 1)]), ScheduleKid(w, c);
    assert ActOk(w, c);
    ScheduleQueues(w, c);
    ScheduleInOrder(w, c);
    forall x | 0 <= x < |w.acts| && x != a ensures ActOk(w1, x) {
      hide InOrder, QueuesOk;
      ScheduleOthers(w, a, c, x);
    }
  }

  lemma ScheduleQueues(w: World, c: nat)
    requires Tree(w.acts) && QueuesOk(w) && c < |w.acts| && !Queued(w, c)
    ensures QueuesOk(ScheduleKid(w, c))
    ensures forall x :: Queued(ScheduleKid(w, c), x) <==> x == c || Queued(w, x)
  {
    hide Tree, NoRepeats;
    var w0 := w.(acts := w.acts[c := w.acts[c].(scheduled := w.acts[c].scheduled + 1)]);
    assert QueuesOk(w0) && !Queued(w0, c);
    QueuesAppend(w0, c);
  }

  lemma ScheduleInOrder(w: World, c: nat)
    requires InOrder(w.acts) && c < |w.acts|
    ensures InOrder(ScheduleKid(w, c).acts)
  {
    var after := ScheduleKid(w, c).acts;
    forall x | 0 <= x < |w.acts| ensures NodeOk(after, x) {
      assert NodeOk(w.acts, x);
      assert forall k :: 0 <= k < |after[x].kids| ==> KidOk(w.acts[x].state, w.acts[w.acts[x].kids[k]].state);
    }
  }

  lemma ScheduleOthers(w: World, a: nat, c: nat, x: nat)
    requires Tree(w.acts) && a < c < |w.acts| && x < |w.acts| && x != a && ActOk(w, x) && w.acts[c].parent == a
    requires w.acts[c].scheduled == 0
    ensures ActOk(ScheduleKid(w, c), x)
  {
    hide Tree;
    var w1 := ScheduleKid(w, c);
    assert Queued(w1, x) <==> x == c || Queued(w, x);
    forall k | 0 <= k < |w.acts[x].kids|
      ensures w.acts[x].kids[k] < |w.acts|
        && w1.acts[w.acts[x].kids[k]].scheduled == w.acts[w.acts[x].kids[k]].scheduled
    {
      KidAt(w.acts, x, k);
    }
  }

  // ---------------------------------------------------------------- creating actions

  lemma {:induction false} SpawnRunning(w: World, a: nat, ps: seq<nat>)
    requires Running(w, a) && !Terminal(w.acts[a].state) && KidsScheduled(w.acts, a, 0)
    ensures var w' := w.(acts := Spawn(w.acts, a, ps));
            && Tree(w'.acts) && Running(w', a) && KidsScheduled(w'.acts, a, 0)
            && Extends(w.acts, w'.acts)
    decreases |ps|
  {
    if ps == [] {
      ExtendsSame(w.acts);
    } else if MayAdopt(w.acts, a, ps[0]) {
      var w1 := w.(acts := Adopt(w.acts, ps[0]));
      AdoptRunning(w, a, ps[0]);
      StillGoing(w.acts, w1.acts, a);
      hide Extends, Running, Tree, KidsScheduled, Adopt, MayAdopt;
      SpawnRunning(w1, a, ps[1..]);
      ExtendsTrans(w.acts, w1.acts, Spawn(w1.acts, a, ps[1..]));
    } else {
      hide Extends, Running, Tree, KidsScheduled, MayAdopt;
      SpawnRunning(w, a, ps[1..]);
    }
  }

  lemma StillGoing(acts: Acts, after: Acts, a: nat)
    requires Extends(acts, after) && a < |acts| && !Terminal(acts[a].state)
    ensures !Terminal(after[a].state)
  {
  }

  lemma ExtendsSame(acts: Acts)
    ensures Extends(acts, acts)
  {
  }

  lemma ExtendsTrans(acts: Acts, acts1: Acts, after: Acts)
    requires Extends(acts, acts1) && Extends(acts1, after) && Tree(acts1) && Tree(after)
    ensures Extends(acts, after)
  {
    hide Tree;
  }

  // Old actions are as they were but for new children; new ones are idle, under an action.
  ghost predicate Extends(acts: Acts, after: Acts) {
    && |acts| <= |after|
    && (forall x :: 0 <= x < |acts| ==> after[x] == acts[x].(kids := after[x].kids))
    && (forall x :: |acts| <= x < |after| ==>
          after[x].state.Idle? && after[x].processed == 0 && after[x].parent != NO_PARENT)
  }

  lemma AdoptRunning(w: World, a: nat, p: nat)
    requires Running(w, a) && !Terminal(w.acts[a].state) && KidsScheduled(w.acts, a, 0) && MayAdopt(w.acts, a, p)
    ensures var w1 := w.(acts := Adopt(w.acts, p));
            Tree(w1.acts) && Running(w1, a) && KidsScheduled(w1.acts, a, 0) && Extends(w.acts, w1.acts)
  {
    hide Tree, NodeOk, KidsScheduled, NoRepeats;
    var w1 := w.(acts := Adopt(w.acts, p));
    AdoptTree(w.acts, p);
    forall x | 0 <= x < |w1.acts| ensures NodeOk(w1.acts, x) {
      AdoptNodeOk(w.acts, p, x);
    }
    forall x | 0 <= x < |w1.acts| && x != a ensures ActOk(w1, x) {
      hide InOrder, QueuesOk;
      AdoptActOk(w, p, x);
    }
    AdoptScheduled(w.acts, p, a);
  }

  lemma AdoptScheduled(acts: Acts, p: nat, x: nat)
    requires Tree(acts) && p < |acts| && x < |acts| && KidsScheduled(acts, x, 0)
    ensures Tree(Adopt(acts, p)) && KidsScheduled(Adopt(acts, p), x, 0)
  {
    AdoptTree(acts, p);
    hide Tree;
    var after := Adopt(acts, p);
    forall k | 0 <= k < |after[x].kids| ensures after[x].kids[k] < |after| && after[after[x].kids[k]].scheduled == 0 {
      AdoptKid(acts, p, x, k);
      if k < |acts[x].kids| {
        KidAt(acts, x, k);
      }
    }
  }

  lemma AdoptNodeOk(acts: Acts, p: nat, x: nat)
    requires InOrder(acts) && p < |acts| && !Terminal(acts[p].state) && x <= |acts|
    ensures Tree(Adopt(acts, p)) && NodeOk(Adopt(acts, p), x)
  {
    AdoptTree(acts, p);
    hide Tree;
    var after := Adopt(acts, p);
    if x < |acts| {
      assert NodeOk(acts, x);
      forall k | 0 <= k < |after[x].kids|
        ensures after[x].kids[k] < |after| && KidOk(after[x].state, after[after[x].kids[k]].state)
      {
        AdoptKid(acts, p, x, k);
        if k < |acts[x].kids| {
          KidAt(acts, x, k);
          assert KidOk(acts[x].state, acts[acts[x].kids[k]].state);
        }
      }
    }
  }

  lemma AdoptActOk(w: World, p: nat, x: nat)
    requires Tree(w.acts) && p < |w.acts| && x <= |w.acts| && InRange(w)
    requires x < |w.acts| ==> ActOk(w, x) && (x == p ==> w.acts[x].state.Idle?)
    ensures Tree(Adopt(w.acts, p)) && ActOk(w.(acts := Adopt(w.acts, p)), x)
  {
    AdoptTree(w.acts, p);
    var after := Adopt(w.acts, p);
    if x < |w.acts| {
      forall k | 0 <= k < |after[x].kids|
        ensures after[after[x].kids[k]].scheduled ==
          if k < |w.acts[x].kids| then w.acts[w.acts[x].kids[k]].scheduled else 0
      {
      }
    }
  }

  // ---------------------------------------------------------------- running, step by step

  lemma RunWaitingChildrenSound(w: World, a: nat, ch: Choice)
    requires Tree(w.acts) && a < |w.acts| && Running(w, a) && !Terminal(w.acts[a].state) && KidsScheduled(w.acts, a, 1)
    ensures Sound(RunWaitingChildren(w, a, ch))
  {
    hide Running, Sound, KidsScheduled;
    if ch.throwsKids {
      FailSound(w, a);
    } else if !KidsOver(w.acts, a) {
      WaitSound(w, a, WaitingChildren);
    } else {
      FinishSound(w, a, w.acts);
    }
  }

  // A clean-up that ends with Finish.
  lemma FinishSound(w: World, a: nat, acts: Acts)
    requires acts == w.acts && Running(w, a) && !Terminal(w.acts[a].state) && KidsOver(w.acts, a)
    ensures Sound(Remove(w.(acts := CleanUp(WithState(w.acts, a, Finished), a)), a))
  {
    CleanSound(w, a, Finished);
    RemoveNothing(w.(acts := CleanUp(WithState(w.acts, a, Finished), a)), a);
  }

  lemma OverSound(w: World, a: nat)
    requires Running(w, a) && Terminal(w.acts[a].state)
    ensures Sound(w.(acts := CleanUp(w.acts, a)))
    ensures Sound(Remove(w.(acts := CleanUp(w.acts, a)), a))
  {
    var s := w.acts[a].state;
    assert WithState(w.acts, a, s) == w.acts;
    assert NodeOk(w.acts, a);
    FinishedOver(w.acts, a);
    CleanSound(w, a, s);
    RemoveNothing(w.(acts := CleanUp(w.acts, a)), a);
  }

  lemma FinishedOver(acts: Acts, a: nat)
    requires InOrder(acts) && a < |acts| && Terminal(acts[a].state)
    ensures KidsOver(acts, a)
  {
    assert NodeOk(acts, a);
    assert forall k :: 0 <= k < |acts[a].kids| ==> KidOk(acts[a].state, acts[acts[a].kids[k]].state);
  }

  lemma ProceedSound(w: World, a: nat, throws: bool)
    requires Tree(w.acts) && a < |w.acts| && Running(w, a) && !Terminal(w.acts[a].state) && KidsScheduled(w.acts, a, 0)
    ensures Sound(Proceed(w, a, throws))
  {
    hide Running, Sound, KidsScheduled;
    if throws {
      FailSound(w, a);
    } else if w.acts[a].awaiting == 0 {
      if w.acts[a].kids == [] {
        FinishAtOnce(w, a);
      } else {
        KidsUpToNone(w.acts, a);
        ScheduleKidsRunning(w, a, 0);
        WaitSound(ScheduleKids(w, a, 0), a, WaitingChildren);
      }
    } else {
      WaitSound(w, a, WaitingMessages);
    }
  }

  lemma BeginOk(w: World, a: nat, ch: Choice)
    requires Tree(w.acts) && a < |w.acts| && Running(w, a) && w.acts[a].state.Idle? && w.acts[a].processed == 0
    requires KidsScheduled(w.acts, a, 0)
    ensures var w1 := Begin(w, a, ch);
            && Running(w1, a) && w1.acts[a].state.Started? && w1.acts[a].processed == 1
            && KidsScheduled(w1.acts, a, 0) && Kept(w.acts, w1.acts, a)
  {
    hide Running, KidsScheduled, Tree, Spawn;
    var began := w.acts[a].(state := Started, processed := w.acts[a].processed + 1, awaiting := ch.topics);
    BeginRunning(w, a, ch);
    SpawnRunning(w.(acts := w.acts[a := began]), a, ch.spawn);
  }

  lemma KidsUpToNone(acts: Acts, a: nat)
    requires Tree(acts) && a < |acts| && KidsScheduled(acts, a, 0)
    ensures KidsScheduledUpTo(acts, a, 0)
  {
  }

  lemma BeginRunning(w: World, a: nat, ch: Choice)
    requires Running(w, a) && w.acts[a].state.Idle? && w.acts[a].processed == 0 && KidsScheduled(w.acts, a, 0)
    ensures var w0 := w.(acts := w.acts[a := w.acts[a].(state := Started, processed := 1, awaiting := ch.topics)]);
            SameShape(w.acts, w0.acts) && Tree(w0.acts) && Running(w0, a) && KidsScheduled(w0.acts, a, 0)
  {
    hide Tree, NodeOk, KidsScheduled, NoRepeats;
    var w0 := w.(acts := w.acts[a := w.acts[a].(state := Started, processed := 1, awaiting := ch.topics)]);
    TreeSame(w.acts, w0.acts);
    forall x | 0 <= x < |w.acts| ensures NodeOk(w0.acts, x) {
      WaitNodeOk(w.acts, a, Started, x);
      NodeOkSame(WithState(w.acts, a, Started), w0.acts, x);
    }
    forall x | 0 <= x < |w.acts| && x != a ensures ActOk(w0, x) {
      ActOkSame(w, w0, x);
    }
    KidsScheduledSame(w.acts, w0.acts, a);
  }

  // An action without children and without messages to wait for finishes at once.
  lemma FinishAtOnce(w: World, a: nat)
    requires Tree(w.acts) && a < |w.acts| && Running(w, a) && !Terminal(w.acts[a].state) && w.acts[a].kids == []
    ensures Sound(Remove(w.(acts := WithState(w.acts, a, Finished)), a))
  {
    var acts0 := WithState(w.acts, a, Finished);
    CleanSound(w, a, Finished);
    assert acts0[a := acts0[a].(repeats := 0)] == acts0;
    RemoveNothing(w.(acts := acts0), a);
  }

  lemma RunActionSound(w: World, a: nat, ch: Choice)
    requires Tree(w.acts) && a < |w.acts| && Running(w, a) && !w.acts[a].state.Started?
    requires w.acts[a].state.Idle? ==> w.acts[a].processed == 0
    requires w.acts[a].state.Idle? || w.acts[a].state.WaitingMessages? ==> KidsScheduled(w.acts, a, 0)
    requires w.acts[a].state.WaitingChildren? ==> KidsScheduled(w.acts, a, 1)
    ensures Sound(RunAction(w, a, ch))
  {
    hide Running, Sound, KidsScheduled;
    match w.acts[a].state {
      case Idle =>
        BeginOk(w, a, ch);
        ProceedSound(Begin(w, a, ch), a, ch.throws);
      case WaitingMessages =>
        if ch.throws {
          FailSound(w, a);
        } else if w.acts[a].awaiting != 0 {
          assert WithState(w.acts, a, WaitingMessages) == w.acts;
          WaitSound(w, a, WaitingMessages);
        } else {
          KidsUpToNone(w.acts, a);
          ScheduleKidsRunning(w, a, 0);
          RunWaitingChildrenSound(ScheduleKids(w, a, 0), a, ch);
        }
      case WaitingChildren => RunWaitingChildrenSound(w, a, ch);
      case Finished => OverSound(w, a);
      case Cancelled => OverSound(w, a);
      case Failed => OverSound(w, a);
    }
  }

  // ---------------------------------------------------------------- the loop keeps the invariant

  lemma PromoteSound(w: World)
    requires Sound(w)
    ensures Sound(Promote(w))
  {
    if w.priorities != [] {
      var w1 := Promote(w);
      TreeSame(w.acts, w1.acts);
      forall x | 0 <= x < |w.acts| ensures NodeOk(w1.acts, x) && ActOk(w1, x) {
        PromoteOne(w, x);
      }
      PromoteQueues(w);
    }
  }

  lemma PromoteOne(w: World, x: nat)
    requires InOrder(w.acts) && InRange(w) && x < |w.acts| && ActOk(w, x) && w.priorities != []
    ensures Tree(Promote(w).acts) && NodeOk(Promote(w).acts, x) && ActOk(Promote(w), x)
  {
    var w1 := Promote(w);
    TreeSame(w.acts, w1.acts);
    assert NodeOk(w.acts, x);
    assert w.priorities == [w.priorities[0]] + w.priorities[1..];
    NodeOkSame(w.acts, w1.acts, x);
    ActOkSame(w, w1, x);
  }

  lemma PromoteQueues(w: World)
    requires QueuesOk(w) && w.priorities != []
    ensures QueuesOk(Promote(w))
  {
    var a, w1 := w.priorities[0], Promote(w);
    assert forall i :: 0 <= i < |w.nices| ==> w.nices[i] != a;
    assert forall i :: 0 <= i < |w1.priorities| ==> w1.priorities[i] == w.priorities[i + 1];
  }

  lemma PopRunning(w: World)
    requires Sound(w) && w.nices != []
    ensures var a := w.nices[0];
            a < |w.acts| && Running(w.(nices := w.nices[1..]), a) && ActOk(w, a)
  {
    hide Tree, NodeOk, KidsScheduled;
    var a := w.nices[0];
    var w1 := w.(nices := w.nices[1..]);
    assert ActOk(w, a) && Queued(w, a);
    assert a !in w.priorities by {
      assert forall i :: 0 <= i < |w.priorities| ==> w.priorities[i] != a;
    }
    assert forall i :: 0 <= i < |w1.nices| ==> w1.nices[i] == w.nices[i + 1];
    forall x | 0 <= x < |w.acts| && x != a ensures ActOk(w1, x) {
      assert w.nices == [a] + w1.nices;
      ActOkSame(w, w1, x);
    }
  }

  // No action asks to be put back when its turn is over.
  lemma AfterRunNothing(w: World, a: nat)
    requires Sound(w)
    ensures AfterRun(w, a) == w
  {
    if a < |w.acts| {
      assert ActOk(w, a);
    }
  }

  lemma LoopStepSound(w: World, ch: Choice)
    requires Sound(w) && InRange(w) && Tree(w.acts)
    ensures Sound(LoopStep(w, ch))
  {
    hide Sound, Running;
    if !w.halted {
      PromoteSound(w);
      if ch.serve && Promote(w).nices != [] {
        var w1 := Promote(w);
        TreeSame(w.acts, w1.acts);
        var a := w1.nices[0];
        PopRunning(w1);
        RunActionSound(w1.(nices := w1.nices[1..]), a, ch);
        AfterRunNothing(RunAction(w1.(nices := w1.nices[1..]), a, ch), a);
      }
    }
  }

  lemma DeliverSound(w: World, a: nat)
    requires Sound(w)
    ensures Sound(Deliver(w, a))
  {
    hide NodeOk, ActOk, KidsScheduled, Tree, NoRepeats;
    var w' := Deliver(w, a);
    TreeSame(w.acts, w'.acts);
    forall x | 0 <= x < |w.acts| ensures NodeOk(w'.acts, x) && ActOk(w', x) {
      NodeOkSame(w.acts, w'.acts, x);
      ActOkSame(w, w', x);
    }
  }

  // ---------------------------------------------------------------- what a step may change

  /** From `acts` to `after`: nobody changes parents, what is over stays as it ended, and only `a`
      may have been processed. */
  ghost predicate Kept(acts: Acts, after: Acts, a: nat) {
    && |acts| <= |after|
    && forall x :: 0 <= x < |acts| ==>
         && after[x].parent == acts[x].parent
         && (Terminal(acts[x].state) ==> after[x].state == acts[x].state)
         && (x != a ==> after[x].processed == acts[x].processed)
  }

  lemma KeptTrans(acts: Acts, acts1: Acts, after: Acts, a: nat)
    requires Kept(acts, acts1, a) && Kept(acts1, after, a)
    ensures Kept(acts, after, a)
  {
  }

  lemma CleanKept(acts: Acts, a: nat, s: State)
    requires InOrder(acts) && a < |acts| && Terminal(s) && (s.Finished? ==> KidsOver(acts, a))
    requires if Terminal(acts[a].state) then s == acts[a].state else !s.Cancelled?
    ensures Kept(acts, CleanUp(WithState(acts, a, s), a), a)
    ensures CleanUp(WithState(acts, a, s), a)[a].processed == acts[a].processed
  {
    hide Tree, NodeOk;
    var acts0 := WithState(acts, a, s);
    CleanInOrder(acts, a, s);
    CleanUpKeeps(acts0, a);
    var after := CleanUp(acts0, a);
    if Terminal(acts[a].state) {
      assert acts0 == acts && NodeOk(acts, a);
    }
    forall x | 0 <= x < |acts| ensures after[x].processed == acts[x].processed {
      assert after[x] == acts0[x].(state := after[x].state, repeats := after[x].repeats);
    }
  }

  lemma WaitKept(w: World, a: nat, s: State)
    requires Tree(w.acts) && a < |w.acts| && Running(w, a) && !Terminal(w.acts[a].state)
    requires (s.WaitingMessages? && KidsScheduled(w.acts, a, 0)) || (s.WaitingChildren? && KidsScheduled(w.acts, a, 1))
    ensures Kept(w.acts, Wait(w.(acts := WithState(w.acts, a, s)), a).acts, a)
    ensures Wait(w.(acts := WithState(w.acts, a, s)), a).acts[a].processed == w.acts[a].processed
  {
    WaitSound(w, a, s);
  }

  lemma FinishKept(w: World, a: nat)
    requires Tree(w.acts) && a < |w.acts| && Running(w, a) && !Terminal(w.acts[a].state) && KidsOver(w.acts, a)
    ensures var after := Remove(w.(acts := CleanUp(WithState(w.acts, a, Finished), a)), a).acts;
            Kept(w.acts, after, a) && after[a].processed == w.acts[a].processed
  {
    CleanKept(w.acts, a, Finished);
    CleanSound(w, a, Finished);
    RemoveNothing(w.(acts := CleanUp(WithState(w.acts, a, Finished), a)), a);
  }

  lemma RunWaitingChildrenKept(w: World, a: nat, ch: Choice)
    requires Tree(w.acts) && a < |w.acts| && Running(w, a) && !Terminal(w.acts[a].state) && KidsScheduled(w.acts, a, 1)
    ensures Kept(w.acts, RunWaitingChildren(w, a, ch).acts, a)
    ensures RunWaitingChildren(w, a, ch).acts[a].processed == w.acts[a].processed
  {
    if ch.throwsKids {
      CleanKept(w.acts, a, Failed);
    } else if !KidsOver(w.acts, a) {
      WaitKept(w, a, WaitingChildren);
    } else {
      FinishKept(w, a);
    }
  }

  lemma ProceedKept(w: World, a: nat, throws: bool)
    requires Tree(w.acts) && a < |w.acts| && Running(w, a) && !Terminal(w.acts[a].state) && KidsScheduled(w.acts, a, 0)
    ensures Kept(w.acts, Proceed(w, a, throws).acts, a)
    ensures Proceed(w, a, throws).acts[a].processed == w.acts[a].processed
  {
    hide Running, KidsScheduled, Tree;
    if throws {
      RunningInOrder(w, a);
      CleanKept(w.acts, a, Failed);
    } else if w.acts[a].awaiting == 0 {
      if w.acts[a].kids == [] {
        FinishAtOnceKept(w, a);
      } else {
        KidsUpToNone(w.acts, a);
        ScheduleKidsRunning(w, a, 0);
        var w2 := ScheduleKids(w, a, 0);
        OnlyScheduledKept(w, w2, a);
        WaitKept(w2, a, WaitingChildren);
        KeptTrans(w.acts, w2.acts, Proceed(w, a, throws).acts, a);
      }
    } else {
      WaitKept(w, a, WaitingMessages);
    }
  }

  lemma RunningInOrder(w: World, a: nat)
    requires Running(w, a)
    ensures InOrder(w.acts)
  {
  }

  lemma OnlyScheduledKept(w: World, w': World, a: nat)
    requires OnlyScheduled(w, w')
    ensures Kept(w.acts, w'.acts, a)
    ensures a < |w.acts| ==> w'.acts[a].processed == w.acts[a].processed && w'.acts[a].state == w.acts[a].state
  {
  }

  lemma FinishAtOnceKept(w: World, a: nat)
    requires Tree(w.acts) && a < |w.acts| && Running(w, a) && !Terminal(w.acts[a].state)
    ensures var after := Remove(w.(acts := WithState(w.acts, a, Finished)), a).acts;
            Kept(w.acts, after, a) && after[a].processed == w.acts[a].processed
  {
    RemoveNothing(w.(acts := WithState(w.acts, a, Finished)), a);
  }

  lemma RunActionKept(w: World, a: nat, ch: Choice)
    requires Tree(w.acts) && a < |w.acts| && Running(w, a) && !w.acts[a].state.Started?
    requires w.acts[a].state.Idle? ==> w.acts[a].processed == 0
    requires w.acts[a].state.Idle? || w.acts[a].state.WaitingMessages? ==> KidsScheduled(w.acts, a, 0)
    requires w.acts[a].state.WaitingChildren? ==> KidsScheduled(w.acts, a, 1)
    ensures Kept(w.acts, RunAction(w, a, ch).acts, a)
    ensures RunAction(w, a, ch).acts[a].processed == if w.acts[a].state.Idle? then 1 else w.acts[a].processed
  {
    hide KidsScheduled, Tree;
    match w.acts[a].state {
      case Idle =>
        BeginOk(w, a, ch);
        var w1 := Begin(w, a, ch);
        ProceedKept(w1, a, ch.throws);
        KeptTrans(w.acts, w1.acts, Proceed(w1, a, ch.throws).acts, a);
      case WaitingMessages =>
        if ch.throws {
          CleanKept(w.acts, a, Failed);
        } else if w.acts[a].awaiting != 0 {
          assert WithState(w.acts, a, WaitingMessages) == w.acts;
          WaitKept(w, a, WaitingMessages);
        } else {
          KidsUpToNone(w.acts, a);
          ScheduleKidsRunning(w, a, 0);
          var w2 := ScheduleKids(w, a, 0);
          OnlyScheduledKept(w, w2, a);
          RunWaitingChildrenKept(w2, a, ch);
          KeptTrans(w.acts, w2.acts, RunWaitingChildren(w2, a, ch).acts, a);
        }
      case WaitingChildren => RunWaitingChildrenKept(w, a, ch);
      case Finished => OverKept(w, a);
      case Cancelled => OverKept(w, a);
      case Failed => OverKept(w, a);
    }
  }

  lemma OverKept(w: World, a: nat)
    requires Tree(w.acts) && a < |w.acts| && Running(w, a) && Terminal(w.acts[a].state)
    ensures Kept(w.acts, CleanUp(w.acts, a), a) && CleanUp(w.acts, a)[a].processed == w.acts[a].processed
    ensures Remove(w.(acts := CleanUp(w.acts, a)), a).acts == CleanUp(w.acts, a)
  {
    var s := w.acts[a].state;
    assert WithState(w.acts, a, s) == w.acts;
    FinishedOver(w.acts, a);
    CleanKept(w.acts, a, s);
    CleanSound(w, a, s);
    RemoveNothing(w.(acts := CleanUp(w.acts, a)), a);
  }

  /** In one pass of the loop what is over stays as it ended, and an action whose Process ran was
      idle and under no action that is over. */
  lemma LoopStepKept(w: World, ch: Choice, x: nat)
    requires Sound(w) && InRange(w) && Tree(w.acts) && x < |w.acts|
    ensures |w.acts| <= |LoopStep(w, ch).acts| && LoopStep(w, ch).acts[x].parent == w.acts[x].parent
    ensures Terminal(w.acts[x].state) ==> LoopStep(w, ch).acts[x].state == w.acts[x].state
    ensures LoopStep(w, ch).acts[x].processed != w.acts[x].processed ==>
      && LoopStep(w, ch).acts[x].processed == 1 && w.acts[x].processed == 0 && w.acts[x].state.Idle?
      && forall a :: 0 <= a < |w.acts| && Under(w.acts, x, a) ==> !Terminal(w.acts[a].state)
  {
    hide Sound, Running, ActOk, NodeOk, RunAction, AfterRun, Under;
    if !w.halted {
      PromoteSound(w);
      PromoteSame(w);
      var w1 := Promote(w);
      TreeSame(w.acts, w1.acts);
      if ch.serve && w1.nices != [] {
        ServeKept(w1, ch, x);
        if LoopStep(w, ch).acts[x].processed != w.acts[x].processed {
          NotOverAbove(w, x);
        }
      }
    }
  }

  lemma PromoteSame(w: World)
    requires InRange(w)
    ensures forall x :: 0 <= x < |w.acts| ==> var t, t' := w.acts[x], Promote(w).acts[x];
      t'.state == t.state && t'.parent == t.parent && t'.processed == t.processed
  {
  }

  lemma ServeKept(w: World, ch: Choice, x: nat)
    requires Sound(w) && Tree(w.acts) && w.nices != [] && x < |w.acts| && w.nices[0] < |w.acts|
    ensures var after := AfterRun(RunAction(w.(nices := w.nices[1..]), w.nices[0], ch), w.nices[0]).acts;
      && |w.acts| <= |after| && after[x].parent == w.acts[x].parent
      && (Terminal(w.acts[x].state) ==> after[x].state == w.acts[x].state)
      && (after[x].processed != w.acts[x].processed ==>
            after[x].processed == 1 && w.acts[x].processed == 0 && w.acts[x].state.Idle?)
  {
    hide Running, Sound, RunAction, KidsScheduled;
    var a, w2 := w.nices[0], w.(nices := w.nices[1..]);
    PopRunning(w);
    RunActionSound(w2, a, ch);
    RunActionKept(w2, a, ch);
    AfterRunNothing(RunAction(w2, a, ch), a);
  }

  // An action that is not over is under no action that is over.
  lemma NotOverAbove(w: World, x: nat)
    requires Sound(w) && Tree(w.acts) && x < |w.acts| && !Terminal(w.acts[x].state)
    ensures forall a :: 0 <= a < |w.acts| && Under(w.acts, x, a) ==> !Terminal(w.acts[a].state)
  {
    forall a | 0 <= a < |w.acts| && Under(w.acts, x, a) ensures !Terminal(w.acts[a].state) {
      if Terminal(w.acts[a].state) {
        OutcomeBelow(w.acts, x, a);
      }
    }
  }

  // ---------------------------------------------------------------- whole runs

  datatype Event = Turn(ch: Choice) | Message(to: nat)

  ghost function Step(w: World, e: Event): (w': World)
    requires Sound(w)
    ensures Sound(w')
  {
    match e
    case Turn(ch) => LoopStepSound(w, ch); LoopStep(w, ch)
    case Message(to) => DeliverSound(w, to); Deliver(w, to)
  }

  ghost function Run(w: World, events: seq<Event>): (w': World)
    requires Sound(w)
    ensures Sound(w')
    decreases |events|
  {
    if events == [] then w else Run(Step(w, events[0]), events[1..])
  }

  /** A worker starts soundly: idle actions in trees, the roots to be run in the priority queue. */
  lemma StartSound(w: World)
    requires Tree(w.acts) && InRange(w) && NoRepeats(w.priorities) && w.nices == []
    requires forall x :: 0 <= x < |w.acts| ==> var t := w.acts[x];
      && t.state.Idle? && t.processed == 0 && t.repeats == 0 && !t.nice
      && t.scheduled == if x in w.priorities then 1 else 0
    requires forall i :: 0 <= i < |w.priorities| ==> w.acts[w.priorities[i]].parent == NO_PARENT
    ensures Sound(w)
  {
    forall x | 0 <= x < |w.acts| ensures NodeOk(w.acts, x) && ActOk(w, x) {
      forall k | 0 <= k < |w.acts[x].kids| ensures w.acts[w.acts[x].kids[k]].scheduled == 0 {
        assert w.acts[w.acts[x].kids[k]].parent == x;
      }
    }
  }

  lemma StepKept(w: World, e: Event, x: nat)
    requires Sound(w) && x < |w.acts|
    ensures var w' := Step(w, e);
      && |w.acts| <= |w'.acts|
      && (Terminal(w.acts[x].state) ==> w'.acts[x].state == w.acts[x].state)
      && w.acts[x].processed <= w'.acts[x].processed
  {
    if e.Turn? {
      LoopStepKept(w, e.ch, x);
    }
  }

  /** However a run goes on, what is over stays as it ended, and no Process runs twice. */
  lemma {:induction false} RunKeeps(w: World, events: seq<Event>, x: nat)
    requires Sound(w) && x < |w.acts|
    ensures var end := Run(w, events);
      && |w.acts| <= |end.acts|
      && (Terminal(w.acts[x].state) ==> end.acts[x].state == w.acts[x].state)
      && w.acts[x].processed <= end.acts[x].processed <= 1
    decreases |events|
  {
    if events == [] {
      assert ActOk(w, x);
    } else {
      hide Sound, Step;
      StepKept(w, events[0], x);
      RunKeeps(Step(w, events[0]), events[1..], x);
    }
  }
}
