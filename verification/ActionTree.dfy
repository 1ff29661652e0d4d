/** Trees of actions as values, and the clean-up that ends a part of a tree.

Actions are numbered in the order of their creation, so children have larger numbers.
*/
module ActionTree {

  datatype State = Idle | Started | WaitingMessages | WaitingChildren | Cancelled | Failed | Finished

  const FOREVER: int := -1
  const NO_PARENT: int := -1

  /** An action: `scheduled` counts how often its parent (or the worker, for a root) put it into the
      event queues, `processed` how often its Process ran. */
  datatype Act = Act(state: State, parent: int, kids: seq<nat>, awaiting: nat, repeats: int, nice: bool,
                     scheduled: nat, processed: nat)

  type Acts = seq<Act>

  predicate Terminal(s: State) {
    s.Finished? || s.Cancelled? || s.Failed?
  }

  /** Children and parents agree, and each child is listed once. */
  ghost predicate Tree(acts: Acts) {
    && (forall a, k :: 0 <= a < |acts| && 0 <= k < |acts[a].kids| ==>
          a < acts[a].kids[k] < |acts| && acts[acts[a].kids[k]].parent == a)
    && (forall a, j, k :: 0 <= a < |acts| && 0 <= j < k < |acts[a].kids| ==> acts[a].kids[j] != acts[a].kids[k])
    && (forall a :: 0 <= a < |acts| ==> NO_PARENT <= acts[a].parent < a)
    && (forall a :: 0 <= a < |acts| && acts[a].parent != NO_PARENT ==> a in acts[acts[a].parent].kids)
  }

  ghost predicate SameShape(acts: Acts, after: Acts) {
    && |acts| == |after|
    && forall a :: 0 <= a < |acts| ==> after[a].parent == acts[a].parent && after[a].kids == acts[a].kids
  }

  lemma KidAt(acts: Acts, a: nat, k: nat)
    requires Tree(acts) && a < |acts| && k < |acts[a].kids|
    ensures a < acts[a].kids[k] < |acts| && acts[acts[a].kids[k]].parent == a
  {
  }

  lemma TreeSame(acts: Acts, after: Acts)
    requires Tree(acts) && SameShape(acts, after)
    ensures Tree(after)
  {
  }

  function WithState(acts: Acts, a: nat, s: State): (after: Acts)
    requires Tree(acts) && a < |acts|
    ensures SameShape(acts, after) && Tree(after)
  {
    TreeSame(acts, acts[a := acts[a].(state := s)]);
    acts[a := acts[a].(state := s)]
  }

  function WithRepeats(acts: Acts, a: nat, n: int): (after: Acts)
    requires Tree(acts) && a < |acts|
    ensures SameShape(acts, after) && Tree(after)
  {
    TreeSame(acts, acts[a := acts[a].(repeats := n)]);
    acts[a := acts[a].(repeats := n)]
  }

  // ---------------------------------------------------------------- clean-up

  /** Cancel what is not over below `a`, pass failures up to `a`, and stop `a` repeating. */
  function CleanUp(acts: Acts, a: nat): (after: Acts)
    requires Tree(acts) && a < |acts|
    ensures SameShape(acts, after) && Tree(after)
    decreases |acts| - a, 1, 0
  {
    WithRepeats(CleanKids(acts, a, 0), a, 0)
  }

  function CleanKids(acts: Acts, a: nat, k: nat): (after: Acts)
    requires Tree(acts) && a < |acts| && k <= |acts[a].kids|
    ensures SameShape(acts, after) && Tree(after)
    decreases |acts| - a, 0, |acts[a].kids| - k
  {
    if k == |acts[a].kids| then acts else CleanKids(CleanKid(acts, a, acts[a].kids[k]), a, k + 1)
  }

  // One turn of the loop over the children.
  function CleanKid(acts: Acts, a: nat, c: nat): (after: Acts)
    requires Tree(acts) && a < c < |acts|
    ensures SameShape(acts, after) && Tree(after)
    decreases |acts| - c, 2, 0
  {
    var acts1 := if !acts[c].state.Finished? && !acts[c].state.Failed?
                 then CleanUp(WithState(acts, c, Cancelled), c) else acts;
    if acts1[c].state.Failed? then WithState(acts1, a, Failed) else acts1
  }

  /** What holds of one action and its children: an action that is over has only children that are
      over; a finished one has only finished children; a failed child makes it failed. As long as it
      is not over no child of it is cancelled. */
  ghost predicate NodeOk(acts: Acts, a: nat)
    requires Tree(acts) && a < |acts|
  {
    forall k :: 0 <= k < |acts[a].kids| ==> KidOk(acts[a].state, acts[acts[a].kids[k]].state)
  }

  predicate KidOk(s: State, kid: State) {
    if Terminal(s) then Terminal(kid) && (s.Finished? ==> kid.Finished?) && (kid.Failed? ==> s.Failed?)
    else !kid.Cancelled?
  }

  // What clean-up leaves alone: only the action itself and children of actions from it on change.
  ghost predicate Local(acts: Acts, after: Acts, a: nat)
    requires |after| == |acts|
  {
    forall y :: 0 <= y < |acts| && y != a && acts[y].parent < a ==> after[y] == acts[y]
  }

  // Nor does it touch anything but states and repeats.
  ghost predicate StatesOnly(acts: Acts, after: Acts) {
    && |after| == |acts|
    && forall y :: 0 <= y < |acts| ==>
         after[y] == acts[y].(state := after[y].state, repeats := after[y].repeats)
         && (after[y].repeats == acts[y].repeats || after[y].repeats == 0)
         && (acts[y].state.Failed? ==> after[y].state.Failed?)
         && (after[y].state != acts[y].state ==> Terminal(after[y].state) && !after[y].state.Finished?)
  }

  // The children of `a` before number `k` are dealt with.
  ghost predicate KidsDone(acts: Acts, a: nat, k: nat)
    requires Tree(acts) && a < |acts| && k <= |acts[a].kids|
  {
    forall j :: 0 <= j < k ==> KidOk(acts[a].state, acts[acts[a].kids[j]].state)
  }

  // Before `a` is cleaned up: it is over, it alone may be at odds with its children, and if it has
  // finished its children are over.
  ghost predicate Cleanable(acts: Acts, a: nat)
    requires Tree(acts) && a < |acts|
  {
    && Terminal(acts[a].state)
    && (forall x :: a < x < |acts| ==> NodeOk(acts, x))
    && (acts[a].state.Finished? ==> forall k :: 0 <= k < |acts[a].kids| ==>
          acts[acts[a].kids[k]].state.Finished? || acts[acts[a].kids[k]].state.Failed?)
  }

  // An action in front of `c`, other than its parent, does not notice a change local to `c`.
  lemma NodeOkElsewhere(acts: Acts, after: Acts, c: nat, x: nat)
    requires Tree(acts) && SameShape(acts, after) && Tree(after) && Local(acts, after, c)
    requires c < |acts| && x < c && acts[c].parent != x && NodeOk(acts, x)
    ensures NodeOk(after, x)
  {
    assert after[x] == acts[x];
    forall k | 0 <= k < |after[x].kids| ensures KidOk(after[x].state, after[after[x].kids[k]].state) {
      var y := acts[x].kids[k];
      assert KidOk(acts[x].state, acts[y].state);
      assert acts[y].parent == x;
    }
  }

  /** Clean-up leaves every action from `a` on in order, and the state of `a` as it was or failed. */
  ghost predicate Cleaned(acts: Acts, after: Acts, a: nat)
    requires Tree(acts) && a < |acts| && SameShape(acts, after) && Tree(after)
  {
    && (forall x :: a <= x < |after| ==> NodeOk(after, x))
    && Local(acts, after, a) && StatesOnly(acts, after)
    && (after[a].state == acts[a].state || after[a].state.Failed?)
  }

  lemma {:induction false} CleanUpOk(acts: Acts, a: nat)
    requires Tree(acts) && a < |acts| && Cleanable(acts, a)
    ensures Cleaned(acts, CleanUp(acts, a), a)
    decreases |acts| - a, 1, 0
  {
    CleanKidsOk(acts, a, 0);
    StopRepeating(acts, CleanKids(acts, a, 0), a);
  }

  lemma StopRepeating(acts: Acts, acts1: Acts, a: nat)
    requires Tree(acts) && a < |acts| && SameShape(acts, acts1) && Tree(acts1) && Cleaned(acts, acts1, a)
    ensures var after := WithRepeats(acts1, a, 0);
            SameShape(acts, after) && Tree(after) && Cleaned(acts, after, a)
  {
    hide Tree, NodeOk;
    var after := WithRepeats(acts1, a, 0);
    forall x | a <= x < |after| ensures NodeOk(after, x) {
      SameStatesNodeOk(acts1, after, x);
    }
  }

  lemma SameStatesNodeOk(acts: Acts, after: Acts, x: nat)
    requires Tree(acts) && SameShape(acts, after) && Tree(after) && x < |acts| && NodeOk(acts, x)
    requires forall y :: 0 <= y < |acts| ==> after[y].state == acts[y].state
    ensures NodeOk(after, x)
  {
    hide Tree;
    forall k | 0 <= k < |after[x].kids|
      ensures after[x].kids[k] < |after| && KidOk(after[x].state, after[after[x].kids[k]].state)
    {
      KidAt(acts, x, k);
      assert KidOk(acts[x].state, acts[acts[x].kids[k]].state);
    }
  }

  lemma {:induction false} CleanKidsOk(acts: Acts, a: nat, k: nat)
    requires Tree(acts) && a < |acts| && k <= |acts[a].kids| && Cleanable(acts, a) && KidsDone(acts, a, k)
    ensures Cleaned(acts, CleanKids(acts, a, k), a)
    decreases |acts| - a, 0, |acts[a].kids| - k
  {
    hide Cleaned, Cleanable, NodeOk, Local, StatesOnly;
    if k == |acts[a].kids| {
      CleanedNow(acts, a);
    } else {
      var acts1 := CleanKid(acts, a, acts[a].kids[k]);
      CleanKidOk(acts, a, k);
      CleanKidsOk(acts1, a, k + 1);
      CleanedTrans(acts, acts1, CleanKids(acts1, a, k + 1), a);
    }
  }

  lemma CleanedNow(acts: Acts, a: nat)
    requires Tree(acts) && a < |acts| && Cleanable(acts, a) && KidsDone(acts, a, |acts[a].kids|)
    ensures Cleaned(acts, acts, a)
  {
  }

  lemma CleanedTrans(acts: Acts, acts1: Acts, after: Acts, a: nat)
    requires Tree(acts) && a < |acts| && SameShape(acts, acts1) && Tree(acts1) && SameShape(acts1, after) && Tree(after)
    requires Local(acts, acts1, a) && StatesOnly(acts, acts1) && Cleaned(acts1, after, a)
    requires acts1[a].state == acts[a].state || acts1[a].state.Failed?
    ensures SameShape(acts, after) && Cleaned(acts, after, a)
  {
    hide NodeOk, Tree;
  }

  // One child dealt with, before its failure is passed up.
  ghost predicate KidCleaned(acts: Acts, acts1: Acts, a: nat, c: nat)
    requires Tree(acts) && a < c < |acts| && SameShape(acts, acts1) && Tree(acts1)
  {
    && acts1[a] == acts[a] && Local(acts, acts1, c) && StatesOnly(acts, acts1)
    && (forall x :: a < x < |acts| ==> NodeOk(acts1, x))
    && Terminal(acts1[c].state) && (acts[c].state.Finished? ==> acts1[c].state == acts[c].state)
    && (acts[a].state.Finished? ==> acts1[c].state == acts[c].state)
  }

  lemma {:induction false} KidCleanedOk(acts: Acts, a: nat, k: nat)
    requires Tree(acts) && a < |acts| && k < |acts[a].kids| && Cleanable(acts, a)
    ensures var c := acts[a].kids[k];
            var acts1 := if !acts[c].state.Finished? && !acts[c].state.Failed?
                         then CleanUp(WithState(acts, c, Cancelled), c) else acts;
            KidCleaned(acts, acts1, a, c)
    decreases |acts| - acts[a].kids[k], 2, 0
  {
    var c := acts[a].kids[k];
    if !acts[c].state.Finished? && !acts[c].state.Failed? {
      var acts0 := WithState(acts, c, Cancelled);
      CancelledKid(acts, a, c);
      CleanUpOk(acts0, c);
      CleanedKid(acts, acts0, CleanUp(acts0, c), a, c);
    }
  }

  lemma CancelledKid(acts: Acts, a: nat, c: nat)
    requires Tree(acts) && a < c < |acts| && acts[c].parent == a && Cleanable(acts, a)
    ensures var acts0 := WithState(acts, c, Cancelled);
            Tree(acts0) && Cleanable(acts0, c) && forall x :: a < x < c ==> NodeOk(acts0, x)
  {
    var acts0 := WithState(acts, c, Cancelled);
    forall x | a < x < |acts| && x != c ensures NodeOk(acts0, x) {
      assert NodeOk(acts, x);
      forall k | 0 <= k < |acts0[x].kids| ensures KidOk(acts0[x].state, acts0[acts0[x].kids[k]].state) {
        assert acts[acts[x].kids[k]].parent == x;
      }
    }
  }

  lemma CleanedKid(acts: Acts, acts0: Acts, after: Acts, a: nat, c: nat)
    requires Tree(acts) && a < c < |acts| && acts[c].parent == a && Cleanable(acts, a)
    requires acts0 == WithState(acts, c, Cancelled) && SameShape(acts0, after) && Tree(after)
    requires !acts[c].state.Finished? && !acts[c].state.Failed? && Cleaned(acts0, after, c)
    requires forall x :: a < x < c ==> NodeOk(acts0, x)
    requires acts[a].state.Finished? ==> c in acts[a].kids
    ensures SameShape(acts, after) && KidCleaned(acts, after, a, c)
  {
    forall x | a < x < |acts| ensures NodeOk(after, x) {
      if x < c {
        NodeOkElsewhere(acts0, after, c, x);
      }
    }
  }

  lemma {:induction false} CleanKidOk(acts: Acts, a: nat, k: nat)
    requires Tree(acts) && a < |acts| && k < |acts[a].kids| && Cleanable(acts, a) && KidsDone(acts, a, k)
    ensures var after := CleanKid(acts, a, acts[a].kids[k]);
            && Cleanable(after, a) && KidsDone(after, a, k + 1)
            && Local(acts, after, a) && StatesOnly(acts, after)
            && (after[a].state == acts[a].state || after[a].state.Failed?)
    decreases |acts| - acts[a].kids[k], 3, 0
  {
    var c := acts[a].kids[k];
    var acts1 := if !acts[c].state.Finished? && !acts[c].state.Failed?
                 then CleanUp(WithState(acts, c, Cancelled), c) else acts;
    KidCleanedOk(acts, a, k);
    PassFailure(acts, acts1, a, k);
  }

  lemma PassFailure(acts: Acts, acts1: Acts, a: nat, k: nat)
    requires Tree(acts) && a < |acts| && k < |acts[a].kids| && Cleanable(acts, a) && KidsDone(acts, a, k)
    requires SameShape(acts, acts1) && Tree(acts1) && KidCleaned(acts, acts1, a, acts[a].kids[k])
    ensures var after := if acts1[acts[a].kids[k]].state.Failed? then WithState(acts1, a, Failed) else acts1;
            && Cleanable(after, a) && KidsDone(after, a, k + 1)
            && Local(acts, after, a) && StatesOnly(acts, after)
            && (after[a].state == acts[a].state || after[a].state.Failed?)
  {
    hide Tree, NodeOk;
    var c := acts[a].kids[k];
    KidAt(acts, a, k);
    var after := if acts1[c].state.Failed? then WithState(acts1, a, Failed) else acts1;
    forall x | a < x < |after| ensures NodeOk(after, x) {
      LaterNodeOk(acts1, after, a, x);
    }
    forall j | 0 <= j < |acts[a].kids| ensures acts[a].kids[j] < |acts| && acts[a].kids[j] > a {
      KidAt(acts, a, j);
    }
    forall j | 0 <= j < |acts[a].kids| && j != k ensures after[acts[a].kids[j]] == acts[acts[a].kids[j]] {
      OtherKid(acts, a, j, k);
    }
  }

  lemma OtherKid(acts: Acts, a: nat, j: nat, k: nat)
    requires Tree(acts) && a < |acts| && j < |acts[a].kids| && k < |acts[a].kids| && j != k
    ensures acts[a].kids[j] < |acts| && acts[acts[a].kids[j]].parent == a && acts[a].kids[j] != acts[a].kids[k]
  {
  }

  // An action behind `a` does not notice when `a` changes.
  lemma LaterNodeOk(acts: Acts, after: Acts, a: nat, x: nat)
    requires Tree(acts) && SameShape(acts, after) && Tree(after) && a < x < |acts| && NodeOk(acts, x)
    requires forall y :: a < y < |acts| ==> after[y].state == acts[y].state
    ensures NodeOk(after, x)
  {
    hide Tree;
    forall k | 0 <= k < |after[x].kids|
      ensures after[x].kids[k] < |after| && KidOk(after[x].state, after[after[x].kids[k]].state)
    {
      KidAt(acts, x, k);
      assert KidOk(acts[x].state, acts[acts[x].kids[k]].state);
    }
  }

  // ---------------------------------------------------------------- what is over stays as it is

  // No state changes, except that of `a`, where it was over before.
  ghost predicate KeepsOutcomes(acts: Acts, after: Acts, a: nat) {
    && |after| == |acts|
    && forall y :: 0 <= y < |acts| && y != a && Terminal(acts[y].state) ==> after[y].state == acts[y].state
  }

  lemma {:induction false} CleanUpKeeps(acts: Acts, a: nat)
    requires Tree(acts) && a < |acts| && Cleanable(acts, a)
    ensures KeepsOutcomes(acts, CleanUp(acts, a), a)
    ensures NodeOk(acts, a) ==> CleanUp(acts, a)[a].state == acts[a].state
    decreases |acts| - a, 1, 0
  {
    assert NodeOk(acts, a) ==> KidsDone(acts, a, 0);
    CleanKidsKeep(acts, a, 0);
  }

  lemma {:induction false} CleanKidsKeep(acts: Acts, a: nat, k: nat)
    requires Tree(acts) && a < |acts| && k <= |acts[a].kids| && Cleanable(acts, a) && KidsDone(acts, a, k)
    ensures KeepsOutcomes(acts, CleanKids(acts, a, k), a)
    ensures NodeOk(acts, a) ==> CleanKids(acts, a, k)[a].state == acts[a].state
    decreases |acts| - a, 0, |acts[a].kids| - k
  {
    hide Cleanable, NodeOk, Local, StatesOnly;
    if k < |acts[a].kids| {
      var acts1 := CleanKid(acts, a, acts[a].kids[k]);
      CleanKidOk(acts, a, k);
      CleanKidKeeps(acts, a, k);
      CleanKidsKeep(acts1, a, k + 1);
    }
  }

  lemma {:induction false} CleanKidKeeps(acts: Acts, a: nat, k: nat)
    requires Tree(acts) && a < |acts| && k < |acts[a].kids| && Cleanable(acts, a)
    ensures var after := CleanKid(acts, a, acts[a].kids[k]);
            && KeepsOutcomes(acts, after, a)
            && (NodeOk(acts, a) ==> after[a].state == acts[a].state && NodeOk(after, a))
    decreases |acts| - acts[a].kids[k], 2, 0
  {
    hide StatesOnly, Tree, NodeOk, Local;
    var c := acts[a].kids[k];
    KidAt(acts, a, k);
    assert NodeOk(acts, c);
    if !acts[c].state.Finished? && !acts[c].state.Failed? {
      var acts0 := WithState(acts, c, Cancelled);
      CancelledKid(acts, a, c);
      CleanUpKeeps(acts0, c);
      CleanUpOk(acts0, c);
      if acts[c].state.Cancelled? {
        assert acts0 == acts;
      }
      LocalBefore(acts0, CleanUp(acts0, c), c, a);
      KidKept(acts, CleanUp(acts0, c), a, k);
    } else {
      KidKept(acts, acts, a, k);
    }
  }

  lemma LocalBefore(acts: Acts, after: Acts, c: nat, a: nat)
    requires Tree(acts) && |after| == |acts| && Local(acts, after, c) && a < c < |acts|
    ensures after[a] == acts[a]
  {
  }

  lemma KidKept(acts: Acts, acts1: Acts, a: nat, k: nat)
    requires Tree(acts) && a < |acts| && k < |acts[a].kids| && SameShape(acts, acts1) && Tree(acts1)
    requires Terminal(acts[a].state) && acts1[a] == acts[a] && KeepsOutcomes(acts, acts1, a)
    ensures var c := acts[a].kids[k];
            var after := if acts1[c].state.Failed? then WithState(acts1, a, Failed) else acts1;
            && KeepsOutcomes(acts, after, a)
            && (NodeOk(acts, a) ==> after[a].state == acts[a].state && NodeOk(after, a))
  {
    var c := acts[a].kids[k];
    var after := if acts1[c].state.Failed? then WithState(acts1, a, Failed) else acts1;
    if NodeOk(acts, a) {
      assert KidOk(acts[a].state, acts[c].state);
      forall j | 0 <= j < |after[a].kids| ensures KidOk(after[a].state, after[after[a].kids[j]].state) {
        assert KidOk(acts[a].state, acts[acts[a].kids[j]].state);
      }
    }
  }

  // ---------------------------------------------------------------- descendants

  ghost predicate Under(acts: Acts, x: nat, a: nat)
    requires Tree(acts)
    decreases x
  {
    && x < |acts| && acts[x].parent != NO_PARENT
    && (acts[x].parent == a || Under(acts, acts[x].parent, a))
  }

  ghost predicate InOrder(acts: Acts) {
    Tree(acts) && forall a :: 0 <= a < |acts| ==> NodeOk(acts, a)
  }

  /** Below an action that is over everything is over, below a finished one everything is finished,
      and whatever failed below an action that is over made it failed. */
  lemma {:induction false} OutcomeBelow(acts: Acts, x: nat, a: nat)
    requires InOrder(acts) && a < |acts| && Under(acts, x, a) && Terminal(acts[a].state)
    ensures Terminal(acts[x].state)
    ensures acts[a].state.Finished? ==> acts[x].state.Finished?
    ensures acts[x].state.Failed? ==> acts[a].state.Failed?
    decreases x
  {
    var p := acts[x].parent;
    if p != a {
      OutcomeBelow(acts, p, a);
    }
    var k :| 0 <= k < |acts[p].kids| && acts[p].kids[k] == x;
    assert NodeOk(acts, p) && KidOk(acts[p].state, acts[x].state);
  }
}
