/** How actions end: what one turn comes to, and who is to blame when an action of a run fails. */
module Outcomes {
  import opened ActionTree
  import opened ActionLoop
  import opened Lists
  import opened Progress

  // ---------------------------------------------------------------- what clean-up makes of the others

  ghost predicate HasFailedKid(acts: Acts, x: nat) {
    exists c :: 0 <= c < |acts| && acts[c].parent == x && acts[c].state.Failed?
  }

  /** Failed actions stay so, one that becomes failed has a failed child, and what becomes cancelled is
      under `a`. */
  ghost predicate Effects(acts: Acts, after: Acts, a: nat)
    requires Tree(acts)
  {
    && |after| == |acts|
    && forall x :: 0 <= x < |acts| ==>
         && after[x].parent == acts[x].parent
         && (acts[x].state.Failed? ==> after[x].state.Failed?)
         && (after[x].state.Failed? && !acts[x].state.Failed? ==> HasFailedKid(after, x))
         && (after[x].state.Cancelled? && !acts[x].state.Cancelled? ==> Under(acts, x, a))
  }

  lemma {:induction false} UnderKept(acts: Acts, after: Acts, x: nat, a: nat)
    requires Tree(acts) && Tree(after) && |acts| <= |after| && Under(acts, x, a)
    requires forall y :: 0 <= y < |acts| ==> after[y].parent == acts[y].parent
    ensures Under(after, x, a)
    decreases x
  {
    if acts[x].parent != a {
      UnderKept(acts, after, acts[x].parent, a);
    }
  }

  lemma {:induction false} UnderTrans(acts: Acts, x: nat, c: nat, a: nat)
    requires Tree(acts) && Under(acts, x, c) && Under(acts, c, a)
    ensures Under(acts, x, a)
    decreases x
  {
    if acts[x].parent != c {
      UnderTrans(acts, acts[x].parent, c, a);
    }
  }

  lemma EffectsTrans(acts: Acts, acts1: Acts, after: Acts, a: nat)
    requires Tree(acts) && Tree(acts1) && Effects(acts, acts1, a) && Effects(acts1, after, a)
    ensures Effects(acts, after, a)
  {
    hide Tree, HasFailedKid, Under;
    forall x | 0 <= x < |acts| && after[x].state.Failed? && !acts[x].state.Failed? ensures HasFailedKid(after, x) {
      if acts1[x].state.Failed? {
        FailedKidStays(acts1, after, x);
      }
    }
    forall x | 0 <= x < |acts| && after[x].state.Cancelled? && !acts[x].state.Cancelled? ensures Under(acts, x, a) {
      if !acts1[x].state.Cancelled? {
        UnderKept(acts1, acts, x, a);
      }
    }
  }

  lemma FailedKidStays(acts: Acts, after: Acts, x: nat)
    requires |acts| <= |after| && HasFailedKid(acts, x)
    requires forall y :: 0 <= y < |acts| ==>
      after[y].parent == acts[y].parent && (acts[y].state.Failed? ==> after[y].state.Failed?)
    ensures HasFailedKid(after, x)
  {
    var c :| 0 <= c < |acts| && acts[c].parent == x && acts[c].state.Failed?;
    assert after[c].parent == x;
  }

  lemma EffectsAbove(acts: Acts, after: Acts, c: nat, a: nat)
    requires Tree(acts) && Effects(acts, after, c) && Under(acts, c, a)
    ensures Effects(acts, after, a)
  {
    hide Tree, HasFailedKid, Under;
    forall x | 0 <= x < |acts| && after[x].state.Cancelled? && !acts[x].state.Cancelled? ensures Under(acts, x, a) {
      UnderTrans(acts, x, c, a);
    }
  }

  lemma {:induction false} CleanUpEffects(acts: Acts, a: nat)
    requires Tree(acts) && a < |acts|
    ensures Effects(acts, CleanUp(acts, a), a)
    decreases |acts| - a, 1, 0
  {
    CleanKidsEffects(acts, a, 0);
    var acts1 := CleanKids(acts, a, 0);
    hide Effects, Tree, CleanKids;
    SameStatesEffects(acts1, WithRepeats(acts1, a, 0), a);
    EffectsTrans(acts, acts1, CleanUp(acts, a), a);
  }

  lemma SameStatesEffects(acts: Acts, after: Acts, a: nat)
    requires Tree(acts) && |after| == |acts|
    requires forall x :: 0 <= x < |acts| ==> after[x].state == acts[x].state && after[x].parent == acts[x].parent
    ensures Effects(acts, after, a)
  {
    hide Tree;
  }

  lemma {:induction false} CleanKidsEffects(acts: Acts, a: nat, k: nat)
    requires Tree(acts) && a < |acts| && k <= |acts[a].kids|
    ensures Effects(acts, CleanKids(acts, a, k), a)
    decreases |acts| - a, 0, |acts[a].kids| - k
  {
    hide Effects;
    if k == |acts[a].kids| {
      SameStatesEffects(acts, acts, a);
    } else {
      var acts1 := CleanKid(acts, a, acts[a].kids[k]);
      CleanKidEffects(acts, a, acts[a].kids[k]);
      CleanKidsEffects(acts1, a, k + 1);
      EffectsTrans(acts, acts1, CleanKids(acts1, a, k + 1), a);
    }
  }

  lemma {:induction false} CleanKidEffects(acts: Acts, a: nat, c: nat)
    requires Tree(acts) && a < c < |acts| && acts[c].parent == a
    ensures Effects(acts, CleanKid(acts, a, c), a)
    decreases |acts| - c, 2, 0
  {
    hide Effects, CleanUp;
    var acts1 := if !acts[c].state.Finished? && !acts[c].state.Failed?
                 then CleanUp(WithState(acts, c, Cancelled), c) else acts;
    if !acts[c].state.Finished? && !acts[c].state.Failed? {
      var acts0 := WithState(acts, c, Cancelled);
      CancelEffects(acts, a, c);
      CleanUpEffects(acts0, c);
      UnderParent(acts0, c, a);
      EffectsAbove(acts0, acts1, c, a);
      EffectsTrans(acts, acts0, acts1, a);
    } else {
      SameStatesEffects(acts, acts, a);
    }
    if acts1[c].state.Failed? {
      PassEffects(acts1, a, c);
      EffectsTrans(acts, acts1, WithState(acts1, a, Failed), a);
    }
  }

  lemma UnderParent(acts: Acts, c: nat, a: nat)
    requires Tree(acts) && c < |acts| && acts[c].parent == a
    ensures Under(acts, c, a)
  {
  }

  lemma CancelEffects(acts: Acts, a: nat, c: nat)
    requires Tree(acts) && c < |acts| && acts[c].parent == a && !acts[c].state.Failed?
    ensures Effects(acts, WithState(acts, c, Cancelled), a)
  {
    hide Tree;
    UnderParent(acts, c, a);
  }

  lemma PassEffects(acts: Acts, a: nat, c: nat)
    requires Tree(acts) && a < |acts| && c < |acts| && acts[c].parent == a && acts[c].state.Failed? && c != a
    ensures Effects(acts, WithState(acts, a, Failed), a)
  {
    hide Tree;
    var after := WithState(acts, a, Failed);
    assert after[c].parent == a && after[c].state.Failed?;
  }

  // ---------------------------------------------------------------- finishing

  // One of the children of `a` from number `k` on has failed.
  ghost predicate FailedFrom(acts: Acts, a: nat, k: nat)
    requires Tree(acts) && a < |acts|
  {
    exists j :: k <= j < |acts[a].kids| && acts[acts[a].kids[j]].state.Failed?
  }

  ghost predicate KidsEnded(acts: Acts, a: nat)
    requires Tree(acts) && a < |acts|
  {
    forall j :: 0 <= j < |acts[a].kids| ==>
      acts[acts[a].kids[j]].state.Finished? || acts[acts[a].kids[j]].state.Failed?
  }

  /** When all children have finished or failed, clean-up only passes a failure up. */
  lemma {:induction false} FinishKids(acts: Acts, a: nat, k: nat)
    requires Tree(acts) && a < |acts| && k <= |acts[a].kids| && KidsEnded(acts, a)
    ensures CleanKids(acts, a, k) == if FailedFrom(acts, a, k) then WithState(acts, a, Failed) else acts
    decreases |acts[a].kids| - k
  {
    hide *;
    if k == |acts[a].kids| {
      NoKidsLeftToClean(acts, a, k);
    } else {
      FinishKid(acts, a, k);
      var acts1 := CleanKid(acts, a, acts[a].kids[k]);
      FinishKids(acts1, a, k + 1);
      SetTwice(acts, a, Failed, Failed);
    }
  }

  lemma NoKidsLeftToClean(acts: Acts, a: nat, k: nat)
    requires Tree(acts) && a < |acts| && k == |acts[a].kids|
    ensures CleanKids(acts, a, k) == acts && !FailedFrom(acts, a, k)
  {
    hide Tree;
  }

  lemma SetTwice(acts: Acts, a: nat, s: State, s2: State)
    requires Tree(acts) && a < |acts|
    ensures WithState(WithState(acts, a, s), a, s2) == WithState(acts, a, s2)
  {
    hide Tree;
  }

  // One of them.
  lemma FinishKid(acts: Acts, a: nat, k: nat)
    requires Tree(acts) && a < |acts| && k < |acts[a].kids| && KidsEnded(acts, a)
    ensures a < acts[a].kids[k] < |acts|
    ensures var c, acts1 := acts[a].kids[k], CleanKid(acts, a, acts[a].kids[k]);
      && |acts1| == |acts| && acts1[a].kids == acts[a].kids && CleanKids(acts, a, k) == CleanKids(acts1, a, k + 1)
      && acts1 == (if acts[c].state.Failed? then WithState(acts, a, Failed) else acts)
      && KidsEnded(acts1, a) && (FailedFrom(acts, a, k) <==> acts[c].state.Failed? || FailedFrom(acts1, a, k + 1))
  {
    KidAt(acts, a, k);
    var c, acts1 := acts[a].kids[k], CleanKid(acts, a, acts[a].kids[k]);
    KidCleanedUp(acts, a, k);
    hide CleanKid, Tree, KidsEnded, FailedFrom;
    StillEnded(acts, acts1, a, k);
  }

  lemma KidCleanedUp(acts: Acts, a: nat, k: nat)
    requires Tree(acts) && a < |acts| && k < |acts[a].kids| && KidsEnded(acts, a)
    ensures a < acts[a].kids[k] < |acts|
    ensures CleanKid(acts, a, acts[a].kids[k]) ==
            if acts[acts[a].kids[k]].state.Failed? then WithState(acts, a, Failed) else acts
  {
    KidAt(acts, a, k);
    hide Tree;
    var c := acts[a].kids[k];
    assert acts[c].state.Finished? || acts[c].state.Failed?;
    hide KidsEnded, CleanUp;
  }

  lemma StillEnded(acts: Acts, acts1: Acts, a: nat, k: nat)
    requires Tree(acts) && Tree(acts1) && a < |acts| && k < |acts[a].kids| && KidsEnded(acts, a)
    requires acts1 == acts || acts1 == WithState(acts, a, Failed)
    ensures KidsEnded(acts1, a)
    ensures FailedFrom(acts, a, k) <==> acts[acts[a].kids[k]].state.Failed? || FailedFrom(acts1, a, k + 1)
  {
    hide Tree;
    forall j | 0 <= j < |acts[a].kids|
      ensures acts[a].kids[j] < |acts| && acts1[acts[a].kids[j]].state == acts[acts[a].kids[j]].state
    {
      KidAt(acts, a, j);
    }
    assert acts1[a].kids == acts[a].kids;
  }

  // What is left of the clean-up of an action that finishes.
  lemma FinishIs(acts: Acts, a: nat)
    requires InOrder(acts) && a < |acts| && !Terminal(acts[a].state) && KidsOver(acts, a)
    ensures CleanUp(WithState(acts, a, Finished), a) ==
            WithRepeats(WithState(acts, a, if HasFailedKid(acts, a) then Failed else Finished), a, 0)
  {
    var acts0 := WithState(acts, a, Finished);
    KidsFinished(acts, a);
    FailedKidListed(acts, a);
    hide InOrder, Tree, HasFailedKid, KidsOver, KidsEnded, FailedFrom;
    FinishKids(acts0, a, 0);
    SetTwice(acts, a, Finished, Failed);
    CleanUpIs(acts0, a);
    hide *;
  }

  lemma CleanUpIs(acts: Acts, a: nat)
    requires Tree(acts) && a < |acts|
    ensures CleanUp(acts, a) == WithRepeats(CleanKids(acts, a, 0), a, 0)
  {
    hide Tree, CleanKids, WithRepeats;
  }

  lemma KidsFinished(acts: Acts, a: nat)
    requires InOrder(acts) && a < |acts| && !Terminal(acts[a].state) && KidsOver(acts, a)
    ensures var acts0 := WithState(acts, a, Finished);
      KidsEnded(acts0, a) && (FailedFrom(acts0, a, 0) <==> FailedFrom(acts, a, 0))
  {
    assert NodeOk(acts, a);
    hide Tree, InOrder;
    forall j | 0 <= j < |acts[a].kids|
      ensures acts[a].kids[j] < |acts| && acts[a].kids[j] != a
      ensures acts[acts[a].kids[j]].state.Finished? || acts[acts[a].kids[j]].state.Failed?
    {
      KidAt(acts, a, j);
      assert KidOk(acts[a].state, acts[acts[a].kids[j]].state);
    }
  }

  lemma FailedKidListed(acts: Acts, a: nat)
    requires Tree(acts) && a < |acts|
    ensures HasFailedKid(acts, a) <==> FailedFrom(acts, a, 0)
  {
    if HasFailedKid(acts, a) {
      var c :| 0 <= c < |acts| && acts[c].parent == a && acts[c].state.Failed?;
      assert c in acts[acts[c].parent].kids;
    }
    if FailedFrom(acts, a, 0) {
      var j :| 0 <= j < |acts[a].kids| && acts[acts[a].kids[j]].state.Failed?;
      KidAt(acts, a, j);
    }
  }

  // ---------------------------------------------------------------- one turn

  /** Whether the turn of `a` ends in an exception: of Process, of the check for messages, or of the check
      for children. */
  predicate Throws(acts: Acts, a: nat, ch: Choice)
    requires a < |acts|
  {
    match acts[a].state
    case Idle => ch.throws
    case WaitingMessages => ch.throws || (acts[a].awaiting == 0 && ch.throwsKids)
    case WaitingChildren => ch.throwsKids
    case _ => false
  }

  /** `a` is about to run, as it is when it has been taken from the nice queue. */
  ghost predicate AtTurn(w: World, a: nat) {
    && Tree(w.acts) && a < |w.acts| && Running(w, a) && !w.acts[a].state.Started?
    && (w.acts[a].state.Idle? ==> w.acts[a].processed == 0)
    && (w.acts[a].state.Idle? || w.acts[a].state.WaitingMessages? ==> KidsScheduled(w.acts, a, 0))
    && (w.acts[a].state.WaitingChildren? ==> KidsScheduled(w.acts, a, 1))
  }

  lemma AtTurnTree(w: World, a: nat)
    requires AtTurn(w, a)
    ensures Tree(w.acts) && a < |w.acts|
  {
  }

  /** What a turn may do to the outcomes: an action fails by its own exception or because a child has failed,
      and it is cancelled only under an action that throws. `s` is the state before, idle for new actions. */
  ghost predicate MayEnd(after: Acts, s: State, x: nat, a: nat, threw: bool)
    requires Tree(after) && x < |after|
  {
    && (s.Failed? ==> after[x].state.Failed?)
    && (after[x].state.Failed? && !s.Failed? ==> (x == a && threw) || HasFailedKid(after, x))
    && (after[x].state.Cancelled? && !s.Cancelled? ==> threw && Under(after, x, a))
    && (x == a && threw ==> after[x].state.Failed?)
  }

  function StateIn(acts: Acts, x: nat): State {
    if x < |acts| then acts[x].state else Idle
  }

  ghost predicate Ends(acts: Acts, after: Acts, a: nat, threw: bool)
    requires Tree(after)
  {
    && |acts| <= |after| && (forall x :: 0 <= x < |acts| ==> after[x].parent == acts[x].parent)
    && forall x :: 0 <= x < |after| ==> MayEnd(after, StateIn(acts, x), x, a, threw)
  }

  // Before, nobody ended: the states are the same, or none of them is an outcome.
  lemma EndsAfter(acts: Acts, acts1: Acts, after: Acts, a: nat, threw: bool)
    requires Tree(after) && Ends(acts1, after, a, threw) && |acts| <= |acts1|
    requires forall x :: 0 <= x < |acts| ==> acts1[x].parent == acts[x].parent
    requires forall x :: 0 <= x < |acts1| && acts1[x].state != StateIn(acts, x) ==>
      !Terminal(acts1[x].state) && !Terminal(StateIn(acts, x))
    ensures Ends(acts, after, a, threw)
  {
    hide Tree, HasFailedKid, Under;
    forall x | 0 <= x < |after| ensures MayEnd(after, StateIn(acts, x), x, a, threw) {
      assert MayEnd(after, StateIn(acts1, x), x, a, threw);
    }
  }

  lemma FailEnds(w: World, a: nat)
    requires Tree(w.acts) && a < |w.acts|
    ensures Tree(Fail(w, a).acts) && Fail(w, a).acts[a].state.Failed? && Ends(w.acts, Fail(w, a).acts, a, true)
  {
    var acts0 := WithState(w.acts, a, Failed);
    var after := CleanUp(acts0, a);
    CleanUpEffects(acts0, a);
    hide Tree, HasFailedKid, Under, CleanUp;
    assert Fail(w, a).acts == after;
    hide Fail;
    EffectsEnd(w.acts, acts0, after, a);
  }

  lemma EffectsEnd(acts: Acts, acts0: Acts, after: Acts, a: nat)
    requires Tree(acts) && a < |acts| && acts0 == WithState(acts, a, Failed) && Tree(after) && Effects(acts0, after, a)
    ensures Ends(acts, after, a, true) && after[a].state.Failed?
  {
    hide Tree, HasFailedKid, Under;
    forall x | 0 <= x < |after| ensures MayEnd(after, StateIn(acts, x), x, a, true) {
      if after[x].state.Cancelled? && !acts0[x].state.Cancelled? {
        UnderKept(acts0, after, x, a);
      }
    }
  }

  // The states of the others are the same, and `a` has not failed by itself.
  lemma SameEnds(acts: Acts, after: Acts, a: nat)
    requires Tree(after) && a < |acts| && |after| == |acts|
    requires forall x :: 0 <= x < |acts| ==> after[x].parent == acts[x].parent
    requires forall x :: 0 <= x < |acts| && x != a ==> after[x].state == acts[x].state
    requires !acts[a].state.Failed? && !after[a].state.Cancelled?
    requires after[a].state.Failed? ==> HasFailedKid(after, a)
    ensures Ends(acts, after, a, false)
  {
    hide Tree, HasFailedKid, Under;
  }

  /** What the check for children comes to: an exception fails the action, children that are not over make it
      wait, and otherwise it has finished, unless a child has failed. */
  lemma ChildrenEnd(w: World, a: nat, ch: Choice)
    requires Tree(w.acts) && a < |w.acts| && Running(w, a) && !Terminal(w.acts[a].state) && KidsScheduled(w.acts, a, 1)
    ensures var w' := RunWaitingChildren(w, a, ch);
      && Tree(w'.acts) && |w'.acts| == |w.acts| && Ends(w.acts, w'.acts, a, ch.throwsKids)
      && (w'.halted <==> w.halted || (ch.throwsKids && w.acts[a].parent == NO_PARENT))
      && w'.acts[a].state == if ch.throwsKids then Failed else if !KidsOver(w.acts, a) then WaitingChildren
                             else if HasFailedKid(w.acts, a) then Failed else Finished
  {
    hide KidsScheduled, Ends, HasFailedKid, Tree;
    if ch.throwsKids {
      FailEnds(w, a);
    } else if !KidsOver(w.acts, a) {
      WaitEnds(w, a, WaitingChildren);
    } else {
      FinishEnds(w, a);
    }
  }

  lemma WaitEnds(w: World, a: nat, s: State)
    requires Tree(w.acts) && a < |w.acts| && Running(w, a) && !Terminal(w.acts[a].state)
    requires (s.WaitingMessages? && KidsScheduled(w.acts, a, 0)) || (s.WaitingChildren? && KidsScheduled(w.acts, a, 1))
    ensures var w' := Wait(w.(acts := WithState(w.acts, a, s)), a);
      && w'.acts == WithState(w.acts, a, s) && Tree(w'.acts) && w'.halted == w.halted
      && Ends(w.acts, w'.acts, a, false)
  {
    hide Ends;
    WaitSound(w, a, s);
    SameEnds(w.acts, WithState(w.acts, a, s), a);
  }

  lemma FinishEnds(w: World, a: nat)
    requires Tree(w.acts) && a < |w.acts| && Running(w, a) && !Terminal(w.acts[a].state) && KidsOver(w.acts, a)
    ensures var w' := Remove(w.(acts := CleanUp(WithState(w.acts, a, Finished), a)), a);
      && |w'.acts| == |w.acts| && Tree(w'.acts) && Ends(w.acts, w'.acts, a, false) && w'.halted == w.halted
      && w'.acts[a].state == if HasFailedKid(w.acts, a) then Failed else Finished
  {
    RunningInOrder(w, a);
    CleanSound(w, a, Finished);
    hide CleanUp, Ends, KidsOver, Sound, HasFailedKid;
    RemoveNothing(w.(acts := CleanUp(WithState(w.acts, a, Finished), a)), a);
    hide Running;
    FinishIs(w.acts, a);
    FinishedEnds(w.acts, a, if HasFailedKid(w.acts, a) then Failed else Finished);
  }

  lemma FinishedEnds(acts: Acts, a: nat, s: State)
    requires Tree(acts) && a < |acts| && !Terminal(acts[a].state)
    requires s == if HasFailedKid(acts, a) then Failed else Finished
    ensures Ends(acts, WithRepeats(WithState(acts, a, s), a, 0), a, false)
  {
    var after := WithRepeats(WithState(acts, a, s), a, 0);
    hide Tree, Ends;
    if HasFailedKid(acts, a) {
      FailedKidStays(acts, after, a);
    }
    SameEnds(acts, after, a);
  }

  // Scheduling the children changes nobody's state.
  lemma ScheduleEnds(w: World, w1: World, after: Acts, a: nat, threw: bool)
    requires OnlyScheduled(w, w1) && Tree(after) && Ends(w1.acts, after, a, threw)
    ensures Ends(w.acts, after, a, threw)
  {
    EndsAfter(w.acts, w1.acts, after, a, threw);
  }

  lemma ProceedEnds(w: World, a: nat, throws: bool)
    requires Tree(w.acts) && a < |w.acts| && Running(w, a) && !Terminal(w.acts[a].state) && KidsScheduled(w.acts, a, 0)
    ensures var w' := Proceed(w, a, throws);
      && Tree(w'.acts) && |w'.acts| == |w.acts| && Ends(w.acts, w'.acts, a, throws)
      && (w'.halted <==> w.halted || (throws && w.acts[a].parent == NO_PARENT))
      && w'.acts[a].kids == w.acts[a].kids && (!throws ==> w'.acts[a].awaiting == w.acts[a].awaiting)
      && w'.acts[a].state == if throws then Failed else if w.acts[a].awaiting > 0 then WaitingMessages
                             else if w.acts[a].kids == [] then Finished else WaitingChildren
  {
    hide KidsScheduled, Ends, HasFailedKid, Tree, Running;
    if throws {
      FailEnds(w, a);
    } else if w.acts[a].awaiting == 0 {
      if w.acts[a].kids == [] {
        AtOnceEnds(w, a);
      } else {
        KidsUpToNone(w.acts, a);
        ScheduleKidsRunning(w, a, 0);
        var w1 := ScheduleKids(w, a, 0);
        WaitEnds(w1, a, WaitingChildren);
        ScheduleEnds(w, w1, Proceed(w, a, throws).acts, a, false);
      }
    } else {
      WaitEnds(w, a, WaitingMessages);
    }
  }

  lemma AtOnceEnds(w: World, a: nat)
    requires Tree(w.acts) && a < |w.acts| && Running(w, a) && !Terminal(w.acts[a].state)
    ensures var w' := Remove(w.(acts := WithState(w.acts, a, Finished)), a);
      w'.acts == WithState(w.acts, a, Finished) && w'.halted == w.halted && Ends(w.acts, w'.acts, a, false)
  {
    RemoveNothing(w.(acts := WithState(w.acts, a, Finished)), a);
    hide Ends, Running;
    SameEnds(w.acts, WithState(w.acts, a, Finished), a);
  }

  // What Process does is not an outcome.
  lemma BeginStates(w: World, a: nat, ch: Choice)
    requires AtTurn(w, a) && w.acts[a].state.Idle?
    ensures var w1 := Begin(w, a, ch);
      && Running(w1, a) && w1.acts[a].state.Started? && KidsScheduled(w1.acts, a, 0) && w1.halted == w.halted
      && w1.acts[a].awaiting == ch.topics && |w.acts| <= |w1.acts|
      && (forall x :: 0 <= x < |w.acts| ==> w1.acts[x].parent == w.acts[x].parent)
      && forall x :: 0 <= x < |w1.acts| && x != a ==> w1.acts[x].state == StateIn(w.acts, x)
  {
    hide Running, KidsScheduled, Tree, Spawn;
    var w0 := w.(acts := w.acts[a := w.acts[a].(state := Started, processed := w.acts[a].processed + 1,
                                               awaiting := ch.topics)]);
    BeginRunning(w, a, ch);
    SpawnRunning(w0, a, ch.spawn);
    BeginOk(w, a, ch);
  }

  lemma IdleTurn(w: World, a: nat, ch: Choice)
    requires AtTurn(w, a) && w.acts[a].state.Idle?
    ensures var w' := RunAction(w, a, ch);
      && Tree(w'.acts) && Ends(w.acts, w'.acts, a, ch.throws)
      && (w'.halted <==> w.halted || (ch.throws && w.acts[a].parent == NO_PARENT))
      && (!ch.throws ==> w'.acts[a].awaiting == ch.topics)
      && w'.acts[a].state == if ch.throws then Failed else if ch.topics > 0 then WaitingMessages
                             else if w'.acts[a].kids == [] then Finished else WaitingChildren
  {
    BeginStates(w, a, ch);
    AtTurnTree(w, a);
    IdleRuns(w, a, ch);
    hide *;
    var w1 := Begin(w, a, ch);
    BegunEnds(w, w1, a, ch.throws);
  }

  lemma IdleRuns(w: World, a: nat, ch: Choice)
    requires Tree(w.acts) && a < |w.acts| && w.acts[a].state.Idle?
    ensures RunAction(w, a, ch) == Proceed(Begin(w, a, ch), a, ch.throws)
  {
    hide Tree, Proceed, Begin;
  }

  // From before Process, with `w1` after it.
  lemma BegunEnds(w: World, w1: World, a: nat, throws: bool)
    requires a < |w.acts| <= |w1.acts| && Tree(w1.acts) && Running(w1, a) && KidsScheduled(w1.acts, a, 0)
    requires w.acts[a].state.Idle? && w1.acts[a].state.Started? && w1.halted == w.halted
    requires forall x :: 0 <= x < |w.acts| ==> w1.acts[x].parent == w.acts[x].parent
    requires forall x :: 0 <= x < |w1.acts| && x != a ==> w1.acts[x].state == StateIn(w.acts, x)
    ensures var w' := Proceed(w1, a, throws);
      && Tree(w'.acts) && Ends(w.acts, w'.acts, a, throws)
      && (w'.halted <==> w.halted || (throws && w.acts[a].parent == NO_PARENT))
      && (!throws ==> w'.acts[a].awaiting == w1.acts[a].awaiting)
      && w'.acts[a].state == if throws then Failed else if w1.acts[a].awaiting > 0 then WaitingMessages
                             else if w'.acts[a].kids == [] then Finished else WaitingChildren
  {
    hide Ends, HasFailedKid, Running, KidsScheduled, Tree, Proceed;
    ProceedEnds(w1, a, throws);
    EndsAfter(w.acts, w1.acts, Proceed(w1, a, throws).acts, a, throws);
  }

  lemma OverTurn(w: World, a: nat, ch: Choice)
    requires AtTurn(w, a) && Terminal(w.acts[a].state)
    ensures var w' := RunAction(w, a, ch);
      && Tree(w'.acts) && |w'.acts| == |w.acts| && w'.halted == w.halted
      && Ends(w.acts, w'.acts, a, false) && w'.acts[a].state == w.acts[a].state
  {
    OverRuns(w, a, ch);
    OverSame(w, a);
    hide Tree, CleanUp, Running, Ends, RunAction;
  }

  lemma OverRuns(w: World, a: nat, ch: Choice)
    requires AtTurn(w, a) && Terminal(w.acts[a].state)
    ensures RunAction(w, a, ch).acts == CleanUp(w.acts, a) && RunAction(w, a, ch).halted == w.halted
    ensures CleanUp(w.acts, a)[a].state == w.acts[a].state
  {
    OverIs(w, a, ch);
    hide RunAction, AtTurn;
    AtTurnTree(w, a);
    OverKept(w, a);
    hide Tree, CleanUp, Running;
  }

  lemma OverIs(w: World, a: nat, ch: Choice)
    requires AtTurn(w, a) && Terminal(w.acts[a].state)
    ensures var w1 := w.(acts := CleanUp(w.acts, a));
      RunAction(w, a, ch) == if w.acts[a].state.Finished? then Remove(w1, a) else w1
  {
    hide Tree, CleanUp, Running, KidsScheduled, Remove;
  }

  // Cleaning up below an action that is over changes no state.
  lemma OverSame(w: World, a: nat)
    requires Tree(w.acts) && a < |w.acts| && Running(w, a) && Terminal(w.acts[a].state)
    ensures Ends(w.acts, CleanUp(w.acts, a), a, false)
  {
    RunningInOrder(w, a);
    OverKept(w, a);
    CleanUpEffects(w.acts, a);
    var after := CleanUp(w.acts, a);
    forall x | 0 <= x < |after| ensures MayEnd(after, StateIn(w.acts, x), x, a, false) {
      if Under(w.acts, x, a) {
        OutcomeBelow(w.acts, x, a);
      }
    }
  }

  /** A turn fails the action exactly if it ends in an exception or, as the action finishes, a child has failed;
      and a root's exception leaves the loop. Nothing else changes an outcome, but cancelling below. */
  lemma TurnOutcome(w: World, a: nat, ch: Choice)
    requires AtTurn(w, a)
    ensures var t, w', threw := w.acts[a], RunAction(w, a, ch), Throws(w.acts, a, ch);
      && Tree(w'.acts) && Ends(w.acts, w'.acts, a, threw)
      && (w'.halted <==> w.halted || (threw && t.parent == NO_PARENT))
      && (threw ==> w'.acts[a].state.Failed?)
      && (!threw && t.state.Idle? ==>
            && w'.acts[a].awaiting == ch.topics
            && w'.acts[a].state == if ch.topics > 0 then WaitingMessages
                                   else if w'.acts[a].kids == [] then Finished else WaitingChildren)
      && (!threw && t.state.WaitingMessages? && t.awaiting > 0 ==> w'.acts[a].state.WaitingMessages?)
      && (!threw && (t.state.WaitingChildren? || (t.state.WaitingMessages? && t.awaiting == 0)) ==>
            w'.acts[a].state == if !KidsOver(w.acts, a) then WaitingChildren
                                else if HasFailedKid(w.acts, a) then Failed else Finished)
      && (Terminal(t.state) ==> w'.acts[a].state == t.state)
  {
    hide Ends, HasFailedKid, KidsOver;
    match w.acts[a].state {
      case Idle => IdleTurn(w, a, ch);
      case WaitingMessages => MessagesTurn(w, a, ch);
      case WaitingChildren => ChildrenEnd(w, a, ch);
      case _ => OverTurn(w, a, ch);
    }
  }

  lemma MessagesTurn(w: World, a: nat, ch: Choice)
    requires AtTurn(w, a) && w.acts[a].state.WaitingMessages?
    ensures var t, w', threw := w.acts[a], RunAction(w, a, ch), Throws(w.acts, a, ch);
      && Tree(w'.acts) && |w'.acts| == |w.acts| && Ends(w.acts, w'.acts, a, threw)
      && (w'.halted <==> w.halted || (threw && t.parent == NO_PARENT))
      && w'.acts[a].state == if threw then Failed else if t.awaiting > 0 then WaitingMessages
                             else if !KidsOver(w.acts, a) then WaitingChildren
                             else if HasFailedKid(w.acts, a) then Failed else Finished
  {
    hide Ends;
    if ch.throws {
      FailEnds(w, a);
    } else if w.acts[a].awaiting != 0 {
      assert WithState(w.acts, a, WaitingMessages) == w.acts;
      hide Running, KidsScheduled, Tree;
      WaitEnds(w, a, WaitingMessages);
    } else {
      KidsUpToNone(w.acts, a);
      ScheduleKidsRunning(w, a, 0);
      var w1 := ScheduleKids(w, a, 0);
      hide Running, KidsScheduled, Tree, HasFailedKid, KidsOver;
      ChildrenEnd(w1, a, ch);
      ScheduleEnds(w, w1, RunWaitingChildren(w1, a, ch).acts, a, ch.throwsKids);
      OnlyScheduledKids(w, w1, a);
    }
  }

  lemma OnlyScheduledOver(w: World, w1: World, a: nat)
    requires OnlyScheduled(w, w1) && Tree(w.acts) && Tree(w1.acts) && a < |w.acts|
    ensures KidsOver(w.acts, a) <==> KidsOver(w1.acts, a)
  {
    assert w1.acts[a].kids == w.acts[a].kids;
    forall k | 0 <= k < |w.acts[a].kids|
      ensures w.acts[a].kids[k] < |w.acts| && w1.acts[w.acts[a].kids[k]].state == w.acts[w.acts[a].kids[k]].state
    {
      KidAt(w.acts, a, k);
    }
    hide Tree;
  }

  lemma OnlyScheduledKids(w: World, w1: World, a: nat)
    requires OnlyScheduled(w, w1) && Tree(w.acts) && Tree(w1.acts) && a < |w.acts|
    ensures (KidsOver(w.acts, a) <==> KidsOver(w1.acts, a)) && (HasFailedKid(w.acts, a) <==> HasFailedKid(w1.acts, a))
  {
    OnlyScheduledOver(w, w1, a);
    hide KidsOver, Tree;
    if HasFailedKid(w.acts, a) {
      FailedKidStays(w.acts, w1.acts, a);
    }
    if HasFailedKid(w1.acts, a) {
      FailedKidStays(w1.acts, w.acts, a);
    }
  }

  // ---------------------------------------------------------------- one step of a run

  /** The action whose turn ends in an exception in this step, if there is one. */
  ghost function Threw(w: World, e: Event): set<nat>
    requires Sound(w)
  {
    match e
    case Turn(ch) => if ThrowsNow(w, ch) then {Served(w).value} else {}
    case Message(_) => {}
  }

  predicate ThrowsNow(w: World, ch: Choice)
    requires InRange(w)
  {
    ch.serve && Served(w).Some? && Served(w).value < |w.acts| && Throws(w.acts, Served(w).value, ch)
  }

  /** The outcomes from `acts` to `after`, when the turns of the actions `threw` ended in exceptions. */
  ghost predicate Moves(acts: Acts, after: Acts, threw: set<nat>)
    requires Tree(after)
  {
    && |acts| <= |after| && (forall x :: 0 <= x < |acts| ==> after[x].parent == acts[x].parent)
    && (forall x :: x in threw ==> x < |after| && after[x].state.Failed?)
    && forall x :: 0 <= x < |after| ==>
         && (StateIn(acts, x).Failed? ==> after[x].state.Failed?)
         && (after[x].state.Failed? && !StateIn(acts, x).Failed? ==> x in threw || HasFailedKid(after, x))
         && (after[x].state.Cancelled? && !StateIn(acts, x).Cancelled? ==> UnderSome(after, x, threw))
  }

  ghost predicate UnderSome(acts: Acts, x: nat, threw: set<nat>)
    requires Tree(acts)
  {
    exists a :: a in threw && Under(acts, x, a)
  }

  ghost predicate SomeRoot(acts: Acts, threw: set<nat>) {
    exists a :: a in threw && a < |acts| && acts[a].parent == NO_PARENT
  }

  lemma SameMoves(acts: Acts, after: Acts)
    requires Tree(after) && |after| == |acts|
    requires forall x :: 0 <= x < |acts| ==> after[x].parent == acts[x].parent && after[x].state == acts[x].state
    ensures Moves(acts, after, {})
  {
    hide Tree, HasFailedKid, UnderSome;
  }

  lemma EndsMoves(acts: Acts, after: Acts, a: nat, threw: bool)
    requires Tree(after) && a < |acts| && Ends(acts, after, a, threw)
    ensures Moves(acts, after, if threw then {a} else {})
  {
    hide Tree, HasFailedKid, Under;
    var t := if threw then {a} else {};
    forall x | 0 <= x < |after|
      ensures StateIn(acts, x).Failed? ==> after[x].state.Failed?
      ensures after[x].state.Failed? && !StateIn(acts, x).Failed? ==> x in t || HasFailedKid(after, x)
      ensures after[x].state.Cancelled? && !StateIn(acts, x).Cancelled? ==> UnderSome(after, x, t)
    {
      assert MayEnd(after, StateIn(acts, x), x, a, threw);
      if threw && Under(after, x, a) {
        assert a in t;
      }
    }
  }

  lemma PopAtTurn(w: World)
    requires Sound(w) && w.nices != []
    ensures var a := w.nices[0]; a < |w.acts| && AtTurn(w.(nices := w.nices[1..]), a)
  {
    PopRunning(w);
    hide Running, KidsScheduled, Tree;
  }

  lemma StepMoves(w: World, e: Event)
    requires Sound(w)
    ensures Tree(w.acts) && Tree(Step(w, e).acts) && Moves(w.acts, Step(w, e).acts, Threw(w, e))
    ensures Step(w, e).halted <==> w.halted || SomeRoot(w.acts, Threw(w, e))
  {
    SoundQueues(w);
    SoundQueues(Step(w, e));
    hide Sound, Moves, SomeRoot, LoopStep, Deliver;
    match e {
      case Turn(ch) => PassMoves(w, ch);
      case Message(to) => DeliverMoves(w, to);
    }
  }

  lemma DeliverMoves(w: World, to: nat)
    requires Sound(w) && Tree(Deliver(w, to).acts)
    ensures Moves(w.acts, Deliver(w, to).acts, {}) && Deliver(w, to).halted == w.halted
    ensures !SomeRoot(w.acts, {})
  {
    hide Sound, Moves;
    SameMoves(w.acts, Deliver(w, to).acts);
  }

  lemma PassMoves(w: World, ch: Choice)
    requires Sound(w) && InRange(w) && Tree(w.acts) && Tree(LoopStep(w, ch).acts)
    ensures Moves(w.acts, LoopStep(w, ch).acts, Threw(w, Turn(ch)))
    ensures LoopStep(w, ch).halted <==> w.halted || SomeRoot(w.acts, Threw(w, Turn(ch)))
  {
    PromoteSame(w);
    hide Sound, Moves;
    var w1 := Promote(w);
    if w.halted {
      SameMoves(w.acts, w.acts);
    } else if !ch.serve || w1.nices == [] {
      TreeSame(w.acts, w1.acts);
      SameMoves(w.acts, w1.acts);
    } else {
      hide Promote, SomeRoot, Throws, LoopStep, Threw;
      TurnMoves(w, ch);
    }
  }

  lemma TurnMoves(w: World, ch: Choice)
    requires Sound(w) && InRange(w) && Tree(w.acts) && !w.halted && ch.serve && Promote(w).nices != []
    requires Tree(LoopStep(w, ch).acts)
    ensures Moves(w.acts, LoopStep(w, ch).acts, Threw(w, Turn(ch)))
    ensures LoopStep(w, ch).halted <==> SomeRoot(w.acts, Threw(w, Turn(ch)))
  {
    var a, w2 := ServedIs(w, ch);
    hide Sound, Moves, AtTurn, RunAction, Promote, SomeRoot, Throws, Tree, LoopStep, Served;
    ServedMoves(w, w2, a, ch);
  }

  // The action that has its turn, and the world it finds.
  lemma ServedIs(w: World, ch: Choice) returns (a: nat, w2: World)
    requires Sound(w) && InRange(w) && Tree(w.acts) && !w.halted && ch.serve && Promote(w).nices != []
    ensures Tree(w2.acts) && |w2.acts| == |w.acts| && a < |w.acts| && w2.halted == w.halted && AtTurn(w2, a)
    ensures forall y :: 0 <= y < |w.acts| ==> w2.acts[y] == w.acts[y].(nice := w2.acts[y].nice)
    ensures Served(w) == Some(a) && LoopStep(w, ch) == RunAction(w2, a, ch)
  {
    PromoteSound(w);
    PromoteKeeps(w);
    PromoteHalts(w);
    var w1 := Promote(w);
    a, w2 := w1.nices[0], w1.(nices := w1.nices[1..]);
    PopAtTurn(w1);
    AtTurnTree(w2, a);
    assert LoopStep(w, ch) == AfterRun(RunAction(w2, a, ch), a) by {
      hide Sound, Tree, AtTurn, RunAction, AfterRun;
    }
    hide Sound, Tree, AtTurn, RunAction, Promote, LoopStep;
    AtTurnSound(w2, a, ch);
    AfterRunNothing(RunAction(w2, a, ch), a);
  }

  lemma PromoteHalts(w: World)
    requires InRange(w)
    ensures Promote(w).halted == w.halted
  {
  }

  lemma AtTurnSound(w: World, a: nat, ch: Choice)
    requires AtTurn(w, a)
    ensures Sound(RunAction(w, a, ch))
  {
    RunActionSound(w, a, ch);
  }

  // `w2` is `w` but for the queues and the mark that an action has moved between them.
  lemma ServedMoves(w: World, w2: World, a: nat, ch: Choice)
    requires AtTurn(w2, a) && |w2.acts| == |w.acts| && w2.halted == w.halted && Tree(w2.acts) && a < |w.acts|
    requires forall y :: 0 <= y < |w.acts| ==> w2.acts[y] == w.acts[y].(nice := w2.acts[y].nice)
    ensures Tree(RunAction(w2, a, ch).acts)
    ensures var t := if Throws(w.acts, a, ch) then {a} else {};
      && Moves(w.acts, RunAction(w2, a, ch).acts, t)
      && (RunAction(w2, a, ch).halted <==> w.halted || SomeRoot(w.acts, t))
  {
    hide AtTurn, Ends, RunAction, Tree;
    TurnOutcome(w2, a, ch);
    var after := RunAction(w2, a, ch).acts;
    var threw := Throws(w.acts, a, ch);
    assert Throws(w2.acts, a, ch) == threw;
    EndsMoves(w2.acts, after, a, threw);
    MovesFrom(w.acts, w2.acts, after, if threw then {a} else {});
  }

  lemma MovesFrom(acts: Acts, acts1: Acts, after: Acts, threw: set<nat>)
    requires Tree(after) && Moves(acts1, after, threw) && |acts1| == |acts|
    requires forall x :: 0 <= x < |acts| ==> acts1[x].parent == acts[x].parent && acts1[x].state == acts[x].state
    ensures Moves(acts, after, threw)
  {
    hide Tree, HasFailedKid, UnderSome;
    assert forall x :: 0 <= x < |after| ==> StateIn(acts, x) == StateIn(acts1, x);
  }

  // ---------------------------------------------------------------- whole runs

  /** The actions whose turns end in exceptions in a run. */
  ghost function AllThrew(w: World, events: seq<Event>): set<nat>
    requires Sound(w)
    decreases |events|
  {
    if events == [] then {} else Threw(w, events[0]) + AllThrew(Step(w, events[0]), events[1..])
  }

  /** Every failure comes from an exception or from a failed child, every cancelled action is under one that threw,
      and whatever threw has failed. */
  ghost predicate Blamed(acts: Acts, threw: set<nat>)
    requires Tree(acts)
  {
    && (forall x :: x in threw ==> x < |acts| && acts[x].state.Failed?)
    && forall x :: 0 <= x < |acts| ==>
         && (acts[x].state.Failed? ==> x in threw || HasFailedKid(acts, x))
         && (acts[x].state.Cancelled? ==> UnderSome(acts, x, threw))
  }

  lemma BlamedMoves(acts: Acts, after: Acts, threw: set<nat>, now: set<nat>)
    requires Tree(acts) && Tree(after) && Blamed(acts, threw) && Moves(acts, after, now)
    ensures Blamed(after, threw + now)
  {
    hide Tree, HasFailedKid, UnderSome;
    forall x | 0 <= x < |after|
      ensures after[x].state.Failed? ==> x in threw + now || HasFailedKid(after, x)
      ensures after[x].state.Cancelled? ==> UnderSome(after, x, threw + now)
    {
      if x < |acts| && acts[x].state.Failed? && x !in threw {
        FailedStays(acts, after, x, now);
      }
      if UnderSome(after, x, now) {
        SomeMore(after, after, x, now, threw + now);
      }
      if x < |acts| && UnderSome(acts, x, threw) {
        SomeMore(acts, after, x, threw, threw + now);
      }
    }
  }

  lemma FailedStays(acts: Acts, after: Acts, x: nat, now: set<nat>)
    requires Tree(after) && Moves(acts, after, now) && HasFailedKid(acts, x)
    ensures HasFailedKid(after, x)
  {
    hide Tree, UnderSome, HasFailedKid;
    forall y | 0 <= y < |acts| ensures after[y].parent == acts[y].parent
      ensures acts[y].state.Failed? ==> after[y].state.Failed?
    {
      assert StateIn(acts, y) == acts[y].state;
    }
    FailedKidStays(acts, after, x);
  }

  lemma SomeMore(acts: Acts, after: Acts, x: nat, threw: set<nat>, more: set<nat>)
    requires Tree(acts) && Tree(after) && UnderSome(acts, x, threw) && threw <= more && |acts| <= |after|
    requires forall y :: 0 <= y < |acts| ==> after[y].parent == acts[y].parent
    ensures UnderSome(after, x, more)
  {
    hide Tree, Under;
    var a :| a in threw && Under(acts, x, a);
    UnderKept(acts, after, x, a);
  }

  lemma RootMore(acts: Acts, after: Acts, threw: set<nat>, now: set<nat>)
    requires |acts| <= |after| && forall y :: 0 <= y < |acts| ==> after[y].parent == acts[y].parent
    requires forall x :: x in threw ==> x < |acts|
    requires forall x :: x in now ==> x < |acts|
    ensures SomeRoot(after, threw + now) <==> SomeRoot(acts, threw) || SomeRoot(acts, now)
  {
    if SomeRoot(after, threw + now) {
      var a :| a in threw + now && a < |after| && after[a].parent == NO_PARENT;
      assert acts[a].parent == NO_PARENT;
    }
    if SomeRoot(acts, threw) {
      var a :| a in threw && a < |acts| && acts[a].parent == NO_PARENT;
      assert a in threw + now && after[a].parent == NO_PARENT;
    }
    if SomeRoot(acts, now) {
      var a :| a in now && a < |acts| && acts[a].parent == NO_PARENT;
      assert a in threw + now && after[a].parent == NO_PARENT;
    }
  }

  lemma {:induction false} RunBlamed(w: World, events: seq<Event>, threw: set<nat>)
    requires Sound(w) && Tree(w.acts) && Blamed(w.acts, threw) && (w.halted <==> SomeRoot(w.acts, threw))
    ensures var end, all := Run(w, events), threw + AllThrew(w, events);
      Tree(end.acts) && Blamed(end.acts, all) && (end.halted <==> SomeRoot(end.acts, all))
    decreases |events|
  {
    hide Sound, Tree, Blamed, Threw, Step, SomeRoot;
    if events == [] {
      assert threw + AllThrew(w, events) == threw;
    } else {
      var w1, now := Step(w, events[0]), Threw(w, events[0]);
      StepMoves(w, events[0]);
      BlamedMoves(w.acts, w1.acts, threw, now);
      ThrewOld(w, events[0]);
      BlamedOld(w.acts, threw);
      MovesOld(w.acts, w1.acts, now);
      RootMore(w.acts, w1.acts, threw, now);
      RunBlamed(w1, events[1..], threw + now);
      assert threw + AllThrew(w, events) == threw + now + AllThrew(w1, events[1..]);
    }
  }

  lemma ThrewOld(w: World, e: Event)
    requires Sound(w)
    ensures forall x :: x in Threw(w, e) ==> x < |w.acts|
  {
    hide Sound;
  }

  lemma BlamedOld(acts: Acts, threw: set<nat>)
    requires Tree(acts) && Blamed(acts, threw)
    ensures forall x :: x in threw ==> x < |acts|
  {
    hide Tree;
  }

  lemma MovesOld(acts: Acts, after: Acts, threw: set<nat>)
    requires Tree(after) && Moves(acts, after, threw)
    ensures |acts| <= |after| && forall y :: 0 <= y < |acts| ==> after[y].parent == acts[y].parent
  {
    hide Tree;
  }

  /** `x`, or an action under it, threw. */
  ghost predicate ThrewWithin(acts: Acts, threw: set<nat>, x: nat)
    requires Tree(acts)
  {
    exists y :: y in threw && (y == x || Under(acts, y, x))
  }

  lemma {:induction false} FailedWithin(acts: Acts, threw: set<nat>, x: nat)
    requires Tree(acts) && Blamed(acts, threw) && x < |acts| && acts[x].state.Failed?
    ensures ThrewWithin(acts, threw, x)
    decreases |acts| - x
  {
    if x !in threw {
      var c :| 0 <= c < |acts| && acts[c].parent == x && acts[c].state.Failed?;
      FailedWithin(acts, threw, c);
      var y :| y in threw && (y == c || Under(acts, y, c));
      UnderParent(acts, c, x);
      if y != c {
        UnderTrans(acts, y, c, x);
      }
    }
  }

  /** In a run from actions none of which has failed or been cancelled: an action that is over has failed exactly
      if its own turn or one of an action under it ended in an exception; what is cancelled is under an action
      that threw; and the loop is left exactly when a root threw. */
  lemma RunOutcomes(w: World, events: seq<Event>, x: nat)
    requires Sound(w) && Tree(w.acts) && !w.halted
    requires forall y :: 0 <= y < |w.acts| ==> !w.acts[y].state.Failed? && !w.acts[y].state.Cancelled?
    ensures var end, threw := Run(w, events), AllThrew(w, events);
      && Tree(end.acts) && (end.halted <==> SomeRoot(end.acts, threw))
      && (x < |end.acts| && end.acts[x].state.Failed? ==> ThrewWithin(end.acts, threw, x))
      && (x < |end.acts| && Terminal(end.acts[x].state) && ThrewWithin(end.acts, threw, x) ==>
            end.acts[x].state.Failed?)
      && (x < |end.acts| && end.acts[x].state.Cancelled? ==> UnderSome(end.acts, x, threw))
  {
    hide Sound, Tree, Run, AllThrew, HasFailedKid, UnderSome;
    var end, threw := Run(w, events), AllThrew(w, events);
    RunBlamed(w, events, {});
    assert {} + threw == threw;
    if x < |end.acts| {
      if end.acts[x].state.Failed? {
        FailedWithin(end.acts, threw, x);
      }
      if Terminal(end.acts[x].state) && ThrewWithin(end.acts, threw, x) {
        SoundInOrder(end);
        var y :| y in threw && (y == x || Under(end.acts, y, x));
        if y != x {
          OutcomeBelow(end.acts, y, x);
        }
      }
    }
  }

  lemma SoundInOrder(w: World)
    requires Sound(w)
    ensures InOrder(w.acts)
  {
  }

  predicate NoneThrows(events: seq<Event>) {
    forall i :: 0 <= i < |events| && events[i].Turn? ==> !events[i].ch.throws && !events[i].ch.throwsKids
  }

  lemma {:induction false} NoneThrew(w: World, events: seq<Event>)
    requires Sound(w) && NoneThrows(events)
    ensures AllThrew(w, events) == {}
    decreases |events|
  {
    hide Sound;
    if events != [] {
      assert events[0].Turn? ==> !events[0].ch.throws && !events[0].ch.throwsKids;
      NoneThrew(Step(w, events[0]), events[1..]);
    }
  }

  /** When nothing throws no action fails or is cancelled, and the loop is not left. */
  lemma NothingFails(w: World, events: seq<Event>)
    requires Sound(w) && !w.halted && NoneThrows(events)
    requires forall y :: 0 <= y < |w.acts| ==> !w.acts[y].state.Failed? && !w.acts[y].state.Cancelled?
    ensures var end := Run(w, events);
      !end.halted && forall x :: 0 <= x < |end.acts| ==> !end.acts[x].state.Failed? && !end.acts[x].state.Cancelled?
  {
    SoundInOrder(w);
    hide Sound, Run, Tree, Under;
    NoneThrew(w, events);
    RunOutcomes(w, events, 0);
    forall x | 0 <= x < |Run(w, events).acts|
      ensures !Run(w, events).acts[x].state.Failed? && !Run(w, events).acts[x].state.Cancelled?
    {
      RunOutcomes(w, events, x);
    }
  }

  /** A worker that nothing throws in finishes everything: after any run, once nothing is created any more, enough
      quiet turns leave every scheduled action finished. */
  lemma AllFinish(w: World, events: seq<Event>, quiet: seq<Event>)
    requires Sound(w) && !w.halted && NoneThrows(events) && NoneThrows(quiet)
    requires forall y :: 0 <= y < |w.acts| ==> !w.acts[y].state.Failed? && !w.acts[y].state.Cancelled?
    requires QuietRun(Run(w, events), quiet) && Turns(quiet) >= Enough(|Run(w, events).acts|)
    ensures var end := Run(Run(w, events), quiet);
      !end.halted && forall x :: 0 <= x < |end.acts| && end.acts[x].scheduled == 1 ==> end.acts[x].state.Finished?
  {
    hide Sound, Run, QuietRun, Turns, Enough, NoneThrows;
    NothingFails(w, events);
    NothingFails(Run(w, events), quiet);
    RunEnds(Run(w, events), quiet);
  }

  // ---------------------------------------------------------------- waiting for messages

  predicate Broken(s: State) {
    s.Failed? || s.Cancelled?
  }

  /** What happens to the others: nobody expects other messages than before, and a state changes only by a failure
      or by being cancelled. Of `a` itself the messages, unless it has just begun. */
  ghost predicate Others(acts: Acts, after: Acts, a: nat, began: bool) {
    && |acts| <= |after|
    && forall x :: 0 <= x < |acts| ==>
         && (x != a || !began ==> after[x].awaiting == acts[x].awaiting)
         && (x != a ==> after[x].state == acts[x].state || Broken(after[x].state))
  }

  lemma OthersTrans(acts: Acts, acts1: Acts, after: Acts, a: nat, began: bool)
    requires Others(acts, acts1, a, began) && Others(acts1, after, a, began)
    ensures Others(acts, after, a, began)
  {
  }

  lemma CleanOthers(acts: Acts, a: nat, s: State)
    requires InOrder(acts) && a < |acts| && Terminal(s) && (s.Finished? ==> KidsOver(acts, a))
    requires if Terminal(acts[a].state) then s == acts[a].state else !s.Cancelled?
    ensures Others(acts, CleanUp(WithState(acts, a, s), a), a, false)
  {
    hide Tree, NodeOk, KidsOver;
    CleanInOrder(acts, a, s);
    var acts0 := WithState(acts, a, s);
    var after := CleanUp(acts0, a);
    forall x | 0 <= x < |acts|
      ensures after[x].awaiting == acts[x].awaiting
      ensures x != a ==> after[x].state == acts[x].state || Broken(after[x].state)
    {
      assert after[x] == acts0[x].(state := after[x].state, repeats := after[x].repeats);
    }
  }

  lemma FailOthers(w: World, a: nat)
    requires Tree(w.acts) && a < |w.acts| && Running(w, a) && !Terminal(w.acts[a].state)
    ensures Others(w.acts, Fail(w, a).acts, a, false)
  {
    RunningInOrder(w, a);
    hide KidsOver, Running, Others, CleanUp, Tree;
    CleanOthers(w.acts, a, Failed);
  }

  lemma FinishOthers(w: World, a: nat)
    requires Tree(w.acts) && a < |w.acts| && Running(w, a) && !Terminal(w.acts[a].state) && KidsOver(w.acts, a)
    ensures Others(w.acts, Remove(w.(acts := CleanUp(WithState(w.acts, a, Finished), a)), a).acts, a, false)
  {
    RunningInOrder(w, a);
    CleanSound(w, a, Finished);
    RemoveNothing(w.(acts := CleanUp(WithState(w.acts, a, Finished), a)), a);
    hide KidsOver, Running, Others, CleanUp, Tree;
    CleanOthers(w.acts, a, Finished);
  }

  lemma WaitOthers(w: World, a: nat, s: State)
    requires Tree(w.acts) && a < |w.acts| && Running(w, a) && !Terminal(w.acts[a].state)
    requires (s.WaitingMessages? && KidsScheduled(w.acts, a, 0)) || (s.WaitingChildren? && KidsScheduled(w.acts, a, 1))
    ensures Others(w.acts, Wait(w.(acts := WithState(w.acts, a, s)), a).acts, a, false)
  {
    WaitSound(w, a, s);
    hide Tree, Running, Sound, KidsScheduled, Wait;
  }

  lemma ChildrenOthers(w: World, a: nat, ch: Choice)
    requires Tree(w.acts) && a < |w.acts| && Running(w, a) && !Terminal(w.acts[a].state) && KidsScheduled(w.acts, a, 1)
    ensures Others(w.acts, RunWaitingChildren(w, a, ch).acts, a, false)
  {
    hide KidsScheduled, Others, Tree, Running;
    if ch.throwsKids {
      FailOthers(w, a);
    } else if !KidsOver(w.acts, a) {
      WaitOthers(w, a, WaitingChildren);
    } else {
      FinishOthers(w, a);
    }
  }

  lemma OnlyScheduledOthers(w: World, w1: World, a: nat)
    requires OnlyScheduled(w, w1)
    ensures Others(w.acts, w1.acts, a, false)
  {
  }

  lemma ProceedOthers(w: World, a: nat, throws: bool)
    requires Tree(w.acts) && a < |w.acts| && Running(w, a) && !Terminal(w.acts[a].state) && KidsScheduled(w.acts, a, 0)
    ensures Others(w.acts, Proceed(w, a, throws).acts, a, false)
  {
    hide KidsScheduled, Others, Tree, Running;
    if throws {
      FailOthers(w, a);
    } else if w.acts[a].awaiting == 0 {
      if w.acts[a].kids == [] {
        AtOnceOthers(w, a);
      } else {
        KidsUpToNone(w.acts, a);
        ScheduleKidsRunning(w, a, 0);
        var w1 := ScheduleKids(w, a, 0);
        OnlyScheduledOthers(w, w1, a);
        WaitOthers(w1, a, WaitingChildren);
        OthersTrans(w.acts, w1.acts, Proceed(w, a, throws).acts, a, false);
      }
    } else {
      WaitOthers(w, a, WaitingMessages);
    }
  }

  lemma AtOnceOthers(w: World, a: nat)
    requires Tree(w.acts) && a < |w.acts| && Running(w, a) && !Terminal(w.acts[a].state)
    ensures Others(w.acts, Remove(w.(acts := WithState(w.acts, a, Finished)), a).acts, a, false)
  {
    AtOnceEnds(w, a);
    hide Tree, Running, Ends, Remove;
  }

  lemma BeginOthers(w: World, a: nat, ch: Choice)
    requires AtTurn(w, a) && w.acts[a].state.Idle?
    ensures Others(w.acts, Begin(w, a, ch).acts, a, true)
  {
    hide Running, KidsScheduled, Tree, Spawn;
    var w0 := w.(acts := w.acts[a := w.acts[a].(state := Started, processed := w.acts[a].processed + 1,
                                               awaiting := ch.topics)]);
    BeginRunning(w, a, ch);
    SpawnRunning(w0, a, ch.spawn);
  }

  lemma TurnOthers(w: World, a: nat, ch: Choice)
    requires AtTurn(w, a)
    ensures Others(w.acts, RunAction(w, a, ch).acts, a, w.acts[a].state.Idle?)
  {
    hide Others;
    match w.acts[a].state {
      case Idle => IdleOthers(w, a, ch);
      case WaitingMessages => MessagesOthers(w, a, ch);
      case WaitingChildren => ChildrenOthers(w, a, ch);
      case _ => OverOthers(w, a, ch);
    }
  }

  lemma IdleOthers(w: World, a: nat, ch: Choice)
    requires AtTurn(w, a) && w.acts[a].state.Idle?
    ensures Others(w.acts, RunAction(w, a, ch).acts, a, true)
  {
    BeginOthers(w, a, ch);
    BeginStates(w, a, ch);
    AtTurnTree(w, a);
    IdleRuns(w, a, ch);
    hide *;
    var w1 := Begin(w, a, ch);
    BegunOthers(w, w1, a, ch.throws);
  }

  lemma BegunOthers(w: World, w1: World, a: nat, throws: bool)
    requires Tree(w1.acts) && a < |w1.acts| && Running(w1, a) && KidsScheduled(w1.acts, a, 0)
    requires w1.acts[a].state.Started? && Others(w.acts, w1.acts, a, true)
    ensures Others(w.acts, Proceed(w1, a, throws).acts, a, true)
  {
    hide Running, KidsScheduled, Tree, Proceed;
    ProceedOthers(w1, a, throws);
  }

  lemma MessagesOthers(w: World, a: nat, ch: Choice)
    requires AtTurn(w, a) && w.acts[a].state.WaitingMessages?
    ensures Others(w.acts, RunAction(w, a, ch).acts, a, false)
  {
    hide Others;
    if ch.throws {
      FailOthers(w, a);
    } else if w.acts[a].awaiting != 0 {
      assert WithState(w.acts, a, WaitingMessages) == w.acts;
      hide Running, KidsScheduled, Tree;
      WaitOthers(w, a, WaitingMessages);
    } else {
      KidsUpToNone(w.acts, a);
      ScheduleKidsRunning(w, a, 0);
      var w1 := ScheduleKids(w, a, 0);
      hide Running, KidsScheduled, Tree, KidsOver;
      OnlyScheduledOthers(w, w1, a);
      ChildrenOthers(w1, a, ch);
      OthersTrans(w.acts, w1.acts, RunWaitingChildren(w1, a, ch).acts, a, false);
    }
  }

  lemma OverOthers(w: World, a: nat, ch: Choice)
    requires AtTurn(w, a) && Terminal(w.acts[a].state)
    ensures Others(w.acts, RunAction(w, a, ch).acts, a, false)
  {
    OverRuns(w, a, ch);
    AtTurnTree(w, a);
    RunningOver(w, a);
    hide *;
    CleanOthers(w.acts, a, w.acts[a].state);
    SameState(w.acts, a);
  }

  lemma SameState(acts: Acts, a: nat)
    requires Tree(acts) && a < |acts|
    ensures WithState(acts, a, acts[a].state) == acts
  {
    hide Tree;
  }

  lemma RunningOver(w: World, a: nat)
    requires AtTurn(w, a) && Terminal(w.acts[a].state)
    ensures InOrder(w.acts) && KidsOver(w.acts, a)
  {
    FinishedOver(w.acts, a);
  }

  // How many messages to `x` arrive.
  function Arrivals(events: seq<Event>, x: nat): nat {
    if events == [] then 0 else (if events[0] == Message(x) then 1 else 0) + Arrivals(events[1..], x)
  }

  ghost predicate Waits(t: Act, n: nat) {
    Broken(t.state) || (t.state.WaitingMessages? && t.awaiting == n)
  }

  lemma StepWaits(w: World, e: Event, x: nat)
    requires Sound(w) && x < |w.acts| && w.acts[x].state.WaitingMessages? && w.acts[x].awaiting > 0
    ensures var w', n := Step(w, e), w.acts[x].awaiting - (if e == Message(x) then 1 else 0);
      x < |w'.acts| && Waits(w'.acts[x], n)
  {
    SoundQueues(w);
    hide Sound, LoopStep, Waits;
    match e {
      case Turn(ch) => PassWaits(w, ch, x);
      case Message(to) => DeliverWaits(w, to, x);
    }
  }

  lemma DeliverWaits(w: World, to: nat, x: nat)
    requires x < |w.acts| && w.acts[x].state.WaitingMessages? && w.acts[x].awaiting > 0
    ensures Waits(Deliver(w, to).acts[x], w.acts[x].awaiting - if to == x then 1 else 0)
  {
  }

  lemma PassWaits(w: World, ch: Choice, x: nat)
    requires Sound(w) && InRange(w) && Tree(w.acts)
    requires x < |w.acts| && w.acts[x].state.WaitingMessages? && w.acts[x].awaiting > 0
    ensures x < |LoopStep(w, ch).acts| && Waits(LoopStep(w, ch).acts[x], w.acts[x].awaiting)
  {
    PromoteKeeps(w);
    hide Sound, Tree;
    if !w.halted && ch.serve && Promote(w).nices != [] {
      var a, w2 := ServedIs(w, ch);
      hide LoopStep, Promote;
      TurnWaits(w2, a, ch, x);
    }
  }

  lemma TurnWaits(w: World, a: nat, ch: Choice, x: nat)
    requires AtTurn(w, a) && Tree(w.acts) && a < |w.acts|
    requires x < |w.acts| && w.acts[x].state.WaitingMessages? && w.acts[x].awaiting > 0
    ensures x < |RunAction(w, a, ch).acts| && Waits(RunAction(w, a, ch).acts[x], w.acts[x].awaiting)
  {
    hide AtTurn, Ends, RunAction, Tree, HasFailedKid, KidsOver;
    TurnOutcome(w, a, ch);
    TurnOthers(w, a, ch);
  }

  /** An action that waits for messages goes on waiting, unless it fails or is cancelled, until as many have arrived
      as it expects; every one counts once. */
  lemma {:induction false} StillWaiting(w: World, events: seq<Event>, x: nat)
    requires Sound(w) && x < |w.acts| && w.acts[x].state.WaitingMessages?
    requires Arrivals(events, x) < w.acts[x].awaiting
    ensures var end := Run(w, events);
      x < |end.acts| && Waits(end.acts[x], w.acts[x].awaiting - Arrivals(events, x))
    decreases |events|
  {
    hide Sound, Step;
    if events != [] {
      var w1 := Step(w, events[0]);
      StepWaits(w, events[0], x);
      if Broken(w1.acts[x].state) {
        RunKeeps(w1, events[1..], x);
      } else {
        StillWaiting(w1, events[1..], x);
      }
    }
  }
}
