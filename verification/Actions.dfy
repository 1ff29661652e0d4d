/** Actions and the event master as objects. Their methods are proved to compute the steps of
module ActionLoop on the values the objects stand for.
*/
module Actions {
  import opened ActionTree
  import opened Lists
  import Loop = ActionLoop

  /** `id`, `scheduled` and `processed` are bookkeeping: the place in the worker's list of actions,
      and how often the action was put into the queues by its parent and processed. */
  class Action {
    const id: nat
    var state: State
    var parent: Action?
    var children: seq<Action>
    var expectMessageTopics: nat
    var repeats: int
    var nice: bool
    var scheduled: nat
    var processed: nat

    constructor (id: nat)
      ensures this.id == id && View() == Act(Idle, NO_PARENT, [], 0, 0, false, 0, 0) && children == []
    {
      this.id := id;
      state, parent, children, expectMessageTopics := Idle, null, [], 0;
      repeats, nice, scheduled, processed := 0, false, 0, 0;
    }

    /** The action as a value. */
    ghost function View(): Act
      reads this
    {
      Act(state, if parent == null then NO_PARENT else parent.id, Ids(children), expectMessageTopics, repeats, nice,
          scheduled, processed)
    }
  }

  ghost function Ids(s: seq<Action>): (r: seq<nat>)
    ensures |r| == |s| && forall i :: 0 <= i < |s| ==> r[i] == s[i].id
  {
    seq(|s|, i requires 0 <= i < |s| => s[i].id)
  }

  ghost function Views(all: seq<Action>): (r: Acts)
    reads all
    ensures |r| == |all| && forall i :: 0 <= i < |all| ==> r[i] == all[i].View()
  {
    seq(|all|, i requires 0 <= i < |all| reads all => all[i].View())
  }

  /** Actions are numbered as they were created, and their children are among them. */
  ghost predicate Numbered(all: seq<Action>)
    reads all
  {
    && (forall i :: 0 <= i < |all| ==> all[i].id == i)
    && (forall i, k :: 0 <= i < |all| && 0 <= k < |all[i].children| ==>
          all[i].children[k].id < |all| && all[all[i].children[k].id] == all[i].children[k])
  }

  ghost predicate In(all: seq<Action>, a: Action) {
    a.id < |all| && all[a.id] == a
  }

  ghost predicate AllIn(all: seq<Action>, q: seq<Action>) {
    forall i :: 0 <= i < |q| ==> In(all, q[i])
  }

  lemma AllInMore(all: seq<Action>, more: seq<Action>, q: seq<Action>)
    requires AllIn(all, q) && all <= more
    ensures AllIn(more, q)
  {
  }

  lemma AllInAppend(all: seq<Action>, q: seq<Action>, a: Action)
    requires AllIn(all, q) && In(all, a)
    ensures AllIn(all, q + [a]) && Ids(q + [a]) == Ids(q) + [a.id]
  {
  }

  lemma AllInTail(all: seq<Action>, q: seq<Action>)
    requires AllIn(all, q) && q != []
    ensures In(all, q[0]) && AllIn(all, q[1..])
  {
  }

  // ---------------------------------------------------------------- single fields

  method SetState(a: Action, s: State, ghost all: seq<Action>)
    requires Numbered(all) && In(all, a)
    modifies a`state
    ensures Numbered(all) && a.state == s && Views(all) == old(Views(all))[a.id := old(Views(all))[a.id].(state := s)]
  {
    a.state := s;
  }

  method SetRepeats(a: Action, n: int, ghost all: seq<Action>)
    requires Numbered(all) && In(all, a)
    modifies a`repeats
    ensures Numbered(all) && a.repeats == n
      && Views(all) == old(Views(all))[a.id := old(Views(all))[a.id].(repeats := n)]
  {
    a.repeats := n;
  }

  method SetNice(a: Action, ghost all: seq<Action>)
    requires Numbered(all) && In(all, a)
    modifies a`nice
    ensures Numbered(all) && a.nice && Views(all) == old(Views(all))[a.id := old(Views(all))[a.id].(nice := true)]
  {
    a.nice := true;
  }

  method CountScheduled(a: Action, ghost all: seq<Action>)
    requires Numbered(all) && In(all, a)
    modifies a`scheduled
    ensures Numbered(all)
    ensures Views(all) ==
      old(Views(all))[a.id := old(Views(all))[a.id].(scheduled := old(Views(all))[a.id].scheduled + 1)]
  {
    a.scheduled := a.scheduled + 1;
  }

  // ---------------------------------------------------------------- clean-up

  /** Loop through all children to clean up, and stop repeating. */
  method CleanUpAction(a: Action, ghost all: seq<Action>)
    requires Numbered(all) && In(all, a) && Tree(Views(all))
    modifies all`state, all`repeats
    ensures Numbered(all) && Views(all) == ActionTree.CleanUp(old(Views(all)), a.id)
    decreases |all| - a.id, 1
  {
    hide Tree, Numbered, AllIn, CleanKid;
    ghost var acts := Views(all);
    var k := 0;
    while k < |a.children|
      invariant k <= |a.children| && a.children == old(a.children)
      invariant Numbered(all) && Tree(Views(all)) && SameShape(acts, Views(all))
      invariant CleanKids(Views(all), a.id, k) == CleanKids(acts, a.id, 0)
    {
      ChildIn(all, a, k);
      CleanChild(a, a.children[k], all);
      k := k + 1;
    }
    SetRepeats(a, 0, all);
  }

  // One child is cleaned up unless it is over already, and its failure passed on.
  method CleanChild(a: Action, action: Action, ghost all: seq<Action>)
    requires Numbered(all) && In(all, a) && In(all, action) && a.id < action.id && Tree(Views(all))
    modifies all`state, all`repeats
    ensures Numbered(all) && Views(all) == CleanKid(old(Views(all)), a.id, action.id)
    decreases |all| - action.id, 2
  {
    hide Tree, Numbered, AllIn, ActionTree.CleanUp, Views;
    ghost var acts := Views(all);
    if action.state != Finished && action.state != Failed {
      SetState(action, Cancelled, all);
      TreeSame(acts, Views(all));
      CleanUpAction(action, all);
    }
    if action.state == Failed {
      SetState(a, Failed, all);
    }
  }

  lemma ChildIn(all: seq<Action>, a: Action, k: nat)
    requires Numbered(all) && In(all, a) && Tree(Views(all)) && k < |a.children|
    ensures In(all, a.children[k]) && a.id < a.children[k].id
    ensures Views(all)[a.id].kids[k] == a.children[k].id
  {
    assert Views(all)[a.id] == a.View();
  }

  lemma ChildrenOver(all: seq<Action>, a: Action)
    requires Numbered(all) && In(all, a) && Tree(Views(all))
    ensures Loop.KidsOver(Views(all), a.id) <==> forall k :: 0 <= k < |a.children| ==> Terminal(a.children[k].state)
  {
    hide Tree, Numbered;
    var acts := Views(all);
    assert acts[a.id] == a.View();
    forall k | 0 <= k < |a.children|
      ensures acts[a.id].kids[k] < |acts| && acts[acts[a.id].kids[k]].state == a.children[k].state
    {
      ChildIn(all, a, k);
    }
  }

  // ---------------------------------------------------------------- the event master

  lemma {:induction false} WithoutIds(q: seq<Action>, a: Action, all: seq<Action>)
    requires In(all, a) && AllIn(all, q)
    ensures Ids(Without(q, a)) == Without(Ids(q), a.id) && AllIn(all, Without(q, a))
  {
    if q != [] {
      var rest := Without(q[1..], a);
      assert In(all, q[0]);
      assert Ids(q)[1..] == Ids(q[1..]);
      WithoutIds(q[1..], a, all);
      if q[0] != a {
        assert Without(q, a) == [q[0]] + rest;
        hide Ids, Without;
        IdsFirst(q[0], rest);
        WithoutFirst(Ids(q), a.id);
      }
    }
  }

  lemma IdsFirst(x: Action, q: seq<Action>)
    ensures Ids([x] + q) == [x.id] + Ids(q)
  {
  }

  lemma WithoutFirst(q: seq<nat>, a: nat)
    requires q != [] && q[0] != a
    ensures Without(q, a) == [q[0]] + Without(q[1..], a)
  {
  }

  class EventMaster {
    var priorities: seq<Action>
    var nices: seq<Action>
    var halted: bool
    var actions: seq<Action>

    constructor (actions: seq<Action>)
      ensures priorities == [] && nices == [] && !halted && this.actions == actions
    {
      priorities, nices, halted := [], [], false;
      this.actions := actions;
    }

    /** The queues and the actions as a value. */
    ghost function World(): Loop.World
      reads this, actions
    {
      Loop.World(Views(actions), Ids(priorities), Ids(nices), halted)
    }

    ghost predicate Valid()
      reads this, actions
    {
      && Numbered(actions) && Tree(Views(actions))
      && AllIn(actions, priorities) && AllIn(actions, nices)
    }

    method Schedule(event: Action)
      requires Valid() && In(actions, event)
      modifies this`priorities, this`nices
      ensures Valid() && World() == Loop.Schedule(old(World()), event.id)
    {
      hide Tree, Numbered, AllIn;
      AllInAppend(actions, nices, event);
      AllInAppend(actions, priorities, event);
      if event.nice {
        nices := nices + [event];
      } else {
        priorities := priorities + [event];
      }
    }

    method Remove(event: Action)
      requires Valid() && In(actions, event)
      modifies this`priorities, this`nices, event`repeats
      ensures Valid() && World() == Loop.Remove(old(World()), event.id)
    {
      hide Tree, Numbered, AllIn;
      ghost var acts := Views(actions);
      SetRepeats(event, 0, actions);
      TreeSame(acts, Views(actions));
      Unqueue(event);
    }

    // The list of the event's type loses the event.
    method Unqueue(event: Action)
      requires Valid() && In(actions, event)
      modifies this`priorities, this`nices
      ensures Valid() && World() == if event.nice then old(World()).(nices := Without(old(World()).nices, event.id))
                                    else old(World()).(priorities := Without(old(World()).priorities, event.id))
    {
      hide Tree, Numbered, AllIn;
      if event.nice {
        WithoutIds(nices, event, actions);
        nices := Without(nices, event);
      } else {
        WithoutIds(priorities, event, actions);
        priorities := Without(priorities, event);
      }
    }

    method Wait(a: Action)
      requires Valid() && In(actions, a)
      modifies this`priorities, this`nices, a`repeats
      ensures Valid() && World() == Loop.Wait(old(World()), a.id)
    {
      hide Tree, Numbered, AllIn;
      ghost var acts := Views(actions);
      SetRepeats(a, FOREVER, actions);
      TreeSame(acts, Views(actions));
      Remove(a);
      Schedule(a);
    }

    /** A parent schedules its children. */
    method ScheduleChildren(a: Action)
      requires Valid() && In(actions, a)
      modifies this`priorities, this`nices, actions`scheduled
      ensures Valid() && World() == Loop.ScheduleKids(old(World()), a.id, 0)
    {
      hide Views, Ids, Loop.ScheduleKid, Tree, Numbered, AllIn;
      ghost var w := World();
      var k := 0;
      while k < |a.children|
        modifies this`priorities, this`nices, actions`scheduled
        invariant k <= |a.children| && Valid()
        invariant SameShape(w.acts, World().acts)
          && Loop.ScheduleKids(World(), a.id, k) == Loop.ScheduleKids(w, a.id, 0)
      {
        ChildIn(actions, a, k);
        ScheduleChild(a.children[k]);
        k := k + 1;
      }
    }

    method ScheduleChild(c: Action)
      requires Valid() && In(actions, c)
      modifies this`priorities, this`nices, c`scheduled
      ensures Valid() && World() == Loop.ScheduleKid(old(World()), c.id)
    {
      hide Views, Ids, Tree, Numbered, AllIn, Loop.ScheduleKid, Loop.Schedule;
      ghost var w := World();
      CountScheduled(c, actions);
      TreeSame(w.acts, Views(actions));
      ScheduleKidIs(w, c.id, World());
      Schedule(c);
    }

    static lemma ScheduleKidIs(w: Loop.World, c: nat, counted: Loop.World)
      requires Tree(w.acts) && c < |w.acts|
      requires counted == w.(acts := w.acts[c := w.acts[c].(scheduled := w.acts[c].scheduled + 1)])
      ensures Loop.ScheduleKid(w, c) == Loop.Schedule(counted, c)
    {
      hide Tree, Loop.Schedule;
    }

    /** AddChild with a new action, which joins the worker's list. */
    method AddChild(p: Action)
      requires Valid() && In(actions, p)
      modifies this`actions, p`children
      ensures Valid() && World() == old(World()).(acts := Loop.Adopt(old(World().acts), p.id))
      ensures |actions| == |old(actions)| + 1 && old(actions) <= actions && fresh(actions[|old(actions)|])
      ensures var child := actions[|old(actions)|];
              p.children == old(p.children) + [child] && child.parent == p && child.state.Idle? && child.children == []
    {
      hide Tree, Numbered, AllIn, Views, Ids, Loop.Adopt;
      ghost var w, all := World(), actions;
      Loop.AdoptTree(w.acts, p.id);
      var child := new Action(|actions|);
      Attach(p, child, all);
      AllInMore(all, all + [child], priorities);
      AllInMore(all, all + [child], nices);
      actions := actions + [child];
    }

    /** Process of an action: what its code does is the choice `ch`. */
    method Process(a: Action, ch: Loop.Choice)
      requires Valid() && In(actions, a)
      modifies this`actions, actions
      ensures Valid() && In(actions, a) && old(actions) <= actions
      ensures forall k :: 0 <= k < |actions| ==> actions[k] in old(actions) || fresh(actions[k])
      ensures World() == Processed(old(World()), a.id, ch)
    {
      hide Views, Ids, Tree, Numbered, AllIn, Processed;
      ghost var w := World();
      StartProcess(a, ch.topics, actions);
      TreeSame(w.acts, Views(actions));
      ghost var w1 := World();
      assert w1.acts == w.acts[a.id := w.acts[a.id].(processed := w.acts[a.id].processed + 1, awaiting := ch.topics)];
      assert w1 == w.(acts := w1.acts);
      ProcessedIs(w, a.id, ch, w1.acts);
      SpawnAll(a, ch.spawn);
    }

    // What Process leaves behind.
    static ghost function Processed(w: Loop.World, a: nat, ch: Loop.Choice): Loop.World
      requires a < |w.acts|
    {
      var started := w.acts[a].(processed := w.acts[a].processed + 1, awaiting := ch.topics);
      w.(acts := Loop.Spawn(w.acts[a := started], a, ch.spawn))
    }

    static lemma ProcessedIs(w: Loop.World, a: nat, ch: Loop.Choice, started: Acts)
      requires a < |w.acts|
      requires started == w.acts[a := w.acts[a].(processed := w.acts[a].processed + 1, awaiting := ch.topics)]
      ensures Processed(w, a, ch) == w.(acts := Loop.Spawn(started, a, ch.spawn))
    {
    }

    static lemma BeginIsStartAndProcess(w: Loop.World, a: nat, ch: Loop.Choice)
      requires Tree(w.acts) && a < |w.acts|
      ensures Processed(w.(acts := WithState(w.acts, a, Started)), a, ch) == Loop.Begin(w, a, ch)
    {
      hide Loop.Spawn, Tree;
      var began := w.acts[a].(state := Started, processed := w.acts[a].processed + 1, awaiting := ch.topics);
      assert WithState(w.acts, a, Started)[a := began] == w.acts[a := began];
    }

    method SpawnAll(a: Action, spawn: seq<nat>)
      requires Valid() && In(actions, a)
      modifies this`actions, actions`children
      ensures Valid() && In(actions, a) && old(actions) <= actions
      ensures forall k :: 0 <= k < |actions| ==> actions[k] in old(actions) || fresh(actions[k])
      ensures World() == old(World()).(acts := Loop.Spawn(old(World()).acts, a.id, spawn))
    {
      hide Views, Ids, Tree, Numbered, AllIn;
      ghost var w := World();
      var n := 0;
      while n < |spawn|
        invariant n <= |spawn| && Valid() && In(actions, a) && old(actions) <= actions
        invariant forall k :: 0 <= k < |actions| ==> actions[k] in old(actions) || fresh(actions[k])
        invariant World() == w.(acts := World().acts)
        invariant Loop.Spawn(World().acts, a.id, spawn[n..]) == Loop.Spawn(w.acts, a.id, spawn)
      {
        assert spawn[n..][0] == spawn[n] && spawn[n..][1..] == spawn[n + 1..];
        assert forall k :: 0 <= k < |actions| ==> actions[k] in actions;
        SpawnOne(a, spawn[n]);
        n := n + 1;
      }
    }

    method SpawnOne(a: Action, p: nat)
      requires Valid() && In(actions, a)
      modifies this`actions, actions`children
      ensures Valid() && In(actions, a) && old(actions) <= actions
      ensures forall k :: 0 <= k < |actions| ==> actions[k] in old(actions) || fresh(actions[k])
      ensures World() == old(World()).(acts := if Loop.MayAdopt(old(World()).acts, a.id, p)
                                               then Loop.Adopt(old(World()).acts, p) else old(World()).acts)
    {
      hide Views, Ids, Tree, Numbered, AllIn;
      if p < |actions| && (p == a.id || (actions[p].state == Idle && actions[p].scheduled == 0)) {
        NumberedAt(actions, p);
        AddChild(actions[p]);
      }
    }

    /** Whether all children are over. */
    method ProcessChildren(a: Action) returns (over: bool)
      requires Valid() && In(actions, a)
      ensures over <==> Loop.KidsOver(Views(actions), a.id)
    {
      hide Views, Ids, Tree, Numbered, AllIn, Loop.KidsOver;
      ChildrenOver(actions, a);
      over := true;
      for k := 0 to |a.children|
        invariant forall j :: 0 <= j < k ==> Terminal(a.children[j].state)
      {
        var action := a.children[k];
        if action.state != Finished && action.state != Cancelled && action.state != Failed {
          return false;
        }
      }
    }

    // A hook threw: the action fails and is cleaned up; a root passes the exception out of the loop.
    method FailAndCleanUp(a: Action)
      requires Valid() && In(actions, a)
      modifies this`halted, actions`state, actions`repeats
      ensures Valid() && World() == Loop.Fail(old(World()), a.id)
    {
      hide Views, Ids, Tree, Numbered, AllIn, ActionTree.CleanUp;
      EndAndCleanUp(a, Failed);
      Throw(a);
    }

    // An action is over, and so is everything under it.
    method EndAndCleanUp(a: Action, s: State)
      requires Valid() && In(actions, a)
      modifies actions`state, actions`repeats
      ensures Valid()
      ensures World() == old(World()).(acts := ActionTree.CleanUp(WithState(old(World()).acts, a.id, s), a.id))
    {
      hide Views, Ids, Tree, Numbered, AllIn, ActionTree.CleanUp;
      ghost var acts := Views(actions);
      SetState(a, s, actions);
      TreeSame(acts, Views(actions));
      CleanUpAction(a, actions);
    }

    // An exception of a root leaves the loop.
    method Throw(a: Action)
      requires Valid() && In(actions, a)
      modifies this`halted
      ensures Valid() && World() == old(World()).(halted := old(halted) || Views(actions)[a.id].parent == NO_PARENT)
    {
      hide Tree, Numbered, AllIn;
      assert Views(actions)[a.id] == a.View();
      if a.parent == null {
        halted := true;
      }
    }

    method SetStateAndWait(a: Action, s: State)
      requires Valid() && In(actions, a)
      modifies this`priorities, this`nices, a`state, a`repeats
      ensures Valid() && World() == Loop.Wait(old(World()).(acts := WithState(old(World()).acts, a.id, s)), a.id)
    {
      hide Tree, Numbered, AllIn;
      ghost var w := World();
      SetState(a, s, actions);
      assert World() == w.(acts := WithState(w.acts, a.id, s));
      Wait(a);
    }

    method RunWaitingChildren(a: Action, ch: Loop.Choice)
      requires Valid() && In(actions, a)
      modifies this`priorities, this`nices, this`halted, actions`state, actions`repeats
      ensures Valid() && World() == Loop.RunWaitingChildren(old(World()), a.id, ch)
    {
      hide Views, Ids, Tree, Numbered, AllIn;
      ghost var w := World();
      if ch.throwsKids {
        FailAndCleanUp(a);
        return;
      }
      var over := ProcessChildren(a);
      if !over {
        SetStateAndWait(a, WaitingChildren);
        return;
      }
      EndAndCleanUp(a, Finished);
      Remove(a);
    }

    // What follows Process in an idle action's turn.
    method Proceed(a: Action, throws: bool)
      requires Valid() && In(actions, a)
      modifies this`priorities, this`nices, this`halted, actions`state, actions`repeats, actions`scheduled
      ensures Valid() && World() == Loop.Proceed(old(World()), a.id, throws)
    {
      hide Tree, Numbered, AllIn;
      ghost var w := World();
      if throws {
        FailAndCleanUp(a);
      } else if a.expectMessageTopics == 0 {
        if |a.children| == 0 {
          SetState(a, Finished, actions);
          TreeSame(w.acts, Views(actions));
          assert World() == w.(acts := WithState(w.acts, a.id, Finished));
          Remove(a);
        } else {
          ScheduleChildren(a);
          SetStateAndWait(a, WaitingChildren);
        }
      } else {
        SetStateAndWait(a, WaitingMessages);
      }
    }

    method FirstRun(a: Action, ch: Loop.Choice)
      requires Valid() && In(actions, a)
      modifies this, actions
      ensures Valid() && old(actions) <= actions
      ensures World() == Loop.Proceed(Loop.Begin(old(World()), a.id, ch), a.id, ch.throws)
    {
      hide Views, Ids, Tree, Numbered, AllIn;
      Begin(a, ch);
      Proceed(a, ch.throws);
    }

    // The action starts, and Process runs.
    method Begin(a: Action, ch: Loop.Choice)
      requires Valid() && In(actions, a)
      modifies this`actions, actions
      ensures Valid() && In(actions, a) && old(actions) <= actions
      ensures forall k :: 0 <= k < |actions| ==> actions[k] in old(actions) || fresh(actions[k])
      ensures World() == Loop.Begin(old(World()), a.id, ch)
    {
      hide Views, Ids, Tree, Numbered, AllIn, Loop.Spawn, Loop.Begin, Processed;
      ghost var w := World();
      SetState(a, Started, actions);
      TreeSame(w.acts, Views(actions));
      assert World() == w.(acts := WithState(w.acts, a.id, Started));
      Process(a, ch);
      BeginIsStartAndProcess(w, a.id, ch);
    }

    method RunWaitingMessages(a: Action, ch: Loop.Choice)
      requires Valid() && In(actions, a) && a.state == WaitingMessages
      modifies this, actions`state, actions`repeats, actions`scheduled
      ensures Valid() && actions == old(actions) && World() == Loop.RunAction(old(World()), a.id, ch)
    {
      hide Views, Ids, Tree, Numbered, AllIn;
      ghost var w := World();
      assert w.acts[a.id] == a.View();
      if ch.throws {
        FailAndCleanUp(a);
      } else if a.expectMessageTopics != 0 {
        SetStateAndWait(a, WaitingMessages);
        assert WithState(w.acts, a.id, WaitingMessages) == w.acts;
      } else {
        ScheduleChildren(a);
        RunWaitingChildren(a, ch);
      }
    }

    /** Run of an action. */
    method RunAction(a: Action, ch: Loop.Choice)
      requires Valid() && In(actions, a)
      modifies this, actions
      ensures Valid() && old(actions) <= actions
      ensures World() == Loop.RunAction(old(World()), a.id, ch)
    {
      hide Views, Ids, Tree, Numbered, AllIn, CleanUp;
      hide Loop.Proceed, Loop.Begin, Loop.Wait, Loop.ScheduleKids, Loop.Fail;
      assert World().acts[a.id] == a.View();
      match a.state {
        case Idle => FirstRun(a, ch);
        case WaitingMessages => RunWaitingMessages(a, ch);
        case WaitingChildren => RunWaitingChildren(a, ch);
        case Finished => CleanUpAction(a, actions); Remove(a);
        case Cancelled => CleanUpAction(a, actions);
        case Failed => CleanUpAction(a, actions);
        case Started => CleanUpAction(a, actions); halted := true;
      }
    }

    // The head of the priority queue moves on to the nice queue.
    method Promote()
      requires Valid() && Loop.InRange(World())
      modifies this`priorities, this`nices, actions`nice
      ensures Valid() && World() == Loop.Promote(old(World()))
    {
      hide Tree, Numbered, AllIn;
      if |priorities| > 0 {
        ghost var acts, ids := Views(actions), Ids(priorities);
        var event := priorities[0];
        AllInTail(actions, priorities);
        SetNice(event, actions);
        TreeSame(acts, Views(actions));
        AllInAppend(actions, nices, event);
        assert Ids(priorities[1..]) == ids[1..];
        priorities, nices := priorities[1..], nices + [event];
      }
    }

    /** One pass of the loop, which fetches an event, runs it and puts it back if it is to repeat. */
    method Pass(ch: Loop.Choice)
      requires Valid() && Loop.InRange(World())
      modifies this, actions
      ensures Valid() && World() == Loop.LoopStep(old(World()), ch)
      ensures Loop.Sound(old(World())) ==> Loop.Sound(World())
    {
      hide Tree, Numbered, AllIn, Loop.RunAction, Loop.AfterRun, Loop.Sound;
      ghost var w := World();
      if Loop.Sound(w) {
        Loop.LoopStepSound(w, ch);
      }
      if !halted {
        Promote();
        TreeSame(w.acts, World().acts);
        if ch.serve && |nices| > 0 {
          Serve(ch);
        }
      }
    }

    // The head of the nice queue is run.
    method Serve(ch: Loop.Choice)
      requires Valid() && Loop.InRange(World()) && !halted && |nices| > 0
      modifies this, actions
      ensures var w := old(World());
              Valid() && World() == Loop.AfterRun(Loop.RunAction(w.(nices := w.nices[1..]), w.nices[0], ch), w.nices[0])
    {
      hide Views, Ids, Tree, Numbered, AllIn, Loop.RunAction;
      ghost var w := World();
      var event := nices[0];
      AllInTail(actions, nices);
      assert Ids(nices[1..]) == w.nices[1..];
      nices := nices[1..];
      RunAction(event, ch);
      if !halted && Loop.Repeats(event.repeats) {
        PutBack(event);
      }
    }

    method PutBack(event: Action)
      requires Valid() && In(actions, event) && Loop.Repeats(event.repeats) && !halted
      modifies this`priorities, this`nices, event`repeats
      ensures Valid() && World() == Loop.AfterRun(old(World()), event.id)
    {
      hide Views, Ids, Tree, Numbered, AllIn;
      ghost var acts := Views(actions);
      SetRepeats(event, if event.repeats > 0 then event.repeats - 1 else event.repeats, actions);
      TreeSame(acts, Views(actions));
      Schedule(event);
    }
  }

  // A new action under `p`, and at the end of the list.
  method Attach(p: Action, child: Action, ghost all: seq<Action>)
    requires Numbered(all) && In(all, p) && child.id == |all| && child !in all
    requires child.View() == Act(Idle, NO_PARENT, [], 0, 0, false, 0, 0) && child.children == []
    modifies p`children, child`parent
    ensures Numbered(all + [child]) && Views(all + [child]) == Loop.Adopt(old(Views(all)), p.id)
    ensures p.children == old(p.children) + [child] && child.parent == p
  {
    ghost var acts := Views(all);
    child.parent := p;
    p.children := p.children + [child];
    assert Ids(p.children) == acts[p.id].kids + [|acts|];
    assert forall i :: 0 <= i < |all| ==> all[i] != child;
  }

  lemma NumberedAt(all: seq<Action>, p: nat)
    requires Numbered(all) && p < |all|
    ensures In(all, all[p])
  {
  }

  method StartProcess(a: Action, topics: nat, ghost all: seq<Action>)
    requires Numbered(all) && In(all, a)
    modifies a`processed, a`expectMessageTopics
    ensures Numbered(all)
    ensures Views(all) == old(Views(all))[a.id :=
      old(Views(all))[a.id].(processed := old(Views(all))[a.id].processed + 1, awaiting := topics)]
  {
    a.processed, a.expectMessageTopics := a.processed + 1, topics;
  }
}
