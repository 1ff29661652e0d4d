/** The writing side of message ports on one event loop, as a transition system.

A port's writer is put on the loop's write list when a message meets an empty out queue, and puts
itself back as long as messages are left. Which sockets can be written is a choice of every select.
*/
module Wakeup {
  import opened Lists

  datatype Message = Message(body: string, urgent: bool)

  /** `sent`: what has been written to the socket so far. */
  datatype Port = Port(fd: nat, out: seq<Message>, sent: seq<Message>, repeats: int)

  /** The ports, the write list and the ready list, and the sockets select watches for writing. */
  datatype Loop = Loop(ports: seq<Port>, writes: seq<nat>, ready: seq<nat>, writefd: set<nat>)

  // ---------------------------------------------------------------- the steps

  predicate InRange(s: Loop) {
    && (forall i :: 0 <= i < |s.writes| ==> s.writes[i] < |s.ports|)
    && (forall i :: 0 <= i < |s.ready| ==> s.ready[i] < |s.ports|)
  }

  function Schedule(s: Loop, p: nat): Loop
    requires p < |s.ports|
  {
    if s.ports[p].fd in s.writefd then s
    else s.(writefd := s.writefd + {s.ports[p].fd}, writes := s.writes + [p])
  }

  function Enqueue(out: seq<Message>, m: Message): seq<Message> {
    if m.urgent then [m] + out else out + [m]
  }

  function Post(s: Loop, p: nat, m: Message): Loop
    requires p < |s.ports|
  {
    var port := s.ports[p].(out := Enqueue(s.ports[p].out, m), repeats := 0);
    var s1 := s.(ports := s.ports[p := port]);
    if |port.out| == 1 then Schedule(s1, p) else s1
  }

  // The entries of a list whose socket is, or is not, among the given ones.
  function Picked(ports: seq<Port>, list: seq<nat>, fds: set<nat>, within: bool): (r: seq<nat>)
    requires forall i :: 0 <= i < |list| ==> list[i] < |ports|
    ensures forall i :: 0 <= i < |r| ==> r[i] < |ports|
  {
    if list == [] then []
    else if (ports[list[0]].fd in fds) == within then [list[0]] + Picked(ports, list[1..], fds, within)
    else Picked(ports, list[1..], fds, within)
  }

  function Fds(ports: seq<Port>, list: seq<nat>): set<nat> {
    set p | p in list && p < |ports| :: ports[p].fd
  }

  /** Select finds some of the watched sockets ready to be written, and they are watched no longer. */
  function Select(s: Loop, writable: set<nat>): Loop
    requires InRange(s)
  {
    var fds := writable * s.writefd;
    var picked := Picked(s.ports, s.writes, fds, true);
    s.(writes := Picked(s.ports, s.writes, fds, false), ready := s.ready + picked,
       writefd := s.writefd - Fds(s.ports, picked))
  }

  function RunWriter(port: Port): Port {
    if port.out == [] then port
    else port.(sent := port.sent + [port.out[0]], out := port.out[1..],
               repeats := if |port.out| > 1 then 1 else port.repeats)
  }

  /** The head of the ready list is run, and scheduled again if it asks to repeat. */
  function Turn(s: Loop): Loop
    requires InRange(s)
  {
    if s.ready == [] then s
    else
      var p := s.ready[0];
      var port := RunWriter(s.ports[p]);
      var s1 := s.(ready := s.ready[1..]);
      if port.repeats > 0 then Schedule(s1.(ports := s.ports[p := port.(repeats := port.repeats - 1)]), p)
      else s1.(ports := s.ports[p := port])
  }

  // A writer that asks to repeat is scheduled again.
  function Repeat(s: Loop, p: nat): Loop
    requires InRange(s) && p < |s.ports|
  {
    if s.ports[p].repeats > 0
    then Schedule(s.(ports := s.ports[p := s.ports[p].(repeats := s.ports[p].repeats - 1)]), p)
    else s
  }

  lemma TurnIdle(s: Loop)
    requires InRange(s) && s.ready == []
    ensures Turn(s) == s
  {
  }

  lemma TurnIs(s: Loop)
    requires InRange(s) && s.ready != []
    ensures var p := s.ready[0];
      var s1 := s.(ready := s.ready[1..], ports := s.ports[p := RunWriter(s.ports[p])]);
      InRange(s1) && Turn(s) == Repeat(s1, p)
  {
  }

  // ---------------------------------------------------------------- the invariant

  predicate Registered(s: Loop, p: nat) {
    p in s.writes || p in s.ready
  }

  /** Messages wait exactly where the writer is registered: no wake-up is lost, and none is idle. */
  ghost predicate PortOk(s: Loop, p: nat)
    requires p < |s.ports|
  {
    && s.ports[p].repeats == 0
    && (s.ports[p].out != [] <==> Registered(s, p))
    && (s.ports[p].fd in s.writefd <==> p in s.writes)
  }

  ghost predicate Sound(s: Loop) {
    && InRange(s) && NoRepeats(s.writes + s.ready)
    && (forall p, q :: 0 <= p < q < |s.ports| ==> s.ports[p].fd != s.ports[q].fd)
    && forall p :: 0 <= p < |s.ports| ==> PortOk(s, p)
  }

  /** Before anything is posted, nothing is registered. */
  lemma StartSound(s: Loop)
    requires s.writes == [] && s.ready == [] && s.writefd == {}
    requires forall p, q :: 0 <= p < q < |s.ports| ==> s.ports[p].fd != s.ports[q].fd
    requires forall p :: 0 <= p < |s.ports| ==> s.ports[p].out == [] && s.ports[p].repeats == 0
    ensures Sound(s)
  {
  }

  lemma PostSound(s: Loop, p: nat, m: Message)
    requires Sound(s) && p < |s.ports|
    ensures Sound(Post(s, p, m))
  {
    var s' := Post(s, p, m);
    assert PortOk(s, p);
    forall i, j | 0 <= i < j < |s'.writes + s'.ready| ensures (s'.writes + s'.ready)[i] != (s'.writes + s'.ready)[j] {
      if s'.writes != s.writes {
        assert forall i :: 0 <= i < |s.writes| ==> s.writes[i] in s.writes;
        assert forall i :: 0 <= i < |s.ready| ==> s.ready[i] in s.ready;
        assert forall i :: 0 <= i < |s.writes| ==> (s.writes + s.ready)[i] == s'.writes[i];
        assert forall i :: 0 <= i < |s.ready| ==> (s.writes + s.ready)[|s.writes| + i] == s.ready[i];
      }
    }
    forall q | 0 <= q < |s.ports| ensures PortOk(s', q) {
      assert PortOk(s, q);
    }
  }

  lemma TurnSound(s: Loop)
    requires Sound(s)
    ensures Sound(Turn(s)) && InRange(Turn(s)) && |Turn(s).ports| == |s.ports|
  {
    if s.ready != [] {
      var p, s' := s.ready[0], Turn(s);
      assert PortOk(s, p);
      assert (s.writes + s.ready)[|s.writes|] == p;
      assert s.ready == [p] + s.ready[1..];
      forall i | 0 <= i < |s.writes| ensures s.writes[i] != p {
        assert (s.writes + s.ready)[i] == s.writes[i];
      }
      forall i | 1 <= i < |s.ready| ensures s.ready[i] != p {
        assert (s.writes + s.ready)[|s.writes| + i] == s.ready[i];
      }
      TurnNoRepeats(s);
      forall q | 0 <= q < |s.ports| ensures PortOk(s', q) {
        assert PortOk(s, q);
      }
    }
  }

  lemma TurnNoRepeats(s: Loop)
    requires Sound(s) && s.ready != []
    ensures NoRepeats(Turn(s).writes + Turn(s).ready)
  {
    var p, s', all := s.ready[0], Turn(s), s.writes + s.ready;
    var n := |s.writes|;
    forall i, j | 0 <= i < j < |s'.writes + s'.ready| ensures (s'.writes + s'.ready)[i] != (s'.writes + s'.ready)[j] {
      var i0 := if s'.writes == s.writes then (if i < n then i else i + 1) else i;
      var j0 := if s'.writes == s.writes then (if j < n then j else j + 1) else j;
      assert all[i0] == (s'.writes + s'.ready)[i] && all[j0] == (s'.writes + s'.ready)[j];
    }
  }

  lemma {:induction false} PickedIn(ports: seq<Port>, list: seq<nat>, fds: set<nat>, within: bool)
    requires forall i :: 0 <= i < |list| ==> list[i] < |ports|
    requires NoRepeats(list)
    ensures var r := Picked(ports, list, fds, within);
      && NoRepeats(r) && forall p :: p in r <==> p in list && (ports[p].fd in fds) == within
  {
    if list != [] {
      assert list == [list[0]] + list[1..];
      PickedIn(ports, list[1..], fds, within);
    }
  }

  ghost predicate Before(q: seq<nat>, a: nat, b: nat) {
    exists x, y :: 0 <= x < y < |q| && q[x] == a && q[y] == b
  }

  lemma BeforeIn(q: seq<nat>, c: nat, a: nat, b: nat)
    ensures Before([c] + q, a, b) <==> Before(q, a, b) || (a == c && b in q)
  {
    BeforeOut(q, c, a, b);
    var r := [c] + q;
    if Before(q, a, b) {
      var x, y :| 0 <= x < y < |q| && q[x] == a && q[y] == b;
      assert r[x + 1] == a && r[y + 1] == b;
    } else if a == c && b in q {
      var y :| 0 <= y < |q| && q[y] == b;
      assert r[0] == a && r[y + 1] == b;
    }
  }

  lemma BeforeOut(q: seq<nat>, c: nat, a: nat, b: nat)
    ensures Before([c] + q, a, b) ==> Before(q, a, b) || (a == c && b in q)
  {
    var r := [c] + q;
    forall x, y | 0 <= x < y < |r| && r[x] == a && r[y] == b ensures Before(q, a, b) || (a == c && b in q) {
      assert q[y - 1] == b;
      if x > 0 {
        assert q[x - 1] == a;
      }
    }
  }

  /** Writers become ready, or wait on, in the order in which they were registered. */
  lemma {:induction false} PickedInOrder(ports: seq<Port>, list: seq<nat>, fds: set<nat>, within: bool, a: nat, b: nat)
    requires forall i :: 0 <= i < |list| ==> list[i] < |ports|
    requires Before(Picked(ports, list, fds, within), a, b)
    ensures Before(list, a, b)
  {
    if list != [] {
      var c, r := list[0], Picked(ports, list[1..], fds, within);
      assert list == [c] + list[1..];
      BeforeIn(list[1..], c, a, b);
      BeforeIn(r, c, a, b);
      PickedFrom(ports, list[1..], fds, within, b);
      hide Before;
      if Before(r, a, b) {
        PickedInOrder(ports, list[1..], fds, within, a, b);
      }
    }
  }

  lemma {:induction false} PickedFrom(ports: seq<Port>, list: seq<nat>, fds: set<nat>, within: bool, b: nat)
    requires forall i :: 0 <= i < |list| ==> list[i] < |ports|
    ensures b in Picked(ports, list, fds, within) ==> b in list
  {
    if list != [] {
      PickedFrom(ports, list[1..], fds, within, b);
    }
  }

  lemma SelectSound(s: Loop, writable: set<nat>)
    requires Sound(s)
    ensures Sound(Select(s, writable))
  {
    var s', fds := Select(s, writable), writable * s.writefd;
    forall i, j | 0 <= i < j < |s.writes| ensures s.writes[i] != s.writes[j] {
      assert (s.writes + s.ready)[i] == s.writes[i] && (s.writes + s.ready)[j] == s.writes[j];
    }
    PickedIn(s.ports, s.writes, fds, true);
    PickedIn(s.ports, s.writes, fds, false);
    forall q | 0 <= q < |s.ports| ensures PortOk(s', q) {
      assert PortOk(s, q);
    }
    SelectNoRepeats(s, writable);
  }

  lemma SelectNoRepeats(s: Loop, writable: set<nat>)
    requires Sound(s)
    requires var fds := writable * s.writefd;
      forall within :: var r := Picked(s.ports, s.writes, fds, within);
        NoRepeats(r) && forall p :: p in r <==> p in s.writes && (s.ports[p].fd in fds) == within
    ensures NoRepeats(Select(s, writable).writes + Select(s, writable).ready)
  {
    hide Picked;
    var s', fds := Select(s, writable), writable * s.writefd;
    var left, picked := Picked(s.ports, s.writes, fds, false), Picked(s.ports, s.writes, fds, true);
    forall i, j | 0 <= i < |s.writes| && 0 <= j < |s.ready| ensures s.writes[i] != s.ready[j] {
      assert (s.writes + s.ready)[i] == s.writes[i] && (s.writes + s.ready)[|s.writes| + j] == s.ready[j];
    }
    forall i, j | 0 <= i < j < |s.ready| ensures s.ready[i] != s.ready[j] {
      assert (s.writes + s.ready)[|s.writes| + i] == s.ready[i] && (s.writes + s.ready)[|s.writes| + j] == s.ready[j];
    }
    assert forall i :: 0 <= i < |left| ==> left[i] in left;
    assert forall i :: 0 <= i < |picked| ==> picked[i] in picked;
  }

  // ---------------------------------------------------------------- whole runs

  datatype Event = Posted(port: nat, msg: Message) | Selected(writable: set<nat>) | Turned

  ghost function Step(s: Loop, e: Event): (s': Loop)
    requires Sound(s)
    ensures Sound(s') && |s'.ports| == |s.ports|
  {
    match e
    case Posted(p, m) => if p < |s.ports| then PostSound(s, p, m); Post(s, p, m) else s
    case Selected(writable) => SelectSound(s, writable); Select(s, writable)
    case Turned => TurnSound(s); Turn(s)
  }

  ghost function Run(s: Loop, events: seq<Event>): (s': Loop)
    requires Sound(s)
    ensures Sound(s') && |s'.ports| == |s.ports|
    decreases |events|
  {
    if events == [] then s else Run(Step(s, events[0]), events[1..])
  }

  // What a run posts to a port.
  function PostedTo(events: seq<Event>, p: nat): seq<Message> {
    if events == [] then []
    else if events[0].Posted? && events[0].port == p then [events[0].msg] + PostedTo(events[1..], p)
    else PostedTo(events[1..], p)
  }

  function Ordinary(ms: seq<Message>): seq<Message> {
    if ms == [] then [] else if ms[0].urgent then Ordinary(ms[1..]) else [ms[0]] + Ordinary(ms[1..])
  }

  lemma {:induction false} OrdinaryConcat(a: seq<Message>, b: seq<Message>)
    ensures Ordinary(a + b) == Ordinary(a) + Ordinary(b)
  {
    if a == [] {
      assert a + b == b;
    } else {
      assert (a + b)[1..] == a[1..] + b;
      OrdinaryConcat(a[1..], b);
    }
  }

  function All(port: Port): seq<Message> {
    port.sent + port.out
  }

  // A step other than a post leaves what is sent and what is queued together as they were.
  lemma StepAll(s: Loop, e: Event, p: nat)
    requires Sound(s) && p < |s.ports|
    ensures var port, port' := s.ports[p], Step(s, e).ports[p];
      if e.Posted? && e.port == p then port'.sent == port.sent && port'.out == Enqueue(port.out, e.msg)
      else All(port') == All(port) && port.sent <= port'.sent
  {
    if e.Turned? && s.ready != [] && s.ready[0] == p && s.ports[p].out != [] {
      var port := s.ports[p];
      assert port.out == [port.out[0]] + port.out[1..];
    }
  }

  /** Whatever happens in a run, a port's messages are the ones it had and the ones posted, none lost
      and none twice; ordinary messages are written in the order of posting, and what is written
      stays written. */
  lemma {:induction false} RunDelivers(s: Loop, events: seq<Event>, p: nat)
    requires Sound(s) && p < |s.ports|
    ensures var port, port' := s.ports[p], Run(s, events).ports[p];
      Delivered(port, port', PostedTo(events, p)) && port.sent <= port'.sent
    decreases |events|
  {
    hide Sound, Step, Ordinary;
    if events != [] {
      var s1 := Step(s, events[0]);
      StepDelivers(s, events[0], p);
      RunDelivers(s1, events[1..], p);
      var m := PostedTo([events[0]], p);
      assert PostedTo(events, p) == m + PostedTo(events[1..], p);
      DeliveredTrans(s.ports[p], s1.ports[p], Run(s, events).ports[p], m, PostedTo(events[1..], p));
    } else {
      DeliveredNothing(s.ports[p]);
    }
  }

  /** The messages of a port are the earlier ones and the given new ones, the ordinary among them in
      this order. */
  ghost predicate Delivered(port: Port, port': Port, more: seq<Message>) {
    && multiset(All(port')) == multiset(All(port)) + multiset(more)
    && Ordinary(All(port')) == Ordinary(All(port)) + Ordinary(more)
  }

  lemma DeliveredNothing(port: Port)
    ensures Delivered(port, port, [])
  {
  }

  lemma DeliveredTrans(port: Port, port1: Port, port2: Port, a: seq<Message>, b: seq<Message>)
    requires Delivered(port, port1, a) && Delivered(port1, port2, b)
    ensures Delivered(port, port2, a + b)
  {
    hide Ordinary;
    OrdinaryConcat(a, b);
    assert multiset(a + b) == multiset(a) + multiset(b);
  }

  lemma StepDelivers(s: Loop, e: Event, p: nat)
    requires Sound(s) && p < |s.ports|
    ensures var port, port' := s.ports[p], Step(s, e).ports[p];
      Delivered(port, port', PostedTo([e], p)) && port.sent <= port'.sent
  {
    hide Sound, Step, Delivered;
    StepAll(s, e, p);
    var port, port' := s.ports[p], Step(s, e).ports[p];
    if e.Posted? && e.port == p {
      EnqueueKeeps(port, port', e.msg);
      assert PostedTo([e], p) == [e.msg];
    } else {
      DeliveredSame(port, port');
      assert PostedTo([e], p) == [];
    }
  }

  lemma DeliveredSame(port: Port, port': Port)
    requires All(port') == All(port)
    ensures Delivered(port, port', [])
  {
  }

  lemma EnqueueKeeps(port: Port, port': Port, m: Message)
    requires port'.sent == port.sent && port'.out == Enqueue(port.out, m)
    ensures Delivered(port, port', [m])
  {
    OrdinaryOne(m);
    hide Ordinary;
    OrdinaryConcat(port.sent, port.out);
    OrdinaryConcat(port.sent, port'.out);
    if m.urgent {
      OrdinaryConcat([m], port.out);
    } else {
      OrdinaryConcat(port.out, [m]);
    }
    assert multiset(All(port)) == multiset(port.sent) + multiset(port.out);
    assert multiset(All(port')) == multiset(port.sent) + multiset(port'.out);
    assert multiset(port'.out) == multiset(port.out) + multiset{m};
  }

  lemma OrdinaryOne(m: Message)
    ensures Ordinary([m]) == if m.urgent then [] else [m]
  {
    assert [m][1..] == [];
  }

  /** Without urgent messages, what is written and what is queued is what was posted, in order. */
  lemma {:induction false} OrdinaryInOrder(s: Loop, events: seq<Event>, p: nat)
    requires Sound(s) && p < |s.ports| && All(s.ports[p]) == []
    requires forall e :: e in events && e.Posted? ==> !e.msg.urgent
    ensures All(Run(s, events).ports[p]) == PostedTo(events, p)
  {
    hide Sound, Ordinary;
    RunDelivers(s, events, p);
    var all := All(Run(s, events).ports[p]);
    PostedOrdinary(events, p);
    forall m | m in all ensures !m.urgent {
      assert m in multiset(all);
      assert m in PostedTo(events, p);
    }
    assert Ordinary(All(s.ports[p])) == [] by {
      AllOrdinary(All(s.ports[p]));
    }
    AllOrdinary(all);
    AllOrdinary(PostedTo(events, p));
  }

  lemma {:induction false} PostedOrdinary(events: seq<Event>, p: nat)
    requires forall e :: e in events && e.Posted? ==> !e.msg.urgent
    ensures forall m :: m in PostedTo(events, p) ==> !m.urgent
  {
    if events != [] {
      assert events[0] in events;
      assert forall e :: e in events[1..] ==> e in events;
      PostedOrdinary(events[1..], p);
    }
  }

  lemma {:induction false} AllOrdinary(ms: seq<Message>)
    requires forall m :: m in ms ==> !m.urgent
    ensures Ordinary(ms) == ms
  {
    if ms != [] {
      assert forall m :: m in ms[1..] ==> m in ms;
      AllOrdinary(ms[1..]);
    }
  }

  // ---------------------------------------------------------------- progress

  // The whole ready list is served.
  ghost function Serve(s: Loop, n: nat): (s': Loop)
    requires Sound(s)
    ensures Sound(s') && |s'.ports| == |s.ports|
    decreases n
  {
    if n == 0 then s else TurnSound(s); Serve(Turn(s), n - 1)
  }

  /** A round in which every watched socket can be written. */
  ghost function Round(s: Loop): (s': Loop)
    requires Sound(s)
    ensures Sound(s') && |s'.ports| == |s.ports|
  {
    SelectSound(s, s.writefd);
    var s1 := Select(s, s.writefd);
    Serve(s1, |s1.ready|)
  }

  ghost function Rounds(s: Loop, k: nat): (s': Loop)
    requires Sound(s)
    ensures Sound(s') && |s'.ports| == |s.ports|
    decreases k
  {
    if k == 0 then s else Rounds(Round(s), k - 1)
  }

  function Writes(port: Port, k: nat): Port {
    var n := if k < |port.out| then k else |port.out|;
    port.(sent := port.sent + port.out[..n], out := port.out[n..])
  }

  lemma {:induction false} ServeWrites(s: Loop, n: nat, p: nat)
    requires Sound(s) && InRange(s) && n <= |s.ready| && p < |s.ports|
    ensures Serve(s, n).ports[p] == Writes(s.ports[p], Turns(s.ready[..n], p))
    ensures Serve(s, n).ready == s.ready[n..]
    decreases n
  {
    hide Sound, Turn, Writes, InRange;
    if n == 0 {
      WritesNone(s.ports[p]);
    } else {
      TurnSound(s);
      TurnWrites(s, p);
      ServeWrites(Turn(s), n - 1, p);
      FirstOf(s.ready, n, p);
      ReadyOnce(s);
      WritesNone(s.ports[p]);
      WritesNone(Turn(s).ports[p]);
    }
  }

  // A port has one turn if its writer is listed.
  function Turns(list: seq<nat>, p: nat): nat {
    if p in list then 1 else 0
  }

  lemma FirstOf(q: seq<nat>, n: nat, p: nat)
    requires 0 < n <= |q|
    ensures p in q[..n] <==> p == q[0] || p in q[1..][..n - 1]
    ensures q[1..][n - 1..] == q[n..]
    ensures q[0] !in q[1..] ==> q[0] !in q[1..][..n - 1]
  {
    var first, rest := q[..n], q[1..][..n - 1];
    assert |first| == n && |rest| == n - 1;
    assert forall i :: 0 <= i < n - 1 ==> rest[i] == q[1..][i] && rest[i] == first[i + 1];
    if p in first {
      var i :| 0 <= i < n && first[i] == p;
      assert i == 0 || rest[i - 1] == p;
    }
  }

  lemma WritesNone(port: Port)
    ensures Writes(port, 0) == port
  {
  }

  lemma ReadyOnce(s: Loop)
    requires Sound(s) && s.ready != []
    ensures s.ready[0] !in s.ready[1..]
  {
    forall i | 1 <= i < |s.ready| ensures s.ready[i] != s.ready[0] {
      assert (s.writes + s.ready)[|s.writes|] == s.ready[0] && (s.writes + s.ready)[|s.writes| + i] == s.ready[i];
    }
  }

  lemma TurnWrites(s: Loop, p: nat)
    requires Sound(s) && s.ready != [] && p < |s.ports|
    ensures Turn(s).ports[p] == Writes(s.ports[p], if p == s.ready[0] then 1 else 0)
    ensures Turn(s).ready == s.ready[1..]
  {
    assert PortOk(s, s.ready[0]);
    if p == s.ready[0] {
      assert s.ports[p].out[..1] == [s.ports[p].out[0]];
    }
  }

  lemma {:induction false} PickedAll(ports: seq<Port>, list: seq<nat>, fds: set<nat>)
    requires forall i :: 0 <= i < |list| ==> list[i] < |ports| && ports[list[i]].fd in fds
    ensures Picked(ports, list, fds, true) == list
  {
    if list != [] {
      PickedAll(ports, list[1..], fds);
    }
  }

  lemma RoundWrites(s: Loop, p: nat)
    requires Sound(s) && p < |s.ports|
    ensures Round(s).ports[p] == Writes(s.ports[p], 1)
    ensures s.ready == [] ==> Round(s).ready == []
  {
    SelectSound(s, s.writefd);
    var s1 := Select(s, s.writefd);
    ServeWrites(s1, |s1.ready|, p);
    assert s1.ready[..|s1.ready|] == s1.ready;
    assert s.writefd * s.writefd == s.writefd;
    forall i | 0 <= i < |s.writes| ensures s.ports[s.writes[i]].fd in s.writefd {
      assert PortOk(s, s.writes[i]);
    }
    PickedAll(s.ports, s.writes, s.writefd);
    assert PortOk(s, p);
    assert p in s1.ready <==> Registered(s, p);
  }

  /** Nothing is forgotten: `k` rounds write the first `k` queued messages of every port. */
  lemma {:induction false} RoundsWrite(s: Loop, k: nat, p: nat)
    requires Sound(s) && p < |s.ports|
    ensures Rounds(s, k).ports[p] == Writes(s.ports[p], k)
    decreases k
  {
    hide Sound, Round, Writes;
    if k == 0 {
      WritesNone(s.ports[p]);
    } else {
      RoundWrites(s, p);
      RoundsWrite(Round(s), k - 1, p);
      WritesTwice(s.ports[p], k - 1);
    }
  }

  /** An urgent message is the next one its port writes, whatever is queued. */
  lemma UrgentFirst(s: Loop, p: nat, m: Message)
    requires Sound(s) && p < |s.ports| && m.urgent
    ensures Sound(Post(s, p, m)) && Round(Post(s, p, m)).ports[p].sent == s.ports[p].sent + [m]
  {
    PostSound(s, p, m);
    RoundWrites(Post(s, p, m), p);
    assert Post(s, p, m).ports[p].out[..1] == [m];
  }

  lemma WritesTwice(port: Port, k: nat)
    ensures Writes(Writes(port, 1), k) == Writes(port, k + 1)
  {
    var n := if k + 1 < |port.out| then k + 1 else |port.out|;
    if port.out != [] {
      assert port.out[..1] + port.out[1..][..n - 1] == port.out[..n];
    }
  }
}
