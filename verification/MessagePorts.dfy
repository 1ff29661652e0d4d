/** Message ports, their writers and the event master's select loop as objects. Their methods are
proved to compute the steps of module Wakeup on the values the objects stand for.
*/
module MessagePorts {
  import opened Wakeup

  /** `id`, the place in the loop's list of writers, and `sent`, what went to the socket, are
      bookkeeping. */
  class MessageWriter {
    const id: nat
    const fd: nat
    var outQueue: seq<Message>
    var sent: seq<Message>
    var repeats: int

    constructor (id: nat, fd: nat)
      ensures this.id == id && this.fd == fd && View() == Port(fd, [], [], 0)
    {
      this.id, this.fd, outQueue, sent, repeats := id, fd, [], [], 0;
    }

    ghost function View(): Port
      reads this
    {
      Port(fd, outQueue, sent, repeats)
    }

    /** The first message of the out queue is written. */
    method Run()
      modifies this
      ensures View() == RunWriter(old(View()))
    {
      if |outQueue| == 0 {
        return;
      }
      var msg := outQueue[0];
      outQueue := outQueue[1..];
      sent := sent + [msg];
      if |outQueue| > 0 {
        repeats := 1;
      }
    }
  }

  ghost function Ids(s: seq<MessageWriter>): (r: seq<nat>)
    ensures |r| == |s| && forall i :: 0 <= i < |s| ==> r[i] == s[i].id
  {
    seq(|s|, i requires 0 <= i < |s| => s[i].id)
  }

  ghost function Views(all: seq<MessageWriter>): (r: seq<Port>)
    reads all
    ensures |r| == |all| && forall i :: 0 <= i < |all| ==> r[i] == all[i].View()
  {
    seq(|all|, i requires 0 <= i < |all| reads all => all[i].View())
  }

  ghost predicate Numbered(all: seq<MessageWriter>) {
    forall i :: 0 <= i < |all| ==> all[i].id == i
  }

  ghost predicate AllIn(all: seq<MessageWriter>, q: seq<MessageWriter>) {
    forall i :: 0 <= i < |q| ==> q[i].id < |all| && all[q[i].id] == q[i]
  }

  class EventMaster {
    var writes: seq<MessageWriter>
    var ready: seq<MessageWriter>
    var writefd: set<nat>
    const writers: seq<MessageWriter>

    constructor (writers: seq<MessageWriter>)
      ensures writes == [] && ready == [] && writefd == {} && this.writers == writers
    {
      writes, ready, writefd := [], [], {};
      this.writers := writers;
    }

    /** The lists and the writers as a value. */
    ghost function View(): Loop
      reads this, writers
    {
      Loop(Views(writers), Ids(writes), Ids(ready), writefd)
    }

    ghost predicate Valid()
      reads this
    {
      Numbered(writers) && AllIn(writers, writes) && AllIn(writers, ready)
    }

    method Schedule(event: MessageWriter)
      requires Valid() && event in writers
      modifies this`writes, this`writefd
      ensures Valid() && View() == Wakeup.Schedule(old(View()), event.id)
    {
      if event.fd in writefd {
        return;
      }
      assert Ids(writes + [event]) == Ids(writes) + [event.id];
      writefd := writefd + {event.fd};
      writes := writes + [event];
    }

    /** The writers whose sockets select found ready leave the write list for the ready list. */
    method ModifyFDSets(writable: set<nat>)
      requires Valid()
      modifies this`writes, this`ready, this`writefd
      ensures Valid() && InRange(old(View())) && View() == Select(old(View()), writable)
      ensures Sound(old(View())) ==> Sound(View())
    {
      hide Merged, Picked, Sound;
      ghost var s := View();
      if Sound(s) {
        SelectSound(s, writable);
      }
      var fds, i := writable * writefd, 0;
      while i < |writes|
        invariant i <= |writes| && Valid() && InRange(View()) && View().ports == s.ports
        invariant Merged(View(), fds, i) == Merged(s, fds, 0)
        decreases |writes| - i
      {
        var event := writes[i];
        ghost var before := View();
        if event.fd in fds {
          writefd := writefd - {event.fd};
          writes := writes[..i] + writes[i + 1..];
          ready := ready + [event];
          assert Ids(writes) == before.writes[..i] + before.writes[i + 1..];
          assert Ids(ready) == before.ready + [event.id];
          MergedTaken(before, View(), fds, i);
        } else {
          MergedLeft(before, fds, i);
          i := i + 1;
        }
      }
      MergedNone(View(), fds);
      MergedAll(s, writable);
    }

    /** The head of the ready list is run, and scheduled again if it asks to repeat. */
    method Turn()
      requires Valid()
      modifies this, writers
      ensures Valid() && InRange(old(View())) && View() == Wakeup.Turn(old(View()))
      ensures Sound(old(View())) ==> Sound(View())
    {
      hide Views, Ids, Sound, Wakeup.Turn, Wakeup.Repeat;
      ghost var s := View();
      if Sound(s) {
        TurnSound(s);
      }
      if |ready| == 0 {
        TurnIdle(s);
        return;
      }
      var event := ready[0];
      ready := ready[1..];
      assert Ids(ready) == s.ready[1..];
      event.Run();
      TurnIs(s);
      assert View() == s.(ready := s.ready[1..], ports := s.ports[event.id := event.View()]);
      RunAgain(event);
    }

    // A writer that asks to repeat is scheduled again.
    method RunAgain(event: MessageWriter)
      requires Valid() && event in writers
      modifies this`writes, this`writefd, event`repeats
      ensures Valid() && View() == Wakeup.Repeat(old(View()), event.id)
    {
      hide Views, Ids;
      ghost var s := View();
      if event.repeats > 0 {
        event.repeats := event.repeats - 1;
        assert View() == s.(ports := s.ports[event.id := event.View()]);
        Schedule(event);
      }
    }
  }

  class MessagePort {
    const msgWriter: MessageWriter
    const eventMaster: EventMaster

    constructor (msgWriter: MessageWriter, eventMaster: EventMaster)
      ensures this.msgWriter == msgWriter && this.eventMaster == eventMaster
    {
      this.msgWriter, this.eventMaster := msgWriter, eventMaster;
    }

    /** The message joins the out queue; only one that meets an empty queue wakes the writer up. */
    method PostMessage(msg: Message)
      requires eventMaster.Valid() && msgWriter in eventMaster.writers
      modifies msgWriter, eventMaster
      ensures eventMaster.Valid() && eventMaster.View() == Post(old(eventMaster.View()), msgWriter.id, msg)
      ensures Sound(old(eventMaster.View())) ==> Sound(eventMaster.View())
    {
      hide Sound;
      ghost var s := eventMaster.View();
      if Sound(s) {
        PostSound(s, msgWriter.id, msg);
      }
      if msg.urgent {
        msgWriter.outQueue := [msg] + msgWriter.outQueue;
      } else {
        msgWriter.outQueue := msgWriter.outQueue + [msg];
      }
      msgWriter.repeats := 0;
      assert eventMaster.View() == s.(ports := s.ports[msgWriter.id := msgWriter.View()]);
      if |msgWriter.outQueue| == 1 {
        eventMaster.Schedule(msgWriter);
      }
    }
  }

  // What the scan of the write list leads to, the first `i` entries being done with.
  ghost function Merged(s: Loop, fds: set<nat>, i: nat): Loop
    requires InRange(s) && i <= |s.writes|
  {
    var picked := Picked(s.ports, s.writes[i..], fds, true);
    s.(writes := s.writes[..i] + Picked(s.ports, s.writes[i..], fds, false), ready := s.ready + picked,
       writefd := s.writefd - Fds(s.ports, picked))
  }

  lemma MergedAll(s: Loop, writable: set<nat>)
    requires InRange(s)
    ensures Merged(s, writable * s.writefd, 0) == Select(s, writable)
  {
    assert s.writes[0..] == s.writes;
    var merged, selected := Merged(s, writable * s.writefd, 0), Select(s, writable);
    assert merged.writes == selected.writes && merged.ready == selected.ready;
  }

  lemma MergedTaken(s: Loop, s': Loop, fds: set<nat>, i: nat)
    requires InRange(s) && i < |s.writes| && s.ports[s.writes[i]].fd in fds && s'.ports == s.ports
    requires s'.writes == s.writes[..i] + s.writes[i + 1..] && s'.ready == s.ready + [s.writes[i]]
    requires s'.writefd == s.writefd - {s.ports[s.writes[i]].fd}
    ensures InRange(s') && Merged(s', fds, i) == Merged(s, fds, i)
  {
    assert s'.writes[i..] == s.writes[i..][1..] && s'.writes[..i] == s.writes[..i];
    var merged, merged' := Merged(s, fds, i), Merged(s', fds, i);
    assert merged'.writes == merged.writes && merged'.ready == merged.ready && merged'.writefd == merged.writefd;
  }

  lemma MergedLeft(s: Loop, fds: set<nat>, i: nat)
    requires InRange(s) && i < |s.writes| && s.ports[s.writes[i]].fd !in fds
    ensures Merged(s, fds, i + 1) == Merged(s, fds, i)
  {
    assert s.writes[i + 1..] == s.writes[i..][1..] && s.writes[..i + 1] == s.writes[..i] + [s.writes[i]];
    assert Merged(s, fds, i + 1).writes == Merged(s, fds, i).writes;
  }

  lemma MergedNone(s: Loop, fds: set<nat>)
    requires InRange(s)
    ensures Merged(s, fds, |s.writes|) == s
  {
    var merged := Merged(s, fds, |s.writes|);
    assert merged.writes == s.writes && merged.ready == s.ready && merged.writefd == s.writefd;
  }
}
