/** The outgoing queue of a client or a session: many producers push at its back, one sender
    thread takes from its front, and a user's exit empties it. */
module Outbox {
  import opened Seqs
  import opened Codec
  import opened Chunking
  import opened Framing

  datatype Event<T> =
    | Pushed(item: T)
    /** the sender thread sends the front and erases it */
    | Sent
    /** sending fails: the front is not erased; as written the error then ends the process */
    | SendFailed
    /** the user exits: the queue is cleared before the exit packet goes out */
    | Cleared

  datatype Queue<T> = Queue(waiting: seq<T>, sent: seq<T>, lost: seq<T>)

  function Step<T>(q: Queue<T>, e: Event<T>): Queue<T> {
    match e
    case Pushed(x) => q.(waiting := q.waiting + [x])
    case Sent => if q.waiting == [] then q else q.(waiting := q.waiting[1..], sent := q.sent + [q.waiting[0]])
    case SendFailed => q
    case Cleared => Queue([], q.sent, q.lost + q.waiting)
  }

  /** After all events, in any interleaving. */
  function After<T>(events: seq<Event<T>>): Queue<T> {
    if events == [] then Queue([], [], [])
    else Step(After(events[..|events| - 1]), events[|events| - 1])
  }

  /** Everything ever pushed, in order. */
  function AllPushed<T>(events: seq<Event<T>>): seq<T> {
    if events == [] then [] else
      var e := events[|events| - 1];
      AllPushed(events[..|events| - 1]) + if e.Pushed? then [e.item] else []
  }

  lemma AfterSnoc<T>(events: seq<Event<T>>, e: Event<T>)
    ensures After(events + [e]) == Step(After(events), e)
    ensures AllPushed(events + [e]) == AllPushed(events) + if e.Pushed? then [e.item] else []
  {
    assert (events + [e])[..|events|] == events;
  }

  /** Without an exit nothing is lost or reordered: what was sent, followed by what is waiting, is
      everything that was pushed. */
  lemma {:induction false} Conservation<T>(events: seq<Event<T>>)
    requires Cleared !in events
    ensures var q := After(events); q.sent + q.waiting == AllPushed(events) && q.lost == []
  {
    if events != [] {
      var before, e := events[..|events| - 1], events[|events| - 1];
      assert events == before + [e];
      Conservation(before);
      var q := After(before);
      match e {
        case Pushed(x) => Associate(q.sent, q.waiting, [x]);
        case Sent => if q.waiting != [] { assert q.waiting == [q.waiting[0]] + q.waiting[1..]; }
        case SendFailed =>
        case Cleared =>
      }
      assert AllPushed(before) + [] == AllPushed(before);
    }
  }

  /** What an exit at some point does to the whole run: the packets waiting just then are lost, what
      was sent before stays sent, and everything pushed later is kept, in order. */
  lemma {:induction false} ExitLosesWaiting<T>(before: seq<Event<T>>, after: seq<Event<T>>)
    requires Cleared !in after
    ensures var q, p := After(before + [Cleared] + after), After(before);
            && q.lost == p.lost + p.waiting
            && q.sent + q.waiting == p.sent + AllPushed(after)
    decreases |after|
  {
    var es := before + [Cleared] + after;
    if after == [] {
      AfterSnoc(before, Cleared);
      assert es == before + [Cleared];
    } else {
      var most, e := after[..|after| - 1], after[|after| - 1];
      assert after == most + [e];
      ExitLosesWaiting(before, most);
      assert es == (before + [Cleared] + most) + [e];
      AfterSnoc(before + [Cleared] + most, e);
      AfterSnoc(most, e);
      var q := After(before + [Cleared] + most);
      StepKeepsOrder(q, e);
      Associate(After(before).sent, AllPushed(most), if e.Pushed? then [e.item] else []);
    }
  }

  lemma StepKeepsOrder<T>(q: Queue<T>, e: Event<T>)
    requires e != Cleared
    ensures Step(q, e).lost == q.lost
    ensures Step(q, e).sent + Step(q, e).waiting == q.sent + q.waiting + if e.Pushed? then [e.item] else []
  {
    var tail := if e.Pushed? then [e.item] else [];
    match e {
      case Pushed(x) => Associate(q.sent, q.waiting, [x]);
      case Sent => if q.waiting != [] { assert q.waiting == [q.waiting[0]] + q.waiting[1..]; }
      case SendFailed =>
      case Cleared =>
    }
  }

  // ----- any number of exits -----

  ghost predicate Increasing(ids: seq<nat>) { forall i, j :: 0 <= i < j < |ids| ==> ids[i] < ids[j] }

  function Pick<T>(all: seq<T>, ids: seq<nat>): seq<T>
    requires forall i :: 0 <= i < |ids| ==> ids[i] < |all|
  {
    seq(|ids|, i requires 0 <= i < |ids| => all[ids[i]])
  }

  /** `kept` and `gone` are the positions of two parts into which `all` is divided, each in its
      original order. */
  ghost predicate Divides(size: nat, kept: seq<nat>, gone: seq<nat>) {
    && Increasing(kept) && Increasing(gone)
    && (forall i :: i in kept || i in gone <==> 0 <= i < size)
    && (forall i :: i in kept ==> i !in gone)
  }

  ghost predicate Accounts<T>(events: seq<Event<T>>, kept: seq<nat>, gone: seq<nat>) {
    var q, all := After(events), AllPushed(events);
    && Divides(|all|, kept, gone)
    && (forall i :: 0 <= i < |kept| ==> kept[i] < |all|)
    && (forall i :: 0 <= i < |gone| ==> gone[i] < |all|)
    && q.sent + q.waiting == Pick(all, kept)
    && q.lost == Pick(all, gone)
    && (forall i, j :: 0 <= i < |gone| && |q.sent| <= j < |kept| ==> gone[i] < kept[j])
  }

  lemma PickExtends<T>(all: seq<T>, x: T, ids: seq<nat>)
    requires forall i :: 0 <= i < |ids| ==> ids[i] < |all|
    ensures Pick(all + [x], ids) == Pick(all, ids)
    ensures Pick(all + [x], ids + [|all|]) == Pick(all, ids) + [x]
  {
  }

  /** An exit moves the positions of the waiting packets, which come after all lost ones. */
  lemma DividesMoves(size: nat, kept: seq<nat>, gone: seq<nat>, s: nat)
    requires Divides(size, kept, gone) && s <= |kept|
    requires forall i, j :: 0 <= i < |gone| && s <= j < |kept| ==> gone[i] < kept[j]
    ensures Divides(size, kept[..s], gone + kept[s..])
  {
    assert kept == kept[..s] + kept[s..];
    forall i | i in kept[..s] ensures i !in gone + kept[s..] {
      assert i in kept;
    }
    forall i ensures i in kept[..s] || i in gone + kept[s..] <==> 0 <= i < size {
      assert i in kept <==> i in kept[..s] || i in kept[s..];
    }
  }

  lemma PickParts<T>(all: seq<T>, kept: seq<nat>, a: seq<T>, b: seq<T>)
    requires forall i :: 0 <= i < |kept| ==> kept[i] < |all|
    requires a + b == Pick(all, kept)
    ensures a == Pick(all, kept[..|a|]) && b == Pick(all, kept[|a|..])
  {
    assert a == (a + b)[..|a|] && b == (a + b)[|a|..];
  }

  lemma PickConcat<T>(all: seq<T>, a: seq<nat>, b: seq<nat>)
    requires forall i :: 0 <= i < |a| ==> a[i] < |all|
    requires forall i :: 0 <= i < |b| ==> b[i] < |all|
    ensures Pick(all, a + b) == Pick(all, a) + Pick(all, b)
  {
  }

  lemma ClearedAccounts<T>(events: seq<Event<T>>, kept: seq<nat>, gone: seq<nat>)
    requires Accounts(events, kept, gone)
    ensures exists kept', gone' :: Accounts(events + [Cleared], kept', gone')
  {
    var q, all := After(events), AllPushed(events);
    var s := |q.sent|;
    AfterSnoc(events, Cleared);
    DividesMoves(|all|, kept, gone, s);
    PickParts(all, kept, q.sent, q.waiting);
    PickConcat(all, gone, kept[s..]);
    assert q.sent + [] == q.sent && all + [] == all;
    assert Accounts(events + [Cleared], kept[..s], gone + kept[s..]);
  }

  lemma DividesSnoc(size: nat, kept: seq<nat>, gone: seq<nat>)
    requires Divides(size, kept, gone)
    ensures Divides(size + 1, kept + [size], gone)
  {
    var more := kept + [size];
    forall i, j | 0 <= i < j < |more| ensures more[i] < more[j] {
      assert more[i] in kept;
    }
    forall i ensures i in more || i in gone <==> 0 <= i < size + 1 {
      assert i in more <==> i in kept || i == size;
    }
  }

  /** Conservation over every run, whatever exits it has: the positions of all pushed packets divide
      into those sent or waiting and those lost, and neither part is reordered. */
  lemma {:induction false} EveryPacketAccounted<T>(events: seq<Event<T>>)
    ensures exists kept, gone :: Accounts(events, kept, gone)
  {
    if events == [] {
      assert Accounts(events, [], []);
    } else {
      var before, e := events[..|events| - 1], events[|events| - 1];
      EveryPacketAccounted(before);
      var kept, gone :| Accounts(before, kept, gone);
      assert events == before + [e];
      AfterSnoc(before, e);
      AccountsStep(before, kept, gone, e);
    }
  }

  lemma AccountsStep<T>(events: seq<Event<T>>, kept: seq<nat>, gone: seq<nat>, e: Event<T>)
    requires Accounts(events, kept, gone)
    ensures exists kept', gone' :: Accounts(events + [e], kept', gone')
  {
    match e {
      case Cleared => ClearedAccounts(events, kept, gone);
      case Pushed(x) => PushedAccounts(events, kept, gone, x);
      case _ => SentAccounts(events, kept, gone, e);
    }
  }

  lemma PushedAccounts<T>(events: seq<Event<T>>, kept: seq<nat>, gone: seq<nat>, x: T)
    requires Accounts(events, kept, gone)
    ensures Accounts(events + [Pushed(x)], kept + [|AllPushed(events)|], gone)
  {
    var q, all := After(events), AllPushed(events);
    AfterSnoc(events, Pushed(x));
    DividesSnoc(|all|, kept, gone);
    PickExtends(all, x, kept);
    PickExtends(all, x, gone);
    Associate(q.sent, q.waiting, [x]);
    LastComesLast(kept, gone, |q.sent|, |all|);
  }

  lemma LastComesLast(kept: seq<nat>, gone: seq<nat>, s: nat, last: nat)
    requires forall i :: 0 <= i < |kept| ==> kept[i] < last
    requires forall i :: 0 <= i < |gone| ==> gone[i] < last
    requires forall i, j :: 0 <= i < |gone| && s <= j < |kept| ==> gone[i] < kept[j]
    ensures forall i :: 0 <= i < |kept + [last]| ==> (kept + [last])[i] < last + 1
    ensures forall i, j :: 0 <= i < |gone| && s <= j < |kept + [last]| ==> gone[i] < (kept + [last])[j]
  {
  }

  lemma SentAccounts<T>(events: seq<Event<T>>, kept: seq<nat>, gone: seq<nat>, e: Event<T>)
    requires Accounts(events, kept, gone) && (e.Sent? || e.SendFailed?)
    ensures Accounts(events + [e], kept, gone)
  {
    var all := AllPushed(events);
    AfterSnoc(events, e);
    StepKeepsOrder(After(events), e);
    assert all + [] == all;
  }

  // ----- the buffer itself -----

  /** The packet structure has room for the command. */
  ghost predicate Fit(ps: seq<Packet>) { forall i :: 0 <= i < |ps| ==> |ps[i].command| < COMMAND_FIELD }

  ghost predicate Pads(ps: seq<Packet>, pads: seq<Bytes>) {
    |pads| == |ps| && forall i :: 0 <= i < |pads| ==> |pads[i]| == 4
  }

  /** `bytes` is a run of packets on the wire. */
  ghost predicate OnWire(ps: seq<Packet>, bytes: Bytes) {
    Fit(ps) && exists pads :: Pads(ps, pads) && bytes == Stream(ps, pads)
  }

  lemma {:induction false} StreamSnoc(ps: seq<Packet>, pads: seq<Bytes>, p: Packet, pad: Bytes)
    requires Fit(ps) && Pads(ps, pads) && |p.command| < COMMAND_FIELD && |pad| == 4
    ensures Stream(ps + [p], pads + [pad]) == Stream(ps, pads) + Frame(p, pad)
  {
    var more, morePads := ps + [p], pads + [pad];
    if ps == [] {
      assert more[1..] == [] && Stream(more[1..], morePads[1..]) == [];
    } else {
      StreamSnoc(ps[1..], pads[1..], p, pad);
      assert more[1..] == ps[1..] + [p] && morePads[1..] == pads[1..] + [pad];
      Associate(Frame(ps[0], pads[0]), Stream(ps[1..], pads[1..]), Frame(p, pad));
    }
  }

  lemma OnWireSnoc(ps: seq<Packet>, bytes: Bytes, p: Packet, pad: Bytes)
    requires OnWire(ps, bytes) && |p.command| < COMMAND_FIELD && |pad| == 4
    ensures OnWire(ps + [p], bytes + Frame(p, pad))
  {
    var pads :| Pads(ps, pads) && bytes == Stream(ps, pads);
    StreamSnoc(ps, pads, p, pad);
    assert Pads(ps + [p], pads + [pad]);
  }

  lemma NextOnWire(done: seq<Packet>, bytes: Bytes, start: Bytes, p: Packet, now: Bytes) returns (frame: Bytes)
    requires OnWire(done, bytes) && |p.command| < COMMAND_FIELD
    requires exists pad: Bytes :: |pad| == 4 && now == start + bytes + Frame(p, pad)
    ensures OnWire(done + [p], bytes + frame) && now == start + (bytes + frame)
  {
    var pad: Bytes :| |pad| == 4 && now == start + bytes + Frame(p, pad);
    frame := Frame(p, pad);
    OnWireSnoc(done, bytes, p, pad);
    Associate(start, bytes, frame);
  }

  /** Whatever way a run of valid packets is put on the wire, it reads back as that run. */
  lemma OnWireParses(ps: seq<Packet>, bytes: Bytes)
    requires OnWire(ps, bytes) && AllValid(ps)
    ensures Parse(bytes) == ps && Rest(bytes) == []
  {
    var pads :| Pads(ps, pads) && bytes == Stream(ps, pads);
    StreamParses(ps, pads);
  }

  /** sender_buffer_ and the flag of its sender thread. */
  class SenderBuffer {
    var buffer: seq<Packet>
    var running: bool
    ghost var events: seq<Event<Packet>>

    ghost predicate Valid()
      reads this
    {
      buffer == After(events).waiting && Fit(buffer)
    }

    constructor ()
      ensures Valid() && buffer == [] && events == [] && running
    {
      buffer, running := [], true;
      events := [];
    }

    /** push_back */
    method Push(p: Packet)
      requires Valid() && |p.command| < COMMAND_FIELD
      modifies this
      ensures Valid() && running == old(running)
      ensures buffer == old(buffer) + [p] && events == old(events) + [Pushed(p)]
    {
      AfterSnoc(events, Pushed(p));
      buffer := buffer + [p];
      events := events + [Pushed(p)];
    }

    /** One round of the sender loop: nothing when stopped or empty; a packet that could not be
        sent stays in front. */
    method SendFront(pipe: Pipe) returns (ok: bool)
      requires Valid()
      modifies this, pipe
      ensures Valid() && running == old(running)
      ensures pipe.failed == (old(pipe.failed) || !ok)
      ensures !running || old(buffer) == [] ==>
        ok && buffer == old(buffer) && events == old(events) && pipe.bytes == old(pipe.bytes)
      ensures running && old(buffer) != [] && ok ==>
        && buffer == old(buffer)[1..] && events == old(events) + [Sent]
        && exists pad: Bytes :: |pad| == 4 && pipe.bytes == old(pipe.bytes) + Frame(old(buffer)[0], pad)
      ensures running && old(buffer) != [] && !ok ==> buffer == old(buffer) && events == old(events) + [SendFailed]
    {
      if !running || |buffer| == 0 { return true; }
      var pad: Bytes :| |pad| == 4 by { assert |[NUL, NUL, NUL, NUL]| == 4; }
      ok := SendPacket(buffer[0], pad, pipe);
      if ok {
        AfterSnoc(events, Sent);
        buffer := buffer[1..];
        events := events + [Sent];
      } else {
        AfterSnoc(events, SendFailed);
        events := events + [SendFailed];
      }
    }

    /** The user's exit: clears the buffer, sends the exit packet past it and stops the thread. */
    method Exit(pipe: Pipe) returns (ok: bool)
      requires Valid()
      modifies this, pipe
      ensures Valid() && buffer == [] && events == old(events) + [Cleared]
      ensures pipe.failed == (old(pipe.failed) || !ok)
      ensures running == (old(running) && !ok)
      ensures ok ==> exists pad: Bytes ::
        |pad| == 4 && pipe.bytes == old(pipe.bytes) + Frame(Packet("exit", 0, 0, []), pad)
    {
      AfterSnoc(events, Cleared);
      buffer := [];
      events := events + [Cleared];
      var pad: Bytes :| |pad| == 4 by { assert |[NUL, NUL, NUL, NUL]| == 4; }
      ok := SendPacket(Packet("exit", 0, 0, []), pad, pipe);
      if ok { running := false; }
    }

    /** A round with something to send, after `done` went out as `bytes` behind `start`. */
    method SendNext(pipe: Pipe, ghost done: seq<Packet>, ghost bytes: Bytes, ghost start: Bytes) returns (ok: bool,
                    ghost frame: Bytes)
      requires Valid() && running && buffer != []
      requires OnWire(done, bytes) && pipe.bytes == start + bytes
      modifies this, pipe
      ensures Valid() && running
      ensures pipe.failed == (old(pipe.failed) || !ok)
      ensures ok ==> buffer == old(buffer)[1..]
      ensures ok ==> OnWire(done + [old(buffer)[0]], bytes + frame) && pipe.bytes == start + (bytes + frame)
    {
      frame := [];
      ok := SendFront(pipe);
      if ok {
        frame := NextOnWire(done, bytes, start, old(buffer)[0], pipe.bytes);
      }
    }

    /** The sender loop for as long as the buffer is not empty and no call fails. */
    method Drain(pipe: Pipe) returns (ok: bool)
      requires Valid() && running
      modifies this, pipe
      ensures Valid() && running
      ensures pipe.failed == (old(pipe.failed) || !ok)
      ensures ok ==> buffer == [] && exists bytes :: OnWire(old(buffer), bytes) && pipe.bytes == old(pipe.bytes) + bytes
    {
      ghost var done, bytes := [], [];
      assert OnWire([], []) by { assert Pads([], []); }
      while |buffer| > 0
        invariant Valid() && running && pipe.failed == old(pipe.failed)
        invariant done + buffer == old(buffer)
        invariant OnWire(done, bytes) && pipe.bytes == old(pipe.bytes) + bytes
        decreases |buffer|
      {
        ghost var front, frame := buffer[0], [];
        assert buffer == [front] + buffer[1..];
        Associate(done, [front], buffer[1..]);
        ok, frame := SendNext(pipe, done, bytes, old(pipe.bytes));
        if !ok { return; }
        done, bytes := done + [front], bytes + frame;
      }
      assert done == old(buffer);
      ok := true;
    }
  }
}
