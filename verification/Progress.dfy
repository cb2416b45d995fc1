/** From every reachable state a session can come to rest: some continuation, without any new request,
    edit or other packet, empties all loops, buffers and streams. */
module Progress {
  import opened Seqs
  import opened Codec
  import opened Chunking
  import opened Framing
  import opened Transfer
  import opened Link
  import opened World
  import opened Wire

  /** The loops, threads and network do their work; nothing new is asked for. */
  predicate Forward(a: SessionAction) {
    match a
    case App(b) => b.LoopUp? || b.LoopDown?
    case _ => true
  }

  /** These actions lead from `s` to `t`. */
  ghost predicate Leads(s: Session, actions: seq<SessionAction>, t: Session)
    decreases |actions|
  {
    if actions == [] then s == t
    else SessionEnabled(s, actions[0]) && Forward(actions[0]) && Leads(SessionDo(s, actions[0]), actions[1..], t)
  }

  predicate Idle(buffer: seq<Packet>, w: Wire) { buffer == [] && w.sending == None && AllBytes(w) == [] }

  predicate AtRest(s: Session) {
    && s.base.up.loops == map[] && Idle(s.base.up.queue, s.up)
    && s.base.down.loops == map[] && Idle(s.base.down.queue, s.down)
  }

  /** The next packet asks for a file of more than 2^44 bytes. */
  predicate AsksTooMuch(s: Session) {
    || (Received(s.up) && AsksForLarge(ASK, s.base.up.folder, First(s.up.inbox)))
    || (Received(s.down) && AsksForLarge(UP, s.base.sync, First(s.down.inbox)))
  }

  predicate AsksForLarge(verb: string, source: Folder, p: Packet) {
    var n := RequestName(verb, p); n.Some? && !SmallAt(source, n.value)
  }

  // ----- what there is still to do -----

  /** The requests of a queue. */
  function Asks(verb: string, q: seq<Packet>): nat {
    if q == [] then 0 else (if RequestName(verb, q[0]).Some? then 1 else 0) + Asks(verb, q[1..])
  }

  lemma {:induction false} AsksSnoc(verb: string, q: seq<Packet>, p: Packet)
    ensures Asks(verb, q + [p]) == Asks(verb, q) + if RequestName(verb, p).Some? then 1 else 0
  {
    if q == [] {
      assert (q + [p])[1..] == [] && (q + [p])[0] == p;
    } else {
      AsksSnoc(verb, q[1..], p);
      assert (q + [p])[1..] == q[1..] + [p];
    }
  }

  ghost function SomeKey(loops: map<Name, seq<Packet>>): (n: Name)
    requires loops != map[]
    ensures n in loops
  {
    var n: Name :| n in loops; n
  }

  /** All packets still to be pushed by sender loops. */
  ghost function ToPush(loops: map<Name, seq<Packet>>): nat
    decreases |loops|
  {
    if loops == map[] then 0 else
      var n := SomeKey(loops);
      assert (loops - {n}).Keys == loops.Keys - {n};
      |loops[n]| + ToPush(loops - {n})
  }

  /** Any loop can be counted first. */
  lemma {:induction false} ToPushAny(loops: map<Name, seq<Packet>>, n: Name)
    requires n in loops
    ensures ToPush(loops) == |loops[n]| + ToPush(loops - {n})
    decreases |loops|
  {
    var k := SomeKey(loops);
    if k != n {
      assert (loops - {n}).Keys == loops.Keys - {n} && (loops - {k}).Keys == loops.Keys - {k};
      ToPushAny(loops - {k}, n);
      ToPushAny(loops - {n}, k);
      assert loops - {k} - {n} == loops - {n} - {k};
    }
  }

  lemma ToPushLess(l: Link, n: Name)
    requires n in l.loops && l.loops[n] != []
    ensures ToPush(PushNext(l, n).loops) < ToPush(l.loops)
  {
    var rest := l.loops[n][1..];
    ToPushAny(l.loops, n);
    if |l.loops[n]| > 1 {
      ToPushAny(l.loops[n := rest], n);
      assert l.loops[n := rest] - {n} == l.loops - {n};
    }
  }

  /** The work of sending a buffer: three for each byte, and two for each packet. */
  function BufferWork(q: seq<Packet>): nat {
    if q == [] then 0 else 3 * (HEADER + |q[0].payload|) + 2 + BufferWork(q[1..])
  }

  function Unsent(buffer: seq<Packet>, w: Wire): seq<Packet> {
    if w.sending.Some? && buffer != [] then buffer[1..] else buffer
  }

  function Work(buffer: seq<Packet>, w: Wire): nat {
    BufferWork(Unsent(buffer, w)) + (if w.sending.Some? then 1 else 0)
    + 3 * |Outgoing(w)| + 2 * |w.stream| + |w.inbox|
  }

  lemma MoveWorks(buffer: seq<Packet>, w: Wire, m: WireAction)
    requires WireEnabled(buffer, w, m)
    ensures var (b, v) := WireMove(buffer, w, m); Work(b, v) < Work(buffer, w)
  {
  }

  /** While a direction is not idle, a byte can move or a packet be taken. */
  lemma Stirs(buffer: seq<Packet>, w: Wire)
    requires Aligned(buffer, w) && AllValid(Abstract(buffer, w)) && !Idle(buffer, w)
    ensures Received(w) || exists m :: WireEnabled(buffer, w, m)
  {
    if Abstract(buffer, w) != [] {
      NeverStuck(buffer, w);
    } else {
      NothingSpelled(buffer, w);
      assert WireEnabled(buffer, w, EndSend);
    }
  }

  lemma NothingSpelled(buffer: seq<Packet>, w: Wire)
    requires Aligned(buffer, w) && Abstract(buffer, w) == []
    ensures AllBytes(w) == [] && Unsent(buffer, w) == []
  {
    assert Parse(AllBytes(w)) == [];
  }

  /** What is left to do: requests first, then packets to push, then bytes to move. */
  ghost function Requested(s: Session): nat {
    Asks(ASK, Abstract(s.base.up.queue, s.up)) + Asks(UP, Abstract(s.base.down.queue, s.down))
  }

  ghost function Unpushed(s: Session): nat { ToPush(s.base.up.loops) + ToPush(s.base.down.loops) }

  ghost function Unmoved(s: Session): nat {
    Work(s.base.up.queue, s.up) + Work(s.base.down.queue, s.down)
  }

  ghost predicate Less(t: Session, s: Session) {
    || Requested(t) < Requested(s)
    || (Requested(t) == Requested(s) && Unpushed(t) < Unpushed(s))
    || (Requested(t) == Requested(s) && Unpushed(t) == Unpushed(s) && Unmoved(t) < Unmoved(s))
  }

  // ----- every step forward leaves less to do -----

  lemma PushLess(ask: string, data: string, init: Folder, l: Link, w: Wire, n: Name)
    requires Aligned(l.queue, w) && Invariant(data, init, AbstractLink(l, w)) && n in l.loops
    ensures l.loops[n] != []
    ensures Asks(ask, Abstract(PushNext(l, n).queue, w)) == Asks(ask, Abstract(l.queue, w))
    ensures ToPush(PushNext(l, n).loops) < ToPush(l.loops)
  {
    PushNextShape(data, AbstractLink(l, w), n);
    PushNextCommutes(l, w, n);
    AsksSnoc(ask, Abstract(l.queue, w), l.loops[n][0]);
    ToPushLess(l, n);
  }

  /** Fewer packets to push in one direction, and no new request. */
  lemma LessToPush(s: Session, t: Session)
    requires Asks(ASK, Abstract(t.base.up.queue, t.up)) == Asks(ASK, Abstract(s.base.up.queue, s.up))
    requires Asks(UP, Abstract(t.base.down.queue, t.down)) == Asks(UP, Abstract(s.base.down.queue, s.down))
    requires ToPush(t.base.up.loops) + ToPush(t.base.down.loops) < ToPush(s.base.up.loops) + ToPush(s.base.down.loops)
    ensures Less(t, s)
  {
  }

  function PushedUp(s: Session, n: Name): Session
    requires n in s.base.up.loops && s.base.up.loops[n] != []
  {
    s.(base := s.base.(up := PushNext(s.base.up, n)))
  }

  function PushedDown(s: Session, n: Name): Session
    requires n in s.base.down.loops && s.base.down.loops[n] != []
  {
    s.(base := s.base.(down := PushNext(s.base.down, n)))
  }

  lemma LoopsDo(s: Session, n: Name)
    ensures n in s.base.up.loops && s.base.up.loops[n] != [] ==>
      SessionEnabled(s, App(LoopUp(n))) && SessionDo(s, App(LoopUp(n))) == PushedUp(s, n)
    ensures n in s.base.down.loops && s.base.down.loops[n] != [] ==>
      SessionEnabled(s, App(LoopDown(n))) && SessionDo(s, App(LoopDown(n))) == PushedDown(s, n)
  {
  }

  lemma LoopUpLess(init: Folder, s: Session, n: Name)
    requires Aligned(s.base.up.queue, s.up) && Invariant(UP, init, AbstractLink(s.base.up, s.up))
    requires n in s.base.up.loops
    ensures s.base.up.loops[n] != [] && Less(PushedUp(s, n), s)
  {
    PushLess(ASK, UP, init, s.base.up, s.up, n);
    LessToPush(s, PushedUp(s, n));
  }

  lemma LoopDownLess(init: Folder, s: Session, n: Name)
    requires Aligned(s.base.down.queue, s.down) && Invariant(DOWN, init, AbstractLink(s.base.down, s.down))
    requires n in s.base.down.loops
    ensures s.base.down.loops[n] != [] && Less(PushedDown(s, n), s)
  {
    PushLess(UP, DOWN, init, s.base.down, s.down, n);
    LessToPush(s, PushedDown(s, n));
  }

  lemma UpWireLess(init: World, s: Session, m: WireAction)
    requires SessionGood(init, s) && WireEnabled(s.base.up.queue, s.up, m)
    ensures Less(SessionDo(s, UpWire(m)), s)
  {
    if m.BeginSend? { FrontIsValid(s.base.up.queue, s.up); }
    WireHidden(s.base.up.queue, s.up, m);
    MoveWorks(s.base.up.queue, s.up, m);
  }

  lemma DownWireLess(init: World, s: Session, m: WireAction)
    requires SessionGood(init, s) && WireEnabled(s.base.down.queue, s.down, m)
    ensures Less(SessionDo(s, DownWire(m)), s)
  {
    if m.BeginSend? { FrontIsValid(s.base.down.queue, s.down); }
    WireHidden(s.base.down.queue, s.down, m);
    MoveWorks(s.base.down.queue, s.down, m);
  }

  /** Taking a packet leaves one request less if it was one, and fewer bytes. */
  lemma TakeLess(ask: string, buffer: seq<Packet>, w: Wire)
    requires Aligned(buffer, w) && Received(w) && AllValid(Abstract(buffer, w))
    ensures Valid(First(w.inbox)) && Work(buffer, Take(w)) < Work(buffer, w)
    ensures Asks(ask, Abstract(buffer, w))
         == (if RequestName(ask, First(w.inbox)).Some? then 1 else 0) + Asks(ask, Abstract(buffer, Take(w)))
  {
    var rest := Abstract(buffer, Take(w));
    TakeIsHead(buffer, w);
    assert Abstract(buffer, w)[0] == First(w.inbox);
    assert ([First(w.inbox)] + rest)[1..] == rest;
  }

  /** An answer queues no request. */
  lemma AnswerAsksNothing(verb: string, ask: string, l: Link, w: Wire, source: Folder, locks: set<Name>, n: Name,
                          sum: string)
    requires Aligned(l.queue, w) && Free(verb, BAR) && Free(n, BAR)
    ensures Asks(ask, Abstract(Answer(verb, l, source, locks, n, sum).queue, w)) == Asks(ask, Abstract(l.queue, w))
  {
    AnswerCommutes(verb, l, w, source, locks, n, sum);
    if n !in source {
      FailureReads(verb, n);
      AsksSnoc(ask, Abstract(l.queue, w), Packet(DataCommand(verb, n, "fail"), 0, 0, Reason(verb)));
    }
  }

  lemma VerbsFree()
    ensures Free(UP, BAR) && Free(DOWN, BAR)
  {
  }

  /** Some checksum. */
  const SUM: string := "00000000000000000000000000000000"

  /** One request less, or none more, no more to push, and fewer bytes. */
  lemma LessToTake(s: Session, t: Session)
    requires Requested(t) < Requested(s)
          || (Requested(t) == Requested(s) && Unpushed(t) == Unpushed(s) && Unmoved(t) < Unmoved(s))
    ensures Less(t, s)
  {
  }

  function TookUp(s: Session): Session
    requires Received(s.up)
  {
    Session(HandleUp(s.base, First(s.up.inbox), SUM), Take(s.up), s.down)
  }

  function TookDown(s: Session): Session
    requires Received(s.down)
  {
    Session(HandleDown(s.base, First(s.down.inbox), SUM), s.up, Take(s.down))
  }

  lemma TakesDo(s: Session)
    requires s.base.up.loops == map[] && s.base.down.loops == map[] && !AsksTooMuch(s)
    ensures Received(s.up) ==> SessionEnabled(s, TakeUp(SUM)) && SessionDo(s, TakeUp(SUM)) == TookUp(s)
    ensures Received(s.down) ==> SessionEnabled(s, TakeDown(SUM)) && SessionDo(s, TakeDown(SUM)) == TookDown(s)
  {
  }

  lemma TakeUpLess(s: Session)
    requires Aligned(s.base.up.queue, s.up) && Aligned(s.base.down.queue, s.down)
    requires Received(s.up) && AllValid(Abstract(s.base.up.queue, s.up))
    ensures Less(TookUp(s), s)
  {
    var p := First(s.up.inbox);
    TakeLess(ASK, s.base.up.queue, s.up);
    match RequestName(ASK, p) {
      case None =>
      case Some(n) =>
        VerbsFree();
        RequestNameFree(ASK, p);
        AnswerAsksNothing(DOWN, UP, s.base.down, s.down, s.base.up.folder, s.base.up.locks, n, SUM);
    }
    LessToTake(s, TookUp(s));
  }

  lemma TakeDownLess(s: Session)
    requires Aligned(s.base.up.queue, s.up) && Aligned(s.base.down.queue, s.down)
    requires Received(s.down) && AllValid(Abstract(s.base.down.queue, s.down))
    ensures Less(TookDown(s), s)
  {
    var p := First(s.down.inbox);
    TakeLess(UP, s.base.down.queue, s.down);
    match RequestName(UP, p) {
      case None =>
      case Some(n) =>
        VerbsFree();
        RequestNameFree(UP, p);
        AnswerAsksNothing(UP, ASK, s.base.up, s.up, s.base.sync, s.base.down.locks, n, SUM);
    }
    LessToTake(s, TookDown(s));
  }

  /** While there is something to do, it can be done, and leaves less to do. */
  lemma Next(init: World, s: Session) returns (a: SessionAction)
    requires SessionGood(init, s) && !AtRest(s) && !AsksTooMuch(s)
    ensures SessionEnabled(s, a) && Forward(a) && Less(SessionDo(s, a), s)
  {
    if s.base.up.loops != map[] {
      var n := SomeKey(s.base.up.loops);
      LoopUpLess(init.up.folder, s, n);
      LoopsDo(s, n);
      a := App(LoopUp(n));
    } else if s.base.down.loops != map[] {
      var n := SomeKey(s.base.down.loops);
      LoopDownLess(init.down.folder, s, n);
      LoopsDo(s, n);
      a := App(LoopDown(n));
    } else if !Idle(s.base.up.queue, s.up) {
      Stirs(s.base.up.queue, s.up);
      if Received(s.up) {
        TakeUpLess(s);
        TakesDo(s);
        a := TakeUp(SUM);
      } else {
        var m :| WireEnabled(s.base.up.queue, s.up, m);
        UpWireLess(init, s, m);
        a := UpWire(m);
      }
    } else {
      Stirs(s.base.down.queue, s.down);
      if Received(s.down) {
        TakeDownLess(s);
        TakesDo(s);
        a := TakeDown(SUM);
      } else {
        var m :| WireEnabled(s.base.down.queue, s.down, m);
        DownWireLess(init, s, m);
        a := DownWire(m);
      }
    }
  }

  // ----- whole continuations -----

  lemma {:induction false} ComesToRest(init: World, s: Session) returns (actions: seq<SessionAction>, t: Session)
    requires SessionGood(init, s)
    ensures Leads(s, actions, t) && SessionGood(init, t) && (AtRest(t) || AsksTooMuch(t))
    decreases Requested(s), Unpushed(s), Unmoved(s)
  {
    if AtRest(s) || AsksTooMuch(s) {
      actions, t := [], s;
    } else {
      var a := Next(init, s);
      StepRefines(init, s, a);
      actions, t := ComesToRest(init, SessionDo(s, a));
      actions := [a] + actions;
    }
  }

  /** At rest every transferred file of either direction has come to its end. */
  lemma RestSettles(init: World, t: Session)
    requires SessionGood(init, t) && AtRest(t)
    ensures forall n :: n in t.base.up.started ==> Outcome(init.up.folder, t.base.up, n)
    ensures forall n :: n in t.base.down.started ==> Outcome(init.down.folder, t.base.down, n)
  {
    forall n | n in t.base.up.started ensures Outcome(init.up.folder, t.base.up, n) {
      ArrivedIsDrained(UP, t.base.up, t.up, n);
      DrainedHolds(UP, init.up.folder, AbstractLink(t.base.up, t.up), n);
      OutcomeOfAbstract(init.up.folder, t.base.up, t.up, n);
    }
    forall n | n in t.base.down.started ensures Outcome(init.down.folder, t.base.down, n) {
      ArrivedIsDrained(DOWN, t.base.down, t.down, n);
      DrainedHolds(DOWN, init.down.folder, AbstractLink(t.base.down, t.down), n);
      OutcomeOfAbstract(init.down.folder, t.base.down, t.down, n);
    }
  }

  /** At rest, and every transferred file has come to its end. */
  ghost predicate AllSettled(init: World, t: Session) {
    && AtRest(t)
    && (forall n :: n in t.base.up.started ==> Outcome(init.up.folder, t.base.up, n))
    && (forall n :: n in t.base.down.started ==> Outcome(init.down.folder, t.base.down, n))
  }

  /** `ts` continues the session `ss` without anything new being asked for. */
  ghost predicate Continues(ss: seq<Session>, actions: seq<SessionAction>, ts: seq<Session>, more: seq<SessionAction>) {
    SessionRun(ts, actions + more) && ss <= ts && forall a :: a in more ==> Forward(a)
  }

  /** `ts` does so and ends in `t`. */
  ghost predicate ContinuesTo(ss: seq<Session>, actions: seq<SessionAction>, ts: seq<Session>,
                              more: seq<SessionAction>, t: Session) {
    Continues(ss, actions, ts, more) && ts != [] && ts[|ts| - 1] == t
  }

  lemma {:induction false} LeadsContinues(ss: seq<Session>, actions: seq<SessionAction>, more: seq<SessionAction>,
                                          t: Session)
    returns (ts: seq<Session>)
    requires SessionRun(ss, actions) && Leads(ss[|actions|], more, t)
    ensures ContinuesTo(ss, actions, ts, more, t)
    decreases |more|, 1
  {
    if more == [] {
      ts := ss;
      NothingMore(ss, actions, more, t);
    } else {
      ts := LeadsStep(ss, actions, more, t);
    }
  }

  lemma {:induction false} LeadsStep(ss: seq<Session>, actions: seq<SessionAction>, more: seq<SessionAction>,
                                     t: Session)
    returns (ts: seq<Session>)
    requires SessionRun(ss, actions) && Leads(ss[|actions|], more, t) && more != []
    ensures ContinuesTo(ss, actions, ts, more, t)
    decreases |more|, 0
  {
    RunGoesOn(ss, actions, more[0]);
    ts := LeadsContinues(ss + [SessionDo(ss[|actions|], more[0])], actions + [more[0]], more[1..], t);
    OneMoreStep(ss, actions, ts, more);
  }

  lemma {:induction false} NothingMore(ss: seq<Session>, actions: seq<SessionAction>, more: seq<SessionAction>,
                                       t: Session)
    requires SessionRun(ss, actions) && Leads(ss[|actions|], more, t) && more == []
    ensures ContinuesTo(ss, actions, ss, more, t)
  {
    assert actions + more == actions;
  }

  lemma {:induction false} OneMoreStep(ss: seq<Session>, actions: seq<SessionAction>, ts: seq<Session>,
                                       more: seq<SessionAction>)
    requires SessionRun(ss, actions) && more != [] && SessionEnabled(ss[|actions|], more[0]) && Forward(more[0])
    requires Continues(ss + [SessionDo(ss[|actions|], more[0])], actions + [more[0]], ts, more[1..])
    ensures Continues(ss, actions, ts, more)
  {
    assert actions + more == actions + [more[0]] + more[1..];
  }

  lemma {:induction false} RunGoesOn(ss: seq<Session>, actions: seq<SessionAction>, a: SessionAction)
    requires SessionRun(ss, actions) && SessionEnabled(ss[|actions|], a)
    ensures SessionRun(ss + [SessionDo(ss[|actions|], a)], actions + [a])
    ensures (ss + [SessionDo(ss[|actions|], a)])[|actions + [a]|] == SessionDo(ss[|actions|], a)
  {
    var ts, more := ss + [SessionDo(ss[|actions|], a)], actions + [a];
    assert ts[..|actions| + 1] == ss && more[..|actions|] == actions;
  }

  /** Every session, wherever it is, has a continuation in which loops, threads and network finish what
      there is to do: everything is sent and taken, and every transferred file comes to its end; unless
      they meet a request for a file of more than 2^44 bytes. */
  lemma {:induction false} EverySessionCanSettle(ss: seq<Session>, actions: seq<SessionAction>)
    requires SessionRun(ss, actions)
    ensures exists ts, more :: Continues(ss, actions, ts, more)
                            && (AllSettled(ss[0].base, ts[|ts| - 1]) || AsksTooMuch(ts[|ts| - 1]))
  {
    var more, t := SettlesFrom(ss, actions);
    var ts := LeadsContinues(ss, actions, more, t);
  }

  lemma {:induction false} LastState(ts: seq<Session>, actions: seq<SessionAction>)
    requires SessionRun(ts, actions)
    ensures |ts| == |actions| + 1
  {
  }

  lemma {:induction false} SettlesFrom(ss: seq<Session>, actions: seq<SessionAction>)
    returns (more: seq<SessionAction>, t: Session)
    requires SessionRun(ss, actions)
    ensures Leads(ss[|actions|], more, t) && (AllSettled(ss[0].base, t) || AsksTooMuch(t))
  {
    var ws, bs := RunRefines(ss, actions);
    more, t := ComesToRest(ss[0].base, ss[|actions|]);
    if AtRest(t) { RestSettles(ss[0].base, t); }
  }
}
