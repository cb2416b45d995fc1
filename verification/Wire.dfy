/** The session with its byte streams. The sender thread writes the frame of its front packet
    through partial `send` calls and only then erases it from its buffer; the receiver thread
    gathers a frame through partial `recv` calls and then dispatches it. This refines the
    session of module World, whose queues hold whole packets. */
module Wire {
  import opened Seqs
  import opened Codec
  import opened Chunking
  import opened Framing
  import opened Transfer
  import opened Link
  import opened World

  /** One direction: the bytes of the front packet not yet handed over (while it is being sent),
      the bytes inside the connection, and those received of the current packet. */
  datatype Wire = Wire(sending: Option<Bytes>, stream: Bytes, inbox: Bytes)

  /** In `base` the queues are the sender buffers of both sides. */
  datatype Session = Session(base: World, up: Wire, down: Wire)

  datatype WireAction =
    | BeginSend(pad: Bytes)
    | SendSome(k: nat)
    | EndSend
    | RecvSome(k: nat)

  datatype SessionAction =
    | App(action: Action)
    | UpWire(move: WireAction)
    | DownWire(move: WireAction)
    | TakeUp(sum: string)
    | TakeDown(sum: string)

  function Outgoing(w: Wire): Bytes { if w.sending.Some? then w.sending.value else [] }

  /** Every byte between the two buffers, in the order of arrival. */
  function AllBytes(w: Wire): Bytes { w.inbox + w.stream + Outgoing(w) }

  /** How many bytes the receiver asks for: the rest of the header, then of the payload. */
  function Wanted(inbox: Bytes): int {
    if |inbox| < HEADER then HEADER - |inbox| else HEADER + SizeOf(inbox) - |inbox|
  }

  predicate WireEnabled(buffer: seq<Packet>, w: Wire, m: WireAction) {
    match m
    case BeginSend(pad) => w.sending == None && buffer != [] && |pad| == 4 && |buffer[0].command| < COMMAND_FIELD
    case SendSome(k) => w.sending.Some? && 0 < k <= |w.sending.value|
    case EndSend => w.sending == Some([]) && buffer != []
    case RecvSome(k) => 0 < k <= |w.stream| && k <= Wanted(w.inbox)
  }

  function WireMove(buffer: seq<Packet>, w: Wire, m: WireAction): (seq<Packet>, Wire)
    requires WireEnabled(buffer, w, m)
  {
    match m
    case BeginSend(pad) => (buffer, w.(sending := Some(Frame(buffer[0], pad))))
    case SendSome(k) =>
      (buffer, w.(sending := Some(w.sending.value[k..]), stream := w.stream + w.sending.value[..k]))
    case EndSend => (buffer[1..], w.(sending := None))
    case RecvSome(k) => (buffer, w.(stream := w.stream[k..], inbox := w.inbox + w.stream[..k]))
  }

  /** A whole packet has been received and nothing more. */
  predicate Received(w: Wire) { Complete(w.inbox) && FirstSize(w.inbox) == |w.inbox| }

  /** The packets under way in the order they were queued: what the bytes spell, then the buffer
      without the packet being sent. */
  function Abstract(buffer: seq<Packet>, w: Wire): seq<Packet> {
    Parse(AllBytes(w)) + if w.sending.Some? && buffer != [] then buffer[1..] else buffer
  }

  function AbstractLink(l: Link, w: Wire): Link { l.(queue := Abstract(l.queue, w)) }

  /** The session of whole packets that a session of bytes stands for. */
  function AbstractWorld(s: Session): World {
    World(s.base.sync, AbstractLink(s.base.up, s.up), AbstractLink(s.base.down, s.down))
  }

  /** No byte is out of place: the bytes spell whole packets, a packet being sent is still in its
      buffer, and the receiver has read no further than the end of the current packet. */
  ghost predicate Aligned(buffer: seq<Packet>, w: Wire) {
    && Rest(AllBytes(w)) == [] && (w.sending.Some? ==> buffer != [])
    && Wanted(w.inbox) >= 0
  }

  // ----- byte steps are invisible -----

  lemma ParseAppendsFrame(before: Bytes, p: Packet, pad: Bytes)
    requires Rest(before) == [] && Valid(p) && |pad| == 4
    ensures Parse(before + Frame(p, pad)) == Parse(before) + [p] && Rest(before + Frame(p, pad)) == []
  {
    var frame := Frame(p, pad);
    ParseResumes(before, frame);
    FrameParses(p, pad, []);
    assert Rest(before) + frame == frame && frame + [] == frame;
  }

  lemma BeginSendHidden(buffer: seq<Packet>, w: Wire, pad: Bytes)
    requires Aligned(buffer, w) && WireEnabled(buffer, w, BeginSend(pad)) && Valid(buffer[0])
    ensures var (b, v) := WireMove(buffer, w, BeginSend(pad));
            Aligned(b, v) && Abstract(b, v) == Abstract(buffer, w)
  {
    var before := AllBytes(w);
    assert before == w.inbox + w.stream;
    ParseAppendsFrame(before, buffer[0], pad);
    Associate(Parse(before), [buffer[0]], buffer[1..]);
    assert [buffer[0]] + buffer[1..] == buffer;
  }

  lemma SendSomeHidden(buffer: seq<Packet>, w: Wire, k: nat)
    requires Aligned(buffer, w) && WireEnabled(buffer, w, SendSome(k))
    ensures var (b, v) := WireMove(buffer, w, SendSome(k));
            Aligned(b, v) && Abstract(b, v) == Abstract(buffer, w)
  {
    var (_, v) := WireMove(buffer, w, SendSome(k));
    assert w.sending.value == w.sending.value[..k] + w.sending.value[k..];
    assert AllBytes(v) == AllBytes(w);
  }

  lemma EndSendHidden(buffer: seq<Packet>, w: Wire)
    requires Aligned(buffer, w) && WireEnabled(buffer, w, EndSend)
    ensures var (b, v) := WireMove(buffer, w, EndSend);
            Aligned(b, v) && Abstract(b, v) == Abstract(buffer, w)
  {
    var (_, v) := WireMove(buffer, w, EndSend);
    assert AllBytes(v) == AllBytes(w);
  }

  lemma RecvSomeHidden(buffer: seq<Packet>, w: Wire, k: nat)
    requires Aligned(buffer, w) && WireEnabled(buffer, w, RecvSome(k))
    ensures var (b, v) := WireMove(buffer, w, RecvSome(k));
            Aligned(b, v) && Abstract(b, v) == Abstract(buffer, w)
  {
    var (_, v) := WireMove(buffer, w, RecvSome(k));
    assert w.stream == w.stream[..k] + w.stream[k..];
    assert AllBytes(v) == AllBytes(w);
    StillWanted(w.inbox, w.stream[..k]);
  }

  lemma StillWanted(inbox: Bytes, more: Bytes)
    requires |more| <= Wanted(inbox)
    ensures Wanted(inbox + more) >= 0
  {
    if |inbox| >= HEADER {
      assert (inbox + more)[1032..1040] == inbox[1032..1040];
    }
  }

  lemma WireHidden(buffer: seq<Packet>, w: Wire, m: WireAction)
    requires Aligned(buffer, w) && WireEnabled(buffer, w, m)
    requires m.BeginSend? ==> Valid(buffer[0])
    ensures var (b, v) := WireMove(buffer, w, m);
            Aligned(b, v) && Abstract(b, v) == Abstract(buffer, w)
  {
    match m {
      case BeginSend(pad) => BeginSendHidden(buffer, w, pad);
      case SendSome(k) => SendSomeHidden(buffer, w, k);
      case EndSend => EndSendHidden(buffer, w);
      case RecvSome(k) => RecvSomeHidden(buffer, w, k);
    }
  }

  // ----- the visible steps -----

  function Take(w: Wire): Wire { w.(inbox := []) }

  /** A received packet is the first one under way. */
  lemma TakeIsHead(buffer: seq<Packet>, w: Wire)
    requires Aligned(buffer, w) && Received(w)
    ensures Aligned(buffer, Take(w))
    ensures Abstract(buffer, w) == [First(w.inbox)] + Abstract(buffer, Take(w))
  {
    var rest := w.stream + Outgoing(w);
    assert AllBytes(w) == w.inbox + rest;
    assert AllBytes(Take(w)) == rest;
    FirstStable(w.inbox, rest);
    assert w.inbox[FirstSize(w.inbox)..] + rest == rest;
    Associate([First(w.inbox)], Parse(rest), if w.sending.Some? && buffer != [] then buffer[1..] else buffer);
  }

  ghost predicate SessionEnabled(s: Session, a: SessionAction) {
    match a
    case App(b) => Enabled(s.base, b) && !b.DeliverUp? && !b.DeliverDown?
    case UpWire(m) => WireEnabled(s.base.up.queue, s.up, m)
    case DownWire(m) => WireEnabled(s.base.down.queue, s.down, m)
    case TakeUp(sum) => Received(s.up) && MayHandleUp(s.base, First(s.up.inbox)) && Digest(sum)
    case TakeDown(sum) => Received(s.down) && MayHandleDown(s.base, First(s.down.inbox)) && Digest(sum)
  }

  function SessionDo(s: Session, a: SessionAction): Session
    requires SessionEnabled(s, a)
  {
    match a
    case App(b) => s.(base := Do(s.base, b))
    case UpWire(m) =>
      var (buffer, wire) := WireMove(s.base.up.queue, s.up, m);
      s.(base := s.base.(up := s.base.up.(queue := buffer)), up := wire)
    case DownWire(m) =>
      var (buffer, wire) := WireMove(s.base.down.queue, s.down, m);
      s.(base := s.base.(down := s.base.down.(queue := buffer)), down := wire)
    case TakeUp(sum) => s.(base := HandleUp(s.base, First(s.up.inbox), sum), up := Take(s.up))
    case TakeDown(sum) => s.(base := HandleDown(s.base, First(s.down.inbox), sum), down := Take(s.down))
  }

  ghost predicate SessionGood(init: World, s: Session) {
    && Aligned(s.base.up.queue, s.up) && Aligned(s.base.down.queue, s.down)
    && Good(init, AbstractWorld(s))
  }

  /** The step of whole packets that a step of bytes amounts to, if any. */
  function AbstractAction(a: SessionAction): Option<Action> {
    match a
    case App(b) => Some(b)
    case UpWire(_) => None
    case DownWire(_) => None
    case TakeUp(sum) => Some(DeliverUp(sum))
    case TakeDown(sum) => Some(DeliverDown(sum))
  }

  /** Appending to the buffer appends to what is under way. */
  lemma PushCommutes(l: Link, w: Wire, p: Packet)
    requires Aligned(l.queue, w)
    ensures AbstractLink(Push(l, p), w) == Push(AbstractLink(l, w), p) && Aligned(Push(l, p).queue, w)
  {
    var bytes := Parse(AllBytes(w));
    var kept := if w.sending.Some? && l.queue != [] then l.queue[1..] else l.queue;
    Associate(bytes, kept, [p]);
    if w.sending.Some? {
      assert (l.queue + [p])[1..] == l.queue[1..] + [p];
    }
  }

  lemma PushIfFitsCommutes(l: Link, w: Wire, p: Packet)
    requires Aligned(l.queue, w)
    ensures AbstractLink(PushIfFits(l, p), w) == PushIfFits(AbstractLink(l, w), p)
    ensures Aligned(PushIfFits(l, p).queue, w)
  {
    PushCommutes(l, w, p);
  }

  lemma PushNextCommutes(l: Link, w: Wire, n: Name)
    requires Aligned(l.queue, w) && n in l.loops && l.loops[n] != []
    ensures AbstractLink(PushNext(l, n), w) == PushNext(AbstractLink(l, w), n)
    ensures Aligned(PushNext(l, n).queue, w)
  {
    PushCommutes(l, w, l.loops[n][0]);
  }

  lemma AnswerCommutes(verb: string, l: Link, w: Wire, source: Folder, locks: set<Name>, n: Name, sum: string)
    requires Aligned(l.queue, w)
    ensures AbstractLink(Answer(verb, l, source, locks, n, sum), w)
         == Answer(verb, AbstractLink(l, w), source, locks, n, sum)
    ensures Aligned(Answer(verb, l, source, locks, n, sum).queue, w)
  {
    if n !in source {
      PushIfFitsCommutes(l, w, Packet(DataCommand(verb, n, "fail"), 0, 0, Reason(verb)));
    }
  }

  lemma AppRefines(s: Session, a: Action)
    requires Aligned(s.base.up.queue, s.up) && Aligned(s.base.down.queue, s.down)
    requires SessionEnabled(s, App(a))
    ensures var t := SessionDo(s, App(a));
            && Aligned(t.base.up.queue, t.up) && Aligned(t.base.down.queue, t.down)
            && Enabled(AbstractWorld(s), a) && AbstractWorld(t) == Do(AbstractWorld(s), a)
  {
    match a {
      case Edit(n, c) =>
      case AskDownload(n) => PushIfFitsCommutes(s.base.up, s.up, Request(ASK, n));
      case AskUpload(n) => PushIfFitsCommutes(s.base.down, s.down, Request(UP, n));
      case LoopUp(n) => PushNextCommutes(s.base.up, s.up, n);
      case LoopDown(n) => PushNextCommutes(s.base.down, s.down, n);
      case OtherUp(p) => PushCommutes(s.base.up, s.up, p);
      case OtherDown(p) => PushCommutes(s.base.down, s.down, p);
    }
  }

  lemma TakeUpRefines(s: Session, sum: string)
    requires Aligned(s.base.up.queue, s.up) && Aligned(s.base.down.queue, s.down)
    requires SessionEnabled(s, TakeUp(sum))
    ensures var t := SessionDo(s, TakeUp(sum));
            && Aligned(t.base.up.queue, t.up) && Aligned(t.base.down.queue, t.down)
            && Enabled(AbstractWorld(s), DeliverUp(sum)) && AbstractWorld(t) == Do(AbstractWorld(s), DeliverUp(sum))
  {
    var p := First(s.up.inbox);
    TakeIsHead(s.base.up.queue, s.up);
    var w := AbstractWorld(s);
    assert w.up.queue[0] == p && Tail(w.up) == AbstractLink(s.base.up, Take(s.up));
    match RequestName(ASK, p) {
      case None =>
      case Some(n) => AnswerCommutes(DOWN, s.base.down, s.down, s.base.up.folder, s.base.up.locks, n, sum);
    }
  }

  lemma TakeDownRefines(s: Session, sum: string)
    requires Aligned(s.base.up.queue, s.up) && Aligned(s.base.down.queue, s.down)
    requires SessionEnabled(s, TakeDown(sum))
    ensures var t := SessionDo(s, TakeDown(sum));
            && Aligned(t.base.up.queue, t.up) && Aligned(t.base.down.queue, t.down)
            && Enabled(AbstractWorld(s), DeliverDown(sum)) && AbstractWorld(t) == Do(AbstractWorld(s), DeliverDown(sum))
  {
    var p := First(s.down.inbox);
    TakeIsHead(s.base.down.queue, s.down);
    var w := AbstractWorld(s);
    assert w.down.queue[0] == p && Tail(w.down) == AbstractLink(s.base.down, Take(s.down));
    match RequestName(UP, p) {
      case None =>
      case Some(n) => AnswerCommutes(UP, s.base.up, s.up, s.base.sync, s.base.down.locks, n, sum);
    }
  }

  /** While no packet is being sent, every packet in the buffer is under way. */
  lemma FrontIsValid(buffer: seq<Packet>, w: Wire)
    requires AllValid(Abstract(buffer, w)) && w.sending == None && buffer != []
    ensures Valid(buffer[0])
  {
    assert Abstract(buffer, w)[|Parse(AllBytes(w))|] == buffer[0];
  }

  /** Refinement: every step of bytes is a step of whole packets or leaves them unchanged. */
  lemma StepRefines(init: World, s: Session, a: SessionAction)
    requires SessionGood(init, s) && SessionEnabled(s, a)
    ensures SessionGood(init, SessionDo(s, a))
    ensures match AbstractAction(a)
            case None => AbstractWorld(SessionDo(s, a)) == AbstractWorld(s)
            case Some(b) => Enabled(AbstractWorld(s), b) && AbstractWorld(SessionDo(s, a)) == Do(AbstractWorld(s), b)
  {
    match a {
      case App(b) =>
        AppRefines(s, b);
        DoKeeps(init, AbstractWorld(s), b);
      case UpWire(m) =>
        if m.BeginSend? { FrontIsValid(s.base.up.queue, s.up); }
        WireHidden(s.base.up.queue, s.up, m);
      case DownWire(m) =>
        if m.BeginSend? { FrontIsValid(s.base.down.queue, s.down); }
        WireHidden(s.base.down.queue, s.down, m);
      case TakeUp(sum) =>
        TakeUpRefines(s, sum);
        DoKeeps(init, AbstractWorld(s), DeliverUp(sum));
      case TakeDown(sum) =>
        TakeDownRefines(s, sum);
        DoKeeps(init, AbstractWorld(s), DeliverDown(sum));
    }
  }

  /** All steps of whole packets that a run of bytes amounts to. */
  function Abstracted(actions: seq<SessionAction>): seq<Action> {
    if actions == [] then [] else
      Abstracted(actions[..|actions| - 1])
      + match AbstractAction(actions[|actions| - 1]) { case None => [] case Some(b) => [b] }
  }

  // ----- whole runs -----

  const IDLE: Wire := Wire(None, [], [])

  /** A run of the byte session: it begins idle, and each state follows from the one before. */
  ghost predicate SessionRun(ss: seq<Session>, actions: seq<SessionAction>)
    decreases |actions|
  {
    && |ss| == |actions| + 1
    && (if actions == [] then Initial(ss[0].base) && ss[0].up == IDLE && ss[0].down == IDLE
        else var k := |actions| - 1;
          SessionRun(ss[..k + 1], actions[..k]) && Follows(ss[k], actions[k], ss[k + 1]))
  }

  ghost predicate Follows(s: Session, a: SessionAction, t: Session) {
    SessionEnabled(s, a) && t == SessionDo(s, a)
  }

  lemma SessionInitiallyGood(s: Session)
    requires Initial(s.base) && s.up == IDLE && s.down == IDLE
    ensures AbstractWorld(s) == s.base && SessionGood(s.base, s)
  {
    assert s.base.up in [s.base.up, s.base.down] && s.base.down in [s.base.up, s.base.down];
    InitiallyGood(s.base);
  }

  lemma RunExtends(ws: seq<World>, bs: seq<Action>, b: Action)
    requires Run(ws, bs) && Enabled(ws[|bs|], b)
    ensures Run(ws + [Do(ws[|bs|], b)], bs + [b])
  {
    var vs, cs := ws + [Do(ws[|bs|], b)], bs + [b];
    forall i | 0 <= i < |cs| ensures Enabled(vs[i], cs[i]) && vs[i + 1] == Do(vs[i], cs[i]) {
      if i < |bs| {
        assert vs[i] == ws[i] && vs[i + 1] == ws[i + 1] && cs[i] == bs[i];
      }
    }
  }

  /** Some state of the session has the folders that files are sent from as they are in `w`. */
  ghost predicate Seen(ss: seq<Session>, w: World) {
    exists j :: 0 <= j < |ss| && SameSources(ss[j], w)
  }

  ghost predicate SameSources(s: Session, w: World) {
    s.base.sync == w.sync && s.base.up.folder == w.up.folder
  }

  ghost predicate AllSeen(ss: seq<Session>, ws: seq<World>) {
    forall i :: 0 <= i < |ws| ==> Seen(ss, ws[i])
  }

  lemma SeenLater(ss: seq<Session>, s: Session, ws: seq<World>)
    requires AllSeen(ss, ws)
    ensures AllSeen(ss + [s], ws)
  {
    forall i | 0 <= i < |ws| ensures Seen(ss + [s], ws[i]) {
      assert Seen(ss, ws[i]);
      var j :| 0 <= j < |ss| && SameSources(ss[j], ws[i]);
      assert (ss + [s])[j] == ss[j];
    }
  }

  lemma SeenMore(ss: seq<Session>, s: Session, ws: seq<World>, w: World)
    requires AllSeen(ss, ws) && SameSources(s, w)
    ensures AllSeen(ss + [s], ws + [w])
  {
    SeenLater(ss, s, ws);
    assert (ss + [s])[|ss|] == s;
    assert Seen(ss + [s], w);
  }

  /** The run of whole packets ends where the byte session is. */
  ghost predicate Ends(first: Session, s: Session, ws: seq<World>, bs: seq<Action>) {
    Run(ws, bs) && ws[0] == first.base && ws[|bs|] == AbstractWorld(s) && SessionGood(first.base, s)
  }

  /** The run `ws` of whole packets ends where the byte session ends, and no other files were
      there to be sent. */
  ghost predicate Mirrors(ss: seq<Session>, ws: seq<World>, bs: seq<Action>) {
    ss != [] && Ends(ss[0], ss[|ss| - 1], ws, bs) && AllSeen(ss, ws)
  }

  lemma MirrorsStart(s: Session)
    requires Initial(s.base) && s.up == IDLE && s.down == IDLE
    ensures Mirrors([s], [s.base], [])
  {
    SessionInitiallyGood(s);
    assert SameSources([s][0], s.base);
  }

  lemma MirrorsStay(ss: seq<Session>, s: Session, ws: seq<World>, bs: seq<Action>)
    requires Mirrors(ss, ws, bs) && SessionGood(ss[0].base, s)
    requires AbstractWorld(s) == AbstractWorld(ss[|ss| - 1])
    ensures Mirrors(ss + [s], ws, bs)
  {
    SeenLater(ss, s, ws);
  }

  lemma EndsMove(first: Session, last: Session, s: Session, ws: seq<World>, bs: seq<Action>, b: Action)
    requires Ends(first, last, ws, bs) && SessionGood(first.base, s)
    requires Enabled(ws[|bs|], b) && AbstractWorld(s) == Do(ws[|bs|], b)
    ensures Ends(first, s, ws + [AbstractWorld(s)], bs + [b])
  {
    RunExtends(ws, bs, b);
  }

  lemma MirrorsMove(ss: seq<Session>, s: Session, ws: seq<World>, bs: seq<Action>, b: Action)
    requires Mirrors(ss, ws, bs) && SessionGood(ss[0].base, s)
    requires Enabled(ws[|bs|], b) && AbstractWorld(s) == Do(ws[|bs|], b)
    ensures Mirrors(ss + [s], ws + [AbstractWorld(s)], bs + [b])
  {
    EndsMove(ss[0], ss[|ss| - 1], s, ws, bs, b);
    SeenMore(ss, s, ws, AbstractWorld(s));
  }

  lemma MirrorStep(ss: seq<Session>, s: Session, a: SessionAction, ws: seq<World>, bs: seq<Action>)
    returns (vs: seq<World>, cs: seq<Action>)
    requires Mirrors(ss, ws, bs) && Follows(ss[|ss| - 1], a, s)
    ensures Mirrors(ss + [s], vs, cs)
    ensures cs == bs + match AbstractAction(a) { case None => [] case Some(b) => [b] }
  {
    StepRefines(ss[0].base, ss[|ss| - 1], a);
    match AbstractAction(a) {
      case None =>
        MirrorsStay(ss, s, ws, bs);
        vs, cs := ws, bs;
      case Some(b) =>
        MirrorsMove(ss, s, ws, bs, b);
        vs, cs := ws + [AbstractWorld(s)], bs + [b];
    }
  }

  /** Every run of the byte session is, read through the abstraction, a run of whole packets, with the
      same actions of users, loops and handlers. */
  lemma {:induction false} RunRefines(ss: seq<Session>, actions: seq<SessionAction>)
    returns (ws: seq<World>, bs: seq<Action>)
    requires SessionRun(ss, actions)
    ensures Mirrors(ss, ws, bs) && bs == Abstracted(actions)
    decreases |ss|
  {
    if actions == [] {
      ws, bs := [ss[0].base], [];
      MirrorsStart(ss[0]);
      assert ss == [ss[0]];
    } else {
      var k := |actions| - 1;
      var head, s := SessionHead(ss, actions);
      ws, bs := RunRefines(head, actions[..k]);
      ws, bs := MirrorStep(head, s, actions[k], ws, bs);
    }
  }

  lemma {:induction false} SessionHead(ss: seq<Session>, actions: seq<SessionAction>) returns (head: seq<Session>,
                                       s: Session)
    requires SessionRun(ss, actions) && actions != []
    ensures ss == head + [s] && |head| == |actions|
    ensures SessionRun(head, actions[..|actions| - 1]) && Follows(head[|head| - 1], actions[|actions| - 1], s)
  {
    head, s := ss[..|actions|], ss[|actions|];
  }

  datatype Direction = Up | Down

  /** The folder from which files are sent in that direction. */
  function Source(s: Session, d: Direction): Folder {
    if d.Up? then s.base.sync else s.base.up.folder
  }

  /** Some state of the session had this content on the sending side. */
  ghost predicate SentInFull(ss: seq<Session>, path: string, content: Bytes, d: Direction) {
    exists j :: 0 <= j < |ss| && Shows(Source(ss[j], d), path, content)
  }

  lemma WasSeen(ss: seq<Session>, ws: seq<World>, i: nat, path: string, content: Bytes)
    requires AllSeen(ss, ws)
    ensures WasThere(SyncFolders(ws), i, path, content) ==> SentInFull(ss, path, content, Up)
    ensures WasThere(ServerFolders(ws), i, path, content) ==> SentInFull(ss, path, content, Down)
  {
    if WasThere(SyncFolders(ws), i, path, content) {
      var k :| 0 <= k < |ws| && Shows(SyncFolders(ws)[k], path, content);
      assert Seen(ss, ws[k]);
      var j :| 0 <= j < |ss| && SameSources(ss[j], ws[k]);
      assert Shows(Source(ss[j], Up), path, content);
    }
    if WasThere(ServerFolders(ws), i, path, content) {
      var k :| 0 <= k < |ws| && Shows(ServerFolders(ws)[k], path, content);
      assert Seen(ss, ws[k]);
      var j :| 0 <= j < |ss| && SameSources(ss[j], ws[k]);
      assert Shows(Source(ss[j], Down), path, content);
    }
  }

  /** The same, or that content behind the leftover of an earlier session. */
  ghost predicate SentBehind(ss: seq<Session>, path: string, leftover: Bytes, now: Bytes, d: Direction) {
    SentInFull(ss, path, now, d) || exists content :: now == leftover + content && SentInFull(ss, path, content, d)
  }

  lemma WasSentSeen(ss: seq<Session>, ws: seq<World>, i: nat, path: string, leftover: Bytes, now: Bytes)
    requires AllSeen(ss, ws)
    ensures WasSent(SyncFolders(ws), i, path, leftover, now) ==> SentBehind(ss, path, leftover, now, Up)
    ensures WasSent(ServerFolders(ws), i, path, leftover, now) ==> SentBehind(ss, path, leftover, now, Down)
  {
    WasSeen(ss, ws, i, path, now);
    forall content { WasSeen(ss, ws, i, path, content); }
  }

  /** What a receiver shows: what it showed at the beginning, or what was sent in full, provided that
      there was no leftover of an earlier session; otherwise that may be in front of it. */
  ghost predicate NothingPartial(ss: seq<Session>, start: Folder, now: Folder, path: string, d: Direction) {
    && (SameAt(now, start, path) || (path in now && SentBehind(ss, path, Leftover(start, path), now[path], d)))
    && (Leftover(start, path) == [] ==> SameAt(now, start, path) || (path in now && SentInFull(ss, path, now[path], d)))
  }

  /** However the network cuts up the streams: after every session, what either receiver shows
      under a plain name is what it showed at the beginning or exactly what the sending side held
      under that name in some state of the session, provided that the name began without temporary
      data. */
  lemma {:induction false} SessionNeverPartial(ss: seq<Session>, actions: seq<SessionAction>, path: string)
    requires SessionRun(ss, actions) && !IsTempPath(path)
    ensures NothingPartial(ss, ss[0].base.up.folder, ss[|actions|].base.up.folder, path, Up)
    ensures NothingPartial(ss, ss[0].base.down.folder, ss[|actions|].base.down.folder, path, Down)
  {
    var ws, bs := RunRefines(ss, actions);
    NeverPartial(ws, bs, |bs|, path);
    var first, last := ss[0].base, ss[|actions|].base;
    WasSeen(ss, ws, |bs|, path, Contents(last.up.folder, path));
    WasSeen(ss, ws, |bs|, path, Contents(last.down.folder, path));
    WasSentSeen(ss, ws, |bs|, path, Leftover(first.up.folder, path), Contents(last.up.folder, path));
    WasSentSeen(ss, ws, |bs|, path, Leftover(first.down.folder, path), Contents(last.down.folder, path));
  }

  /** Nothing of `n` is in the buffer, on the wire, or still to be pushed. */
  ghost predicate Arrived(l: Link, w: Wire, n: Name) {
    l.queue == [] && AllBytes(w) == [] && n in l.started && n !in l.loops
  }

  /** When all bytes of a direction have arrived and its buffer and loops are empty, every
      transferred file is the last snapshot taken of it, and there is no temporary file, if and
      only if its receiver has a mutex for it and it began without temporary data or was transferred
      more than once. */
  lemma {:induction false} SessionSettles(ss: seq<Session>, actions: seq<SessionAction>, n: Name)
    requires SessionRun(ss, actions)
    ensures var s := ss[|actions|];
            Arrived(s.base.up, s.up, n) ==> Outcome(ss[0].base.up.folder, s.base.up, n)
    ensures var s := ss[|actions|];
            Arrived(s.base.down, s.down, n) ==> Outcome(ss[0].base.down.folder, s.base.down, n)
  {
    var ws, bs := RunRefines(ss, actions);
    var s := ss[|actions|];
    SettledWhenDrained(ws, bs, |bs|, n);
    if Arrived(s.base.up, s.up, n) {
      ArrivedIsDrained(UP, s.base.up, s.up, n);
      OutcomeOfAbstract(ss[0].base.up.folder, s.base.up, s.up, n);
    }
    if Arrived(s.base.down, s.down, n) {
      ArrivedIsDrained(DOWN, s.base.down, s.down, n);
      OutcomeOfAbstract(ss[0].base.down.folder, s.base.down, s.down, n);
    }
  }

  lemma OutcomeOfAbstract(init: Folder, l: Link, w: Wire, n: Name)
    ensures Outcome(init, AbstractLink(l, w), n) <==> Outcome(init, l, n)
  {
  }

  lemma ArrivedIsDrained(verb: string, l: Link, w: Wire, n: Name)
    requires Arrived(l, w, n)
    ensures Under(verb, AbstractLink(l, w), n) == []
  {
  }

  /** The byte layer is never stuck: while a packet is under way, it can be sent or received
      further, or it is there to be taken. */
  lemma NeverStuck(buffer: seq<Packet>, w: Wire)
    requires Aligned(buffer, w) && AllValid(Abstract(buffer, w)) && Abstract(buffer, w) != []
    ensures Received(w) || exists m :: WireEnabled(buffer, w, m)
  {
    if w.sending.Some? {
      if w.sending.value == [] {
        assert WireEnabled(buffer, w, EndSend);
      } else {
        assert WireEnabled(buffer, w, SendSome(1));
      }
    } else if buffer != [] {
      FrontIsValid(buffer, w);
      assert WireEnabled(buffer, w, BeginSend(Fill(4)));
    } else if w.stream != [] && Wanted(w.inbox) > 0 {
      assert WireEnabled(buffer, w, RecvSome(1));
    } else if w.stream == [] {
      assert AllBytes(w) == w.inbox;
    }
  }
}
