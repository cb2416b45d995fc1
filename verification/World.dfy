/** A session between one client and the server: two links, one for each direction. Upwards the
    client requests downloads (`adownload|f`) and sends the files the server asked for
    (`sdownload|f|sum`); downwards the server asks for files (`sdownload|f`) and sends the
    requested ones (`aupload|f|sum`). */
module World {
  import opened Seqs
  import opened Codec
  import opened Chunking
  import opened Framing
  import opened Transfer
  import opened Link

  /** `up.folder` is the user's folder on the server, `down.folder` the client's download folder,
      `sync` the client's synchronized folder, which only its user changes here. The client has
      one map of mutexes for both of its folders: `down.locks`. */
  datatype World = World(sync: Folder, up: Link, down: Link)

  const UP: string := "sdownload"
  const DOWN: string := "aupload"
  const ASK: string := "adownload"

  datatype Action =
    /** the user creates, changes or removes a file of the synchronized folder */
    | Edit(name: Name, content: Option<Bytes>)
    | AskDownload(name: Name)
    | AskUpload(name: Name)
    /** one iteration of a running sender loop */
    | LoopUp(name: Name)
    | LoopDown(name: Name)
    /** a ping, a listing or any other packet that belongs to no transfer */
    | OtherUp(p: Packet)
    | OtherDown(p: Packet)
    /** a receiver takes the next packet; `sum` is the checksum of the file it may have to read */
    | DeliverUp(sum: string)
    | DeliverDown(sum: string)

  /** A two-token request `verb|name`. */
  function RequestName(verb: string, p: Packet): Option<Name> {
    var tokens := Split(p.command);
    if |tokens| == 2 && tokens[0] == verb then Some(tokens[1]) else None
  }

  function Request(verb: string, n: Name): Packet { Packet(verb + [BAR] + n, 0, 0, []) }

  function PushIfFits(l: Link, p: Packet): Link {
    if |p.command| < COMMAND_FIELD then Push(l, p) else l
  }

  /** The text of a failure reply: the server's or the client's. */
  function Reason(verb: string): (reason: string)
    ensures |reason| <= 64
  {
    if verb == DOWN then "Could not find or acess given file!" else "Given file was not found on user local machine."
  }

  /** The answer to a request for `n`: the file's packets on `l`, a failure packet when there is
      no such file, nothing when the sending side has no mutex for it. */
  function Answer(verb: string, l: Link, source: Folder, locks: set<Name>, n: Name, sum: string): Link {
    if n !in source then PushIfFits(l, Packet(DataCommand(verb, n, "fail"), 0, 0, Reason(verb)))
    else if n !in locks then l
    else Start(verb, l, n, Snapshot(source[n], sum))
  }

  /** The packets that an answer amounts to once its loop has run. */
  function AnswerPackets(verb: string, source: Folder, locks: set<Name>, n: Name, sum: string): seq<Packet> {
    if n !in source then
      if |DataCommand(verb, n, "fail")| >= COMMAND_FIELD then []
      else [Packet(DataCommand(verb, n, "fail"), 0, 0, Reason(verb))]
    else if n !in locks || |DataCommand(verb, n, sum)| >= COMMAND_FIELD then []
    else PacketsOf(verb, n, Snapshot(source[n], sum))
  }

  /** A running loop pushed to its end without interruption. */
  function RunLoop(l: Link, n: Name): Link
    requires n in l.loops ==> l.loops[n] != []
    decreases |Pending(l, n)|
  {
    if n !in l.loops then l else
      assert |l.loops[n]| > 1 ==> l.loops[n][1..] != [];
      RunLoop(PushNext(l, n), n)
  }

  lemma {:induction false} LoopPushesAll(l: Link, n: Name)
    requires n in l.loops ==> l.loops[n] != []
    ensures RunLoop(l, n) == l.(queue := l.queue + Pending(l, n), loops := l.loops - {n})
    decreases |Pending(l, n)|
  {
    if n in l.loops {
      var p, rest, next := l.loops[n][0], l.loops[n][1..], PushNext(l, n);
      assert |l.loops[n]| > 1 ==> rest != [];
      LoopPushesAll(next, n);
      assert l.loops[n] == [p] + rest && Pending(next, n) == rest;
      Associate(l.queue, [p], rest);
      assert next.loops - {n} == l.loops - {n};
    } else {
      assert l.loops - {n} == l.loops && l.queue + [] == l.queue;
    }
  }

  /** An answer queues exactly its packets. */
  lemma AnswerQueues(verb: string, l: Link, source: Folder, locks: set<Name>, n: Name, sum: string)
    requires n !in l.loops
    ensures var after := Answer(verb, l, source, locks, n, sum);
            && (n in after.loops ==> after.loops[n] != [])
            && RunLoop(after, n).queue == l.queue + AnswerPackets(verb, source, locks, n, sum)
            && RunLoop(after, n).folder == l.folder && RunLoop(after, n).loops == l.loops
  {
    var after := Answer(verb, l, source, locks, n, sum);
    var pushed := AnswerStarts(verb, l, source, locks, n, sum);
    LoopPushesAll(after, n);
    Associate(l.queue, pushed, Pending(after, n));
  }

  /** An answer pushes a failure, or starts a loop, or does nothing. */
  lemma AnswerStarts(verb: string, l: Link, source: Folder, locks: set<Name>, n: Name, sum: string)
    returns (pushed: seq<Packet>)
    requires n !in l.loops
    ensures var after := Answer(verb, l, source, locks, n, sum);
            && (n in after.loops ==> after.loops[n] != [])
            && after.queue == l.queue + pushed && after.folder == l.folder && after.loops - {n} == l.loops
            && pushed + Pending(after, n) == AnswerPackets(verb, source, locks, n, sum)
  {
    assert l.loops - {n} == l.loops && l.queue + [] == l.queue;
    pushed := [];
    if n !in source {
      pushed := AnswerPackets(verb, source, locks, n, sum);
      assert pushed + [] == pushed;
    } else if n in locks {
      var packets := StartRuns(verb, l, n, Snapshot(source[n], sum));
      assert pushed + packets == packets;
    }
  }

  /** A started loop has all packets of its snapshot before it. */
  lemma StartRuns(verb: string, l: Link, n: Name, s: Snapshot) returns (packets: seq<Packet>)
    requires n !in l.loops
    ensures var after := Start(verb, l, n, s);
            && (n in after.loops ==> after.loops[n] != [])
            && after.queue == l.queue && after.folder == l.folder && after.loops - {n} == l.loops
            && Pending(after, n) == packets
    ensures packets == if |DataCommand(verb, n, s.sum)| >= COMMAND_FIELD then [] else PacketsOf(verb, n, s)
  {
    packets := Pending(Start(verb, l, n, s), n);
    assert l.loops - {n} == l.loops && l.loops[n := packets] - {n} == l.loops;
    if s.content != [] {
      ChunksCut(s.content, PAYLOAD);
    }
  }

  /** The server's dispatcher. */
  function HandleUp(w: World, p: Packet, sum: string): World {
    match RequestName(ASK, p)
    case Some(n) => w.(down := Answer(DOWN, w.down, w.up.folder, w.up.locks, n, sum))
    case None => w.(up := Receive(UP, w.up, p))
  }

  /** The client's dispatcher. */
  function HandleDown(w: World, p: Packet, sum: string): World {
    match RequestName(UP, p)
    case Some(n) => w.(up := Answer(UP, w.up, w.sync, w.down.locks, n, sum))
    case None => w.(down := Receive(DOWN, w.down, p))
  }

  /** A loop that is running for a name holds its mutex: a request for that name waits. And no file
      exceeds 2^44 bytes when it is requested. */
  predicate MayHandleUp(w: World, p: Packet) {
    var n := RequestName(ASK, p); n.Some? ==> n.value !in w.down.loops && SmallAt(w.up.folder, n.value)
  }

  predicate MayHandleDown(w: World, p: Packet) {
    var n := RequestName(UP, p); n.Some? ==> n.value !in w.up.loops && SmallAt(w.sync, n.value)
  }

  predicate SmallAt(folder: Folder, n: Name) { n in folder ==> |folder[n]| <= MAX_FILE }

  /** A hexadecimal digest: short, without bars or NULs, and not the word "fail". */
  ghost predicate Digest(sum: string) {
    |sum| == 32 && Free(sum, BAR) && Free(sum, NUL)
  }

  /** A packet of no transfer and no deletion, by its command name. */
  ghost predicate Unrelated(p: Packet) {
    Valid(p) && Split(p.command)[0] !in {UP, DOWN, ASK, "supload", "upload", "delete"}
  }

  /** What may happen next. Files are requested under plain names, whether or not the receiving
      side has a mutex for them. */
  ghost predicate Enabled(w: World, a: Action) {
    match a
    case Edit(n, c) => true
    case AskDownload(n) => !IsTempPath(n) && Free(n, NUL)
    case AskUpload(n) => !IsTempPath(n) && Free(n, NUL)
    case LoopUp(n) => n in w.up.loops && w.up.loops[n] != []
    case LoopDown(n) => n in w.down.loops && w.down.loops[n] != []
    case OtherUp(p) => Unrelated(p)
    case OtherDown(p) => Unrelated(p)
    case DeliverUp(sum) => w.up.queue != [] && MayHandleUp(w, w.up.queue[0]) && Digest(sum)
    case DeliverDown(sum) => w.down.queue != [] && MayHandleDown(w, w.down.queue[0]) && Digest(sum)
  }

  function Tail(l: Link): Link
    requires l.queue != []
  {
    l.(queue := l.queue[1..])
  }

  function Do(w: World, a: Action): World
    requires Enabled(w, a)
  {
    match a
    case Edit(n, c) => w.(sync := if c.Some? then w.sync[n := c.value] else w.sync - {n})
    case AskDownload(n) => w.(up := PushIfFits(w.up, Request(ASK, n)))
    case AskUpload(n) => w.(down := PushIfFits(w.down, Request(UP, n)))
    case LoopUp(n) => w.(up := PushNext(w.up, n))
    case LoopDown(n) => w.(down := PushNext(w.down, n))
    case OtherUp(p) => w.(up := Push(w.up, p))
    case OtherDown(p) => w.(down := Push(w.down, p))
    case DeliverUp(sum) => HandleUp(w.(up := Tail(w.up)), w.up.queue[0], sum)
    case DeliverDown(sum) => HandleDown(w.(down := Tail(w.down)), w.down.queue[0], sum)
  }

  // ----- the invariant of both directions -----

  /** Requests in a queue are for plain names. */
  ghost predicate GoodRequests(verb: string, q: seq<Packet>) {
    forall p :: p in q && RequestName(verb, p).Some? ==> !IsTempPath(RequestName(verb, p).value)
  }

  ghost predicate LoopsValid(l: Link) {
    forall n :: n in l.loops ==> AllValid(l.loops[n])
  }

  ghost predicate Good(init: World, w: World) {
    && Invariant(UP, init.up.folder, w.up) && Invariant(DOWN, init.down.folder, w.down)
    && GoodRequests(ASK, w.up.queue) && GoodRequests(UP, w.down.queue)
    && AllValid(w.up.queue) && AllValid(w.down.queue) && LoopsValid(w.up) && LoopsValid(w.down)
  }

  /** A session begins with nothing under way; what the folders hold is arbitrary, and so may be what
      an interrupted session left in temporary files. */
  ghost predicate Initial(w: World) {
    forall l :: l in [w.up, w.down] ==> l.queue == [] && l.loops == map[] && l.started == map[]
  }

  lemma InitiallyGood(w: World)
    requires Initial(w)
    ensures Good(w, w)
  {
    assert w.up in [w.up, w.down] && w.down in [w.up, w.down];
  }

  // ----- commands -----

  lemma SplitCons(verb: string, rest: string)
    requires Free(verb, BAR)
    ensures Split(verb + [BAR] + rest) == [verb] + Split(rest)
  {
    var s := verb + [BAR] + rest;
    assert s[..|verb|] == verb && s[|verb| + 1..] == rest;
    IndexOfUnique(s, BAR, |verb|);
  }

  lemma SplitFreeOne(s: string)
    requires Free(s, BAR)
    ensures Split(s) == [s]
  {
    IndexOfUnique(s, BAR, |s|);
  }

  /** A request is read back as a request for the same name, unless the name has bars; it is
      never data. */
  lemma RequestReads(verb: string, n: Name)
    requires Free(verb, BAR)
    ensures var p := Request(verb, n);
            && RequestName(verb, p) == (if Free(n, BAR) then Some(n) else None)
            && forall v :: v != verb ==> DataName(v, p) == None && RequestName(v, p) == None
  {
    SplitCons(verb, n);
    if Free(n, BAR) {
      SplitFreeOne(n);
    } else {
      assert n[..|n|] == n;
      assert IndexOf(n, BAR) < |n|;
    }
  }

  lemma FailureReads(verb: string, n: Name)
    requires Free(verb, BAR) && Free(n, BAR)
    ensures Split(DataCommand(verb, n, "fail")) == [verb, n, "fail"]
  {
    SplitOfJoin([verb, n, "fail"]);
  }

  /** The name in a received request has neither bars nor NULs. */
  lemma RequestNameFree(verb: string, p: Packet)
    requires Valid(p) && RequestName(verb, p).Some?
    ensures Free(RequestName(verb, p).value, BAR) && Free(RequestName(verb, p).value, NUL)
  {
    JoinOfSplit(p.command);
    SplitFree(p.command, NUL);
  }

  lemma DataCommandFree(verb: string, n: Name, sum: string)
    requires Free(verb, NUL) && Free(n, NUL) && Free(sum, NUL)
    ensures Free(DataCommand(verb, n, sum), NUL)
  {
    JoinFree([verb, n, sum], NUL);
  }

  lemma PacketsValid(verb: string, n: Name, s: Snapshot)
    requires |s.content| <= MAX_FILE && |DataCommand(verb, n, s.sum)| < COMMAND_FIELD
    requires Free(DataCommand(verb, n, s.sum), NUL)
    ensures AllValid(PacketsOf(verb, n, s))
  {
    SequenceNumbersFit(s.content);
    ChunksCut(s.content, PAYLOAD);
  }

  // ----- every action keeps the invariant -----

  lemma PushedValid(q: seq<Packet>, p: Packet)
    requires AllValid(q) && Valid(p)
    ensures AllValid(q + [p])
  {
  }

  lemma PushedRequests(verb: string, q: seq<Packet>, p: Packet)
    requires GoodRequests(verb, q) && GoodRequests(verb, [p])
    ensures GoodRequests(verb, q + [p])
  {
    assert forall r :: r in q + [p] ==> r in q || r in [p];
  }

  lemma AskKeeps(ask: string, data: string, init: Folder, l: Link, n: Name)
    requires Invariant(data, init, l) && GoodRequests(ask, l.queue) && AllValid(l.queue)
    requires Free(ask, BAR) && Free(ask, NUL) && ask != data
    requires !IsTempPath(n) && Free(n, NUL)
    ensures var after := PushIfFits(l, Request(ask, n));
            Invariant(data, init, after) && GoodRequests(ask, after.queue) && AllValid(after.queue)
  {
    var p := Request(ask, n);
    RequestReads(ask, n);
    PushKeeps(data, init, l, p);
    if |p.command| < COMMAND_FIELD {
      PushedValid(l.queue, p);
      PushedRequests(ask, l.queue, p);
    }
  }

  lemma OtherKeeps(ask: string, data: string, init: Folder, l: Link, p: Packet)
    requires Invariant(data, init, l) && GoodRequests(ask, l.queue) && AllValid(l.queue)
    requires Valid(p) && DataName(data, p) == None && RequestName(ask, p) == None
    ensures var after := Push(l, p);
            Invariant(data, init, after) && GoodRequests(ask, after.queue) && AllValid(after.queue)
  {
    PushKeeps(data, init, l, p);
    PushedValid(l.queue, p);
    PushedRequests(ask, l.queue, p);
  }

  lemma LoopStaysValid(l: Link, n: Name)
    requires LoopsValid(l) && n in l.loops && l.loops[n] != []
    ensures LoopsValid(PushNext(l, n)) && Valid(l.loops[n][0])
  {
    var after := PushNext(l, n);
    forall m | m in after.loops ensures AllValid(after.loops[m]) {
      assert AllValid(l.loops[m]);
    }
  }

  lemma DataIsNoRequest(ask: string, data: string, p: Packet)
    requires DataName(data, p).Some?
    ensures GoodRequests(ask, [p])
  {
  }

  lemma LoopKeeps(ask: string, data: string, init: Folder, l: Link, n: Name)
    requires Invariant(data, init, l) && GoodRequests(ask, l.queue) && AllValid(l.queue)
    requires LoopsValid(l) && n in l.loops && l.loops[n] != []
    ensures var after := PushNext(l, n);
            && Invariant(data, init, after) && GoodRequests(ask, after.queue)
            && AllValid(after.queue) && LoopsValid(after)
  {
    var p := l.loops[n][0];
    PushNextKeeps(data, init, l, n);
    PushNextShape(data, l, n);
    LoopStaysValid(l, n);
    DataIsNoRequest(ask, data, p);
    PushedValid(l.queue, p);
    PushedRequests(ask, l.queue, p);
  }

  lemma TailKeeps(ask: string, l: Link)
    requires l.queue != [] && GoodRequests(ask, l.queue) && AllValid(l.queue)
    ensures GoodRequests(ask, Tail(l).queue) && AllValid(Tail(l).queue)
    ensures Valid(l.queue[0]) && GoodRequests(ask, [l.queue[0]])
  {
  }

  /** Dropping a packet that is no data from the head of a queue. */
  lemma DropKeeps(data: string, init: Folder, l: Link)
    requires Invariant(data, init, l) && l.queue != [] && DataName(data, l.queue[0]) == None
    ensures Invariant(data, init, Tail(l))
  {
    DeliverKeeps(data, init, l);
  }

  lemma FailureKeeps(ask: string, data: string, init: Folder, l: Link, n: Name)
    requires Invariant(data, init, l) && GoodRequests(ask, l.queue) && AllValid(l.queue)
    requires Free(data, BAR) && Free(data, NUL) && Free(n, BAR) && Free(n, NUL)
    ensures var after := PushIfFits(l, Packet(DataCommand(data, n, "fail"), 0, 0, Reason(data)));
            Invariant(data, init, after) && GoodRequests(ask, after.queue) && AllValid(after.queue)
  {
    var p := Packet(DataCommand(data, n, "fail"), 0, 0, Reason(data));
    if |p.command| < COMMAND_FIELD {
      FailureIsOther(ask, data, n, p);
      OtherKeeps(ask, data, init, l, p);
    }
  }

  lemma FailureIsOther(ask: string, data: string, n: Name, p: Packet)
    requires p.command == DataCommand(data, n, "fail") && |p.command| < COMMAND_FIELD
    requires p.sequenceNumber == 0 && p.expected == 0 && |p.payload| <= 64
    requires Free(data, BAR) && Free(data, NUL) && Free(n, BAR) && Free(n, NUL)
    ensures Valid(p) && DataName(data, p) == None && RequestName(ask, p) == None
  {
    FailureReads(data, n);
    DataCommandFree(data, n, "fail");
  }

  lemma AnswerKeeps(ask: string, data: string, init: Folder, l: Link, source: Folder, from: set<Name>,
                    n: Name, sum: string)
    requires Invariant(data, init, l) && GoodRequests(ask, l.queue) && AllValid(l.queue) && LoopsValid(l)
    requires Free(data, BAR) && Free(data, NUL) && Free(n, BAR) && Free(n, NUL) && Digest(sum)
    requires n !in l.loops && !IsTempPath(n)
    requires n in source ==> |source[n]| <= MAX_FILE
    ensures var after := Answer(data, l, source, from, n, sum);
            && Invariant(data, init, after) && GoodRequests(ask, after.queue)
            && AllValid(after.queue) && LoopsValid(after)
  {
    if n !in source {
      FailureKeeps(ask, data, init, l, n);
    } else if n in from {
      var s := Snapshot(source[n], sum);
      StartKeeps(data, init, l, n, s);
      if s.content != [] && |DataCommand(data, n, sum)| < COMMAND_FIELD {
        DataCommandFree(data, n, sum);
        PacketsValid(data, n, s);
      }
    }
  }

  lemma RequestUpKeeps(init: World, w: World, sum: string, n: Name)
    requires Good(init, w) && Enabled(w, DeliverUp(sum)) && RequestName(ASK, w.up.queue[0]) == Some(n)
    ensures Good(init, Do(w, DeliverUp(sum)))
  {
    var p := w.up.queue[0];
    assert p in w.up.queue;
    TailKeeps(ASK, w.up);
    RequestNameFree(ASK, p);
    DropKeeps(UP, init.up.folder, w.up);
    AnswerKeeps(UP, DOWN, init.down.folder, w.down, w.up.folder, w.up.locks, n, sum);
  }

  lemma DataUpKeeps(init: World, w: World, sum: string)
    requires Good(init, w) && Enabled(w, DeliverUp(sum)) && RequestName(ASK, w.up.queue[0]) == None
    ensures Good(init, Do(w, DeliverUp(sum)))
  {
    TailKeeps(ASK, w.up);
    DeliverKeeps(UP, init.up.folder, w.up);
  }

  lemma RequestDownKeeps(init: World, w: World, sum: string, n: Name)
    requires Good(init, w) && Enabled(w, DeliverDown(sum)) && RequestName(UP, w.down.queue[0]) == Some(n)
    ensures Good(init, Do(w, DeliverDown(sum)))
  {
    var p := w.down.queue[0];
    assert p in w.down.queue;
    TailKeeps(UP, w.down);
    RequestNameFree(UP, p);
    DropKeeps(DOWN, init.down.folder, w.down);
    AnswerKeeps(ASK, UP, init.up.folder, w.up, w.sync, w.down.locks, n, sum);
  }

  lemma DataDownKeeps(init: World, w: World, sum: string)
    requires Good(init, w) && Enabled(w, DeliverDown(sum)) && RequestName(UP, w.down.queue[0]) == None
    ensures Good(init, Do(w, DeliverDown(sum)))
  {
    TailKeeps(UP, w.down);
    DeliverKeeps(DOWN, init.down.folder, w.down);
  }

  lemma DoKeeps(init: World, w: World, a: Action)
    requires Good(init, w) && Enabled(w, a)
    ensures Good(init, Do(w, a))
  {
    match a {
      case Edit(n, c) =>
      case AskDownload(n) => AskKeeps(ASK, UP, init.up.folder, w.up, n);
      case AskUpload(n) => AskKeeps(UP, DOWN, init.down.folder, w.down, n);
      case LoopUp(n) => LoopKeeps(ASK, UP, init.up.folder, w.up, n);
      case LoopDown(n) => LoopKeeps(UP, DOWN, init.down.folder, w.down, n);
      case OtherUp(p) => OtherKeeps(ASK, UP, init.up.folder, w.up, p);
      case OtherDown(p) => OtherKeeps(UP, DOWN, init.down.folder, w.down, p);
      case DeliverUp(sum) =>
        var n := RequestName(ASK, w.up.queue[0]);
        if n.Some? { RequestUpKeeps(init, w, sum, n.value); } else { DataUpKeeps(init, w, sum); }
      case DeliverDown(sum) =>
        var n := RequestName(UP, w.down.queue[0]);
        if n.Some? { RequestDownKeeps(init, w, sum, n.value); } else { DataDownKeeps(init, w, sum); }
    }
  }

  // ----- whole runs -----

  /** `ws` is a run: it begins in an initial state and every state follows from the one before. */
  ghost predicate Run(ws: seq<World>, actions: seq<Action>) {
    && |ws| == |actions| + 1 && Initial(ws[0])
    && forall i :: 0 <= i < |actions| ==> Enabled(ws[i], actions[i]) && ws[i + 1] == Do(ws[i], actions[i])
  }

  lemma {:induction false} RunIsGood(ws: seq<World>, actions: seq<Action>, i: nat)
    requires Run(ws, actions) && i < |ws|
    ensures Good(ws[0], ws[i])
  {
    if i == 0 {
      InitiallyGood(ws[0]);
    } else {
      RunIsGood(ws, actions, i - 1);
      DoKeeps(ws[0], ws[i - 1], actions[i - 1]);
    }
  }

  /** `content` is what some state of the run up to `i` had under `n` on the sending side. */
  ghost predicate WasThere(files: seq<Folder>, i: nat, n: Name, content: Bytes) {
    exists j :: 0 <= j <= i && j < |files| && n in files[j] && files[j][n] == content
  }

  function SyncFolders(ws: seq<World>): seq<Folder> { seq(|ws|, i requires 0 <= i < |ws| => ws[i].sync) }
  function ServerFolders(ws: seq<World>): seq<Folder> { seq(|ws|, i requires 0 <= i < |ws| => ws[i].up.folder) }

  /** The transfers of `n` are those in `l`, and perhaps one more that just read the file in `source`. */
  ghost predicate OneMoreRead(l: Link, after: Link, source: Folder, n: Name) {
    || Started(after, n) == Started(l, n)
    || (n in source && exists sum :: Started(after, n) == Started(l, n) + [Snapshot(source[n], sum)])
  }

  lemma AnswerReads(verb: string, l: Link, source: Folder, locks: set<Name>, m: Name, sum: string, n: Name)
    ensures OneMoreRead(l, Answer(verb, l, source, locks, m, sum), source, n)
  {
  }

  /** A snapshot that an action adds is what the sending side has under that name. */
  lemma SnapshotsAreRead(w: World, a: Action, n: Name)
    requires Enabled(w, a)
    ensures OneMoreRead(w.up, Do(w, a).up, w.sync, n) && OneMoreRead(w.down, Do(w, a).down, w.up.folder, n)
  {
    match a {
      case DeliverUp(sum) =>
        var m := RequestName(ASK, w.up.queue[0]);
        if m.Some? { AnswerReads(DOWN, w.down, w.up.folder, w.up.locks, m.value, sum, n); }
      case DeliverDown(sum) =>
        var m := RequestName(UP, w.down.queue[0]);
        if m.Some? { AnswerReads(UP, w.up, w.sync, w.down.locks, m.value, sum, n); }
      case _ =>
    }
  }

  lemma {:induction false} SnapshotsWereThere(ws: seq<World>, actions: seq<Action>, i: nat, n: Name, k: nat)
    requires Run(ws, actions) && i < |ws|
    ensures k < |Started(ws[i].up, n)| ==> WasThere(SyncFolders(ws), i, n, Started(ws[i].up, n)[k].content)
    ensures k < |Started(ws[i].down, n)| ==> WasThere(ServerFolders(ws), i, n, Started(ws[i].down, n)[k].content)
  {
    if i == 0 {
      assert ws[0].up in [ws[0].up, ws[0].down] && ws[0].down in [ws[0].up, ws[0].down];
    } else {
      SnapshotsWereThere(ws, actions, i - 1, n, k);
      SnapshotsAreRead(ws[i - 1], actions[i - 1], n);
      assert SyncFolders(ws)[i - 1] == ws[i - 1].sync && ServerFolders(ws)[i - 1] == ws[i - 1].up.folder;
    }
  }

  /** What is shown is a file that was there on the sending side, or that behind the leftover of an
      earlier session. */
  ghost predicate WasSent(files: seq<Folder>, i: nat, n: Name, leftover: Bytes, now: Bytes) {
    || WasThere(files, i, n, now)
    || exists content :: now == leftover + content && WasThere(files, i, n, content)
  }

  /** In every state of every run, what the server shows under a plain name is what it had at the
      beginning or exactly what the client's folder held under that name in some earlier state,
      provided that the name had no temporary data at the beginning; otherwise that data may be in
      front of it. Likewise for the client's download folder and the server's. */
  lemma NeverPartial(ws: seq<World>, actions: seq<Action>, i: nat, path: string)
    requires Run(ws, actions) && i < |ws| && !IsTempPath(path)
    ensures var now, start := ws[i].up.folder, ws[0].up.folder;
            && (SameAt(now, start, path)
                || (path in now && WasSent(SyncFolders(ws), i, path, Leftover(start, path), now[path])))
            && (Leftover(start, path) == [] ==>
                SameAt(now, start, path) || (path in now && WasThere(SyncFolders(ws), i, path, now[path])))
    ensures var now, start := ws[i].down.folder, ws[0].down.folder;
            && (SameAt(now, start, path)
                || (path in now && WasSent(ServerFolders(ws), i, path, Leftover(start, path), now[path])))
            && (Leftover(start, path) == [] ==>
                SameAt(now, start, path) || (path in now && WasThere(ServerFolders(ws), i, path, now[path])))
  {
    RunIsGood(ws, actions, i);
    NoPartialFile(UP, ws[0].up.folder, ws[i].up, path);
    NoPartialFile(DOWN, ws[0].down.folder, ws[i].down, path);
    forall k: nat { SnapshotsWereThere(ws, actions, i, path, k); }
    DeliveredWasSent(SyncFolders(ws), i, ws[0].up.folder, ws[i].up, path);
    DeliveredWasSent(ServerFolders(ws), i, ws[0].down.folder, ws[i].down, path);
  }

  lemma DeliveredWasSent(files: seq<Folder>, i: nat, init: Folder, l: Link, path: string)
    requires forall k: nat :: k < |Started(l, path)| ==> WasThere(files, i, path, Started(l, path)[k].content)
    ensures forall now :: Delivered(init, l, path, now) ==>
      && WasSent(files, i, path, Leftover(init, path), now)
      && (Leftover(init, path) == [] ==> WasThere(files, i, path, now))
  {
    forall now | Delivered(init, l, path, now)
      ensures WasSent(files, i, path, Leftover(init, path), now)
      ensures Leftover(init, path) == [] ==> WasThere(files, i, path, now)
    {
      var k: nat :| k < |Started(l, path)| && now == Shown(init, path, Started(l, path), k);
      var content := Started(l, path)[k].content;
      assert [] + content == content;
      assert WasThere(files, i, path, content);
    }
  }

  /** Once nothing of a transferred name is under way any more, the receiver holds the last snapshot
      taken of it and no temporary file, if and only if it has a mutex for the name, and the name had
      no temporary data at the beginning or was transferred more than once. Otherwise the leftover is
      in front of its only transfer; or, without a mutex, in front of all its transfers, which are
      stuck in the temporary file while the file is as it was at the beginning. */
  lemma SettledWhenDrained(ws: seq<World>, actions: seq<Action>, i: nat, n: Name)
    requires Run(ws, actions) && i < |ws|
    ensures n in ws[i].up.started && Under(UP, ws[i].up, n) == [] ==> Outcome(ws[0].up.folder, ws[i].up, n)
    ensures n in ws[i].down.started && Under(DOWN, ws[i].down, n) == [] ==> Outcome(ws[0].down.folder, ws[i].down, n)
  {
    RunIsGood(ws, actions, i);
    DrainedHolds(UP, ws[0].up.folder, ws[i].up, n);
    DrainedHolds(DOWN, ws[0].down.folder, ws[i].down, n);
  }

  ghost predicate Outcome(init: Folder, l: Link, n: Name) {
    && (Settled(l, n) <==> EndsWell(init, l, n))
    && if n in l.locks then Finished(init, l, n) else Stuck(init, l, n)
  }

  lemma DrainedHolds(verb: string, init: Folder, l: Link, n: Name)
    requires Invariant(verb, init, l)
    ensures n in l.started && Under(verb, l, n) == [] ==> Outcome(init, l, n)
  {
    if n in l.started && Under(verb, l, n) == [] {
      Drained(verb, init, l, n);
    }
  }

  /** Without a mutex for a name its file never changes at that receiver, in any run. */
  lemma NoMutexNoChange(ws: seq<World>, actions: seq<Action>, i: nat, n: Name)
    requires Run(ws, actions) && i < |ws| && !IsTempPath(n)
    ensures n !in ws[i].up.locks ==> SameAt(ws[i].up.folder, ws[0].up.folder, n)
    ensures n !in ws[i].down.locks ==> SameAt(ws[i].down.folder, ws[0].down.folder, n)
  {
    RunIsGood(ws, actions, i);
    NoPartialFile(UP, ws[0].up.folder, ws[i].up, n);
    NoPartialFile(DOWN, ws[0].down.folder, ws[i].down, n);
  }

  /** When the last transfer of `n` started in step `j` and its user left the file alone since,
      the drained server has the client's file, if that transfer ends well. */
  lemma ServerCatchesUp(ws: seq<World>, actions: seq<Action>, j: nat, i: nat, n: Name)
    requires Run(ws, actions) && j < i < |ws| && EndsWell(ws[0].up.folder, ws[i].up, n)
    requires Started(ws[j].up, n) != Started(ws[j + 1].up, n) == Started(ws[i].up, n)
    requires SameAt(ws[i].sync, ws[j].sync, n)
    requires Under(UP, ws[i].up, n) == []
    ensures n in ws[i].sync && n in ws[i].up.folder && ws[i].up.folder[n] == ws[i].sync[n]
  {
    SnapshotsAreRead(ws[j], actions[j], n);
    SettledWhenDrained(ws, actions, i, n);
  }

  /** Likewise the drained client has the server's file. */
  lemma ClientCatchesUp(ws: seq<World>, actions: seq<Action>, j: nat, i: nat, n: Name)
    requires Run(ws, actions) && j < i < |ws| && EndsWell(ws[0].down.folder, ws[i].down, n)
    requires Started(ws[j].down, n) != Started(ws[j + 1].down, n) == Started(ws[i].down, n)
    requires SameAt(ws[i].up.folder, ws[j].up.folder, n)
    requires Under(DOWN, ws[i].down, n) == []
    ensures n in ws[i].up.folder && n in ws[i].down.folder && ws[i].down.folder[n] == ws[i].up.folder[n]
  {
    SnapshotsAreRead(ws[j], actions[j], n);
    SettledWhenDrained(ws, actions, i, n);
  }

  lemma OnlyUpDeliveryWrites(w: World, a: Action)
    requires Enabled(w, a) && Do(w, a).up.folder != w.up.folder
    ensures a.DeliverUp? && Do(w, a).up == Deliver(UP, w.up)
  {
    if a.DeliverUp? { assert RequestName(ASK, w.up.queue[0]) == None; }
  }

  lemma OnlyDownDeliveryWrites(w: World, a: Action)
    requires Enabled(w, a) && Do(w, a).down.folder != w.down.folder
    ensures a.DeliverDown? && Do(w, a).down == Deliver(DOWN, w.down)
  {
    if a.DeliverDown? { assert RequestName(UP, w.down.queue[0]) == None; }
  }

  /** The step from `l` to `after` delivered the last packet of a transfer of `path`, and the file is
      now what that transfer makes visible. */
  ghost predicate Completes(verb: string, init: Folder, l: Link, after: Link, path: string) {
    && l.queue != [] && DataName(verb, l.queue[0]) == Some(path) && IsLast(l.queue[0]) && path in l.locks
    && path in after.folder && Delivered(init, l, path, after.folder[path])
  }

  /** A visible file of either receiver changes in no other step than the arrival of a transfer's
      last packet, for the file of that transfer alone, and it is complete then, behind the leftover
      of an earlier session if the transfer is the first one of that name. */
  lemma VisibleOnlyAtLast(ws: seq<World>, actions: seq<Action>, i: nat, path: string)
    requires Run(ws, actions) && i < |actions| && !IsTempPath(path)
    ensures !SameAt(ws[i + 1].up.folder, ws[i].up.folder, path) ==>
      actions[i].DeliverUp? && Completes(UP, ws[0].up.folder, ws[i].up, ws[i + 1].up, path)
    ensures !SameAt(ws[i + 1].down.folder, ws[i].down.folder, path) ==>
      actions[i].DeliverDown? && Completes(DOWN, ws[0].down.folder, ws[i].down, ws[i + 1].down, path)
  {
    RunIsGood(ws, actions, i);
    VisibleUpStep(ws[0], ws[i], actions[i], path);
    VisibleDownStep(ws[0], ws[i], actions[i], path);
  }

  lemma VisibleUpStep(init: World, w: World, a: Action, path: string)
    requires Good(init, w) && Enabled(w, a) && !IsTempPath(path)
    ensures !SameAt(Do(w, a).up.folder, w.up.folder, path) ==>
      a.DeliverUp? && Completes(UP, init.up.folder, w.up, Do(w, a).up, path)
  {
    if !SameAt(Do(w, a).up.folder, w.up.folder, path) {
      OnlyUpDeliveryWrites(w, a);
      ChangesOnlyAtLast(UP, init.up.folder, w.up, path);
    }
  }

  lemma VisibleDownStep(init: World, w: World, a: Action, path: string)
    requires Good(init, w) && Enabled(w, a) && !IsTempPath(path)
    ensures !SameAt(Do(w, a).down.folder, w.down.folder, path) ==>
      a.DeliverDown? && Completes(DOWN, init.down.folder, w.down, Do(w, a).down, path)
  {
    if !SameAt(Do(w, a).down.folder, w.down.folder, path) {
      OnlyDownDeliveryWrites(w, a);
      ChangesOnlyAtLast(DOWN, init.down.folder, w.down, path);
    }
  }
}
