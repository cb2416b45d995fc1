/** The objects at the two ends of a session and their handlers, which change folders, mutexes and
    the sender buffer in place. */
module Sessions {
  import opened Seqs
  import opened Codec
  import opened Chunking
  import opened Framing
  import opened Transfer
  import opened Link
  import opened World
  import opened Answers
  import opened Reconcile
  import opened Outbox

  // ----- what the two dispatchers do -----

  datatype Side = ServerSide | ClientSide

  /** One received packet, as far as files are concerned: what becomes of the folder, and the answers.
      The client takes pushed files under two verbs. */
  function Taken(side: Side, folder: Folder, locks: set<Name>, p: Packet, md5: Bytes -> string): (Folder, seq<Packet>) {
    match side
    case ServerSide =>
      (match RequestName(ASK, p)
       case Some(n) => (folder, AnswerPackets(DOWN, folder, locks, n, md5(Contents(folder, n))))
       case None => (Land(UP, folder, locks, p), []))
    case ClientSide =>
      if DataName("upload", p).Some? then (Land("upload", folder, locks, p), [])
      else ClientStep(PUSH, folder, locks, p, md5)
  }

  /** The server answers a request for a download from its folder, and changes nothing. */
  lemma DownloadIsAnswered(folder: Folder, locks: set<Name>, n: Name, p: Packet, md5: Bytes -> string)
    requires p.command == "adownload|" + n && Free(n, '|') && Free(md5(Contents(folder, n)), '|')
    ensures var (after, answers) := Taken(ServerSide, folder, locks, p, md5);
            && after == folder
            && AnswersRequest(answers, "aupload", NO_SERVER_FILE, folder, locks, n, md5(Contents(folder, n)))
  {
    Reasons();
    RequestIsRead("adownload", n, p);
    AnswerMeans("aupload", folder, locks, n, md5(Contents(folder, n)));
  }

  /** The client answers a request for one of its files likewise. */
  lemma UploadIsAnswered(folder: Folder, locks: set<Name>, n: Name, p: Packet, md5: Bytes -> string)
    requires p.command == "sdownload|" + n && Free(n, '|') && Free(md5(Contents(folder, n)), '|')
    ensures var (after, answers) := Taken(ClientSide, folder, locks, p, md5);
            && after == folder
            && AnswersRequest(answers, "sdownload", NO_LOCAL_FILE, folder, locks, n, md5(Contents(folder, n)))
  {
    Reasons();
    RequestIsRead("sdownload", n, p);
    AnswerMeans("sdownload", folder, locks, n, md5(Contents(folder, n)));
  }

  /** What either side takes as data: three tokens that do not end in a failure, under `sdownload` at the
      server, and under `supload` or `upload` at the client. */
  ghost predicate IsData(side: Side, tokens: seq<string>) {
    && |tokens| == 3 && tokens[2] != "fail"
    && if side.ServerSide? then tokens[0] == "sdownload" else tokens[0] == "supload" || tokens[0] == "upload"
  }

  /** Data is written, and all that is neither data nor a request changes nothing and is not answered. */
  lemma DataIsWritten(side: Side, folder: Folder, locks: set<Name>, p: Packet, md5: Bytes -> string)
    requires var tokens := Split(p.command);
             |tokens| != 2 || tokens[0] != (if side.ServerSide? then "adownload" else "sdownload")
    ensures var tokens, (after, answers) := Split(p.command), Taken(side, folder, locks, p, md5);
            && answers == []
            && if IsData(side, tokens) then Written(folder, after, locks, tokens[1], p) else after == folder
  {
    Reasons();
    assert PUSH == "supload";
    DataLands("sdownload", folder, locks, p);
    DataLands("supload", folder, locks, p);
    DataLands("upload", folder, locks, p);
  }

  /** All packets of a stream, one after the other. */
  function AllTaken(side: Side, folder: Folder, locks: set<Name>, ps: seq<Packet>, md5: Bytes -> string): (Folder,
                    seq<Packet>) {
    if ps == [] then (folder, []) else
      var (mid, first) := AllTaken(side, folder, locks, ps[..|ps| - 1], md5);
      var (after, more) := Taken(side, mid, locks, ps[|ps| - 1], md5);
      (after, first + more)
  }

  /** After taking the packets `ps` the folder is `after`, and the answers follow `queued` in the
      buffer. */
  ghost predicate Ran(side: Side, folder: Folder, locks: set<Name>, ps: seq<Packet>, md5: Bytes -> string,
                      after: Folder, queued: seq<Packet>, buffer: seq<Packet>) {
    var (last, answers) := AllTaken(side, folder, locks, ps, md5);
    after == last && buffer == queued + answers
  }

  lemma RanSnoc(side: Side, folder: Folder, locks: set<Name>, ps: seq<Packet>, p: Packet, md5: Bytes -> string,
                mid: Folder, queued: seq<Packet>, buffer: seq<Packet>)
    requires Ran(side, folder, locks, ps, md5, mid, queued, buffer)
    ensures var (after, answers) := Taken(side, mid, locks, p, md5);
            Ran(side, folder, locks, ps + [p], md5, after, queued, buffer + answers)
  {
    var (after, answers) := Taken(side, mid, locks, p, md5);
    assert (ps + [p])[..|ps|] == ps;
    Associate(queued, AllTaken(side, folder, locks, ps, md5).1, answers);
  }

  /** A stream without requests only lands data at the server. */
  lemma {:induction false} ServerLands(folder: Folder, locks: set<Name>, ps: seq<Packet>, md5: Bytes -> string)
    requires forall p :: p in ps ==> RequestName(ASK, p) == None
    ensures AllTaken(ServerSide, folder, locks, ps, md5) == (LandAll(UP, folder, locks, ps), [])
  {
    if ps != [] {
      var most, p := ps[..|ps| - 1], ps[|ps| - 1];
      ServerLands(folder, locks, most, md5);
      var mid := LandAll(UP, folder, locks, most);
      LandConcat(UP, folder, locks, most, [p]);
      assert ps == most + [p] && p in ps;
      assert [p][1..] == [] && LandAll(UP, mid, locks, [p]) == Land(UP, mid, locks, p);
      assert Taken(ServerSide, mid, locks, p, md5) == (Land(UP, mid, locks, p), []);
      var nothing: seq<Packet> := [];
      assert nothing + nothing == nothing;
    }
  }

  /** A stream without data under the second verb is the client's run of module Reconcile. */
  lemma {:induction false} ClientRuns(folder: Folder, locks: set<Name>, ps: seq<Packet>, md5: Bytes -> string)
    requires forall p :: p in ps ==> DataName("upload", p) == None
    ensures AllTaken(ClientSide, folder, locks, ps, md5) == ClientRun(PUSH, folder, locks, ps, md5)
  {
    if ps != [] {
      var most, p := ps[..|ps| - 1], ps[|ps| - 1];
      ClientRuns(folder, locks, most, md5);
      var mid := ClientRun(PUSH, folder, locks, most, md5).0;
      ClientRunCons(PUSH, mid, locks, p, [], md5);
      ClientRunConcat(PUSH, folder, locks, most, [p], md5);
      assert ps == most + [p] && p in ps;
      assert [p] + [] == [p];
      var answers := ClientStep(PUSH, mid, locks, p, md5).1;
      assert answers + [] == answers;
    }
  }

  // ----- queueing -----

  /** The read loop of the senders: one packet for each piece of the file, pushed as it is read. It
      fails at once when the command does not fit. */
  method PushFile(out: SenderBuffer, verb: string, n: Name, s: Snapshot) returns (ok: bool, pushed: nat)
    requires out.Valid()
    modifies out
    ensures out.Valid() && out.running == old(out.running)
    ensures ok <==> s.content == [] || |DataCommand(verb, n, s.sum)| < COMMAND_FIELD
    ensures out.buffer == old(out.buffer) + (if ok then PacketsOf(verb, n, s) else [])
    ensures pushed == |out.buffer| - |old(out.buffer)|
  {
    var command := DataCommand(verb, n, s.sum);
    var expected := ExpectedPackets(|s.content|, PAYLOAD);
    var pos := 0;
    ghost var done := [];
    pushed := 0;
    assert s.content[0..] == s.content;
    while pos < |s.content|
      invariant out.Valid() && out.running == old(out.running)
      invariant 0 <= pos <= |s.content| && pushed == |done|
      invariant pos > 0 ==> |command| < COMMAND_FIELD
      invariant done + Chunks(s.content[pos..], PAYLOAD) == Chunks(s.content, PAYLOAD)
      invariant out.buffer == old(out.buffer) + Numbered(command, expected, done)
    {
      if |command| >= COMMAND_FIELD {
        return false, 0;
      }
      var next := if |s.content| - pos < PAYLOAD then |s.content| else pos + PAYLOAD;
      ChunkStep(done, s.content, pos, next, PAYLOAD);
      NumberedSnoc(command, expected, done, s.content[pos..next]);
      Associate(old(out.buffer), Numbered(command, expected, done),
                [Packet(command, pushed, expected, s.content[pos..next])]);
      out.Push(Packet(command, pushed, expected, s.content[pos..next]));
      done := done + [s.content[pos..next]];
      pushed := pushed + 1;
      pos := next;
    }
    ChunkCount(s.content, PAYLOAD);
    assert done == Chunks(s.content, PAYLOAD);
    ok := true;
  }

  /** Answers a request for `n`. */
  method PushAnswer(out: SenderBuffer, verb: string, source: Folder, mutexes: set<Name>, n: Name, md5: Bytes -> string)
    requires out.Valid()
    modifies out
    ensures out.Valid() && out.running == old(out.running)
    ensures out.buffer == old(out.buffer) + AnswerPackets(verb, source, mutexes, n, md5(Contents(source, n)))
    ensures Free(verb, BAR) && Free(n, BAR) && Free(md5(Contents(source, n)), BAR) ==>
      AnswersRequest(out.buffer[|old(out.buffer)|..], verb, Reason(verb), source, mutexes, n, md5(Contents(source, n)))
  {
    ghost var answers := AnswerPackets(verb, source, mutexes, n, md5(Contents(source, n)));
    assert (out.buffer + answers)[|out.buffer|..] == answers;
    if Free(verb, BAR) && Free(n, BAR) && Free(md5(Contents(source, n)), BAR) {
      AnswerMeans(verb, source, mutexes, n, md5(Contents(source, n)));
    }
    if n !in source {
      var command := DataCommand(verb, n, "fail");
      if |command| < COMMAND_FIELD {
        out.Push(Packet(command, 0, 0, Reason(verb)));
      }
    } else if n in mutexes {
      var ok, pushed := PushFile(out, verb, n, Snapshot(source[n], md5(source[n])));
    }
  }

  /** Appends a packet's payload to the temporary file, and on the last packet renames that file
      over the real one if the name has a mutex. */
  method Write(folder: Folder, mutexes: set<Name>, n: Name, p: Packet) returns (after: Folder)
    ensures after == Reassemble(folder, mutexes, n, p)
  {
    after := Append(folder, TempPath(n), p.payload);
    if p.sequenceNumber % TWO64 == (p.expected - 1) % TWO64 {
      if n in mutexes {
        after := Rename(after, TempPath(n), n);
      }
    }
  }

  /** The server's object for one client. */
  class ClientSession {
    var directory: Folder
    var mutexes: set<Name>
    const outbox: SenderBuffer

    constructor (directory: Folder, mutexes: set<Name>)
      ensures this.directory == directory && this.mutexes == mutexes
      ensures fresh(outbox) && outbox.Valid() && outbox.buffer == [] && outbox.running
    {
      this.directory, this.mutexes := directory, mutexes;
      outbox := new SenderBuffer();
    }

    /** client_requested_adownload_ */
    method RequestedAdownload(n: Name, md5: Bytes -> string)
      requires outbox.Valid()
      modifies outbox
      ensures outbox.Valid() && outbox.running == old(outbox.running)
      ensures outbox.buffer == old(outbox.buffer)
                               + AnswerPackets(DOWN, directory, mutexes, n, md5(Contents(directory, n)))
      ensures Free(n, '|') && Free(md5(Contents(directory, n)), '|') ==>
        AnswersRequest(outbox.buffer[|old(outbox.buffer)|..], "aupload", NO_SERVER_FILE, directory, mutexes, n,
                       md5(Contents(directory, n)))
    {
      Reasons();
      PushAnswer(outbox, DOWN, directory, mutexes, n, md5);
    }

    /** client_sent_sdownload_ */
    method SentSdownload(n: Name, p: Packet, sum: string)
      modifies this
      ensures mutexes == old(mutexes)
      ensures directory == if sum == "fail" then old(directory) else Reassemble(old(directory), mutexes, n, p)
    {
      if sum == "fail" { return; }
      directory := Write(directory, mutexes, n, p);
    }

    /** One packet through the dispatcher of the receiver loop, as far as files are concerned. */
    method Receive(p: Packet, md5: Bytes -> string)
      requires outbox.Valid()
      modifies this, outbox
      ensures outbox.Valid() && outbox.running == old(outbox.running) && mutexes == old(mutexes)
      ensures directory == Taken(ServerSide, old(directory), mutexes, p, md5).0
      ensures outbox.buffer == old(outbox.buffer) + Taken(ServerSide, old(directory), mutexes, p, md5).1
    {
      var tokens := Split(p.command);
      if |tokens| == 2 && tokens[0] == "adownload" {
        RequestedAdownload(tokens[1], md5);
      } else if |tokens| == 3 && tokens[0] == "sdownload" {
        SentSdownload(tokens[1], p, tokens[2]);
      }
    }

    /** The receiver loop, until nothing more arrives or a call fails. */
    method ReceiverLoop(pipe: Pipe, md5: Bytes -> string) returns (ok: bool)
      requires outbox.Valid() && Rest(pipe.bytes) == []
      modifies this, outbox, pipe
      ensures outbox.Valid() && outbox.running == old(outbox.running) && mutexes == old(mutexes)
      ensures pipe.failed == (old(pipe.failed) || !ok)
      ensures ok ==> pipe.bytes == []
      ensures ok ==> Ran(ServerSide, old(directory), mutexes, Parse(old(pipe.bytes)), md5, directory,
                         old(outbox.buffer), outbox.buffer)
    {
      ghost var done := [];
      assert outbox.buffer + [] == outbox.buffer;
      assert Ran(ServerSide, directory, mutexes, [], md5, directory, outbox.buffer, outbox.buffer);
      while |pipe.bytes| > 0
        invariant outbox.Valid() && outbox.running == old(outbox.running) && mutexes == old(mutexes)
        invariant pipe.failed == old(pipe.failed) && Rest(pipe.bytes) == []
        invariant done + Parse(pipe.bytes) == Parse(old(pipe.bytes))
        invariant Ran(ServerSide, old(directory), mutexes, done, md5, directory, old(outbox.buffer), outbox.buffer)
        decreases |pipe.bytes|
      {
        var p;
        ghost var before, was, queued := pipe.bytes, directory, outbox.buffer;
        ok, p := ReceivePacket(pipe);
        if !ok { return; }
        ParseHead(before);
        Associate(done, [p], Parse(pipe.bytes));
        Receive(p, md5);
        RanSnoc(ServerSide, old(directory), mutexes, done, p, md5, was, old(outbox.buffer), queued);
        done := done + [p];
      }
      assert Parse(pipe.bytes) == [];
      assert done == Parse(old(pipe.bytes));
      ok := true;
    }

    /** client_sent_clist_: compares the listings and queues the session's missing files and the
        server's requests. `verb` is the verb the files go out under. It stops at the first command
        that does not fit. */
    method SentClist(payload: string, serverListing: string, verb: string, md5: Bytes -> string) returns (ok: bool,
                     deltaPackets: nat)
      requires outbox.Valid()
      modifies outbox
      ensures outbox.Valid() && outbox.running == old(outbox.running)
      ensures deltaPackets == |outbox.buffer| - |old(outbox.buffer)|
      ensures ok ==> outbox.buffer == old(outbox.buffer)
                        + PlanPackets(verb, ReadPlan(serverListing, payload), directory, mutexes, md5)
      ensures ok <==> PlanFits(verb, ReadPlan(serverListing, payload), directory, mutexes, md5)
      ensures ok ==> var plan := ReadPlan(serverListing, payload);
        deltaPackets == PacketsNeeded(directory, mutexes, plan.push) + |plan.request|
    {
      var plan := MakePlan(GetLines(serverListing), Split(payload));
      var asked := 0;
      ok, deltaPackets := PushFiles(outbox, verb, directory, mutexes, plan.push, md5);
      if ok {
        ok, asked := PushRequests(outbox, plan.request);
        deltaPackets := deltaPackets + asked;
        Associate(old(outbox.buffer), FilesPackets(verb, directory, mutexes, plan.push, md5), Requests(plan.request));
        PlanPacketCount(verb, plan, directory, mutexes, md5);
      }
    }
  }

  lemma ParseHead(s: Bytes)
    requires Complete(s)
    ensures Parse(s) == [First(s)] + Parse(s[FirstSize(s)..])
    ensures Parse(s)[0] == First(s) && Parse(s)[1..] == Parse(s[FirstSize(s)..])
    ensures Rest(s) == Rest(s[FirstSize(s)..])
  {
  }

  /** Whether every command a plan needs fits its field. */
  ghost predicate PlanFits(verb: string, plan: Plan, dir: Folder, locks: set<Name>, md5: Bytes -> string) {
    && (forall i :: 0 <= i < |plan.push| ==> FileFits(verb, dir, locks, plan.push[i], md5))
    && (forall i :: 0 <= i < |plan.request| ==> RequestFits(plan.request[i]))
  }

  predicate FileFits(verb: string, dir: Folder, locks: set<Name>, n: Name, md5: Bytes -> string) {
    n in dir && n in locks && dir[n] != [] ==> |DataCommand(verb, n, md5(dir[n]))| < COMMAND_FIELD
  }

  predicate RequestFits(n: Name) { |Request(UP, n).command| < COMMAND_FIELD }

  /** The loop over the files the session misses. */
  method PushFiles(out: SenderBuffer, verb: string, dir: Folder, locks: set<Name>, names: seq<Name>,
                   md5: Bytes -> string) returns (ok: bool, pushed: nat)
    requires out.Valid()
    modifies out
    ensures out.Valid() && out.running == old(out.running)
    ensures pushed == |out.buffer| - |old(out.buffer)|
    ensures ok <==> forall i :: 0 <= i < |names| ==> FileFits(verb, dir, locks, names[i], md5)
    ensures ok ==> out.buffer == old(out.buffer) + FilesPackets(verb, dir, locks, names, md5)
  {
    pushed := 0;
    var i := 0;
    assert names[0..] == names;
    while i < |names|
      invariant out.Valid() && out.running == old(out.running)
      invariant 0 <= i <= |names| && pushed == |out.buffer| - |old(out.buffer)|
      invariant forall j :: 0 <= j < i ==> FileFits(verb, dir, locks, names[j], md5)
      invariant out.buffer + FilesPackets(verb, dir, locks, names[i..], md5)
             == old(out.buffer) + FilesPackets(verb, dir, locks, names, md5)
    {
      FilesStep(out.buffer, verb, dir, locks, names, i, md5);
      var more;
      ok, more := PushOne(out, verb, dir, locks, names[i], md5);
      pushed := pushed + more;
      if !ok { return; }
      i := i + 1;
    }
    assert FilesPackets(verb, dir, locks, names[i..], md5) == [];
    ok := true;
  }

  /** One file the session misses, unless it has no mutex or cannot be opened. */
  method PushOne(out: SenderBuffer, verb: string, dir: Folder, locks: set<Name>, n: Name,
                 md5: Bytes -> string) returns (ok: bool, pushed: nat)
    requires out.Valid()
    modifies out
    ensures out.Valid() && out.running == old(out.running)
    ensures pushed == |out.buffer| - |old(out.buffer)|
    ensures ok <==> FileFits(verb, dir, locks, n, md5)
    ensures ok ==> out.buffer == old(out.buffer) + FilePackets(verb, dir, locks, n, md5)
  {
    ok, pushed := true, 0;
    if n in locks && n in dir {
      ok, pushed := PushFile(out, verb, n, Snapshot(dir[n], md5(dir[n])));
    }
  }

  lemma FilesStep(before: seq<Packet>, verb: string, dir: Folder, locks: set<Name>, names: seq<Name>, i: nat,
                  md5: Bytes -> string)
    requires i < |names|
    ensures before + FilesPackets(verb, dir, locks, names[i..], md5)
         == (before + FilePackets(verb, dir, locks, names[i], md5))
          + FilesPackets(verb, dir, locks, names[i + 1..], md5)
  {
    assert names[i..][1..] == names[i + 1..];
    Associate(before, FilePackets(verb, dir, locks, names[i], md5),
              FilesPackets(verb, dir, locks, names[i + 1..], md5));
  }

  /** The loop over the files the server misses. */
  method PushRequests(out: SenderBuffer, names: seq<Name>) returns (ok: bool, pushed: nat)
    requires out.Valid()
    modifies out
    ensures out.Valid() && out.running == old(out.running)
    ensures pushed == |out.buffer| - |old(out.buffer)|
    ensures ok <==> forall i :: 0 <= i < |names| ==> RequestFits(names[i])
    ensures ok ==> out.buffer == old(out.buffer) + Requests(names)
  {
    pushed := 0;
    while pushed < |names|
      invariant out.Valid() && out.running == old(out.running)
      invariant 0 <= pushed <= |names|
      invariant forall j :: 0 <= j < pushed ==> RequestFits(names[j])
      invariant out.buffer == old(out.buffer) + Requests(names[..pushed])
    {
      var request := Request(UP, names[pushed]);
      if |request.command| >= COMMAND_FIELD {
        return false, pushed;
      }
      assert Requests(names[..pushed + 1]) == Requests(names[..pushed]) + [request];
      out.Push(request);
      pushed := pushed + 1;
    }
    assert names[..pushed] == names;
    ok := true;
  }

  /** The client. It has one map of mutexes for both of its folders. */
  class Client {
    var sync: Folder
    var downloads: Folder
    var mutexes: set<Name>
    const outbox: SenderBuffer

    constructor (sync: Folder, downloads: Folder, mutexes: set<Name>)
      ensures this.sync == sync && this.downloads == downloads && this.mutexes == mutexes
      ensures fresh(outbox) && outbox.Valid() && outbox.buffer == [] && outbox.running
    {
      this.sync, this.downloads, this.mutexes := sync, downloads, mutexes;
      outbox := new SenderBuffer();
    }

    /** server_download_command_ */
    method ServerDownload(n: Name, md5: Bytes -> string)
      requires outbox.Valid()
      modifies outbox
      ensures outbox.Valid() && outbox.running == old(outbox.running)
      ensures outbox.buffer == old(outbox.buffer) + AnswerPackets(UP, sync, mutexes, n, md5(Contents(sync, n)))
      ensures Free(n, '|') && Free(md5(Contents(sync, n)), '|') ==>
        AnswersRequest(outbox.buffer[|old(outbox.buffer)|..], "sdownload", NO_LOCAL_FILE, sync, mutexes, n,
                       md5(Contents(sync, n)))
    {
      Reasons();
      PushAnswer(outbox, UP, sync, mutexes, n, md5);
    }

    /** server_upload_command_: into the synchronized folder. */
    method ServerUpload(n: Name, sum: string, p: Packet)
      modifies this
      ensures mutexes == old(mutexes) && downloads == old(downloads)
      ensures sync == if sum == "fail" then old(sync) else Reassemble(old(sync), mutexes, n, p)
    {
      if sum == "fail" { return; }
      sync := Write(sync, mutexes, n, p);
    }

    /** server_async_upload_command_: into the download folder. */
    method ServerAsyncUpload(n: Name, sum: string, p: Packet)
      modifies this
      ensures mutexes == old(mutexes) && sync == old(sync)
      ensures downloads == if sum == "fail" then old(downloads) else Reassemble(old(downloads), mutexes, n, p)
    {
      if sum == "fail" { return; }
      downloads := Write(downloads, mutexes, n, p);
    }

    /** One packet through the dispatcher of the receiver loop, as far as files are concerned. */
    method Receive(p: Packet, md5: Bytes -> string)
      requires outbox.Valid()
      modifies this, outbox
      ensures outbox.Valid() && outbox.running == old(outbox.running) && mutexes == old(mutexes)
      ensures downloads == Land(DOWN, old(downloads), mutexes, p)
      ensures sync == Taken(ClientSide, old(sync), mutexes, p, md5).0
      ensures outbox.buffer == old(outbox.buffer) + Taken(ClientSide, old(sync), mutexes, p, md5).1
    {
      var tokens := Split(p.command);
      if |tokens| == 2 && tokens[0] == "sdownload" {
        ServerDownload(tokens[1], md5);
      } else if |tokens| == 3 && tokens[0] == "supload" {
        ServerUpload(tokens[1], tokens[2], p);
      } else if |tokens| == 3 && tokens[0] == "aupload" {
        ServerAsyncUpload(tokens[1], tokens[2], p);
      } else if |tokens| == 3 && tokens[0] == "upload" {
        ServerUpload(tokens[1], tokens[2], p);
      }
    }

    /** The receiver loop, until nothing more arrives or a call fails. */
    method ReceiverLoop(pipe: Pipe, md5: Bytes -> string) returns (ok: bool)
      requires outbox.Valid() && Rest(pipe.bytes) == []
      modifies this, outbox, pipe
      ensures outbox.Valid() && outbox.running == old(outbox.running) && mutexes == old(mutexes)
      ensures pipe.failed == (old(pipe.failed) || !ok)
      ensures ok ==> pipe.bytes == []
      ensures ok ==> Ran(ClientSide, old(sync), mutexes, Parse(old(pipe.bytes)), md5, sync,
                         old(outbox.buffer), outbox.buffer)
    {
      ghost var done := [];
      assert outbox.buffer + [] == outbox.buffer;
      assert Ran(ClientSide, sync, mutexes, [], md5, sync, outbox.buffer, outbox.buffer);
      while |pipe.bytes| > 0
        invariant outbox.Valid() && outbox.running == old(outbox.running) && mutexes == old(mutexes)
        invariant pipe.failed == old(pipe.failed) && Rest(pipe.bytes) == []
        invariant done + Parse(pipe.bytes) == Parse(old(pipe.bytes))
        invariant Ran(ClientSide, old(sync), mutexes, done, md5, sync, old(outbox.buffer), outbox.buffer)
        decreases |pipe.bytes|
      {
        var p;
        ghost var before, was, queued := pipe.bytes, sync, outbox.buffer;
        ok, p := ReceivePacket(pipe);
        if !ok { return; }
        ParseHead(before);
        Associate(done, [p], Parse(pipe.bytes));
        Receive(p, md5);
        RanSnoc(ClientSide, old(sync), mutexes, done, p, md5, was, old(outbox.buffer), queued);
        done := done + [p];
      }
      assert Parse(pipe.bytes) == [];
      assert done == Parse(old(pipe.bytes));
      ok := true;
    }
  }
}
