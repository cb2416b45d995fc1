/** A whole reconciliation between the two objects, over two byte streams. */
module Synchronize {
  import opened Seqs
  import opened Codec
  import opened Chunking
  import opened Framing
  import opened Transfer
  import opened Link
  import opened World
  import opened Reconcile
  import opened Outbox
  import opened Sessions

  // ----- all packets are well formed -----

  lemma ValidConcat(a: seq<Packet>, b: seq<Packet>)
    requires AllValid(a) && AllValid(b)
    ensures AllValid(a + b)
  {
  }

  lemma GoodFileValid(verb: string, folder: Folder, n: Name, md5: Bytes -> string)
    requires GoodFolder(folder) && n in folder && GoodDigests(md5)
    requires Free(verb, BAR) && Free(verb, NUL) && |verb| <= 9
    ensures var s := Snapshot(folder[n], md5(folder[n]));
            && |DataCommand(verb, n, s.sum)| < COMMAND_FIELD
            && AllValid(PacketsOf(verb, n, s))
            && forall p :: p in PacketsOf(verb, n, s) ==> |Split(p.command)| == 3 && Split(p.command)[0] == verb
  {
    var s := Snapshot(folder[n], md5(folder[n]));
    assert Digest(s.sum);
    GoodSnapshots(verb, folder, n, md5);
    DataCommandFree(verb, n, s.sum);
    PacketsValid(verb, n, s);
    PacketsCarryName(verb, n, s);
  }

  lemma {:induction false} FilesValid(verb: string, folder: Folder, locks: set<Name>, names: seq<Name>,
                                      md5: Bytes -> string)
    requires GoodFolder(folder) && GoodDigests(md5)
    requires Free(verb, BAR) && Free(verb, NUL) && |verb| <= 9
    ensures AllValid(FilesPackets(verb, folder, locks, names, md5))
  {
    if names != [] {
      FilesValid(verb, folder, locks, names[1..], md5);
      if names[0] in folder {
        GoodFileValid(verb, folder, names[0], md5);
      }
      ValidConcat(FilePackets(verb, folder, locks, names[0], md5), FilesPackets(verb, folder, locks, names[1..], md5));
    }
  }

  lemma RequestsValid(names: seq<Name>)
    requires forall n :: n in names ==> GoodName(n) || n == ""
    ensures AllValid(Requests(names)) && forall p :: p in Requests(names) ==> DataName("upload", p) == None
    ensures forall i :: 0 <= i < |names| ==> RequestFits(names[i])
  {
    forall i | 0 <= i < |names|
      ensures Valid(Request(UP, names[i])) && DataName("upload", Request(UP, names[i])) == None
    {
      assert names[i] in names;
      RequestReads(UP, names[i]);
    }
  }

  /** Everything a good plan queues is valid and no data under the client's "upload" verb, and every
      command fits. */
  lemma PlanValid(plan: Plan, sync: Folder, dir: Folder, slocks: set<Name>, md5: Bytes -> string)
    requires PlanCovers(plan, sync, dir) && GoodFolder(sync) && GoodFolder(dir) && GoodDigests(md5)
    ensures var ps := PlanPackets(PUSH, plan, dir, slocks, md5);
            AllValid(ps) && forall p :: p in ps ==> DataName("upload", p) == None
    ensures PlanFits(PUSH, plan, dir, slocks, md5)
  {
    FilesValid(PUSH, dir, slocks, plan.push, md5);
    FilesShape(PUSH, dir, slocks, plan.push, md5);
    RequestsValid(plan.request);
    ValidConcat(FilesPackets(PUSH, dir, slocks, plan.push, md5), Requests(plan.request));
    forall n | n in plan.push ensures FileFits(PUSH, dir, slocks, n, md5) {
      GoodFileValid(PUSH, dir, n, md5);
    }
  }

  ghost predicate GoodReplies(ps: seq<Packet>) {
    AllValid(ps) && forall p :: p in ps ==> RequestName(ASK, p) == None
  }

  lemma AnswerGood(now: Folder, sync: Folder, locks: set<Name>, n: Name, md5: Bytes -> string)
    requires GoodFolder(sync) && GoodDigests(md5) && (n in sync || n == "")
    requires "" !in now && (n in sync ==> Shows(now, n, sync[n]))
    ensures GoodReplies(AnswerPackets(UP, now, locks, n, md5(Contents(now, n))))
  {
    if n in sync {
      AnswerIsFile(now, sync, locks, n, md5);
      FileReplyGood(sync, locks, n, md5);
    } else {
      FailureGood(now, locks, md5);
    }
  }

  lemma FileReplyGood(sync: Folder, locks: set<Name>, n: Name, md5: Bytes -> string)
    requires GoodFolder(sync) && GoodDigests(md5) && n in sync
    ensures GoodReplies(FilePackets(UP, sync, locks, n, md5))
  {
    GoodFileValid(UP, sync, n, md5);
  }

  lemma FailureGood(now: Folder, locks: set<Name>, md5: Bytes -> string)
    requires "" !in now
    ensures GoodReplies(AnswerPackets(UP, now, locks, "", md5(Contents(now, ""))))
  {
    var p := Packet(DataCommand(UP, "", "fail"), 0, 0, Reason(UP));
    if |p.command| < COMMAND_FIELD {
      FailureIsOther(ASK, UP, "", p);
    }
  }

  lemma {:induction false} RepliesGood(now: Folder, sync: Folder, locks: set<Name>, names: seq<Name>,
                                       md5: Bytes -> string)
    requires GoodFolder(sync) && GoodDigests(md5) && "" !in now
    requires forall n :: n in names ==> if n in sync then Shows(now, n, sync[n]) else n == ""
    ensures GoodReplies(ClientRun(PUSH, now, locks, Requests(names), md5).1)
  {
    if names != [] {
      var n, rest := names[0], names[1..];
      assert n in names && (n == "" || GoodName(n));
      RequestReads(UP, n);
      RequestsCons(names);
      ClientRunCons(PUSH, now, locks, Request(UP, n), Requests(rest), md5);
      AnswerGood(now, sync, locks, n, md5);
      RepliesGood(now, sync, locks, rest, md5);
      ValidConcat(AnswerPackets(UP, now, locks, n, md5(Contents(now, n))),
                  ClientRun(PUSH, now, locks, Requests(rest), md5).1);
    }
  }

  lemma PlanRepliesGood(plan: Plan, sync: Folder, dir: Folder, clocks: set<Name>, slocks: set<Name>,
                        md5: Bytes -> string)
    requires PlanCovers(plan, sync, dir) && GoodFolder(sync) && GoodFolder(dir) && GoodDigests(md5)
    ensures GoodReplies(ClientRun(PUSH, sync, clocks, PlanPackets(PUSH, plan, dir, slocks, md5), md5).1)
  {
    var mid := DepositAll(sync, dir, slocks, clocks, plan.push);
    PlanToTransfer(plan, sync, dir);
    PushesComplete(sync, dir, clocks, slocks, plan.push, md5);
    SomeRequested(plan, sync, dir, clocks, slocks, plan.request, md5);
    TwoPhases(sync, mid, clocks, FilesPackets(PUSH, dir, slocks, plan.push, md5), Requests(plan.request), md5);
    OwnFilesStay(plan, sync, dir, clocks, slocks);
    RepliesGood(mid, sync, clocks, plan.request, md5);
  }

  // ----- the exchange -----

  /** One side's queue goes over a stream and nothing of it is lost on the way. */
  method Deliver(out: SenderBuffer, pipe: Pipe) returns (ok: bool)
    requires out.Valid() && out.running && pipe.bytes == [] && AllValid(out.buffer)
    modifies out, pipe
    ensures out.Valid() && out.running
    ensures pipe.failed == (old(pipe.failed) || !ok)
    ensures ok ==> out.buffer == [] && Parse(pipe.bytes) == old(out.buffer) && Rest(pipe.bytes) == []
  {
    ok := out.Drain(pipe);
    if ok {
      ghost var bytes :| OnWire(old(out.buffer), bytes) && pipe.bytes == [] + bytes;
      assert pipe.bytes == bytes;
      OnWireParses(old(out.buffer), bytes);
    }
  }

  ghost predicate Ready(server: ClientSession, client: Client, down: Pipe, up: Pipe)
    reads server, client, server.outbox, client.outbox, down, up
  {
    && server.outbox != client.outbox && down != up
    && server.outbox.Valid() && server.outbox.running && server.outbox.buffer == []
    && client.outbox.Valid() && client.outbox.running && client.outbox.buffer == []
    && down.bytes == [] && up.bytes == []
  }

  /** The client's listing has arrived: the server plans and sends, the client takes the pushed files
      and answers the requests, the server takes the answers. Unless a network call fails, each file is
      then where the mutexes of both sides let it go, and both folders hold all files of either side
      if and only if both have a mutex for every file that only one had; whatever order the folders
      were listed in and however the streams were cut into partial calls. Nothing is left in queues or
      streams. */
  method Exchange(server: ClientSession, client: Client, down: Pipe, up: Pipe, md5: Bytes -> string,
                  serverNames: seq<Name>, sessionNames: seq<Name>) returns (ok: bool)
    requires Ready(server, client, down, up) && GoodDigests(md5)
    requires Lists(serverNames, server.directory) && Lists(sessionNames, client.sync)
    requires GoodFolder(client.sync) && GoodFolder(server.directory)
    modifies server, client, server.outbox, client.outbox, down, up
    ensures down.failed || up.failed <==> old(down.failed || up.failed) || !ok
    ensures ok ==> Ready(server, client, down, up)
    ensures ok ==> Exchanged(client.sync, server.directory, old(client.sync), old(server.directory),
                             old(client.mutexes), old(server.mutexes))
  {
    ghost var sync, dir, clocks, slocks := client.sync, server.directory, client.mutexes, server.mutexes;
    ghost var ps, replies, outcome := ExchangeFacts(serverNames, sessionNames, sync, dir, clocks, slocks, md5);
    var fits, deltaPackets := server.SentClist(Listing(sessionNames), Listing(serverNames), PUSH, md5);
    ok := Deliver(server.outbox, down);
    if !ok { return; }
    ok := client.ReceiverLoop(down, md5);
    if !ok { return; }
    ok := Deliver(client.outbox, up);
    if !ok { return; }
    ok := server.ReceiverLoop(up, md5);
  }

  /** What an exchange makes of the two folders. */
  ghost predicate Exchanged(client: Folder, server: Folder, sync: Folder, dir: Folder, clocks: set<Name>,
                            slocks: set<Name>) {
    && (forall n :: !IsTempPath(n) ==> Reconciled(client, server, sync, dir, clocks, slocks, n))
    && (client == dir + sync && server == sync + dir <==> BothHaveMutexes(sync, dir, clocks, slocks))
  }

  /** What the server queues, what the client answers, and what both have in the end. */
  lemma ExchangeFacts(serverNames: seq<Name>, sessionNames: seq<Name>, sync: Folder, dir: Folder,
                      clocks: set<Name>, slocks: set<Name>, md5: Bytes -> string)
    returns (ps: seq<Packet>, replies: seq<Packet>, outcome: (Folder, Folder))
    requires Lists(serverNames, dir) && Lists(sessionNames, sync)
    requires GoodFolder(sync) && GoodFolder(dir) && GoodDigests(md5)
    ensures var plan := ReadPlan(Listing(serverNames), Listing(sessionNames));
            ps == [] + PlanPackets(PUSH, plan, dir, slocks, md5) && PlanFits(PUSH, plan, dir, slocks, md5)
    ensures AllValid(ps) && AllValid(replies)
    ensures AllTaken(ClientSide, sync, clocks, ps, md5) == (outcome.0, replies) && [] + replies == replies
    ensures AllTaken(ServerSide, dir, slocks, replies, md5) == (outcome.1, [])
    ensures Exchanged(outcome.0, outcome.1, sync, dir, clocks, slocks)
  {
    var plan := ReadPlan(Listing(serverNames), Listing(sessionNames));
    ps := PlanPackets(PUSH, plan, dir, slocks, md5);
    outcome := Outcomes(plan, sync, dir, clocks, slocks);
    assert [] + ps == ps;
    ListedPlanCovers(serverNames, sessionNames, sync, dir);
    PlanValid(plan, sync, dir, slocks, md5);
    replies := AnswerFacts(plan, sync, dir, clocks, slocks, md5);
    PlanOutcome(plan, sync, dir, clocks, slocks, md5);
    Converges(serverNames, sessionNames, sync, dir, clocks, slocks, md5);
  }

  lemma AnswerFacts(plan: Plan, sync: Folder, dir: Folder, clocks: set<Name>, slocks: set<Name>, md5: Bytes -> string)
    returns (replies: seq<Packet>)
    requires PlanCovers(plan, sync, dir) && GoodFolder(sync) && GoodFolder(dir) && GoodDigests(md5)
    requires forall p :: p in PlanPackets(PUSH, plan, dir, slocks, md5) ==> DataName("upload", p) == None
    ensures var ps, outcome := PlanPackets(PUSH, plan, dir, slocks, md5), Outcomes(plan, sync, dir, clocks, slocks);
            && AllTaken(ClientSide, sync, clocks, ps, md5) == (outcome.0, replies)
            && AllTaken(ServerSide, dir, slocks, replies, md5) == (outcome.1, [])
    ensures AllValid(replies) && [] + replies == replies
  {
    var ps := PlanPackets(PUSH, plan, dir, slocks, md5);
    replies := ClientRun(PUSH, sync, clocks, ps, md5).1;
    PlanOutcome(plan, sync, dir, clocks, slocks, md5);
    PlanRepliesGood(plan, sync, dir, clocks, slocks, md5);
    ClientRuns(sync, clocks, ps, md5);
    ServerLands(dir, slocks, replies, md5);
  }
}
