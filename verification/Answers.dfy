/** Requests are answered: what a request puts under way, in terms of the packets themselves. */
module Answers {
  import opened Seqs
  import opened Codec
  import opened Chunking
  import opened Framing
  import opened Transfer
  import opened Link
  import opened World

  // ----- what the packets of an answer are -----

  /** One transfer, as its packets show it: each splits into verb, name and checksum, they are
      numbered from 0 and all say how many there are, and their payloads make up the content, all but the last
      in full. */
  ghost predicate Carries(ps: seq<Packet>, verb: string, n: Name, sum: string, content: Bytes) {
    && ps != [] && Flatten(Payloads(ps)) == content
    && (forall i :: 0 <= i < |ps| - 1 ==> |ps[i].payload| == 8192) && 0 < |ps[|ps| - 1].payload| <= 8192
    && forall i :: 0 <= i < |ps| ==>
         Split(ps[i].command) == [verb, n, sum] && ps[i].sequenceNumber == i && ps[i].expected == |ps|
  }

  ghost predicate IsFailure(p: Packet, verb: string, n: Name, reason: string) {
    Split(p.command) == [verb, n, "fail"] && p.payload == reason && p.sequenceNumber == 0 && p.expected == 0
  }

  /** There is a file to send: not empty, with a mutex, and with a command that fits. */
  predicate Sendable(verb: string, source: Folder, locks: set<Name>, n: Name, sum: string) {
    n in source && source[n] != [] && n in locks && |verb| + |n| + |sum| + 2 < 1024
  }

  /** These packets answer a request for `n`: the file, or one failure when there is none. */
  ghost predicate AnswersRequest(ps: seq<Packet>, verb: string, reason: string, source: Folder, locks: set<Name>,
                                 n: Name, sum: string) {
    if n !in source then
      if |verb| + |n| + 6 < 1024 then |ps| == 1 && IsFailure(ps[0], verb, n, reason) else ps == []
    else if Sendable(verb, source, locks, n, sum) then Carries(ps, verb, n, sum, source[n])
    else ps == []
  }

  lemma CommandLength(verb: string, n: Name, sum: string)
    ensures |DataCommand(verb, n, sum)| == |verb| + |n| + |sum| + 2
  {
    JoinThree(verb, n, sum);
  }

  lemma PacketsCarry(verb: string, n: Name, s: Snapshot)
    requires Free(verb, BAR) && Free(n, BAR) && Free(s.sum, BAR) && s.content != []
    ensures Carries(PacketsOf(verb, n, s), verb, n, s.sum, s.content)
  {
    SplitOfJoin([verb, n, s.sum]);
    ChunksCut(s.content, PAYLOAD);
    assert Payloads(PacketsOf(verb, n, s)) == Chunks(s.content, PAYLOAD);
  }

  lemma AnswerMeans(verb: string, source: Folder, locks: set<Name>, n: Name, sum: string)
    requires Free(verb, BAR) && Free(n, BAR) && Free(sum, BAR)
    ensures AnswersRequest(AnswerPackets(verb, source, locks, n, sum), verb, Reason(verb), source, locks, n, sum)
  {
    CommandLength(verb, n, sum);
    CommandLength(verb, n, "fail");
    if n !in source {
      FailureReads(verb, n);
    } else if source[n] != [] {
      PacketsCarry(verb, n, Snapshot(source[n], sum));
    }
  }

  const NO_SERVER_FILE: string := "Could not find or acess given file!"
  const NO_LOCAL_FILE: string := "Given file was not found on user local machine."

  lemma Reasons()
    ensures Reason("aupload") == NO_SERVER_FILE && Reason("sdownload") == NO_LOCAL_FILE
    ensures Free("aupload", BAR) && Free("sdownload", BAR)
    ensures UP == "sdownload" && DOWN == "aupload" && ASK == "adownload"
  {
  }

  // ----- what the dispatchers do with a request -----

  /** What `after` has under way more than `before`, in its queue and in the loop for `n`. */
  function NewPackets(before: Link, after: Link, n: Name): seq<Packet>
    requires |before.queue| <= |after.queue|
  {
    after.queue[|before.queue|..] + Pending(after, n)
  }

  /** A request for `n` was answered on this link from these files, and nothing else happened. */
  ghost predicate Answered(before: Link, after: Link, verb: string, reason: string, source: Folder, locks: set<Name>,
                           n: Name, sum: string) {
    && before.queue <= after.queue && after.folder == before.folder && after.locks == before.locks
    && AnswersRequest(NewPackets(before, after, n), verb, reason, source, locks, n, sum)
    && Started(after, n) == Started(before, n)
                            + (if Sendable(verb, source, locks, n, sum) then [Snapshot(source[n], sum)] else [])
    && forall m :: m != n ==> Pending(after, m) == Pending(before, m) && Started(after, m) == Started(before, m)
  }

  lemma AnswerAnswers(verb: string, l: Link, source: Folder, locks: set<Name>, n: Name, sum: string)
    requires Free(verb, BAR) && Free(n, BAR) && Free(sum, BAR) && n !in l.loops
    ensures Answered(l, Answer(verb, l, source, locks, n, sum), verb, Reason(verb), source, locks, n, sum)
  {
    AnswerMeans(verb, source, locks, n, sum);
    AnswerAdds(verb, l, source, locks, n, sum);
    AnswerKeepsOthers(verb, l, source, locks, n, sum);
  }

  lemma AnswerAdds(verb: string, l: Link, source: Folder, locks: set<Name>, n: Name, sum: string)
    requires n !in l.loops
    ensures var after := Answer(verb, l, source, locks, n, sum);
            l.queue <= after.queue && NewPackets(l, after, n) == AnswerPackets(verb, source, locks, n, sum)
  {
    var pushed := AnswerStarts(verb, l, source, locks, n, sum);
    assert (l.queue + pushed)[|l.queue|..] == pushed;
  }

  lemma AnswerKeepsOthers(verb: string, l: Link, source: Folder, locks: set<Name>, n: Name, sum: string)
    ensures var after := Answer(verb, l, source, locks, n, sum);
            && after.folder == l.folder && after.locks == l.locks
            && Started(after, n) == Started(l, n)
                                    + (if Sendable(verb, source, locks, n, sum) then [Snapshot(source[n], sum)] else [])
            && forall m :: m != n ==> Pending(after, m) == Pending(l, m) && Started(after, m) == Started(l, m)
  {
    CommandLength(verb, n, sum);
    assert Started(l, n) + [] == Started(l, n);
  }

  /** The server takes a request for a download. */
  lemma DownloadTaken(w: World, n: Name, sum: string)
    requires w.up.queue != [] && w.up.queue[0].command == "adownload|" + n && Free(n, '|')
    requires Enabled(w, DeliverUp(sum))
    ensures var after := Do(w, DeliverUp(sum));
            && after.sync == w.sync && after.up == w.up.(queue := w.up.queue[1..])
            && Answered(w.down, after.down, "aupload", NO_SERVER_FILE, w.up.folder, w.up.locks, n, sum)
  {
    Reasons();
    RequestIsRead("adownload", n, w.up.queue[0]);
    AnswerAnswers("aupload", w.down, w.up.folder, w.up.locks, n, sum);
  }

  /** The client takes a request for one of its files. */
  lemma UploadTaken(w: World, n: Name, sum: string)
    requires w.down.queue != [] && w.down.queue[0].command == "sdownload|" + n && Free(n, '|')
    requires Enabled(w, DeliverDown(sum))
    ensures var after := Do(w, DeliverDown(sum));
            && after.sync == w.sync && after.down == w.down.(queue := w.down.queue[1..])
            && Answered(w.up, after.up, "sdownload", NO_LOCAL_FILE, w.sync, w.down.locks, n, sum)
  {
    Reasons();
    RequestIsRead("sdownload", n, w.down.queue[0]);
    AnswerAnswers("sdownload", w.up, w.sync, w.down.locks, n, sum);
  }

  lemma RequestIsRead(verb: string, n: Name, p: Packet)
    requires Free(verb, BAR) && Free(n, BAR) && p.command == verb + "|" + n
    ensures RequestName(verb, p) == Some(n)
  {
    assert "|" == [BAR];
    RequestReads(verb, n);
  }

  /** One packet with this command went into the queue, and nothing else changed. */
  ghost predicate Queued(before: Link, after: Link, command: string) {
    && after == before.(queue := after.queue)
    && |after.queue| == |before.queue| + 1 && before.queue <= after.queue
    && after.queue[|before.queue|].command == command
  }

  /** A user's or the planner's request goes into the queue, if it fits. */
  lemma AskQueues(w: World, n: Name)
    requires Enabled(w, AskDownload(n))
    ensures var after := Do(w, AskDownload(n));
            && after == w.(up := after.up)
            && if |n| <= 1013 then Queued(w.up, after.up, "adownload|" + n) else after == w
    ensures var after := Do(w, AskUpload(n));
            && after == w.(down := after.down)
            && if |n| <= 1013 then Queued(w.down, after.down, "sdownload|" + n) else after == w
  {
    Reasons();
    assert "|" == [BAR];
  }

  // ----- data -----

  /** A data command under this verb is written; anything else lands nowhere. */
  lemma DataLands(verb: string, folder: Folder, locks: set<Name>, p: Packet)
    ensures var tokens, after := Split(p.command), Land(verb, folder, locks, p);
            if |tokens| == 3 && tokens[0] == verb && tokens[2] != "fail"
            then Written(folder, after, locks, tokens[1], p)
            else after == folder
  {
    if DataName(verb, p).Some? {
      ReassembleEffect(folder, locks, DataName(verb, p).value, p);
    }
  }
}
