/** Over every run, a file that is there when it is requested arrives. */
module Arrival {
  import opened Seqs
  import opened Codec
  import opened Chunking
  import opened Framing
  import opened Transfer
  import opened Link
  import opened World
  import opened Wire
  import opened Answers
  import opened Progress

  // ----- queues, snapshots and mutexes over a run -----

  /** Queues lose only their front, and only to a delivery. */
  lemma UpQueueMoves(w: World, a: Action)
    requires Enabled(w, a)
    ensures (if a.DeliverUp? then w.up.queue[1..] else w.up.queue) <= Do(w, a).up.queue
  {
  }

  lemma DownQueueMoves(w: World, a: Action)
    requires Enabled(w, a)
    ensures (if a.DeliverDown? then w.down.queue[1..] else w.down.queue) <= Do(w, a).down.queue
  {
  }

  lemma MutexesKept(w: World, a: Action)
    requires Enabled(w, a)
    ensures Do(w, a).up.locks == w.up.locks && Do(w, a).down.locks == w.down.locks
  {
  }

  /** A packet in the server's inward queue that is empty later was taken in between. */
  lemma {:induction false} TakenUp(ws: seq<World>, actions: seq<Action>, i: nat, pos: nat, j: nat) returns (k: nat)
    requires Run(ws, actions) && i <= j < |ws| && pos < |ws[i].up.queue| && ws[j].up.queue == []
    ensures i <= k < j && actions[k].DeliverUp? && ws[k].up.queue != [] && ws[k].up.queue[0] == ws[i].up.queue[pos]
    decreases j - i
  {
    UpQueueMoves(ws[i], actions[i]);
    if actions[i].DeliverUp? && pos == 0 {
      k := i;
    } else {
      k := TakenUp(ws, actions, i + 1, if actions[i].DeliverUp? then pos - 1 else pos, j);
    }
  }

  lemma {:induction false} TakenDown(ws: seq<World>, actions: seq<Action>, i: nat, pos: nat, j: nat) returns (k: nat)
    requires Run(ws, actions) && i <= j < |ws| && pos < |ws[i].down.queue| && ws[j].down.queue == []
    ensures i <= k < j && actions[k].DeliverDown? && ws[k].down.queue != []
    ensures ws[k].down.queue[0] == ws[i].down.queue[pos]
    decreases j - i
  {
    DownQueueMoves(ws[i], actions[i]);
    if actions[i].DeliverDown? && pos == 0 {
      k := i;
    } else {
      k := TakenDown(ws, actions, i + 1, if actions[i].DeliverDown? then pos - 1 else pos, j);
    }
  }

  lemma {:induction false} MutexesStay(ws: seq<World>, actions: seq<Action>, i: nat)
    requires Run(ws, actions) && i < |ws|
    ensures ws[i].up.locks == ws[0].up.locks && ws[i].down.locks == ws[0].down.locks
  {
    if i > 0 {
      MutexesStay(ws, actions, i - 1);
      MutexesKept(ws[i - 1], actions[i - 1]);
    }
  }

  ghost predicate ReadsAt(links: seq<Link>, sources: seq<Folder>, i: nat, n: Name) {
    i + 1 < |links| == |sources| && OneMoreRead(links[i], links[i + 1], sources[i], n)
  }

  /** Where transfers of `n` were started between two states, the last of them read the file in a state
      between them. */
  lemma {:induction false} LastRead(links: seq<Link>, sources: seq<Folder>, k: nat, j: nat, n: Name) returns (m: nat)
    requires k < j < |links| == |sources| && Started(links[k + 1], n) != Started(links[k], n)
    requires forall i :: k <= i < j ==> ReadsAt(links, sources, i, n)
    ensures k <= m < j && n in sources[m] && Started(links[j], n) != []
    ensures var ss := Started(links[j], n); ss[|ss| - 1].content == sources[m][n]
    decreases j
  {
    assert ReadsAt(links, sources, j - 1, n);
    if Started(links[j], n) != Started(links[j - 1], n) {
      m := j - 1;
    } else {
      m := LastRead(links, sources, k, j - 1, n);
    }
  }

  lemma ReadsThere(ws: seq<World>, actions: seq<Action>, i: nat, n: Name)
    requires Run(ws, actions) && i < |actions|
    ensures OneMoreRead(ws[i].up, ws[i + 1].up, ws[i].sync, n)
    ensures OneMoreRead(ws[i].down, ws[i + 1].down, ws[i].up.folder, n)
  {
    SnapshotsAreRead(ws[i], actions[i], n);
  }

  function UpLinks(ws: seq<World>): seq<Link> { seq(|ws|, i requires 0 <= i < |ws| => ws[i].up) }
  function DownLinks(ws: seq<World>): seq<Link> { seq(|ws|, i requires 0 <= i < |ws| => ws[i].down) }

  /** Every snapshot is read in the state before its transfer starts. */
  ghost predicate AllRead(ws: seq<World>, n: Name) {
    && (forall i :: 0 <= i < |ws| - 1 ==> ReadsAt(UpLinks(ws), SyncFolders(ws), i, n))
    && (forall i :: 0 <= i < |ws| - 1 ==> ReadsAt(DownLinks(ws), ServerFolders(ws), i, n))
  }

  lemma ReadsAlong(ws: seq<World>, actions: seq<Action>, n: Name)
    requires Run(ws, actions)
    ensures AllRead(ws, n)
  {
    forall i | 0 <= i < |actions|
      ensures ReadsAt(UpLinks(ws), SyncFolders(ws), i, n) && ReadsAt(DownLinks(ws), ServerFolders(ws), i, n)
    {
      ReadsThere(ws, actions, i, n);
    }
  }

  lemma LastReadUp(ws: seq<World>, k: nat, j: nat, n: Name) returns (m: nat)
    requires AllRead(ws, n) && k < j < |ws| && Started(ws[k + 1].up, n) != Started(ws[k].up, n)
    ensures k <= m < j && n in ws[m].sync && Started(ws[j].up, n) != []
    ensures var ss := Started(ws[j].up, n); ss[|ss| - 1].content == ws[m].sync[n]
  {
    m := LastRead(UpLinks(ws), SyncFolders(ws), k, j, n);
  }

  lemma LastReadDown(ws: seq<World>, k: nat, j: nat, n: Name) returns (m: nat)
    requires AllRead(ws, n) && k < j < |ws| && Started(ws[k + 1].down, n) != Started(ws[k].down, n)
    ensures k <= m < j && n in ws[m].up.folder && Started(ws[j].down, n) != []
    ensures var ss := Started(ws[j].down, n); ss[|ss| - 1].content == ws[m].up.folder[n]
  {
    m := LastRead(DownLinks(ws), ServerFolders(ws), k, j, n);
  }

  // ----- requested files arrive -----

  /** The folder has this content under `n`, perhaps behind what was left of an earlier session, and
      no temporary file. */
  ghost predicate Holds(folder: Folder, start: Folder, n: Name, content: Bytes) {
    && n in folder && TempPath(n) !in folder
    && (folder[n] == content || folder[n] == Leftover(start, n) + content)
    && (Leftover(start, n) == [] ==> folder[n] == content)
  }

  lemma FinishedHolds(init: Folder, l: Link, n: Name)
    requires Finished(init, l, n)
    ensures Holds(l.folder, init, n, Started(l, n)[|Started(l, n)| - 1].content)
  {
    var content := Started(l, n)[|Started(l, n)| - 1].content;
    assert [] + content == content;
  }

  lemma StartedIsKnown(l: Link, n: Name)
    requires Started(l, n) != []
    ensures n in l.started
  {
  }

  /** The server's folder never loses a file that is not empty in a session. */
  lemma {:induction false} StaysThere(ws: seq<World>, actions: seq<Action>, i: nat, j: nat, n: Name)
    requires Run(ws, actions) && i <= j < |ws| && !IsTempPath(n)
    requires n in ws[i].up.folder && ws[i].up.folder[n] != []
    ensures n in ws[j].up.folder && ws[j].up.folder[n] != []
    decreases j
  {
    if i < j {
      StaysThere(ws, actions, i, j - 1, n);
      StaysNext(ws, actions, j - 1, n);
    }
  }

  lemma StaysNext(ws: seq<World>, actions: seq<Action>, i: nat, n: Name)
    requires Run(ws, actions) && i < |actions| && !IsTempPath(n)
    requires n in ws[i].up.folder && ws[i].up.folder[n] != []
    ensures n in ws[i + 1].up.folder && ws[i + 1].up.folder[n] != []
  {
    RunIsGood(ws, actions, i);
    StaysStep(ws[0], ws[i], actions[i], n);
  }

  lemma StaysStep(init: World, w: World, a: Action, n: Name)
    requires Good(init, w) && Enabled(w, a) && !IsTempPath(n)
    requires n in w.up.folder && w.up.folder[n] != []
    ensures n in Do(w, a).up.folder && Do(w, a).up.folder[n] != []
  {
    VisibleUpStep(init, w, a, n);
    DeliveredIsSomething(UP, init.up.folder, w.up, n);
  }

  lemma DeliveredIsSomething(verb: string, init: Folder, l: Link, n: Name)
    requires Invariant(verb, init, l)
    ensures !Delivered(init, l, n, [])
  {
    forall i | 0 <= i < |Started(l, n)| ensures Shown(init, n, Started(l, n), i) != [] {
      assert n in l.started && GoodSnapshot(verb, n, l.started[n][i]);
    }
  }

  /** A download that the client's user asks for arrives once all is drained: if the server has that
      file and it is not empty, and both sides have a mutex for it, the client then has what the server's
      folder held in some state since. */
  lemma DownloadArrives(ws: seq<World>, actions: seq<Action>, i: nat, j: nat, n: Name)
    requires Run(ws, actions) && i < j < |ws| && actions[i] == AskDownload(n)
    requires Free(n, '|') && |n| <= 980 && n in ws[i].up.locks && n in ws[i].down.locks
    requires ws[j].up.queue == [] && Under(DOWN, ws[j].down, n) == []
    requires n in ws[i].up.folder && ws[i].up.folder[n] != []
    ensures exists m :: i < m < j && n in ws[m].up.folder
                     && Holds(ws[j].down.folder, ws[0].down.folder, n, ws[m].up.folder[n])
  {
    var k := DownloadStarts(ws, actions, i, j, n);
    MutexesStay(ws, actions, i);
    MutexesStay(ws, actions, j);
    ReadsAlong(ws, actions, n);
    SettledWhenDrained(ws, actions, j, n);
    var m := DownloadEnds(ws, k, j, n);
  }

  lemma DownloadEnds(ws: seq<World>, k: nat, j: nat, n: Name) returns (m: nat)
    requires AllRead(ws, n) && k < j < |ws| && Started(ws[k + 1].down, n) != Started(ws[k].down, n)
    requires n in ws[j].down.locks && (n in ws[j].down.started ==> Outcome(ws[0].down.folder, ws[j].down, n))
    ensures k <= m < j && n in ws[m].up.folder
    ensures Holds(ws[j].down.folder, ws[0].down.folder, n, ws[m].up.folder[n])
  {
    m := LastReadDown(ws, k, j, n);
    StartedIsKnown(ws[j].down, n);
    FinishedHolds(ws[0].down.folder, ws[j].down, n);
  }

  lemma DownloadStarts(ws: seq<World>, actions: seq<Action>, i: nat, j: nat, n: Name) returns (k: nat)
    requires Run(ws, actions) && i < j < |ws| && actions[i] == AskDownload(n)
    requires Free(n, '|') && |n| <= 980 && n in ws[i].up.locks && ws[j].up.queue == []
    requires n in ws[i].up.folder && ws[i].up.folder[n] != []
    ensures i < k < j && Started(ws[k + 1].down, n) != Started(ws[k].down, n)
  {
    AskQueues(ws[i], n);
    k := TakenUp(ws, actions, i + 1, |ws[i].up.queue|, j);
    MutexesStay(ws, actions, i);
    MutexesStay(ws, actions, k);
    StaysThere(ws, actions, i, k, n);
    DownloadTaken(ws[k], n, actions[k].sum);
  }

  /** Likewise a file that the server requests from the client. */
  lemma UploadArrives(ws: seq<World>, actions: seq<Action>, i: nat, j: nat, n: Name)
    requires Run(ws, actions) && i < j < |ws| && actions[i] == AskUpload(n)
    requires Free(n, '|') && |n| <= 980 && n in ws[i].up.locks && n in ws[i].down.locks
    requires ws[j].down.queue == [] && Under(UP, ws[j].up, n) == []
    requires forall k :: i < k < j ==> n in ws[k].sync && ws[k].sync[n] != []
    ensures exists m :: i < m < j && n in ws[m].sync
                     && Holds(ws[j].up.folder, ws[0].up.folder, n, ws[m].sync[n])
  {
    var k := UploadStarts(ws, actions, i, j, n);
    MutexesStay(ws, actions, i);
    MutexesStay(ws, actions, j);
    ReadsAlong(ws, actions, n);
    SettledWhenDrained(ws, actions, j, n);
    var m := UploadEnds(ws, k, j, n);
  }

  lemma UploadEnds(ws: seq<World>, k: nat, j: nat, n: Name) returns (m: nat)
    requires AllRead(ws, n) && k < j < |ws| && Started(ws[k + 1].up, n) != Started(ws[k].up, n)
    requires n in ws[j].up.locks && (n in ws[j].up.started ==> Outcome(ws[0].up.folder, ws[j].up, n))
    ensures k <= m < j && n in ws[m].sync
    ensures Holds(ws[j].up.folder, ws[0].up.folder, n, ws[m].sync[n])
  {
    m := LastReadUp(ws, k, j, n);
    StartedIsKnown(ws[j].up, n);
    FinishedHolds(ws[0].up.folder, ws[j].up, n);
  }

  lemma UploadStarts(ws: seq<World>, actions: seq<Action>, i: nat, j: nat, n: Name) returns (k: nat)
    requires Run(ws, actions) && i < j < |ws| && actions[i] == AskUpload(n)
    requires Free(n, '|') && |n| <= 980 && n in ws[i].down.locks && ws[j].down.queue == []
    requires forall k :: i < k < j ==> n in ws[k].sync && ws[k].sync[n] != []
    ensures i < k < j && Started(ws[k + 1].up, n) != Started(ws[k].up, n)
  {
    AskQueues(ws[i], n);
    k := TakenDown(ws, actions, i + 1, |ws[i].down.queue|, j);
    MutexesStay(ws, actions, i);
    MutexesStay(ws, actions, k);
    UploadTaken(ws[k], n, actions[k].sum);
  }

  // ----- the same over byte streams -----

  /** An action of a user is one of the run of whole packets, too, in the state that the byte session is
      in then. */
  lemma {:induction false} SameMoment(ss: seq<Session>, actions: seq<SessionAction>, i: nat, b: Action,
                                      ws: seq<World>, bs: seq<Action>)
    returns (k: nat)
    requires SessionRun(ss, actions) && i < |actions| && actions[i] == App(b)
    requires Mirrors(ss, ws, bs) && bs == Abstracted(actions)
    ensures k < |bs| && bs[k] == b && SameSources(ss[i], ws[k])
  {
    RunBegins(ss, actions, i);
    var vs, cs := RunRefines(ss[..i + 1], actions[..i]);
    AbstractedNext(actions, i, b);
    k := |cs|;
    Determined(ws, bs, vs, cs, k);
  }

  lemma {:induction false} AbstractedNext(actions: seq<SessionAction>, i: nat, b: Action)
    requires i < |actions| && actions[i] == App(b)
    ensures Abstracted(actions[..i]) + [b] <= Abstracted(actions)
  {
    AbstractedBegins(actions, i + 1);
    assert actions[..i + 1][..i] == actions[..i];
  }

  lemma {:induction false} RunBegins(ss: seq<Session>, actions: seq<SessionAction>, i: nat)
    requires SessionRun(ss, actions) && i <= |actions|
    ensures SessionRun(ss[..i + 1], actions[..i])
    decreases |actions|
  {
    if i == |actions| {
      assert ss[..i + 1] == ss && actions[..i] == actions;
    } else {
      var most := |actions| - 1;
      RunBegins(ss[..most + 1], actions[..most], i);
      assert ss[..most + 1][..i + 1] == ss[..i + 1] && actions[..most][..i] == actions[..i];
    }
  }

  lemma {:induction false} AbstractedBegins(actions: seq<SessionAction>, i: nat)
    requires i <= |actions|
    ensures Abstracted(actions[..i]) <= Abstracted(actions)
    decreases |actions|
  {
    if i < |actions| {
      AbstractedBegins(actions[..|actions| - 1], i);
      assert actions[..|actions| - 1][..i] == actions[..i];
    } else {
      assert actions[..i] == actions;
    }
  }

  /** A run of whole packets is determined by its first state and its actions. */
  lemma {:induction false} Determined(ws: seq<World>, bs: seq<Action>, vs: seq<World>, cs: seq<Action>, k: nat)
    requires Run(ws, bs) && Run(vs, cs) && ws[0] == vs[0] && cs <= bs && k <= |cs|
    ensures ws[k] == vs[k]
  {
    if k > 0 {
      Determined(ws, bs, vs, cs, k - 1);
      assert bs[k - 1] == cs[k - 1];
    }
  }

  lemma RestIsDrained(verb: string, l: Link, w: Wire, n: Name)
    requires l.loops == map[] && Idle(l.queue, w)
    ensures AbstractLink(l, w).queue == [] && Under(verb, AbstractLink(l, w), n) == []
  {
  }

  /** Whenever a session over byte streams is at rest, every download that was asked for in it is there:
      the client has what the server's folder held in some state of the session, if it was there when it
      was asked for. */
  lemma {:induction false} RestHasDownloads(ss: seq<Session>, actions: seq<SessionAction>, i: nat, n: Name)
    requires SessionRun(ss, actions) && i < |actions| && actions[i] == App(AskDownload(n)) && AtRest(ss[|actions|])
    requires Free(n, '|') && |n| <= 980 && n in ss[|actions|].base.up.locks && n in ss[|actions|].base.down.locks
    requires n in ss[i].base.up.folder && ss[i].base.up.folder[n] != []
    ensures exists s :: s in ss && n in s.base.up.folder
                     && Holds(ss[|actions|].base.down.folder, ss[0].base.down.folder, n, s.base.up.folder[n])
  {
    var ws, bs := RunRefines(ss, actions);
    var k := SameMoment(ss, actions, i, AskDownload(n), ws, bs);
    var last := ss[|actions|];
    RestIsDrained(UP, last.base.up, last.up, n);
    RestIsDrained(DOWN, last.base.down, last.down, n);
    MutexesStay(ws, bs, k);
    MutexesStay(ws, bs, |bs|);
    DownloadArrives(ws, bs, k, |bs|, n);
    var m :| k < m < |bs| && n in ws[m].up.folder
          && Holds(ws[|bs|].down.folder, ws[0].down.folder, n, ws[m].up.folder[n]);
    var s := SeenAs(ss, ws, m);
  }

  /** And every file that the server requested in it is there. */
  lemma {:induction false} RestHasUploads(ss: seq<Session>, actions: seq<SessionAction>, i: nat, n: Name)
    requires SessionRun(ss, actions) && i < |actions| && actions[i] == App(AskUpload(n)) && AtRest(ss[|actions|])
    requires Free(n, '|') && |n| <= 980 && n in ss[|actions|].base.up.locks && n in ss[|actions|].base.down.locks
    requires forall s :: s in ss ==> n in s.base.sync && s.base.sync[n] != []
    ensures exists s :: s in ss && n in s.base.sync
                     && Holds(ss[|actions|].base.up.folder, ss[0].base.up.folder, n, s.base.sync[n])
  {
    var ws, bs := RunRefines(ss, actions);
    var k := SameMoment(ss, actions, i, AskUpload(n), ws, bs);
    var last := ss[|actions|];
    RestIsDrained(UP, last.base.up, last.up, n);
    RestIsDrained(DOWN, last.base.down, last.down, n);
    MutexesStay(ws, bs, k);
    MutexesStay(ws, bs, |bs|);
    forall m | 0 <= m < |ws| ensures n in ws[m].sync && ws[m].sync[n] != [] {
      var s := SeenAs(ss, ws, m);
    }
    UploadArrives(ws, bs, k, |bs|, n);
    var m :| k < m < |bs| && n in ws[m].sync && Holds(ws[|bs|].up.folder, ws[0].up.folder, n, ws[m].sync[n]);
    var s := SeenAs(ss, ws, m);
  }

  lemma SeenAs(ss: seq<Session>, ws: seq<World>, m: nat) returns (s: Session)
    requires AllSeen(ss, ws) && m < |ws|
    ensures s in ss && SameSources(s, ws[m])
  {
    assert Seen(ss, ws[m]);
    var j :| 0 <= j < |ss| && SameSources(ss[j], ws[m]);
    s := ss[j];
  }
}
