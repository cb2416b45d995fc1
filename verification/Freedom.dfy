/** What can happen in a session at any time: the theorems about all runs speak of these. */
module Freedom {
  import opened Seqs
  import opened Codec
  import opened Chunking
  import opened Framing
  import opened Transfer
  import opened Link
  import opened World
  import opened Wire
  import opened Answers
  import opened Progress
  import opened Arrival

  /** The session with a packet of this command more in a buffer. */
  ghost predicate Asks(s: Session, t: Session, command: string, up: bool) {
    && t == s.(base := if up then s.base.(up := t.base.up) else s.base.(down := t.base.down))
    && if up then Queued(s.base.up, t.base.up, command) else Queued(s.base.down, t.base.down, command)
  }

  /** A session may begin with any folders, whatever temporary files are in them, and any mutexes. */
  lemma AnySessionMayBegin(s: Session)
    requires s.base.up.queue == [] && s.base.up.loops == map[] && s.base.up.started == map[]
    requires s.base.down.queue == [] && s.base.down.loops == map[] && s.base.down.started == map[]
    requires forall w :: w in [s.up, s.down] ==> w.sending == None && w.stream == [] && w.inbox == []
    ensures SessionRun([s], [])
  {
    assert s.up in [s.up, s.down] && s.down in [s.up, s.down];
  }

  ghost predicate CanBe(ss: seq<Session>, actions: seq<SessionAction>, t: Session) {
    exists a :: SessionRun(ss + [t], actions + [a])
  }

  lemma {:induction false} CanDo(ss: seq<Session>, actions: seq<SessionAction>, a: SessionAction)
    requires SessionRun(ss, actions) && SessionEnabled(ss[|actions|], a)
    ensures CanBe(ss, actions, SessionDo(ss[|actions|], a))
  {
    RunGoesOn(ss, actions, a);
  }

  /** At any time a file with a plain name may be asked for, in either direction. */
  lemma {:induction false} AnyoneMayAsk(ss: seq<Session>, actions: seq<SessionAction>, n: Name)
    requires SessionRun(ss, actions) && !IsTempPath(n) && Free(n, NUL) && |n| <= 1013
    ensures exists t :: CanBe(ss, actions, t) && Asks(ss[|actions|], t, "adownload|" + n, true)
    ensures exists t :: CanBe(ss, actions, t) && Asks(ss[|actions|], t, "sdownload|" + n, false)
  {
    var s := ss[|actions|];
    AskQueues(s.base, n);
    CanDo(ss, actions, App(AskDownload(n)));
    CanDo(ss, actions, App(AskUpload(n)));
    assert Asks(s, SessionDo(s, App(AskDownload(n))), "adownload|" + n, true);
    assert Asks(s, SessionDo(s, App(AskUpload(n))), "sdownload|" + n, false);
  }

  /** At any time any packet of no transfer and no deletion may be queued, in either direction. */
  lemma {:induction false} OthersMayCome(ss: seq<Session>, actions: seq<SessionAction>, p: Packet)
    requires SessionRun(ss, actions) && Valid(p)
    requires Split(p.command)[0] !in {"sdownload", "aupload", "adownload", "supload", "upload", "delete"}
    ensures var s := ss[|actions|];
            && CanBe(ss, actions, s.(base := s.base.(up := s.base.up.(queue := s.base.up.queue + [p]))))
            && CanBe(ss, actions, s.(base := s.base.(down := s.base.down.(queue := s.base.down.queue + [p]))))
  {
    Reasons();
    CanDo(ss, actions, App(OtherUp(p)));
    CanDo(ss, actions, App(OtherDown(p)));
  }

  /** The sender may begin with the front packet's frame, whatever the alignment bytes are, and takes the packet
      off its buffer when all of it is handed over. */
  lemma {:induction false} FrontMayGo(ss: seq<Session>, actions: seq<SessionAction>, pad: Bytes)
    requires SessionRun(ss, actions) && |pad| == 4
    ensures var s, q := ss[|actions|], ss[|actions|].base.up.queue;
            && (s.up.sending == None && q != [] && |q[0].command| <= 1023 ==>
                  CanBe(ss, actions, s.(up := s.up.(sending := Some(Frame(q[0], pad))))))
            && (s.up.sending == Some([]) && q != [] ==>
                  CanBe(ss, actions, s.(base := s.base.(up := s.base.up.(queue := q[1..])),
                                        up := s.up.(sending := None))))
    ensures var s, q := ss[|actions|], ss[|actions|].base.down.queue;
            && (s.down.sending == None && q != [] && |q[0].command| <= 1023 ==>
                  CanBe(ss, actions, s.(down := s.down.(sending := Some(Frame(q[0], pad))))))
            && (s.down.sending == Some([]) && q != [] ==>
                  CanBe(ss, actions, s.(base := s.base.(down := s.base.down.(queue := q[1..])),
                                        down := s.down.(sending := None))))
  {
    var s := ss[|actions|];
    if WireEnabled(s.base.up.queue, s.up, BeginSend(pad)) { CanDo(ss, actions, UpWire(BeginSend(pad))); }
    if WireEnabled(s.base.up.queue, s.up, EndSend) { CanDo(ss, actions, UpWire(EndSend)); }
    if WireEnabled(s.base.down.queue, s.down, BeginSend(pad)) { CanDo(ss, actions, DownWire(BeginSend(pad))); }
    if WireEnabled(s.base.down.queue, s.down, EndSend) { CanDo(ss, actions, DownWire(EndSend)); }
  }

  /** Any part of what is being sent may be handed over, and any part of what has arrived may be received, up
      to the end of the current packet. */
  lemma {:induction false} PartsMayMove(ss: seq<Session>, actions: seq<SessionAction>, k: nat)
    requires SessionRun(ss, actions) && k > 0
    ensures var s, w := ss[|actions|], ss[|actions|].up;
            && (w.sending.Some? && k <= |w.sending.value| ==>
                  CanBe(ss, actions,
                        s.(up := Wire(Some(w.sending.value[k..]), w.stream + w.sending.value[..k], w.inbox))))
            && (k <= |w.stream| && WithinPacket(|w.inbox| + k, w.inbox) ==>
                  CanBe(ss, actions, s.(up := Wire(w.sending, w.stream[k..], w.inbox + w.stream[..k]))))
    ensures var s, w := ss[|actions|], ss[|actions|].down;
            && (w.sending.Some? && k <= |w.sending.value| ==>
                  CanBe(ss, actions,
                        s.(down := Wire(Some(w.sending.value[k..]), w.stream + w.sending.value[..k], w.inbox))))
            && (k <= |w.stream| && WithinPacket(|w.inbox| + k, w.inbox) ==>
                  CanBe(ss, actions, s.(down := Wire(w.sending, w.stream[k..], w.inbox + w.stream[..k]))))
  {
    var s := ss[|actions|];
    if WireEnabled(s.base.up.queue, s.up, SendSome(k)) { CanDo(ss, actions, UpWire(SendSome(k))); }
    if WireEnabled(s.base.up.queue, s.up, RecvSome(k)) { CanDo(ss, actions, UpWire(RecvSome(k))); }
    if WireEnabled(s.base.down.queue, s.down, SendSome(k)) { CanDo(ss, actions, DownWire(SendSome(k))); }
    if WireEnabled(s.base.down.queue, s.down, RecvSome(k)) { CanDo(ss, actions, DownWire(RecvSome(k))); }
  }

  /** Not beyond the end of the header, nor, once it is there, of the payload whose size it gives. */
  predicate WithinPacket(size: nat, inbox: Bytes) {
    if |inbox| < 1048 then size <= 1048 else size <= 1048 + SizeOf(inbox)
  }

  // ----- the user's folder -----

  ghost function Differing(a: Folder, b: Folder): set<Name> {
    set n | n in a.Keys + b.Keys && !SameAt(a, b, n)
  }

  /** The session can go on to a state in which the user's folder is this one and all else as it is now. */
  ghost predicate FolderMayBe(ss: seq<Session>, actions: seq<SessionAction>, folder: Folder) {
    exists ts, all :: SessionRun(ts, all) && BecomesFolder(ss, actions, folder, ts, all)
  }

  ghost predicate BecomesFolder(ss: seq<Session>, actions: seq<SessionAction>, folder: Folder, ts: seq<Session>,
                                all: seq<SessionAction>) {
    && ss != [] && ss <= ts && actions <= all
    && var s := ss[|ss| - 1]; ts[|ts| - 1] == s.(base := s.base.(sync := folder))
  }

  /** The user can turn the synchronized folder into any other, and nothing else changes meanwhile. */
  lemma {:induction false} AnyFolderMayCome(ss: seq<Session>, actions: seq<SessionAction>, folder: Folder)
    requires SessionRun(ss, actions)
    ensures FolderMayBe(ss, actions, folder)
    decreases |Differing(ss[|actions|].base.sync, folder)|
  {
    LastState(ss, actions);
    var now := ss[|actions|].base.sync;
    if n :| n in Differing(now, folder) {
      FewerDiffer(now, folder, n);
      var a := App(Edit(n, if n in folder then Some(folder[n]) else None));
      RunGoesOn(ss, actions, a);
      AnyFolderMayCome(ss + [SessionDo(ss[|actions|], a)], actions + [a], folder);
      AfterEdit(ss, actions, a, folder);
    } else {
      NoneDiffers(now, folder);
      assert BecomesFolder(ss, actions, folder, ss, actions);
    }
  }

  lemma {:induction false} AfterEdit(ss: seq<Session>, actions: seq<SessionAction>, a: SessionAction, folder: Folder)
    requires |ss| == |actions| + 1 && a.App? && a.action.Edit?
    requires FolderMayBe(ss + [SessionDo(ss[|actions|], a)], actions + [a], folder)
    ensures FolderMayBe(ss, actions, folder)
  {
    var next := SessionDo(ss[|actions|], a);
    var ts, all :| SessionRun(ts, all) && BecomesFolder(ss + [next], actions + [a], folder, ts, all);
    assert BecomesFolder(ss, actions, folder, ts, all);
  }

  lemma FewerDiffer(now: Folder, folder: Folder, n: Name)
    requires n in Differing(now, folder)
    ensures |Differing(if n in folder then now[n := folder[n]] else now - {n}, folder)| < |Differing(now, folder)|
  {
    assert Differing(if n in folder then now[n := folder[n]] else now - {n}, folder) == Differing(now, folder) - {n};
  }

  lemma NoneDiffers(a: Folder, b: Folder)
    requires Differing(a, b) == {}
    ensures a == b
  {
    forall n ensures n in a <==> n in b ensures n in a ==> a[n] == b[n] {
      assert n !in Differing(a, b);
    }
  }

  // ----- files can come -----

  lemma {:induction false} LocksStay(ss: seq<Session>, actions: seq<SessionAction>, i: nat)
    requires SessionRun(ss, actions) && i <= |actions|
    ensures ss[i].base.up.locks == ss[0].base.up.locks && ss[i].base.down.locks == ss[0].base.down.locks
  {
    RunBegins(ss, actions, i);
    var ws, bs := RunRefines(ss[..i + 1], actions[..i]);
    MutexesStay(ws, bs, |bs|);
    assert ss[..i + 1][i] == ss[i] && ss[..i + 1][0] == ss[0];
  }

  /** The session has gone on to its rest, where the client has what the server's folder held. */
  ghost predicate Comes(ss: seq<Session>, ts: seq<Session>, n: Name) {
    && ss <= ts && ts != [] && ss != [] && AtRest(ts[|ts| - 1])
    && exists s :: s in ts && n in s.base.up.folder
                && Arrival.Holds(ts[|ts| - 1].base.down.folder, ss[0].base.down.folder, n, s.base.up.folder[n])
  }

  /** Someone has a file of more than 2^44 bytes. */
  ghost predicate HasLarge(s: Session) {
    exists n :: (n in s.base.sync && |s.base.sync[n]| > 0x1000_0000_0000)
             || (n in s.base.up.folder && |s.base.up.folder[n]| > 0x1000_0000_0000)
  }

  lemma TooMuchIsLarge(s: Session)
    requires AsksTooMuch(s)
    ensures HasLarge(s)
  {
    if Received(s.up) && AsksForLarge(ASK, s.base.up.folder, First(s.up.inbox)) {
      assert RequestName(ASK, First(s.up.inbox)).value in s.base.up.folder;
    } else {
      assert RequestName(UP, First(s.down.inbox)).value in s.base.sync;
    }
  }

  /** Any session can go on so that a file that the server has comes to the client, unless someone has a file of
      more than 2^44 bytes then. */
  lemma {:induction false} EveryFileCanCome(ss: seq<Session>, actions: seq<SessionAction>, n: Name)
    requires SessionRun(ss, actions) && !IsTempPath(n) && Free(n, NUL) && Free(n, '|') && |n| <= 980
    requires var s := ss[|actions|].base;
             n in s.up.folder && s.up.folder[n] != [] && n in s.up.locks && n in s.down.locks
    ensures exists ts, all :: SessionRun(ts, all) && ss <= ts && (Comes(ss, ts, n) || HasLarge(ts[|ts| - 1]))
  {
    var ts, all := AskedSettles(ss, actions, App(AskDownload(n)));
    if !HasLarge(ts[|ts| - 1]) { AskedComes(ss, ts, all, |actions|, n); }
  }

  lemma {:induction false} AskedComes(ss: seq<Session>, ts: seq<Session>, all: seq<SessionAction>, i: nat, n: Name)
    requires SessionRun(ts, all) && ss <= ts && |ss| == i + 1 && i < |all| && |ts| == |all| + 1
    requires all[i] == App(AskDownload(n)) && AtRest(ts[|ts| - 1]) && Free(n, '|') && |n| <= 980
    requires var s := ss[i].base; n in s.up.folder && s.up.folder[n] != [] && n in s.up.locks && n in s.down.locks
    ensures Comes(ss, ts, n)
  {
    LastState(ts, all);
    assert ts[0] == ss[0] && ts[i] == ss[i];
    LocksStay(ts, all, i);
    LocksStay(ts, all, |all|);
    RestHasDownloads(ts, all, i, n);
  }

  /** The session has gone on to its rest, where the server has what the client's folder held. */
  ghost predicate GoesUp(ss: seq<Session>, ts: seq<Session>, n: Name) {
    && ss <= ts && ts != [] && ss != [] && AtRest(ts[|ts| - 1])
    && exists s :: s in ts && n in s.base.sync
                && Arrival.Holds(ts[|ts| - 1].base.up.folder, ss[0].base.up.folder, n, s.base.sync[n])
  }

  /** Likewise a file that the client has had all the time goes to the server. */
  lemma {:induction false} EveryFileCanGoUp(ss: seq<Session>, actions: seq<SessionAction>, n: Name)
    requires SessionRun(ss, actions) && !IsTempPath(n) && Free(n, NUL) && Free(n, '|') && |n| <= 980
    requires forall s :: s in ss ==> n in s.base.sync && s.base.sync[n] != []
    requires var s := ss[|actions|].base; n in s.up.locks && n in s.down.locks
    ensures exists ts, all :: SessionRun(ts, all) && ss <= ts && (GoesUp(ss, ts, n) || HasLarge(ts[|ts| - 1]))
  {
    var ts, all := AskedSettles(ss, actions, App(AskUpload(n)));
    if !HasLarge(ts[|ts| - 1]) { AskedGoesUp(ss, ts, all, |actions|, n); }
  }

  lemma {:induction false} AskedGoesUp(ss: seq<Session>, ts: seq<Session>, all: seq<SessionAction>, i: nat, n: Name)
    requires SessionRun(ts, all) && ss <= ts && |ss| == i + 1 && i < |all| && |ts| == |all| + 1
    requires all[i] == App(AskUpload(n)) && AtRest(ts[|ts| - 1]) && Free(n, '|') && |n| <= 980
    requires forall k :: i < k < |all| ==> Forward(all[k])
    requires forall s :: s in ss ==> n in s.base.sync && s.base.sync[n] != []
    requires n in ss[i].base.up.locks && n in ss[i].base.down.locks
    ensures GoesUp(ss, ts, n)
  {
    assert ts[0] == ss[0] && ts[i] == ss[i];
    LocksStay(ts, all, i);
    LocksStay(ts, all, |all|);
    HadAllAlong(ss, ts, all, i, n);
    RestHasUploads(ts, all, i, n);
  }

  lemma {:induction false} HadAllAlong(ss: seq<Session>, ts: seq<Session>, all: seq<SessionAction>, i: nat, n: Name)
    requires SessionRun(ts, all) && ss <= ts && |ss| == i + 1 && i < |all| && |ts| == |all| + 1
    requires all[i] == App(AskUpload(n)) && forall k :: i < k < |all| ==> Forward(all[k])
    requires forall s :: s in ss ==> n in s.base.sync && s.base.sync[n] != []
    ensures forall s :: s in ts ==> n in s.base.sync && s.base.sync[n] != []
  {
    forall s | s in ts ensures n in s.base.sync && s.base.sync[n] != [] {
      var k :| 0 <= k < |ts| && ts[k] == s;
      if k <= i {
        assert s == ss[k];
      } else {
        SyncStays(ts, all, i, k);
        assert ts[i] == ss[i] && ss[i] in ss;
      }
    }
  }

  /** What the loops, threads and network do leaves the user's folder alone. */
  lemma {:induction false} SyncStays(ts: seq<Session>, all: seq<SessionAction>, i: nat, k: nat)
    requires SessionRun(ts, all) && i <= k <= |all|
    requires forall j :: i <= j < k ==> !(all[j].App? && all[j].action.Edit?)
    ensures ts[k].base.sync == ts[i].base.sync
    decreases k
  {
    if i < k {
      RunBegins(ts, all, k);
      assert ts[..k + 1][k] == ts[k] && ts[..k + 1][k - 1] == ts[k - 1] && all[..k][k - 1] == all[k - 1];
      SyncStays(ts, all, i, k - 1);
    }
  }

  /** A request goes out and the session goes on to its rest. */
  lemma {:induction false} AskedSettles(ss: seq<Session>, actions: seq<SessionAction>, ask: SessionAction)
    returns (ts: seq<Session>, all: seq<SessionAction>)
    requires SessionRun(ss, actions) && SessionEnabled(ss[|actions|], ask)
    ensures SessionRun(ts, all) && ss <= ts && |ts| == |all| + 1 && (AtRest(ts[|ts| - 1]) || HasLarge(ts[|ts| - 1]))
    ensures |ss| == |actions| + 1 && |actions| < |all| && all[|actions|] == ask
    ensures forall k :: |actions| < k < |all| ==> Forward(all[k])
  {
    RunGoesOn(ss, actions, ask);
    LastState(ss, actions);
    ts, all := GoesToRest(ss + [SessionDo(ss[|actions|], ask)], actions + [ask]);
  }

  lemma {:induction false} GoesToRest(ss: seq<Session>, actions: seq<SessionAction>)
    returns (ts: seq<Session>, all: seq<SessionAction>)
    requires SessionRun(ss, actions)
    ensures SessionRun(ts, all) && ss <= ts && actions <= all && |ts| == |all| + 1
    ensures AtRest(ts[|ts| - 1]) || HasLarge(ts[|ts| - 1])
    ensures forall k :: |actions| <= k < |all| ==> Forward(all[k])
  {
    EverySessionCanSettle(ss, actions);
    var more;
    ts, more :| Continues(ss, actions, ts, more)
      && (AllSettled(ss[0].base, ts[|ts| - 1]) || AsksTooMuch(ts[|ts| - 1]));
    all := actions + more;
    LastState(ts, all);
    if AsksTooMuch(ts[|ts| - 1]) { TooMuchIsLarge(ts[|ts| - 1]); }
  }
}
