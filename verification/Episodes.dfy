/** Sessions one after the other. A session may end at any point, whatever is under way then; the next
    one begins with the folders as they are. The client deletes its temporary files when it starts,
    the server never does. */
module Episodes {
  import opened Seqs
  import opened Codec
  import opened Chunking
  import opened Framing
  import opened Transfer
  import opened Link
  import opened World

  // ----- what an interruption leaves behind -----

  /** What is under way for `n` begins with the first packet of a transfer. */
  ghost predicate BetweenTransfers(verb: string, l: Link, n: Name) {
    exists k: nat :: k <= |Started(l, n)| && Under(verb, l, n) == Whole(verb, n, Started(l, n)[k..])
  }

  lemma {:induction false} WholeShrinks(verb: string, n: Name, ss: seq<Snapshot>, i: nat, j: nat)
    requires i <= j <= |ss|
    ensures |Whole(verb, n, ss[j..])| <= |Whole(verb, n, ss[i..])|
    decreases j - i
  {
    if i < j {
      WholeFrom(verb, n, ss, i);
      WholeShrinks(verb, n, ss, i + 1, j);
    }
  }

  lemma HeadNotEmpty(command: string, file: Bytes, d: nat)
    requires 0 < d <= |Packets(command, file)|
    ensures Flatten(Payloads(Packets(command, file)[..d])) != []
  {
    var pieces := Payloads(Packets(command, file)[..d]);
    ChunksCut(file, PAYLOAD);
    assert pieces[0] == Chunks(file, PAYLOAD)[0];
    assert Flatten(pieces) == pieces[0] + Flatten(pieces[1..]);
  }

  /** A session that began without temporary data of a name, at a receiver with a mutex for it, can be
      interrupted without leaving any exactly when it is between two transfers of that name. */
  lemma InterruptedClean(verb: string, init: Folder, l: Link, n: Name)
    requires Invariant(verb, init, l) && !IsTempPath(n) && n in l.locks && Leftover(init, n) == []
    ensures Leftover(l.folder, n) == [] <==> BetweenTransfers(verb, l, n)
  {
    if n in l.started {
      assert Placed(verb, init, l, n);
      var k: nat, d: nat :| Position(verb, init, l, n, k, d);
      InterruptedAt(verb, init, l, n, k, d);
    } else {
      Beginning(verb, init, l, n);
      InterruptedAt(verb, init, l, n, 0, 0);
    }
  }

  lemma InterruptedAt(verb: string, init: Folder, l: Link, n: Name, k: nat, d: nat)
    requires Position(verb, init, l, n, k, d) && Leftover(init, n) == []
    ensures Leftover(l.folder, n) == [] <==> BetweenTransfers(verb, l, n)
  {
    var ss := Started(l, n);
    if d == 0 {
      assert Whole(verb, n, ss[k..])[0..] == Whole(verb, n, ss[k..]);
    } else {
      HeadNotEmpty(DataCommand(verb, n, ss[k].sum), ss[k].content, d);
      InsideTransfer(verb, l, n, k, d);
    }
  }

  lemma InsideTransfer(verb: string, l: Link, n: Name, k: nat, d: nat)
    requires var ss := Started(l, n);
             && k < |ss| && 0 < d < |PacketsOf(verb, n, ss[k])| && d <= |Whole(verb, n, ss[k..])|
             && Under(verb, l, n) == Whole(verb, n, ss[k..])[d..]
    ensures !BetweenTransfers(verb, l, n)
  {
    var ss := Started(l, n);
    WholeFrom(verb, n, ss, k);
    forall j: nat | j <= |ss| ensures Under(verb, l, n) != Whole(verb, n, ss[j..]) {
      if j <= k { WholeShrinks(verb, n, ss, j, k); } else { WholeShrinks(verb, n, ss, k + 1, j); }
    }
  }

  // ----- chains of sessions -----

  datatype Episode = Episode(states: seq<World>, actions: seq<Action>)

  function First(e: Episode): World requires e.states != [] { e.states[0] }
  function Last(e: Episode): World requires e.states != [] { e.states[|e.states| - 1] }

  /** The server's folder is untouched between two sessions, the client's download folder keeps its
      plain files. What a user does with the synchronized folder, and which mutexes there are,
      is arbitrary. */
  ghost predicate Resumes(before: World, after: World) {
    && after.up.folder == before.up.folder
    && forall path :: !IsTempPath(path) ==> SameAt(after.down.folder, before.down.folder, path)
  }

  ghost predicate Chain(es: seq<Episode>) {
    && (forall i :: 0 <= i < |es| ==> Run(es[i].states, es[i].actions))
    && (forall i :: 0 <= i < |es| - 1 ==> Resumes(Last(es[i]), First(es[i + 1])))
  }

  /** A chain can go on from any state of its last session: with nothing under way, the server's folder and the
      plain files of the download folder as they were, and everything else arbitrary. */
  lemma ChainGoesOn(es: seq<Episode>, next: World)
    requires Chain(es) && es != []
    requires forall l :: l in [next.up, next.down] ==> l.queue == [] && l.loops == map[] && l.started == map[]
    requires next.up.folder == Last(es[|es| - 1]).up.folder
    requires forall path :: !IsTempPath(path) ==> SameAt(next.down.folder, Last(es[|es| - 1]).down.folder, path)
    ensures Chain(es + [Episode([next], [])])
  {
    var more := es + [Episode([next], [])];
    assert Run([next], []);
    forall i | 0 <= i < |more| - 1 ensures Resumes(Last(more[i]), First(more[i + 1])) {
      assert more[i] == es[i];
      if i + 1 < |es| { assert more[i + 1] == es[i + 1]; }
    }
  }

  /** In some session up to `i`, the client's (the server's) folder held this at some time. */
  ghost predicate EverAtClient(es: seq<Episode>, i: nat, n: Name, content: Bytes) {
    exists j, t :: 0 <= j <= i && j < |es| && 0 <= t < |es[j].states| && Shows(es[j].states[t].sync, n, content)
  }

  ghost predicate EverAtServer(es: seq<Episode>, i: nat, n: Name, content: Bytes) {
    exists j, t :: 0 <= j <= i && j < |es| && 0 <= t < |es[j].states| && Shows(es[j].states[t].up.folder, n, content)
  }

  /** At the beginning of every session up to `i` there was no temporary data of the name. */
  ghost predicate AlwaysClean(es: seq<Episode>, i: nat, n: Name) {
    forall j :: 0 <= j <= i && j < |es| && es[j].states != [] ==>
      Leftover(First(es[j]).up.folder, n) == [] && Leftover(First(es[j]).down.folder, n) == []
  }

  ghost predicate ShownAt(now: Folder, start: Folder, es: seq<Episode>, i: nat, path: string) {
    SameAt(now, start, path) || (path in now && EverAtClient(es, i, path, now[path]))
  }

  ghost predicate ShownBack(now: Folder, start: Folder, es: seq<Episode>, i: nat, path: string) {
    SameAt(now, start, path) || (path in now && EverAtServer(es, i, path, now[path]))
  }

  /** Over any chain of sessions, interrupted wherever they are: what the server shows under a plain
      name is what it showed at the very beginning or exactly what the client's folder held some
      time in some session, and likewise for the download folder and the server's, provided that
      every session began without temporary data of that name. */
  lemma {:induction false} ChainNeverPartial(es: seq<Episode>, i: nat, t: nat, path: string)
    requires Chain(es) && i < |es| && t < |es[i].states| && !IsTempPath(path) && AlwaysClean(es, i, path)
    ensures ShownAt(es[i].states[t].up.folder, First(es[0]).up.folder, es, i, path)
    ensures ShownBack(es[i].states[t].down.folder, First(es[0]).down.folder, es, i, path)
    decreases i
  {
    var e := es[i];
    NeverPartial(e.states, e.actions, t, path);
    WasInEpisode(es, i, t, path);
    if i > 0 {
      var before := es[i - 1];
      assert Resumes(Last(before), First(es[i - 1 + 1]));
      ChainNeverPartial(es, i - 1, |before.states| - 1, path);
      CarryOver(Last(before).up.folder, First(e).up.folder, First(es[0]).up.folder, es, i, path);
      CarryBack(Last(before).down.folder, First(e).down.folder, First(es[0]).down.folder, es, i, path);
    }
  }

  lemma CarryOver(last: Folder, next: Folder, start: Folder, es: seq<Episode>, i: nat, path: string)
    requires i > 0 && ShownAt(last, start, es, i - 1, path) && SameAt(next, last, path)
    ensures ShownAt(next, start, es, i, path)
  {
  }

  lemma CarryBack(last: Folder, next: Folder, start: Folder, es: seq<Episode>, i: nat, path: string)
    requires i > 0 && ShownBack(last, start, es, i - 1, path) && SameAt(next, last, path)
    ensures ShownBack(next, start, es, i, path)
  {
  }

  lemma WasInEpisode(es: seq<Episode>, i: nat, t: nat, path: string)
    requires i < |es|
    ensures forall content ::
      WasThere(SyncFolders(es[i].states), t, path, content) ==> EverAtClient(es, i, path, content)
    ensures forall content ::
      WasThere(ServerFolders(es[i].states), t, path, content) ==> EverAtServer(es, i, path, content)
  {
    var ws := es[i].states;
    forall content | WasThere(SyncFolders(ws), t, path, content) ensures EverAtClient(es, i, path, content) {
      var j :| 0 <= j < |ws| && Shows(SyncFolders(ws)[j], path, content);
      assert Shows(es[i].states[j].sync, path, content);
    }
    forall content | WasThere(ServerFolders(ws), t, path, content) ensures EverAtServer(es, i, path, content) {
      var j :| 0 <= j < |ws| && Shows(ServerFolders(ws)[j], path, content);
      assert Shows(es[i].states[j].up.folder, path, content);
    }
  }
}
