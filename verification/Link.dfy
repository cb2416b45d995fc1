/** One direction of a session: sender loops that push the packets of their files, in any
    interleaving and among other packets, into one first-in first-out queue, and the handler at
    the other end that reassembles the files in its folder. */
module Link {
  import opened Seqs
  import opened Codec
  import opened Chunking
  import opened Framing
  import opened Transfer

  /** A file as a sender loop read it under the file's mutex, and its checksum. */
  datatype Snapshot = Snapshot(content: Bytes, sum: string)

  datatype Link = Link(
    /** pushed and not yet delivered */
    queue: seq<Packet>,
    /** for every running sender loop, what it still has to push */
    loops: map<Name, seq<Packet>>,
    /** the receiving folder and the names it has mutexes for */
    folder: Folder, locks: set<Name>,
    /** history: the transfers started so far, by name and in order */
    started: map<Name, seq<Snapshot>>)

  const MAX_FILE: nat := 0x1000_0000_0000

  /** The name a packet carries data for, when the receiver dispatches it to its file handler. */
  function DataName(verb: string, p: Packet): Option<Name> {
    var tokens := Split(p.command);
    if |tokens| == 3 && tokens[0] == verb && tokens[2] != "fail" then Some(tokens[1]) else None
  }

  function Started(l: Link, n: Name): seq<Snapshot> {
    if n in l.started then l.started[n] else []
  }

  function Pending(l: Link, n: Name): seq<Packet> {
    if n in l.loops then l.loops[n] else []
  }

  function PacketsOf(verb: string, n: Name, s: Snapshot): seq<Packet> {
    Packets(DataCommand(verb, n, s.sum), s.content)
  }

  // ----- the steps -----

  /** A sender loop starts on a snapshot: an empty file has no packets, and a command that does
      not fit its field makes the first iteration fail. */
  function Start(verb: string, l: Link, n: Name, s: Snapshot): Link {
    if s.content == [] || |DataCommand(verb, n, s.sum)| >= COMMAND_FIELD then l
    else l.(loops := l.loops[n := PacketsOf(verb, n, s)], started := l.started[n := Started(l, n) + [s]])
  }

  /** One iteration of a running sender loop. */
  function PushNext(l: Link, n: Name): Link
    requires n in l.loops && l.loops[n] != []
  {
    l.(queue := l.queue + [l.loops[n][0]],
       loops := if |l.loops[n]| == 1 then l.loops - {n} else l.loops[n := l.loops[n][1..]])
  }

  function Push(l: Link, p: Packet): Link { l.(queue := l.queue + [p]) }

  /** The receiver's data handler: packets it does not take as data change nothing here. */
  function Land(verb: string, folder: Folder, locks: set<Name>, p: Packet): Folder {
    match DataName(verb, p)
    case None => folder
    case Some(n) => Reassemble(folder, locks, n, p)
  }

  function Receive(verb: string, l: Link, p: Packet): Link {
    l.(folder := Land(verb, l.folder, l.locks, p))
  }

  function Deliver(verb: string, l: Link): Link
    requires l.queue != []
  {
    Receive(verb, l.(queue := l.queue[1..]), l.queue[0])
  }

  // ----- the invariant -----

  /** The packets of a queue that carry data for `n`. */
  function Of(verb: string, n: Name, q: seq<Packet>): seq<Packet> {
    if q == [] then []
    else (if DataName(verb, q[0]) == Some(n) then [q[0]] else []) + Of(verb, n, q[1..])
  }

  /** The packets of a list of whole transfers. */
  function Whole(verb: string, n: Name, ss: seq<Snapshot>): seq<Packet> {
    if ss == [] then [] else PacketsOf(verb, n, ss[0]) + Whole(verb, n, ss[1..])
  }

  predicate Shows(folder: Folder, path: string, content: Bytes) {
    path in folder && folder[path] == content
  }

  ghost predicate GoodSnapshot(verb: string, n: Name, s: Snapshot) {
    && 0 < |s.content| <= MAX_FILE
    && Free(verb, BAR) && Free(n, BAR) && Free(s.sum, BAR) && s.sum != "fail"
    && |DataCommand(verb, n, s.sum)| < COMMAND_FIELD
  }

  predicate SameAt(a: Folder, b: Folder, path: string) {
    (path in a <==> path in b) && (path in a ==> a[path] == b[path])
  }

  /** The packets of `n` under way: in the queue, then in its sender loop. */
  function Under(verb: string, l: Link, n: Name): seq<Packet> {
    Of(verb, n, l.queue) + Pending(l, n)
  }

  /** What lay in the temporary file of `n` when the session began. */
  function Leftover(init: Folder, n: Name): Bytes { Contents(init, TempPath(n)) }

  /** What is in front of transfer `k` in the temporary file: the leftover, for the first one. */
  function Ahead(init: Folder, n: Name, k: nat): Bytes { if k == 0 then Leftover(init, n) else [] }

  /** What transfer `k` makes visible when it finishes. */
  function Shown(init: Folder, n: Name, ss: seq<Snapshot>, k: nat): Bytes
    requires k < |ss|
  {
    Ahead(init, n, k) + ss[k].content
  }

  /** What the folder holds for `n` after `k` finished transfers and `d` packets of the next. */
  ghost predicate Landed(verb: string, init: Folder, folder: Folder, ss: seq<Snapshot>, n: Name, k: nat, d: nat)
    requires k <= |ss| && (k < |ss| ==> d <= |PacketsOf(verb, n, ss[k])|) && (k == |ss| ==> d == 0)
  {
    && (k == 0 && d == 0 ==> SameAt(folder, init, TempPath(n)))
    && (k > 0 && d == 0 ==> TempPath(n) !in folder)
    && (d > 0 ==> TempPath(n) in folder)
    && (d > 0 ==> folder[TempPath(n)] == Ahead(init, n, k) + Flatten(Payloads(PacketsOf(verb, n, ss[k])[..d])))
    && (k == 0 ==> SameAt(folder, init, n))
    && (k > 0 ==> n in folder && folder[n] == Shown(init, n, ss, k - 1))
  }

  /** How far the transfers of `n` have come: `k` of them are finished, and `d` packets of the
      next one are delivered. What is under way are the other packets of that one and then
      whole transfers, the temporary file holds exactly the delivered head, and the file itself
      is the last finished snapshot; only the first transfer has the leftover in front of it. */
  ghost predicate Position(verb: string, init: Folder, l: Link, n: Name, k: nat, d: nat) {
    var ss := Started(l, n);
    && k <= |ss| && (if k < |ss| then d < |PacketsOf(verb, n, ss[k])| else d == 0)
    && Under(verb, l, n) == Whole(verb, n, ss[k..])[d..]
    && Landed(verb, init, l.folder, ss, n, k, d)
  }

  /** Without a mutex for `n` at the receiver no transfer of it ever finishes: of all its packets,
      `e` are delivered and their payloads pile up in the temporary file, while the file itself
      stays what it was. */
  ghost predicate Piled(verb: string, init: Folder, l: Link, n: Name, e: nat) {
    var all := Whole(verb, n, Started(l, n));
    && e <= |all| && Under(verb, l, n) == all[e..]
    && (e == 0 ==> SameAt(l.folder, init, TempPath(n)))
    && (e > 0 ==> Shows(l.folder, TempPath(n), Leftover(init, n) + Flatten(Payloads(all[..e]))))
    && SameAt(l.folder, init, n)
  }

  ghost predicate Placed(verb: string, init: Folder, l: Link, n: Name) {
    if n in l.locks then exists k: nat, d: nat :: Position(verb, init, l, n, k, d)
    else exists e: nat :: Piled(verb, init, l, n, e)
  }

  /** Only plain names are transferred, and only their packets are about. */
  ghost predicate Shape(verb: string, l: Link) {
    && (forall n :: n in l.started ==> !IsTempPath(n) && l.started[n] != [])
    && (forall n, i :: n in l.started && 0 <= i < |l.started[n]| ==> GoodSnapshot(verb, n, l.started[n][i]))
    && (forall n :: n in l.loops ==> n in l.started && l.loops[n] != [])
    && (forall n, p :: n in l.loops && p in l.loops[n] ==> DataName(verb, p) == Some(n))
    && (forall p, n :: p in l.queue && DataName(verb, p) == Some(n) ==> n in l.started)
  }

  ghost predicate Framed(init: Folder, l: Link) {
    forall path :: Untouched(l, path) ==> SameAt(l.folder, init, path)
  }

  ghost predicate Invariant(verb: string, init: Folder, l: Link) {
    && Shape(verb, l)
    && Framed(init, l)
    && (forall n :: n in l.started ==> Placed(verb, init, l, n))
  }

  /** No transfer writes to `path`, neither as a file nor as a temporary file. */
  ghost predicate Untouched(l: Link, path: string) {
    path !in l.started && forall n :: n in l.started ==> path != TempPath(n)
  }

  // ----- lemmas on queues -----

  lemma {:induction false} OfConcat(verb: string, n: Name, a: seq<Packet>, b: seq<Packet>)
    ensures Of(verb, n, a + b) == Of(verb, n, a) + Of(verb, n, b)
  {
    if a == [] {
      assert a + b == b;
    } else {
      OfConcat(verb, n, a[1..], b);
      assert (a + b)[1..] == a[1..] + b;
      Associate(if DataName(verb, a[0]) == Some(n) then [a[0]] else [], Of(verb, n, a[1..]), Of(verb, n, b));
    }
  }

  lemma OfTail(verb: string, n: Name, q: seq<Packet>)
    requires q != []
    ensures DataName(verb, q[0]) == Some(n) ==> Of(verb, n, q) == [q[0]] + Of(verb, n, q[1..])
    ensures DataName(verb, q[0]) != Some(n) ==> Of(verb, n, q) == Of(verb, n, q[1..])
  {
  }

  lemma OfOne(verb: string, n: Name, p: Packet)
    ensures Of(verb, n, [p]) == if DataName(verb, p) == Some(n) then [p] else []
  {
    assert [p][1..] == [];
  }

  lemma {:induction false} OfNothing(verb: string, n: Name, q: seq<Packet>)
    requires forall p :: p in q ==> DataName(verb, p) != Some(n)
    ensures Of(verb, n, q) == []
  {
    if q != [] { OfNothing(verb, n, q[1..]); }
  }

  lemma {:induction false} WholeConcat(verb: string, n: Name, a: seq<Snapshot>, b: seq<Snapshot>)
    ensures Whole(verb, n, a + b) == Whole(verb, n, a) + Whole(verb, n, b)
  {
    if a == [] {
      assert a + b == b;
    } else {
      WholeConcat(verb, n, a[1..], b);
      assert (a + b)[1..] == a[1..] + b;
      Associate(PacketsOf(verb, n, a[0]), Whole(verb, n, a[1..]), Whole(verb, n, b));
    }
  }

  lemma WholeFrom(verb: string, n: Name, ss: seq<Snapshot>, k: nat)
    requires k < |ss|
    ensures Whole(verb, n, ss[k..]) == PacketsOf(verb, n, ss[k]) + Whole(verb, n, ss[k + 1..])
  {
    assert ss[k..][1..] == ss[k + 1..];
  }

  lemma PacketsCarryName(verb: string, n: Name, s: Snapshot)
    requires GoodSnapshot(verb, n, s)
    ensures PacketsOf(verb, n, s) != []
    ensures forall p :: p in PacketsOf(verb, n, s) ==> DataName(verb, p) == Some(n)
  {
    SplitOfJoin([verb, n, s.sum]);
    assert Chunks(s.content, PAYLOAD) != [];
  }

  // ----- one lemma for each step: what it does to the position of a name -----

  lemma StartUnder(verb: string, l: Link, n: Name, s: Snapshot, k: nat, d: nat)
    requires n !in l.loops && k <= |Started(l, n)| && d <= |Whole(verb, n, Started(l, n)[k..])|
    requires Under(verb, l, n) == Whole(verb, n, Started(l, n)[k..])[d..]
    requires s.content != [] && |DataCommand(verb, n, s.sum)| < COMMAND_FIELD
    ensures var after := Start(verb, l, n, s);
            && d <= |Whole(verb, n, Started(after, n)[k..])|
            && Under(verb, after, n) == Whole(verb, n, Started(after, n)[k..])[d..]
  {
    var ss, more := Started(l, n), PacketsOf(verb, n, s);
    var now := Whole(verb, n, ss[k..]);
    assert (ss + [s])[k..] == ss[k..] + [s];
    WholeConcat(verb, n, ss[k..], [s]);
    assert [s][1..] == [];
    assert Whole(verb, n, [s]) == more;
    DropConcat(now, more, d);
    assert Under(verb, l, n) == Of(verb, n, l.queue);
  }

  lemma StartPosition(verb: string, init: Folder, l: Link, n: Name, s: Snapshot, k: nat, d: nat)
    requires Position(verb, init, l, n, k, d)
    requires n !in l.loops && GoodSnapshot(verb, n, s)
    ensures Position(verb, init, Start(verb, l, n, s), n, k, d)
  {
    var ss := Started(l, n);
    if k < |ss| {
      WholeFrom(verb, n, ss, k);
    } else {
      PacketsCarryName(verb, n, s);
    }
    StartUnder(verb, l, n, s, k, d);
    LandedMore(verb, init, l.folder, ss, s, n, k, d);
  }

  /** Another transfer after the ones so far changes nothing for them. */
  lemma LandedMore(verb: string, init: Folder, folder: Folder, ss: seq<Snapshot>, s: Snapshot, n: Name, k: nat, d: nat)
    requires k <= |ss| && (if k < |ss| then d < |PacketsOf(verb, n, ss[k])| else d == 0)
    requires Landed(verb, init, folder, ss, n, k, d)
    ensures k < |ss| ==> (ss + [s])[k] == ss[k]
    ensures Landed(verb, init, folder, ss + [s], n, k, d)
  {
    assert k > 0 ==> (ss + [s])[k - 1] == ss[k - 1];
  }

  lemma StartPiled(verb: string, init: Folder, l: Link, n: Name, s: Snapshot, e: nat)
    requires Piled(verb, init, l, n, e)
    requires n !in l.loops && GoodSnapshot(verb, n, s)
    ensures Piled(verb, init, Start(verb, l, n, s), n, e)
  {
    var ss, more := Started(l, n), PacketsOf(verb, n, s);
    var all := Whole(verb, n, ss);
    WholeConcat(verb, n, ss, [s]);
    assert [s][1..] == [] && Whole(verb, n, [s]) == more;
    DropConcat(all, more, e);
    assert (all + more)[..e] == all[..e];
    assert Under(verb, l, n) == Of(verb, n, l.queue);
  }

  lemma PushUnder(verb: string, l: Link, n: Name, p: Packet)
    requires DataName(verb, p) != Some(n)
    ensures Under(verb, Push(l, p), n) == Under(verb, l, n)
  {
    OfConcat(verb, n, l.queue, [p]);
    OfOne(verb, n, p);
  }

  /** Moving a packet from its loop to the queue changes nothing in what is under way. */
  lemma PushNextUnder(verb: string, l: Link, n: Name, m: Name)
    requires m in l.loops && l.loops[m] != [] && DataName(verb, l.loops[m][0]) == Some(m)
    ensures Under(verb, PushNext(l, m), n) == Under(verb, l, n)
  {
    var p, rest, after := l.loops[m][0], l.loops[m][1..], PushNext(l, m);
    OfConcat(verb, n, l.queue, [p]);
    OfOne(verb, n, p);
    if m == n {
      assert l.loops[m] == [p] + rest;
      assert Pending(after, n) == rest;
      Associate(Of(verb, n, l.queue), [p], rest);
    }
  }

  lemma ReassembleElsewhere(folder: Folder, locks: set<Name>, m: Name, p: Packet, path: string)
    requires path != m && path != TempPath(m)
    ensures SameAt(Reassemble(folder, locks, m, p), folder, path)
  {
  }

  /** Delivering a packet of another name. */
  lemma DeliverElsewhere(verb: string, init: Folder, l: Link, n: Name, k: nat, d: nat)
    requires Position(verb, init, l, n, k, d)
    requires l.queue != [] && DataName(verb, l.queue[0]) != Some(n) && !IsTempPath(n)
    requires var m := DataName(verb, l.queue[0]); m.Some? ==> !IsTempPath(m.value)
    ensures Position(verb, init, Deliver(verb, l), n, k, d)
  {
    var m := DataName(verb, l.queue[0]);
    OfTail(verb, n, l.queue);
    if m.Some? {
      TempPaths(n, m.value);
      TempPaths(m.value, n);
      ReassembleElsewhere(l.folder, l.locks, m.value, l.queue[0], n);
      ReassembleElsewhere(l.folder, l.locks, m.value, l.queue[0], TempPath(n));
    }
  }

  lemma DeliverElsewherePiled(verb: string, init: Folder, l: Link, n: Name, e: nat)
    requires Piled(verb, init, l, n, e)
    requires l.queue != [] && DataName(verb, l.queue[0]) != Some(n) && !IsTempPath(n)
    requires var m := DataName(verb, l.queue[0]); m.Some? ==> !IsTempPath(m.value)
    ensures Piled(verb, init, Deliver(verb, l), n, e)
  {
    var m := DataName(verb, l.queue[0]);
    OfTail(verb, n, l.queue);
    if m.Some? {
      TempPaths(n, m.value);
      TempPaths(m.value, n);
      ReassembleElsewhere(l.folder, l.locks, m.value, l.queue[0], n);
      ReassembleElsewhere(l.folder, l.locks, m.value, l.queue[0], TempPath(n));
    }
  }

  /** A packet of `n` arrives where there is no mutex for it: it goes on the pile. */
  lemma DeliverPiled(verb: string, init: Folder, l: Link, n: Name, e: nat)
    requires Piled(verb, init, l, n, e) && n !in l.locks
    requires l.queue != [] && DataName(verb, l.queue[0]) == Some(n)
    ensures Piled(verb, init, Deliver(verb, l), n, e + 1)
    ensures SameAt(Deliver(verb, l).folder, l.folder, n)
  {
    var all, p := Whole(verb, n, Started(l, n)), l.queue[0];
    OfTail(verb, n, l.queue);
    Associate([p], Of(verb, n, l.queue[1..]), Pending(l, n));
    HeadOfDrop(all, e, p, Under(verb, l.(queue := l.queue[1..]), n));
    TempPaths(n, n);
    NothingYet(Leftover(init, n), all);
    AppendedHead(l.folder, n, Leftover(init, n), all, e);
  }

  /** The next packet for `n` is packet `d` of transfer `k`. */
  lemma NextPacket(verb: string, init: Folder, l: Link, n: Name, k: nat, d: nat)
    requires Position(verb, init, l, n, k, d)
    requires l.queue != [] && DataName(verb, l.queue[0]) == Some(n)
    ensures k < |Started(l, n)| && PacketsOf(verb, n, Started(l, n)[k])[d] == l.queue[0]
    ensures Under(verb, l.(queue := l.queue[1..]), n) == Whole(verb, n, Started(l, n)[k..])[d + 1..]
  {
    var ss, p := Started(l, n), l.queue[0];
    OfTail(verb, n, l.queue);
    Associate([p], Of(verb, n, l.queue[1..]), Pending(l, n));
    HeadOfDrop(Whole(verb, n, ss[k..]), d, p, Under(verb, l.(queue := l.queue[1..]), n));
    if k < |ss| { WholeFrom(verb, n, ss, k); }
  }

  lemma HeadOfDrop(whole: seq<Packet>, d: nat, p: Packet, rest: seq<Packet>)
    requires d <= |whole| && whole[d..] == [p] + rest
    ensures d < |whole| && whole[d] == p && whole[d + 1..] == rest
  {
    assert |whole[d..]| == 1 + |rest|;
    assert whole[d..][0] == p && whole[d..][1..] == rest;
  }

  /** Appending packet `d` of a snapshot to what its predecessors left. */
  lemma AppendedHead(folder: Folder, n: Name, ahead: Bytes, ps: seq<Packet>, d: nat)
    requires d < |ps|
    requires Contents(folder, TempPath(n)) == ahead + Flatten(Payloads(ps[..d]))
    ensures Append(folder, TempPath(n), ps[d].payload)[TempPath(n)] == ahead + Flatten(Payloads(ps[..d + 1]))
  {
    assert Payloads(ps[..d + 1]) == Payloads(ps[..d]) + [ps[d].payload];
    FlattenSnoc(Payloads(ps[..d]), ps[d].payload);
    Associate(ahead, Flatten(Payloads(ps[..d])), ps[d].payload);
  }

  /** Before its first packet a transfer has nothing in the temporary file but what is ahead of it. */
  lemma NothingYet(ahead: Bytes, ps: seq<Packet>)
    ensures ahead == ahead + Flatten(Payloads(ps[..0]))
  {
    assert Payloads(ps[..0]) == [];
  }

  lemma DeliverInside(verb: string, init: Folder, l: Link, n: Name, k: nat, d: nat)
    requires Position(verb, init, l, n, k, d) && n in l.locks
    requires l.queue != [] && DataName(verb, l.queue[0]) == Some(n)
    requires k < |Started(l, n)| && d + 1 < |PacketsOf(verb, n, Started(l, n)[k])|
    requires GoodSnapshot(verb, n, Started(l, n)[k])
    ensures !IsLast(l.queue[0])
    ensures Position(verb, init, Deliver(verb, l), n, k, d + 1)
  {
    var s := Started(l, n)[k];
    var ps := PacketsOf(verb, n, s);
    NextPacket(verb, init, l, n, k, d);
    OneLastPacket(DataCommand(verb, n, s.sum), s.content, d);
    TempPaths(n, n);
    NothingYet(Ahead(init, n, k), ps);
    AppendedHead(l.folder, n, Ahead(init, n, k), ps, d);
  }

  lemma DeliverLast(verb: string, init: Folder, l: Link, n: Name, k: nat, d: nat)
    requires Position(verb, init, l, n, k, d) && n in l.locks
    requires l.queue != [] && DataName(verb, l.queue[0]) == Some(n)
    requires k < |Started(l, n)| && d + 1 == |PacketsOf(verb, n, Started(l, n)[k])|
    requires forall i :: 0 <= i < |Started(l, n)| ==> GoodSnapshot(verb, n, Started(l, n)[i])
    ensures IsLast(l.queue[0])
    ensures Position(verb, init, Deliver(verb, l), n, k + 1, 0)
    ensures Shows(Deliver(verb, l).folder, n, Shown(init, n, Started(l, n), k))
  {
    var ss, p := Started(l, n), l.queue[0];
    var s := ss[k];
    NextPacket(verb, init, l, n, k, d);
    OneLastPacket(DataCommand(verb, n, s.sum), s.content, d);
    LastLands(verb, init, l.folder, l.locks, ss, n, k, d);
    WholeFrom(verb, n, ss, k);
    assert Whole(verb, n, ss[k..])[d + 1..] == Whole(verb, n, ss[k + 1..]);
    assert Whole(verb, n, ss[k + 1..])[0..] == Whole(verb, n, ss[k + 1..]);
    if k + 1 < |ss| { PacketsCarryName(verb, n, ss[k + 1]); }
  }

  /** What the last packet of transfer `k` does to the folder. */
  lemma LastLands(verb: string, init: Folder, folder: Folder, locks: set<Name>, ss: seq<Snapshot>, n: Name, k: nat,
                  d: nat)
    requires k < |ss| && d + 1 == |PacketsOf(verb, n, ss[k])| && n in locks && GoodSnapshot(verb, n, ss[k])
    requires Landed(verb, init, folder, ss, n, k, d)
    requires IsLast(PacketsOf(verb, n, ss[k])[d])
    ensures var after := Reassemble(folder, locks, n, PacketsOf(verb, n, ss[k])[d]);
            Shows(after, n, Shown(init, n, ss, k)) && TempPath(n) !in after
  {
    var s := ss[k];
    TempPaths(n, n);
    NothingYet(Ahead(init, n, k), PacketsOf(verb, n, s));
    LastContent(folder, n, Ahead(init, n, k), DataCommand(verb, n, s.sum), s.content);
  }

  /** The delivered head and the last payload make up the file. */
  lemma LastContent(folder: Folder, n: Name, ahead: Bytes, command: string, file: Bytes)
    requires file != []
    requires var ps := Packets(command, file);
             Contents(folder, TempPath(n)) == ahead + Flatten(Payloads(ps[..|ps| - 1]))
    ensures var ps := Packets(command, file);
            Contents(folder, TempPath(n)) + ps[|ps| - 1].payload == ahead + file
  {
    var ps := Packets(command, file);
    var d := |ps| - 1;
    assert Payloads(ps) == Payloads(ps[..d]) + [ps[d].payload];
    FlattenSnoc(Payloads(ps[..d]), ps[d].payload);
    ChunksCut(file, PAYLOAD);
    Associate(ahead, Flatten(Payloads(ps[..d])), ps[d].payload);
  }

  // ----- every step keeps the invariant -----

  /** Before its first transfer a name is at the very beginning. */
  lemma Beginning(verb: string, init: Folder, l: Link, n: Name)
    requires Invariant(verb, init, l) && n !in l.started && !IsTempPath(n)
    ensures Position(verb, init, l, n, 0, 0) && Piled(verb, init, l, n, 0)
  {
    OfNothing(verb, n, l.queue);
    forall m | m in l.started ensures TempPath(n) != TempPath(m) && n != TempPath(m) {
      TempPaths(n, m);
      TempPaths(m, n);
    }
    TempPaths(n, n);
    assert Untouched(l, n) && Untouched(l, TempPath(n));
  }

  lemma StartPlaced(verb: string, init: Folder, l: Link, n: Name, s: Snapshot, m: Name)
    requires Invariant(verb, init, l) && n !in l.loops && !IsTempPath(n)
    requires GoodSnapshot(verb, n, s) && m in Start(verb, l, n, s).started
    ensures Placed(verb, init, Start(verb, l, n, s), m)
  {
    if n == m && n !in l.started {
      Beginning(verb, init, l, n);
      StartPosition(verb, init, l, n, s, 0, 0);
      StartPiled(verb, init, l, n, s, 0);
    } else if n == m {
      assert Placed(verb, init, l, n);
      if n in l.locks {
        var k: nat, d: nat :| Position(verb, init, l, n, k, d);
        StartPosition(verb, init, l, n, s, k, d);
      } else {
        var e: nat :| Piled(verb, init, l, n, e);
        StartPiled(verb, init, l, n, s, e);
      }
    } else {
      SamePlace(verb, init, l, Start(verb, l, n, s), m);
    }
  }

  lemma StartShape(verb: string, l: Link, n: Name, s: Snapshot)
    requires Shape(verb, l) && n !in l.loops && !IsTempPath(n)
    requires GoodSnapshot(verb, n, s)
    ensures Shape(verb, Start(verb, l, n, s))
  {
    PacketsCarryName(verb, n, s);
  }

  lemma FrameShrinks(init: Folder, l: Link, after: Link)
    requires Framed(init, l) && l.started.Keys <= after.started.Keys
    requires forall path :: Untouched(l, path) ==> SameAt(after.folder, l.folder, path)
    ensures Framed(init, after)
  {
    forall path | Untouched(after, path) ensures SameAt(after.folder, init, path) {
      assert Untouched(l, path);
    }
  }

  lemma StartKeeps(verb: string, init: Folder, l: Link, n: Name, s: Snapshot)
    requires Invariant(verb, init, l) && n !in l.loops && !IsTempPath(n)
    requires s.content != [] && |DataCommand(verb, n, s.sum)| < COMMAND_FIELD ==> GoodSnapshot(verb, n, s)
    ensures Invariant(verb, init, Start(verb, l, n, s))
  {
    if s.content != [] && |DataCommand(verb, n, s.sum)| < COMMAND_FIELD {
      forall m | m in Start(verb, l, n, s).started ensures Placed(verb, init, Start(verb, l, n, s), m) {
        StartPlaced(verb, init, l, n, s, m);
      }
      StartShape(verb, l, n, s);
      FrameShrinks(init, l, Start(verb, l, n, s));
    }
  }

  lemma SamePlace(verb: string, init: Folder, l: Link, after: Link, n: Name)
    requires Placed(verb, init, l, n)
    requires Under(verb, after, n) == Under(verb, l, n)
    requires after.folder == l.folder && after.locks == l.locks && Started(after, n) == Started(l, n)
    ensures Placed(verb, init, after, n)
  {
    if n in l.locks {
      var k: nat, d: nat :| Position(verb, init, l, n, k, d);
      assert Position(verb, init, after, n, k, d);
    } else {
      var e: nat :| Piled(verb, init, l, n, e);
      assert Piled(verb, init, after, n, e);
    }
  }

  lemma PushNextShape(verb: string, l: Link, m: Name)
    requires Shape(verb, l) && m in l.loops
    ensures DataName(verb, l.loops[m][0]) == Some(m)
    ensures Shape(verb, PushNext(l, m))
  {
    var p, rest, after := l.loops[m][0], l.loops[m][1..], PushNext(l, m);
    assert p in l.loops[m] && forall q :: q in rest ==> q in l.loops[m];
    assert forall n :: n in after.loops ==> n in l.loops && after.loops[n] != [];
    assert forall n, q :: n in after.loops && q in after.loops[n] ==> q in l.loops[n];
  }

  lemma PushNextKeeps(verb: string, init: Folder, l: Link, m: Name)
    requires Invariant(verb, init, l) && m in l.loops
    ensures Invariant(verb, init, PushNext(l, m))
  {
    PushNextShape(verb, l, m);
    forall n | n in l.started ensures Placed(verb, init, PushNext(l, m), n) {
      PushNextUnder(verb, l, n, m);
      SamePlace(verb, init, l, PushNext(l, m), n);
    }
    FrameShrinks(init, l, PushNext(l, m));
  }

  lemma PushKeeps(verb: string, init: Folder, l: Link, p: Packet)
    requires Invariant(verb, init, l) && DataName(verb, p) == None
    ensures Invariant(verb, init, Push(l, p))
  {
    forall n | n in l.started ensures Placed(verb, init, Push(l, p), n) {
      PushUnder(verb, l, n, p);
      SamePlace(verb, init, l, Push(l, p), n);
    }
    FrameShrinks(init, l, Push(l, p));
  }

  lemma DeliverPlaced(verb: string, init: Folder, l: Link, n: Name)
    requires Shape(verb, l) && l.queue != [] && n in l.started && Placed(verb, init, l, n)
    ensures Placed(verb, init, Deliver(verb, l), n)
  {
    if n in l.locks {
      var k: nat, d: nat :| Position(verb, init, l, n, k, d);
      DeliverPosition(verb, init, l, n, k, d);
    } else {
      var e: nat :| Piled(verb, init, l, n, e);
      if DataName(verb, l.queue[0]) == Some(n) {
        DeliverPiled(verb, init, l, n, e);
      } else {
        DeliverElsewherePiled(verb, init, l, n, e);
      }
    }
  }

  lemma DeliverPosition(verb: string, init: Folder, l: Link, n: Name, k: nat, d: nat)
    requires Shape(verb, l) && l.queue != [] && n in l.started && n in l.locks
    requires Position(verb, init, l, n, k, d)
    ensures exists k': nat, d': nat :: Position(verb, init, Deliver(verb, l), n, k', d')
  {
    if DataName(verb, l.queue[0]) != Some(n) {
      DeliverElsewhere(verb, init, l, n, k, d);
    } else {
      NextPacket(verb, init, l, n, k, d);
      if d + 1 < |PacketsOf(verb, n, Started(l, n)[k])| {
        DeliverInside(verb, init, l, n, k, d);
      } else {
        DeliverLast(verb, init, l, n, k, d);
      }
    }
  }

  lemma DeliverKeeps(verb: string, init: Folder, l: Link)
    requires Invariant(verb, init, l) && l.queue != []
    ensures Invariant(verb, init, Deliver(verb, l))
  {
    forall n | n in l.started ensures Placed(verb, init, Deliver(verb, l), n) {
      DeliverPlaced(verb, init, l, n);
    }
    forall path | Untouched(l, path) ensures SameAt(Deliver(verb, l).folder, l.folder, path) {
      var m := DataName(verb, l.queue[0]);
      if m.Some? {
        ReassembleElsewhere(l.folder, l.locks, m.value, l.queue[0], path);
      }
    }
    FrameShrinks(init, l, Deliver(verb, l));
  }

  // ----- what the invariant means -----

  /** The receiver holds the last snapshot of `n`, and nothing temporary. */
  ghost predicate Settled(l: Link, n: Name) {
    var ss := Started(l, n);
    ss != [] && n in l.folder && l.folder[n] == ss[|ss| - 1].content && TempPath(n) !in l.folder
  }

  lemma MoreToCome(verb: string, n: Name, ss: seq<Snapshot>, k: nat, d: nat)
    requires k <= |ss| && (k < |ss| ==> d < |PacketsOf(verb, n, ss[k])|)
    ensures k < |ss| ==> |Whole(verb, n, ss[k..])| > d && Whole(verb, n, ss[k..])[d..] != []
  {
    if k < |ss| { WholeFrom(verb, n, ss, k); }
  }

  /** Every transfer has packets. */
  lemma WholeIsSomething(verb: string, n: Name, ss: seq<Snapshot>)
    requires ss != [] && GoodSnapshot(verb, n, ss[0])
    ensures Whole(verb, n, ss) != []
  {
    PacketsCarryName(verb, n, ss[0]);
  }

  lemma {:induction false} WholeContents(verb: string, n: Name, ss: seq<Snapshot>)
    ensures Flatten(Payloads(Whole(verb, n, ss))) == Flatten(ContentsOf(ss))
  {
    if ss == [] {
      assert Payloads(Whole(verb, n, ss)) == [] && ContentsOf(ss) == [];
    } else {
      var first, rest := PacketsOf(verb, n, ss[0]), Whole(verb, n, ss[1..]);
      WholeContents(verb, n, ss[1..]);
      assert Payloads(first + rest) == Payloads(first) + Payloads(rest);
      FlattenConcat(Payloads(first), Payloads(rest));
      ChunksCut(ss[0].content, PAYLOAD);
      assert ContentsOf(ss)[1..] == ContentsOf(ss[1..]);
    }
  }

  function ContentsOf(ss: seq<Snapshot>): seq<Bytes> {
    seq(|ss|, i requires 0 <= i < |ss| => ss[i].content)
  }

  /** All transfers of `n` are stuck: the temporary file holds the leftover and their contents one
      behind the other, and the file itself is as it was. */
  ghost predicate Stuck(init: Folder, l: Link, n: Name) {
    && Shows(l.folder, TempPath(n), Leftover(init, n) + Flatten(ContentsOf(Started(l, n))))
    && SameAt(l.folder, init, n)
  }

  /** All transfers of `n` are finished: there is no temporary file, and the file is what the last of
      them made visible, that is its snapshot, behind the leftover if it was the first one. */
  ghost predicate Finished(init: Folder, l: Link, n: Name) {
    var ss := Started(l, n);
    ss != [] && Shows(l.folder, n, Shown(init, n, ss, |ss| - 1)) && TempPath(n) !in l.folder
  }

  /** The transfers of `n` end with its last snapshot: there is a mutex for it, and it had no temporary
      data when the session began or was transferred more than once since. */
  ghost predicate EndsWell(init: Folder, l: Link, n: Name) {
    n in l.locks && (Leftover(init, n) == [] || |Started(l, n)| > 1)
  }

  /** Once nothing of `n` is under way, its file is the last snapshot the sender took, and no
      temporary file is left, if and only if that is so. In any case its transfers are all
      finished, or all stuck, as there is a mutex for it or not. */
  lemma Drained(verb: string, init: Folder, l: Link, n: Name)
    requires Invariant(verb, init, l) && n in l.started && Under(verb, l, n) == []
    ensures Settled(l, n) <==> EndsWell(init, l, n)
    ensures if n in l.locks then Finished(init, l, n) else Stuck(init, l, n)
  {
    assert Placed(verb, init, l, n);
    if n in l.locks {
      var k: nat, d: nat :| Position(verb, init, l, n, k, d);
      DrainedFinished(verb, init, l, n, k, d);
    } else {
      var e: nat :| Piled(verb, init, l, n, e);
      DrainedStuck(verb, init, l, n, e);
    }
  }

  lemma DrainedFinished(verb: string, init: Folder, l: Link, n: Name, k: nat, d: nat)
    requires Position(verb, init, l, n, k, d) && Started(l, n) != [] && Under(verb, l, n) == []
    ensures Finished(init, l, n)
    ensures Settled(l, n) <==> Leftover(init, n) == [] || |Started(l, n)| > 1
  {
    var ss := Started(l, n);
    MoreToCome(verb, n, ss, k, d);
    BehindLeftover(Ahead(init, n, |ss| - 1), ss[|ss| - 1].content);
  }

  lemma DrainedStuck(verb: string, init: Folder, l: Link, n: Name, e: nat)
    requires Piled(verb, init, l, n, e) && Started(l, n) != [] && Under(verb, l, n) == []
    requires GoodSnapshot(verb, n, Started(l, n)[0])
    ensures Stuck(init, l, n) && !Settled(l, n)
  {
    var all := Whole(verb, n, Started(l, n));
    assert e == |all| && all[..e] == all;
    WholeIsSomething(verb, n, Started(l, n));
    WholeContents(verb, n, Started(l, n));
  }

  lemma BehindLeftover(ahead: Bytes, content: Bytes)
    ensures ahead + content == content <==> ahead == []
  {
    assert |ahead + content| == |ahead| + |content|;
    assert ahead == [] ==> ahead + content == content;
  }

  /** `content` is what transfer `i` of `path` made visible. */
  ghost predicate Delivered(init: Folder, l: Link, path: string, content: Bytes) {
    exists i :: 0 <= i < |Started(l, path)| && content == Shown(init, path, Started(l, path), i)
  }

  /** No half-finished transfer is ever visible: under a name that is not a temporary one there is
      what was there at the beginning, or what one whole transfer made visible. */
  lemma NoPartialFile(verb: string, init: Folder, l: Link, path: string)
    requires Invariant(verb, init, l) && !IsTempPath(path)
    ensures SameAt(l.folder, init, path) || (path in l.folder && Delivered(init, l, path, l.folder[path]))
    ensures path !in l.locks ==> SameAt(l.folder, init, path)
  {
    if path in l.started {
      assert Placed(verb, init, l, path);
      if path in l.locks {
        var k: nat, d: nat :| Position(verb, init, l, path, k, d);
        if k > 0 { assert l.folder[path] == Shown(init, path, Started(l, path), k - 1); }
      }
    } else {
      Beginning(verb, init, l, path);
    }
  }

  /** A visible file changes only when the last packet of its transfer arrives where there is a
      mutex for it, and then it becomes what that transfer makes visible. */
  lemma ChangesOnlyAtLast(verb: string, init: Folder, l: Link, path: string)
    requires Invariant(verb, init, l) && l.queue != [] && !IsTempPath(path)
    requires !SameAt(Deliver(verb, l).folder, l.folder, path)
    ensures DataName(verb, l.queue[0]) == Some(path) && IsLast(l.queue[0]) && path in l.locks
    ensures path in Deliver(verb, l).folder && Delivered(init, l, path, Deliver(verb, l).folder[path])
  {
    OnlyLastRenames(verb, l, path);
    assert Placed(verb, init, l, path);
    var k: nat, d: nat :| Position(verb, init, l, path, k, d);
    NextPacket(verb, init, l, path, k, d);
    if d + 1 < |PacketsOf(verb, path, Started(l, path)[k])| {
      DeliverInside(verb, init, l, path, k, d);
    } else {
      DeliverLast(verb, init, l, path, k, d);
    }
  }

  lemma OnlyLastRenames(verb: string, l: Link, path: string)
    requires l.queue != [] && !IsTempPath(path)
    requires !SameAt(Deliver(verb, l).folder, l.folder, path)
    ensures DataName(verb, l.queue[0]) == Some(path) && IsLast(l.queue[0]) && path in l.locks
  {
    var m := DataName(verb, l.queue[0]);
    assert m.Some?;
    TempPaths(m.value, m.value);
    if path != m.value {
      ReassembleElsewhere(l.folder, l.locks, m.value, l.queue[0], path);
    }
  }
}
