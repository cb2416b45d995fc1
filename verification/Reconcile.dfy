/** Reconciliation of the two listings: which files the server pushes to the session and which it
    requests from it. */
module Reconcile {
  import opened Seqs
  import opened Codec
  import opened Chunking
  import opened Framing
  import opened Transfer
  import opened Link
  import opened World
  import opened Answers

  /** std::string::find(sub) != npos */
  predicate Contains(s: string, sub: string) {
    exists i :: 0 <= i <= |s| && OccursAt(s, sub, i)
  }

  predicate OccursAt(s: string, sub: string, i: nat) {
    i + |sub| <= |s| && s[i..i + |sub|] == sub
  }

  /** Names containing the temporary extension anywhere are set aside. */
  predicate IsTempName(n: Name) { Contains(n, EXTENSION) }
  predicate IsPlainName(n: Name) { !IsTempName(n) }

  /** A temporary name has the extension somewhere: before, between or behind other text. */
  lemma TempNameMeans(n: Name)
    ensures IsTempName(n) <==> exists before, behind :: n == before + ".swizdownload" + behind
  {
    if IsTempName(n) {
      var i :| 0 <= i <= |n| && OccursAt(n, EXTENSION, i);
      assert n == n[..i] + ".swizdownload" + n[i + |EXTENSION|..];
    }
    if before, behind :| n == before + ".swizdownload" + behind {
      assert OccursAt(n, EXTENSION, |before|);
    }
  }

  lemma TempPathIsTempName(n: Name)
    ensures IsTempPath(n) ==> IsTempName(n)
  {
    if IsTempPath(n) {
      var i := |n| - |EXTENSION|;
      assert OccursAt(n, EXTENSION, i);
    }
  }

  /** file_without_extension */
  function Stem(n: Name): Name {
    var i := AfterLast(n, '.');
    if i == 0 then n else n[..i - 1]
  }

  /** `stem` is the name up to its last dot, or the whole of a name without one. */
  ghost predicate IsStem(n: Name, stem: Name) {
    (Free(n, '.') && stem == n) || exists e :: Free(e, '.') && n == stem + "." + e
  }

  /** The stem is the text before the last dot, and nothing else is. */
  lemma StemMeans(n: Name, stem: Name)
    ensures IsStem(n, stem) <==> stem == Stem(n)
  {
    var i := AfterLast(n, '.');
    if i > 0 { assert n == n[..i - 1] + "." + n[i..]; }
    if e :| Free(e, '.') && n == stem + "." + e {
      assert n[|stem|] == '.' && n[|stem| + 1..] == e;
      AfterLastUnique(n, '.', |stem| + 1);
      assert n[..|stem|] == stem;
    }
  }

  /** The temporary name the planner looks for. */
  function Guard(n: Name): Name { Stem(n) + EXTENSION }

  /** The planner's guard recognizes the temporary file that the reassembler really uses for `n`
      exactly when the name has no extension. */
  lemma GuardMatches(n: Name)
    ensures Guard(n) == TempPath(n) <==> Free(n, '.')
  {
    var i := AfterLast(n, '.');
    assert |Guard(n)| == |Stem(n)| + |EXTENSION| && |TempPath(n)| == |n| + |EXTENSION|;
    assert n[0..] == n;
  }

  /** Both listings without their temporary names, compared. */
  function Missing(here: seq<Name>, there: seq<Name>, tempsThere: seq<Name>): seq<Name> {
    Filter(here, n => n !in there && Guard(n) !in tempsThere)
  }

  datatype Plan = Plan(push: seq<Name>, request: seq<Name>)

  function PlanFor(server: seq<Name>, session: seq<Name>): Plan {
    var serverFiles, sessionFiles := Filter(server, IsPlainName), Filter(session, IsPlainName);
    var serverTemps, sessionTemps := Filter(server, IsTempName), Filter(session, IsTempName);
    Plan(Missing(serverFiles, sessionFiles, sessionTemps), Missing(sessionFiles, serverFiles, serverTemps))
  }

  /** The guard is always a temporary name. */
  lemma GuardIsTemp(n: Name)
    ensures IsTempName(Guard(n))
  {
    TempPaths(Stem(n), n);
    TempPathIsTempName(Guard(n));
  }

  /** The other side's listing has a temporary name made of this name's stem and the extension. */
  ghost predicate UnderWay(n: Name, listing: seq<Name>) {
    exists stem :: IsStem(n, stem) && stem + ".swizdownload" in listing
  }

  lemma UnderWayMeans(n: Name, listing: seq<Name>)
    ensures UnderWay(n, listing) <==> Guard(n) in listing
  {
    StemMeans(n, Stem(n));
    if stem :| IsStem(n, stem) && stem + ".swizdownload" in listing { StemMeans(n, stem); }
  }

  /** The listing has the name itself, and it has no ".swizdownload" in it. */
  ghost predicate Offers(listing: seq<Name>, n: Name) {
    n in listing && !exists before, behind :: n == before + ".swizdownload" + behind
  }

  /** A name is pushed (requested) exactly when it is a plain name here, absent there, and the other
      side has no temporary name of its stem. */
  lemma PlanMembership(server: seq<Name>, session: seq<Name>, n: Name)
    ensures n in PlanFor(server, session).push <==>
      Offers(server, n) && n !in session && !UnderWay(n, session)
    ensures n in PlanFor(server, session).request <==>
      Offers(session, n) && n !in server && !UnderWay(n, server)
  {
    Planned(server, session, n);
    TempNameMeans(n);
    UnderWayMeans(n, server);
    UnderWayMeans(n, session);
  }

  lemma Planned(server: seq<Name>, session: seq<Name>, n: Name)
    ensures n in PlanFor(server, session).push <==>
      n in server && IsPlainName(n) && n !in session && Guard(n) !in session
    ensures n in PlanFor(server, session).request <==>
      n in session && IsPlainName(n) && n !in server && Guard(n) !in server
  {
    GuardIsTemp(n);
  }

  // ----- the loops -----

  /** The erase loop: moves the temporary names to their own list, in place. */
  method SetAside(files: seq<Name>, plain: Name -> bool, temp: Name -> bool) returns (kept: seq<Name>, temps: seq<Name>)
    requires forall n :: temp(n) <==> !plain(n)
    ensures kept == Filter(files, plain)
    ensures temps == Filter(files, temp)
  {
    kept, temps := files, [];
    var it := 0;
    ghost var done, front := 0, [];
    while it != |kept|
      invariant 0 <= done <= |files| && front == Filter(files[..done], plain) && it == |front|
      invariant kept == front + files[done..]
      invariant temps == Filter(files[..done], temp)
      decreases |kept| - it
    {
      EraseStep(front, files, done);
      FilterNext(files, done, plain);
      FilterNext(files, done, temp);
      if temp(kept[it]) {
        temps := temps + [kept[it]];
        kept := Erase(kept, it);
      } else {
        front := front + [kept[it]];
        it := it + 1;
      }
      done := done + 1;
    }
    assert files[..done] == files;
  }

  lemma EraseStep(front: seq<Name>, files: seq<Name>, done: nat)
    requires done < |files|
    ensures (front + files[done..])[|front|] == files[done]
    ensures Erase(front + files[done..], |front|) == front + files[done + 1..]
    ensures front + files[done..] == (front + [files[done]]) + files[done + 1..]
  {
  }

  /** std::vector::erase */
  function Erase<T>(s: seq<T>, i: nat): seq<T>
    requires i < |s|
  {
    s[..i] + s[i + 1..]
  }

  lemma FilterNext(s: seq<Name>, i: nat, keep: Name -> bool)
    requires i < |s|
    ensures Filter(s[..i + 1], keep) == Filter(s[..i], keep) + (if keep(s[i]) then [s[i]] else [])
  {
    assert s[..i + 1] == s[..i] + [s[i]];
    FilterSnoc(s[..i], s[i], keep);
  }

  /** std::find(...) != end() */
  method Find(names: seq<Name>, n: Name) returns (found: bool)
    ensures found <==> n in names
  {
    var i := 0;
    while i < |names|
      invariant 0 <= i <= |names| && n !in names[..i]
    {
      if names[i] == n { return true; }
      i := i + 1;
    }
    return false;
  }

  /** One search loop. */
  method FindMissing(here: seq<Name>, there: seq<Name>, tempsThere: seq<Name>) returns (missing: seq<Name>)
    ensures missing == Missing(here, there, tempsThere)
  {
    missing := [];
    var i := 0;
    assert here[..0] == [];
    while i < |here|
      invariant 0 <= i <= |here|
      invariant missing == Missing(here[..i], there, tempsThere)
    {
      var known := Find(there, here[i]);
      var underWay := Find(tempsThere, Guard(here[i]));
      FilterNext(here, i, n => n !in there && Guard(n) !in tempsThere);
      if !known && !underWay {
        missing := missing + [here[i]];
      }
      i := i + 1;
    }
    assert here[..i] == here;
  }

  /** The comparison of the two listings. */
  method MakePlan(server: seq<Name>, session: seq<Name>) returns (plan: Plan)
    ensures plan == PlanFor(server, session)
  {
    var serverFiles, serverTemps := SetAside(server, IsPlainName, IsTempName);
    var sessionFiles, sessionTemps := SetAside(session, IsPlainName, IsTempName);
    var push := FindMissing(serverFiles, sessionFiles, sessionTemps);
    var request := FindMissing(sessionFiles, serverFiles, serverTemps);
    plan := Plan(push, request);
  }

  // ----- carrying the plan out -----

  /** The verb the client accepts pushed files under. */
  const PUSH: string := "supload"

  /** The packets of one file, or none when it has no mutex or cannot be opened. */
  function FilePackets(verb: string, source: Folder, locks: set<Name>, n: Name, md5: Bytes -> string): seq<Packet> {
    if n in locks && n in source then PacketsOf(verb, n, Snapshot(source[n], md5(source[n]))) else []
  }

  function FilesPackets(verb: string, source: Folder, locks: set<Name>, names: seq<Name>,
                        md5: Bytes -> string): seq<Packet> {
    if names == [] then []
    else FilePackets(verb, source, locks, names[0], md5) + FilesPackets(verb, source, locks, names[1..], md5)
  }

  function Requests(names: seq<Name>): seq<Packet> {
    seq(|names|, i requires 0 <= i < |names| => Request(UP, names[i]))
  }

  /** Everything the planner queues: the pushed files under `verb`, then the requests. */
  function PlanPackets(verb: string, plan: Plan, dir: Folder, locks: set<Name>, md5: Bytes -> string): seq<Packet> {
    FilesPackets(verb, dir, locks, plan.push, md5) + Requests(plan.request)
  }

  function PacketsNeeded(dir: Folder, locks: set<Name>, names: seq<Name>): nat {
    if names == [] then 0 else
      var first := if names[0] in locks && names[0] in dir then ExpectedPackets(|dir[names[0]]|, PAYLOAD) else 0;
      first + PacketsNeeded(dir, locks, names[1..])
  }

  lemma {:induction false} FilesPacketCount(verb: string, dir: Folder, locks: set<Name>, names: seq<Name>,
                                            md5: Bytes -> string)
    ensures |FilesPackets(verb, dir, locks, names, md5)| == PacketsNeeded(dir, locks, names)
  {
    if names != [] {
      FilesPacketCount(verb, dir, locks, names[1..], md5);
      if names[0] in dir { ChunkCount(dir[names[0]], PAYLOAD); }
    }
  }

  /** The reported packet count: the rounded-up sizes of the files that can be pushed, and one
      packet for each request. */
  lemma PlanPacketCount(verb: string, plan: Plan, dir: Folder, locks: set<Name>, md5: Bytes -> string)
    ensures |PlanPackets(verb, plan, dir, locks, md5)| == PacketsNeeded(dir, locks, plan.push) + |plan.request|
  {
    FilesPacketCount(verb, dir, locks, plan.push, md5);
  }

  /** All files go out before the requests, which name what is to be requested, in order. */
  lemma RequestsComeLast(verb: string, plan: Plan, dir: Folder, locks: set<Name>, md5: Bytes -> string, i: nat)
    requires i < |plan.request|
    ensures var ps := PlanPackets(verb, plan, dir, locks, md5);
            && |ps| >= |plan.request|
            && ps[|ps| - |plan.request| + i] == Packet("sdownload|" + plan.request[i], 0, 0, [])
  {
    assert UP + [BAR] == "sdownload|";
  }

  /** The other side takes one packet: a request is answered from its folder, anything else goes
      to its handler for `verb`. */
  function ClientStep(verb: string, sync: Folder, locks: set<Name>, p: Packet, md5: Bytes -> string): (Folder,
                      seq<Packet>) {
    match RequestName(UP, p)
    case Some(n) => (sync, AnswerPackets(UP, sync, locks, n, md5(Contents(sync, n))))
    case None => (Land(verb, sync, locks, p), [])
  }

  /** The client takes a run of packets and sends its answers. */
  function ClientRun(verb: string, sync: Folder, locks: set<Name>, ps: seq<Packet>, md5: Bytes -> string): (Folder,
                     seq<Packet>)
    decreases |ps|
  {
    if ps == [] then (sync, []) else
      var (next, replies) := ClientStep(verb, sync, locks, ps[0], md5);
      var (last, more) := ClientRun(verb, next, locks, ps[1..], md5);
      (last, replies + more)
  }

  function LandAll(verb: string, folder: Folder, locks: set<Name>, ps: seq<Packet>): Folder
    decreases |ps|
  {
    if ps == [] then folder else LandAll(verb, Land(verb, folder, locks, ps[0]), locks, ps[1..])
  }

  lemma {:induction false} ClientRunConcat(verb: string, sync: Folder, locks: set<Name>, a: seq<Packet>,
                                           b: seq<Packet>, md5: Bytes -> string)
    ensures var (mid, first) := ClientRun(verb, sync, locks, a, md5);
            var (last, second) := ClientRun(verb, mid, locks, b, md5);
            ClientRun(verb, sync, locks, a + b, md5) == (last, first + second)
    decreases |a|
  {
    if a == [] {
      assert a + b == b;
      var second := ClientRun(verb, sync, locks, b, md5).1;
      assert [] + second == second;
    } else {
      var p, rest := a[0], a[1..];
      var (next, replies) := ClientStep(verb, sync, locks, p, md5);
      ClientRunConcat(verb, next, locks, rest, b, md5);
      assert a == [p] + rest;
      Associate([p], rest, b);
      ClientRunCons(verb, sync, locks, p, rest, md5);
      ClientRunCons(verb, sync, locks, p, rest + b, md5);
      var (mid, first) := ClientRun(verb, next, locks, rest, md5);
      Associate(replies, first, ClientRun(verb, mid, locks, b, md5).1);
    }
  }

  lemma ClientRunCons(verb: string, sync: Folder, locks: set<Name>, p: Packet, rest: seq<Packet>, md5: Bytes -> string)
    ensures var (next, replies) := ClientStep(verb, sync, locks, p, md5);
            var (last, more) := ClientRun(verb, next, locks, rest, md5);
            ClientRun(verb, sync, locks, [p] + rest, md5) == (last, replies + more)
  {
    assert ([p] + rest)[1..] == rest;
  }

  lemma {:induction false} LandConcat(verb: string, folder: Folder, locks: set<Name>, a: seq<Packet>, b: seq<Packet>)
    ensures LandAll(verb, folder, locks, a + b) == LandAll(verb, LandAll(verb, folder, locks, a), locks, b)
    decreases |a|
  {
    if a == [] {
      assert a + b == b;
    } else {
      assert (a + b)[0] == a[0] && (a + b)[1..] == a[1..] + b;
      LandConcat(verb, Land(verb, folder, locks, a[0]), locks, a[1..], b);
    }
  }

  /** A run without requests only lands data. */
  lemma {:induction false} DataOnly(verb: string, sync: Folder, locks: set<Name>, ps: seq<Packet>, md5: Bytes -> string)
    requires forall p :: p in ps ==> |Split(p.command)| == 3
    ensures ClientRun(verb, sync, locks, ps, md5) == (LandAll(verb, sync, locks, ps), [])
    decreases |ps|
  {
    if ps != [] {
      var next := Land(verb, sync, locks, ps[0]);
      assert |Split(ps[0].command)| == 3;
      assert ClientStep(verb, sync, locks, ps[0], md5) == (next, []);
      DataOnly(verb, next, locks, ps[1..], md5);
      assert [] + ClientRun(verb, next, locks, ps[1..], md5).1 == [];
    }
  }

  /** Packets of one name land as that name's transfer. */
  lemma {:induction false} LandOneName(verb: string, folder: Folder, locks: set<Name>, n: Name, ps: seq<Packet>)
    requires forall p :: p in ps ==> DataName(verb, p) == Some(n)
    ensures LandAll(verb, folder, locks, ps) == ReassembleAll(folder, locks, n, ps)
    decreases |ps|
  {
    if ps != [] {
      LandOneName(verb, Reassemble(folder, locks, n, ps[0]), locks, n, ps[1..]);
    }
  }

  /** Packets under a verb the receiver does not know land nowhere. */
  lemma {:induction false} LandNothing(verb: string, folder: Folder, locks: set<Name>, ps: seq<Packet>)
    requires forall p :: p in ps ==> DataName(verb, p) == None
    ensures LandAll(verb, folder, locks, ps) == folder
    decreases |ps|
  {
    if ps != [] { LandNothing(verb, folder, locks, ps[1..]); }
  }

  /** A name that can be listed and transferred: not empty, no bar, no NUL, not temporary, and
      short enough for every command. */
  ghost predicate GoodName(n: Name) {
    n != [] && Free(n, BAR) && Free(n, NUL) && IsPlainName(n) && |n| <= 980
  }

  ghost predicate GoodFolder(folder: Folder) {
    forall n :: n in folder ==> GoodName(n) && 0 < |folder[n]| <= MAX_FILE
  }

  ghost predicate GoodDigests(md5: Bytes -> string) { forall c :: Digest(md5(c)) }

  /** Names to transfer to a folder: each once, from the source or empty, and with no temporary file
      in the way. */
  ghost predicate ToTransfer(names: seq<Name>, source: Folder, folder: Folder) {
    && Distinct(names)
    && forall n :: n in names ==> (n in source || n == "") && TempPath(n) !in folder
  }

  lemma GoodSnapshots(verb: string, folder: Folder, n: Name, md5: Bytes -> string)
    requires GoodFolder(folder) && n in folder && GoodDigests(md5) && Free(verb, BAR) && |verb| <= 9
    ensures GoodSnapshot(verb, n, Snapshot(folder[n], md5(folder[n])))
  {
    assert Digest(md5(folder[n]));
    JoinThree(verb, n, md5(folder[n]));
  }

  lemma GoodNames(folder: Folder, n: Name)
    requires GoodFolder(folder)
    ensures n in folder ==> !IsTempPath(n)
    ensures TempPath(n) !in folder && "" !in folder
  {
    TempPathIsTempName(n);
    TempPaths(n, n);
    TempPathIsTempName(TempPath(n));
  }

  /** Pushed packets are three-token commands under their verb. */
  lemma {:induction false} FilesShape(verb: string, source: Folder, from: set<Name>, names: seq<Name>,
                                      md5: Bytes -> string)
    requires GoodFolder(source) && GoodDigests(md5) && Free(verb, BAR) && |verb| <= 9
    ensures forall p :: p in FilesPackets(verb, source, from, names, md5) ==>
      |Split(p.command)| == 3 && Split(p.command)[0] == verb
  {
    if names != [] {
      var n := names[0];
      if n in source {
        GoodSnapshots(verb, source, n, md5);
        PacketsCarryName(verb, n, Snapshot(source[n], md5(source[n])));
      }
      FilesShape(verb, source, from, names[1..], md5);
    }
  }

  // ----- where transferred files end up -----

  /** One file: it moves if both sides have a mutex for it. Without the sender's it is not sent, and
      without the receiver's it stays in the temporary file. */
  function Deposit(folder: Folder, source: Folder, from: set<Name>, to: set<Name>, n: Name): Folder {
    if n !in source || n !in from then folder
    else if n in to then folder[n := source[n]]
    else folder[TempPath(n) := source[n]]
  }

  function DepositAll(folder: Folder, source: Folder, from: set<Name>, to: set<Name>, names: seq<Name>): Folder
    decreases |names|
  {
    if names == [] then folder
    else DepositAll(Deposit(folder, source, from, to, names[0]), source, from, to, names[1..])
  }

  ghost predicate Moves(source: Folder, from: set<Name>, to: set<Name>, names: seq<Name>, n: Name) {
    n in names && n in source && n in from && n in to
  }

  ghost predicate Stalls(source: Folder, from: set<Name>, to: set<Name>, names: seq<Name>, n: Name) {
    n in names && n in source && n in from && n !in to
  }

  /** What the whole lot does to a file and its temporary file. */
  ghost predicate Deposited(after: Folder, folder: Folder, source: Folder, from: set<Name>, to: set<Name>,
                            names: seq<Name>, n: Name) {
    && (if Moves(source, from, to, names, n) then Shows(after, n, source[n]) else SameAt(after, folder, n))
    && (if Stalls(source, from, to, names, n) then Shows(after, TempPath(n), source[n])
        else SameAt(after, folder, TempPath(n)))
  }

  lemma {:induction false} DepositAllAt(folder: Folder, source: Folder, from: set<Name>, to: set<Name>,
                                        names: seq<Name>, n: Name)
    requires GoodFolder(source) && !IsTempPath(n)
    ensures Deposited(DepositAll(folder, source, from, to, names), folder, source, from, to, names, n)
    decreases |names|
  {
    if names != [] {
      var m, rest := names[0], names[1..];
      GoodNames(source, m);
      TempPaths(n, m);
      TempPaths(m, n);
      DepositAllAt(Deposit(folder, source, from, to, m), source, from, to, rest, n);
      assert n in names <==> n == m || n in rest;
    }
  }

  function Pick(source: Folder, names: seq<Name>): Folder {
    map n | n in names && n in source :: source[n]
  }

  /** All of them arrive if and only if both sides have a mutex for each. */
  lemma {:induction false} AllArrive(folder: Folder, source: Folder, from: set<Name>, to: set<Name>, names: seq<Name>)
    requires GoodFolder(source)
    requires forall n :: n in names && n in source ==> n in from && n in to
    ensures DepositAll(folder, source, from, to, names) == folder + Pick(source, names)
    decreases |names|
  {
    if names == [] {
      assert folder + Pick(source, names) == folder;
    } else {
      var n, rest := names[0], names[1..];
      AllArrive(Deposit(folder, source, from, to, n), source, from, to, rest);
      if n in source {
        PickStep(folder, source, names);
      } else {
        assert Pick(source, names) == Pick(source, rest);
      }
    }
  }

  lemma PickStep(folder: Folder, source: Folder, names: seq<Name>)
    requires names != [] && names[0] in source
    ensures folder[names[0] := source[names[0]]] + Pick(source, names[1..]) == folder + Pick(source, names)
  {
    assert forall m :: m in names <==> m == names[0] || m in names[1..];
  }

  lemma SomeStay(folder: Folder, source: Folder, from: set<Name>, to: set<Name>, names: seq<Name>, n: Name)
    requires GoodFolder(source) && n in names && n in source && n !in folder && !(n in from && n in to)
    ensures DepositAll(folder, source, from, to, names) != folder + Pick(source, names)
    ensures n !in DepositAll(folder, source, from, to, names)
  {
    GoodNames(source, n);
    DepositAllAt(folder, source, from, to, names, n);
    assert n in folder + Pick(source, names);
  }

  /** The packets of one good file deposit it in the receiving folder. */
  lemma FileLands(verb: string, folder: Folder, locks: set<Name>, source: Folder, from: set<Name>, n: Name,
                  md5: Bytes -> string)
    requires GoodFolder(source) && TempPath(n) !in folder
    requires GoodDigests(md5) && Free(verb, BAR) && |verb| <= 9
    ensures LandAll(verb, folder, locks, FilePackets(verb, source, from, n, md5))
         == Deposit(folder, source, from, locks, n)
  {
    if n in source && n in from {
      var s := Snapshot(source[n], md5(source[n]));
      GoodSnapshots(verb, source, n, md5);
      PacketsCarryName(verb, n, s);
      LandOneName(verb, folder, locks, n, PacketsOf(verb, n, s));
      TransferOutcome(folder, locks, n, DataCommand(verb, n, s.sum), s.content);
      RenameFresh(folder, n, s.content);
      assert [] + s.content == s.content;
    }
  }

  /** A delivered file comes with the checksum of just what is delivered. */
  lemma ChecksumMatches(verb: string, folder: Folder, locks: set<Name>, source: Folder, from: set<Name>, n: Name,
                        md5: Bytes -> string)
    requires GoodFolder(source) && TempPath(n) !in folder && n in source && n in from && n in locks
    requires GoodDigests(md5) && Free(verb, BAR) && |verb| <= 9
    ensures var ps := FilePackets(verb, source, from, n, md5);
            var after := LandAll(verb, folder, locks, ps);
            n in after && Carries(ps, verb, n, md5(after[n]), after[n])
  {
    FileLands(verb, folder, locks, source, from, n, md5);
    GoodSnapshots(verb, source, n, md5);
    PacketsCarry(verb, n, Snapshot(source[n], md5(source[n])));
  }

  lemma StillToTransfer(names: seq<Name>, source: Folder, folder: Folder, from: set<Name>, to: set<Name>)
    requires GoodFolder(source) && names != [] && ToTransfer(names, source, folder)
    ensures ToTransfer(names[1..], source, Deposit(folder, source, from, to, names[0]))
  {
    var n, rest := names[0], names[1..];
    GoodNames(source, n);
    forall m | m in rest ensures TempPath(m) !in Deposit(folder, source, from, to, n) {
      TempPaths(m, n);
      TempPaths(m, m);
    }
  }

  lemma {:induction false} FilesLand(verb: string, folder: Folder, locks: set<Name>, source: Folder, from: set<Name>,
                                     names: seq<Name>, md5: Bytes -> string)
    requires GoodFolder(source) && GoodDigests(md5) && Free(verb, BAR) && |verb| <= 9
    requires ToTransfer(names, source, folder)
    ensures LandAll(verb, folder, locks, FilesPackets(verb, source, from, names, md5))
         == DepositAll(folder, source, from, locks, names)
    decreases |names|
  {
    if names != [] {
      var n, rest := names[0], names[1..];
      FileLands(verb, folder, locks, source, from, n, md5);
      StillToTransfer(names, source, folder, from, locks);
      FilesLand(verb, Deposit(folder, source, from, locks, n), locks, source, from, rest, md5);
      LandConcat(verb, folder, locks, FilePackets(verb, source, from, n, md5),
                 FilesPackets(verb, source, from, rest, md5));
    }
  }

  /** While the packets of good files arrive, nothing but the temporary files is ever partial: after
      any number of them each plain path shows what it did before, or the whole file sent. */
  lemma {:induction false} FilesNeverPartial(verb: string, folder: Folder, locks: set<Name>, source: Folder,
                                             from: set<Name>, names: seq<Name>, md5: Bytes -> string,
                                             k: nat, path: string)
    requires GoodFolder(source) && GoodDigests(md5) && Free(verb, BAR) && |verb| <= 9
    requires ToTransfer(names, source, folder)
    requires k <= |FilesPackets(verb, source, from, names, md5)| && !IsTempPath(path)
    ensures var now := LandAll(verb, folder, locks, FilesPackets(verb, source, from, names, md5)[..k]);
            SameOrSent(now, folder, source, path)
    decreases |names|
  {
    if names != [] {
      var n, rest := names[0], names[1..];
      var first, more := FilePackets(verb, source, from, n, md5), FilesPackets(verb, source, from, rest, md5);
      TakeConcat(first, more, k);
      if k < |first| {
        FileNeverPartial(verb, folder, locks, source, from, n, md5, k, path);
      } else {
        var next := Deposit(folder, source, from, locks, n);
        FileLands(verb, folder, locks, source, from, n, md5);
        LandConcat(verb, folder, locks, first, more[..k - |first|]);
        StillToTransfer(names, source, folder, from, locks);
        FilesNeverPartial(verb, next, locks, source, from, rest, md5, k - |first|, path);
        SentBefore(LandAll(verb, next, locks, more[..k - |first|]), folder, source, from, locks, n, path);
      }
    }
  }

  lemma SentBefore(now: Folder, folder: Folder, source: Folder, from: set<Name>, to: set<Name>, n: Name, path: string)
    requires !IsTempPath(path) && SameOrSent(now, Deposit(folder, source, from, to, n), source, path)
    ensures SameOrSent(now, folder, source, path)
  {
    TempPaths(n, n);
  }

  ghost predicate SameOrSent(now: Folder, before: Folder, source: Folder, path: string) {
    SameAt(now, before, path) || (path in source && Shows(now, path, source[path]))
  }

  lemma FileNeverPartial(verb: string, folder: Folder, locks: set<Name>, source: Folder, from: set<Name>,
                         n: Name, md5: Bytes -> string, k: nat, path: string)
    requires GoodFolder(source) && GoodDigests(md5) && Free(verb, BAR) && |verb| <= 9
    requires k < |FilePackets(verb, source, from, n, md5)| && !IsTempPath(path)
    ensures SameAt(LandAll(verb, folder, locks, FilePackets(verb, source, from, n, md5)[..k]), folder, path)
  {
    var s := Snapshot(source[n], md5(source[n]));
    var head := PacketsOf(verb, n, s)[..k];
    GoodSnapshots(verb, source, n, md5);
    PacketsCarryName(verb, n, s);
    LandOneName(verb, folder, locks, n, head);
    forall i | 0 <= i < k ensures !IsLast(head[i]) {
      OneLastPacket(DataCommand(verb, n, s.sum), s.content, i);
    }
    if k > 0 {
      ReassembleHead(folder, locks, n, head);
      TempPaths(n, n);
    }
  }

  // ----- reconciliation converges -----

  /** The string a side sends as its listing. */
  function Listing(names: seq<Name>): string { if names == [] then "" else Join(names) }

  /** How the server reads the two listings: its own with `getline`, the session's with
      `split_buffer`. */
  function ReadPlan(serverListing: string, sessionListing: string): Plan {
    PlanFor(GetLines(serverListing), Split(sessionListing))
  }

  ghost predicate Lists(names: seq<Name>, folder: Folder) {
    Distinct(names) && forall n :: n in names <==> n in folder
  }

  /** Good names are read back, except that a session without files seems to have one with an
      empty name. */
  lemma ListingReads(names: seq<Name>)
    requires forall n :: n in names ==> GoodName(n)
    ensures GetLines(Listing(names)) == names
    ensures Split(Listing(names)) == if names == [] then [""] else names
  {
    if names != [] {
      assert forall i :: 0 <= i < |names| ==> GoodName(names[i]);
      SplitOfJoin(names);
      ReadersAgree(Join(names));
      JoinEnds(names);
    } else {
      SplitFreeOne("");
    }
  }

  /** The plan for listings without temporary names. */
  lemma PlainPlan(server: seq<Name>, session: seq<Name>)
    requires forall n :: n in server || n in session ==> GoodName(n)
    ensures var plan := PlanFor(server, if session == [] then [""] else session);
            && (forall n :: n in plan.push <==> n in server && n !in session)
            && (forall n :: n in plan.request <==> (n in session && n !in server) || (session == [] && n == ""))
  {
    var read := if session == [] then [""] else session;
    assert !IsTempName("");
    forall n ensures n in PlanFor(server, read).push <==> n in server && n !in session {
      Planned(server, read, n);
      GuardIsTemp(n);
    }
    forall n
      ensures n in PlanFor(server, read).request <==> (n in session && n !in server) || (session == [] && n == "")
    {
      Planned(server, read, n);
      GuardIsTemp(n);
    }
  }

  /** The client, whose folder `now` still has the files of `sync`, answers a run of requests with
      their packets, and with a failure for the empty name. */
  lemma {:induction false} RequestsAnswered(verb: string, now: Folder, sync: Folder, locks: set<Name>,
                                            names: seq<Name>, md5: Bytes -> string, dir: Folder, slocks: set<Name>)
    requires GoodFolder(sync) && GoodDigests(md5) && ToTransfer(names, sync, dir)
    requires "" !in now && forall n :: n in names && n in sync ==> Shows(now, n, sync[n])
    ensures var (after, replies) := ClientRun(verb, now, locks, Requests(names), md5);
            after == now && LandAll(UP, dir, slocks, replies) == DepositAll(dir, sync, locks, slocks, names)
    decreases |names|
  {
    if names != [] {
      var n, rest := names[0], names[1..];
      var replies := AnswerPackets(UP, now, locks, n, md5(Contents(now, n)));
      assert n in names;
      RequestStep(verb, now, sync, locks, n, md5, dir, slocks);
      StillToTransfer(names, sync, dir, locks, slocks);
      RequestsAnswered(verb, now, sync, locks, rest, md5, Deposit(dir, sync, locks, slocks, n), slocks);
      RequestsCons(names);
      ClientRunCons(verb, now, locks, Request(UP, n), Requests(rest), md5);
      LandConcat(UP, dir, slocks, replies, ClientRun(verb, now, locks, Requests(rest), md5).1);
    }
  }

  lemma RequestsCons(names: seq<Name>)
    requires names != []
    ensures Requests(names) == [Request(UP, names[0])] + Requests(names[1..])
  {
  }

  lemma RequestStep(verb: string, now: Folder, sync: Folder, locks: set<Name>, n: Name, md5: Bytes -> string,
                    dir: Folder, slocks: set<Name>)
    requires GoodFolder(sync) && GoodDigests(md5) && TempPath(n) !in dir
    requires n in sync || (n == "" && n !in now)
    requires n in sync ==> Shows(now, n, sync[n])
    ensures var replies := AnswerPackets(UP, now, locks, n, md5(Contents(now, n)));
            && ClientStep(verb, now, locks, Request(UP, n), md5) == (now, replies)
            && LandAll(UP, dir, slocks, replies) == Deposit(dir, sync, locks, slocks, n)
  {
    RequestReads(UP, n);
    if n in sync {
      AnswerIsFile(now, sync, locks, n, md5);
      FileLands(UP, dir, slocks, sync, locks, n, md5);
    } else {
      FailureLandsNowhere(now, locks, md5, dir, slocks);
    }
  }

  lemma FailureLandsNowhere(now: Folder, locks: set<Name>, md5: Bytes -> string, dir: Folder, slocks: set<Name>)
    requires "" !in now
    ensures LandAll(UP, dir, slocks, AnswerPackets(UP, now, locks, "", md5(Contents(now, "")))) == dir
  {
    var p := Packet(DataCommand(UP, "", "fail"), 0, 0, Reason(UP));
    if |p.command| < COMMAND_FIELD {
      FailureIsOther(ASK, UP, "", p);
      LandNothing(UP, dir, slocks, [p]);
    }
  }

  lemma AnswerIsFile(now: Folder, sync: Folder, locks: set<Name>, n: Name, md5: Bytes -> string)
    requires GoodFolder(sync) && GoodDigests(md5) && n in sync && Shows(now, n, sync[n])
    ensures AnswerPackets(UP, now, locks, n, md5(Contents(now, n))) == FilePackets(UP, sync, locks, n, md5)
  {
    GoodSnapshots(UP, sync, n, md5);
  }

  /** What remains after both sides have carried out a plan. */
  function Completed(verb: string, plan: Plan, sync: Folder, dir: Folder, clocks: set<Name>, slocks: set<Name>,
                     md5: Bytes -> string): (Folder, Folder) {
    var (client, replies) := ClientRun(PUSH, sync, clocks, PlanPackets(verb, plan, dir, slocks, md5), md5);
    (client, LandAll(UP, dir, slocks, replies))
  }

  lemma TwoPhases(sync: Folder, mid: Folder, clocks: set<Name>, pushed: seq<Packet>, asked: seq<Packet>,
                  md5: Bytes -> string)
    requires ClientRun(PUSH, sync, clocks, pushed, md5) == (mid, [])
    requires ClientRun(PUSH, mid, clocks, asked, md5).0 == mid
    ensures ClientRun(PUSH, sync, clocks, pushed + asked, md5) == (mid, ClientRun(PUSH, mid, clocks, asked, md5).1)
  {
    ClientRunConcat(PUSH, sync, clocks, pushed, asked, md5);
    assert [] + ClientRun(PUSH, mid, clocks, asked, md5).1 == ClientRun(PUSH, mid, clocks, asked, md5).1;
  }

  /** What a plan for two folders must push and request. */
  ghost predicate PlanCovers(plan: Plan, sync: Folder, dir: Folder) {
    && Distinct(plan.push) && Distinct(plan.request)
    && (forall n :: n in plan.push <==> n in dir && n !in sync)
    && (forall n :: n in plan.request <==> (n in sync && n !in dir) || (sync == map[] && n == ""))
  }

  lemma MissingDistinct(here: seq<Name>, there: seq<Name>, temps: seq<Name>)
    requires Distinct(here)
    ensures Distinct(Missing(here, there, temps))
  {
    FilterDistinct(here, n => n !in there && Guard(n) !in temps);
  }

  lemma PlanDistinct(server: seq<Name>, session: seq<Name>)
    requires Distinct(server) && Distinct(session)
    ensures Distinct(PlanFor(server, session).push) && Distinct(PlanFor(server, session).request)
  {
    FilterDistinct(server, IsPlainName);
    FilterDistinct(session, IsPlainName);
    var serverFiles, sessionFiles := Filter(server, IsPlainName), Filter(session, IsPlainName);
    MissingDistinct(serverFiles, sessionFiles, Filter(session, IsTempName));
    MissingDistinct(sessionFiles, serverFiles, Filter(server, IsTempName));
  }

  lemma ListedPlanCovers(server: seq<Name>, session: seq<Name>, sync: Folder, dir: Folder)
    requires Lists(server, dir) && Lists(session, sync) && GoodFolder(sync) && GoodFolder(dir)
    ensures PlanCovers(ReadPlan(Listing(server), Listing(session)), sync, dir)
    ensures session == [] <==> sync == map[]
  {
    ListingReads(server);
    ListingReads(session);
    PlainPlan(server, session);
    PlanDistinct(server, if session == [] then [""] else session);
    assert session != [] ==> session[0] in sync;
    assert session == [] ==> sync.Keys == {};
  }

  lemma PlanToTransfer(plan: Plan, sync: Folder, dir: Folder)
    requires PlanCovers(plan, sync, dir) && GoodFolder(sync) && GoodFolder(dir)
    ensures ToTransfer(plan.push, dir, sync) && ToTransfer(plan.request, sync, dir)
  {
    forall n ensures TempPath(n) !in sync && TempPath(n) !in dir {
      GoodNames(sync, n);
      GoodNames(dir, n);
    }
  }

  /** The client's side of the pushed files. */
  lemma PushesComplete(sync: Folder, dir: Folder, clocks: set<Name>, slocks: set<Name>, names: seq<Name>,
                       md5: Bytes -> string)
    requires GoodFolder(dir) && GoodDigests(md5) && ToTransfer(names, dir, sync)
    ensures ClientRun(PUSH, sync, clocks, FilesPackets(PUSH, dir, slocks, names, md5), md5)
         == (DepositAll(sync, dir, slocks, clocks, names), [])
  {
    FilesShape(PUSH, dir, slocks, names, md5);
    DataOnly(PUSH, sync, clocks, FilesPackets(PUSH, dir, slocks, names, md5), md5);
    FilesLand(PUSH, sync, clocks, dir, slocks, names, md5);
  }

  lemma OwnFilesStay(plan: Plan, sync: Folder, dir: Folder, clocks: set<Name>, slocks: set<Name>)
    requires PlanCovers(plan, sync, dir) && GoodFolder(sync) && GoodFolder(dir)
    ensures var mid := DepositAll(sync, dir, slocks, clocks, plan.push);
            "" !in mid && forall n :: n in sync ==> Shows(mid, n, sync[n])
  {
    var mid := DepositAll(sync, dir, slocks, clocks, plan.push);
    forall n | n in sync || n == "" ensures SameAt(mid, sync, n) {
      GoodNames(sync, n);
      GoodNames(dir, n);
      DepositAllAt(sync, dir, slocks, clocks, plan.push, n);
    }
    GoodNames(sync, "");
  }

  /** After the pushed files the client still has its own, and answers any part of the requests. */
  lemma SomeRequested(plan: Plan, sync: Folder, dir: Folder, clocks: set<Name>, slocks: set<Name>, asked: seq<Name>,
                      md5: Bytes -> string)
    requires PlanCovers(plan, sync, dir) && GoodFolder(sync) && GoodFolder(dir) && GoodDigests(md5)
    requires Distinct(asked) && forall n :: n in asked ==> n in plan.request
    ensures var mid := DepositAll(sync, dir, slocks, clocks, plan.push);
            var (after, replies) := ClientRun(PUSH, mid, clocks, Requests(asked), md5);
            after == mid && LandAll(UP, dir, slocks, replies) == DepositAll(dir, sync, clocks, slocks, asked)
  {
    var mid := DepositAll(sync, dir, slocks, clocks, plan.push);
    PlanToTransfer(plan, sync, dir);
    OwnFilesStay(plan, sync, dir, clocks, slocks);
    RequestsAnswered(PUSH, mid, sync, clocks, asked, md5, dir, slocks);
  }

  /** Carrying out a plan, whatever mutexes there are: each side has deposited the other's files. */
  lemma PlanOutcome(plan: Plan, sync: Folder, dir: Folder, clocks: set<Name>, slocks: set<Name>, md5: Bytes -> string)
    requires PlanCovers(plan, sync, dir) && GoodFolder(sync) && GoodFolder(dir) && GoodDigests(md5)
    ensures Completed(PUSH, plan, sync, dir, clocks, slocks, md5) == Outcomes(plan, sync, dir, clocks, slocks)
  {
    var pushed := FilesPackets(PUSH, dir, slocks, plan.push, md5);
    var mid := DepositAll(sync, dir, slocks, clocks, plan.push);
    PlanToTransfer(plan, sync, dir);
    PushesComplete(sync, dir, clocks, slocks, plan.push, md5);
    SomeRequested(plan, sync, dir, clocks, slocks, plan.request, md5);
    TwoPhases(sync, mid, clocks, pushed, Requests(plan.request), md5);
  }

  function Outcomes(plan: Plan, sync: Folder, dir: Folder, clocks: set<Name>, slocks: set<Name>): (Folder, Folder) {
    (DepositAll(sync, dir, slocks, clocks, plan.push), DepositAll(dir, sync, clocks, slocks, plan.request))
  }

  /** Both sides have a mutex for every file that only one of them has. */
  ghost predicate BothHaveMutexes(sync: Folder, dir: Folder, clocks: set<Name>, slocks: set<Name>) {
    forall n :: (n in sync || n in dir) && !(n in sync && n in dir) ==> n in clocks && n in slocks
  }

  /** Both sides end with all files of either side if and only if that is so. */
  lemma OutcomesConverge(plan: Plan, sync: Folder, dir: Folder, clocks: set<Name>, slocks: set<Name>)
    requires PlanCovers(plan, sync, dir) && GoodFolder(sync) && GoodFolder(dir)
    ensures Outcomes(plan, sync, dir, clocks, slocks) == (dir + sync, sync + dir)
       <==> BothHaveMutexes(sync, dir, clocks, slocks)
  {
    Exchanged(plan, sync, dir);
    if BothHaveMutexes(sync, dir, clocks, slocks) {
      AllArrive(sync, dir, slocks, clocks, plan.push);
      AllArrive(dir, sync, clocks, slocks, plan.request);
    } else {
      var n :| (n in sync || n in dir) && !(n in sync && n in dir) && !(n in clocks && n in slocks);
      if n in dir {
        SomeStay(sync, dir, slocks, clocks, plan.push, n);
      } else {
        SomeStay(dir, sync, clocks, slocks, plan.request, n);
      }
    }
  }

  lemma Exchanged(plan: Plan, sync: Folder, dir: Folder)
    requires PlanCovers(plan, sync, dir)
    ensures sync + Pick(dir, plan.push) == dir + sync
    ensures dir + Pick(sync, plan.request) == sync + dir
  {
  }

  /** What becomes of each file of either side, given the mutexes there are. */
  ghost predicate Reconciled(client: Folder, server: Folder, sync: Folder, dir: Folder, clocks: set<Name>,
                             slocks: set<Name>, n: Name) {
    var both := n in clocks && n in slocks;
    && (if n in dir && n !in sync && both then Shows(client, n, dir[n]) else SameAt(client, sync, n))
    && (if n in sync && n !in dir && both then Shows(server, n, sync[n]) else SameAt(server, dir, n))
    && (TempPath(n) in client <==> n in dir && n !in sync && n in slocks && n !in clocks)
    && (TempPath(n) in server <==> n in sync && n !in dir && n in clocks && n !in slocks)
  }

  /** Reconciliation, whatever mutexes there are: a file that one side lacks arrives there if both
      sides have a mutex for it, gets stuck in a temporary file without the receiver's, and is not sent
      without the sender's; all other files stay as they are, each side keeping its own version of a
      name both had. Both sides end with all files of either side if and only if both have a mutex for
      every file that only one of them has. */
  lemma Converges(server: seq<Name>, session: seq<Name>, sync: Folder, dir: Folder, clocks: set<Name>,
                  slocks: set<Name>, md5: Bytes -> string)
    requires Lists(server, dir) && Lists(session, sync)
    requires GoodFolder(sync) && GoodFolder(dir) && GoodDigests(md5)
    ensures var plan := ReadPlan(Listing(server), Listing(session));
            var (client, after) := Completed(PUSH, plan, sync, dir, clocks, slocks, md5);
            && (forall n :: !IsTempPath(n) ==> Reconciled(client, after, sync, dir, clocks, slocks, n))
            && (client == dir + sync && after == sync + dir <==> BothHaveMutexes(sync, dir, clocks, slocks))
  {
    var plan := ReadPlan(Listing(server), Listing(session));
    ListedPlanCovers(server, session, sync, dir);
    PlanOutcome(plan, sync, dir, clocks, slocks, md5);
    OutcomesConverge(plan, sync, dir, clocks, slocks);
    forall n | !IsTempPath(n)
      ensures var (client, after) := Outcomes(plan, sync, dir, clocks, slocks);
            Reconciled(client, after, sync, dir, clocks, slocks, n)
    {
      OutcomeAt(plan, sync, dir, clocks, slocks, n);
    }
  }

  lemma OutcomeAt(plan: Plan, sync: Folder, dir: Folder, clocks: set<Name>, slocks: set<Name>, n: Name)
    requires PlanCovers(plan, sync, dir) && GoodFolder(sync) && GoodFolder(dir) && !IsTempPath(n)
    ensures var (client, after) := Outcomes(plan, sync, dir, clocks, slocks);
            Reconciled(client, after, sync, dir, clocks, slocks, n)
  {
    GoodNames(sync, n);
    GoodNames(dir, n);
    DepositAllAt(sync, dir, slocks, clocks, plan.push, n);
    DepositAllAt(dir, sync, clocks, slocks, plan.request, n);
  }

  /** While the client takes what a plan queued, its synchronized folder never shows a partial file:
      after any number of packets each plain path shows what it did before or the server's file. */
  lemma PlanNeverPartial(plan: Plan, sync: Folder, dir: Folder, clocks: set<Name>, slocks: set<Name>,
                         md5: Bytes -> string, k: nat, path: string)
    requires PlanCovers(plan, sync, dir) && GoodFolder(sync) && GoodFolder(dir) && GoodDigests(md5)
    requires k <= |PlanPackets(PUSH, plan, dir, slocks, md5)| && !IsTempPath(path)
    ensures var ps := PlanPackets(PUSH, plan, dir, slocks, md5)[..k];
            SameOrSent(ClientRun(PUSH, sync, clocks, ps, md5).0, sync, dir, path)
  {
    var pushed := FilesPackets(PUSH, dir, slocks, plan.push, md5);
    PlanToTransfer(plan, sync, dir);
    if k <= |pushed| {
      assert (pushed + Requests(plan.request))[..k] == pushed[..k];
      PushesNeverPartial(sync, dir, clocks, slocks, plan.push, md5, k, path);
    } else {
      var asked := plan.request[..k - |pushed|];
      assert (pushed + Requests(plan.request))[..k] == pushed + Requests(asked);
      assert forall n :: n in asked ==> n in plan.request;
      PushesComplete(sync, dir, clocks, slocks, plan.push, md5);
      SomeRequested(plan, sync, dir, clocks, slocks, asked, md5);
      TwoPhases(sync, DepositAll(sync, dir, slocks, clocks, plan.push), clocks, pushed, Requests(asked), md5);
      DepositAllAt(sync, dir, slocks, clocks, plan.push, path);
    }
  }

  lemma PushesNeverPartial(sync: Folder, dir: Folder, clocks: set<Name>, slocks: set<Name>, names: seq<Name>,
                           md5: Bytes -> string, k: nat, path: string)
    requires GoodFolder(dir) && GoodDigests(md5) && ToTransfer(names, dir, sync)
    requires k <= |FilesPackets(PUSH, dir, slocks, names, md5)| && !IsTempPath(path)
    ensures var ps := FilesPackets(PUSH, dir, slocks, names, md5)[..k];
            SameOrSent(ClientRun(PUSH, sync, clocks, ps, md5).0, sync, dir, path)
  {
    var head := FilesPackets(PUSH, dir, slocks, names, md5)[..k];
    FilesShape(PUSH, dir, slocks, names, md5);
    DataOnly(PUSH, sync, clocks, head, md5);
    FilesNeverPartial(PUSH, sync, clocks, dir, slocks, names, md5, k, path);
  }

  /** After convergence a second plan, from any listings of the two folders, is empty, unless there are
      no files at all: then the server requests a file with an empty name. */
  lemma SecondPlanIsEmpty(server: seq<Name>, session: seq<Name>, sync: Folder, dir: Folder)
    requires GoodFolder(sync) && GoodFolder(dir)
    requires Lists(server, sync + dir) && Lists(session, dir + sync)
    ensures var plan := ReadPlan(Listing(server), Listing(session));
            plan.push == [] && (plan.request == [] <==> sync != map[] || dir != map[])
  {
    var plan := ReadPlan(Listing(server), Listing(session));
    ListedPlanCovers(server, session, dir + sync, sync + dir);
    EmptyOrNot(plan.push);
    EmptyOrNot(plan.request);
    assert dir + sync == map[] <==> sync == map[] && dir == map[] by {
      assert (dir + sync).Keys == dir.Keys + sync.Keys;
    }
    assert dir + sync == map[] ==> "" in plan.request;
  }

  lemma EmptyOrNot(names: seq<Name>)
    ensures names == [] <==> forall n :: n !in names
  {
    assert names != [] ==> names[0] in names;
  }

  /** As written, the server pushes under the verb of its own requests, which the client does not
      take as a file: the client's folder never changes. Whatever mutexes there are, the two sides have
      the same files afterwards exactly when there was nothing to push, and both have mutexes for all
      that was requested. */
  lemma ConvergesAsWritten(server: seq<Name>, session: seq<Name>, sync: Folder, dir: Folder, clocks: set<Name>,
                           slocks: set<Name>, md5: Bytes -> string)
    requires Lists(server, dir) && Lists(session, sync)
    requires GoodFolder(sync) && GoodFolder(dir) && GoodDigests(md5)
    ensures var plan := ReadPlan(Listing(server), Listing(session));
            var (client, after) := Completed(UP, plan, sync, dir, clocks, slocks, md5);
            && client == sync && after == DepositAll(dir, sync, clocks, slocks, plan.request)
            && (client.Keys == after.Keys <==>
                dir.Keys <= sync.Keys && forall n :: n in sync && n !in dir ==> n in clocks && n in slocks)
  {
    var plan := ReadPlan(Listing(server), Listing(session));
    ListedPlanCovers(server, session, sync, dir);
    PlanAsWritten(plan, sync, dir, clocks, slocks, md5);
    RequestedKeys(plan, sync, dir, clocks, slocks);
  }

  lemma RequestedKeys(plan: Plan, sync: Folder, dir: Folder, clocks: set<Name>, slocks: set<Name>)
    requires PlanCovers(plan, sync, dir) && GoodFolder(sync) && GoodFolder(dir)
    ensures sync.Keys == DepositAll(dir, sync, clocks, slocks, plan.request).Keys
       <==> dir.Keys <= sync.Keys && forall n :: n in sync && n !in dir ==> n in clocks && n in slocks
  {
    var after := DepositAll(dir, sync, clocks, slocks, plan.request);
    Exchanged(plan, sync, dir);
    if forall n :: n in sync && n !in dir ==> n in clocks && n in slocks {
      AllArrive(dir, sync, clocks, slocks, plan.request);
      assert (sync + dir).Keys == sync.Keys + dir.Keys;
    } else {
      var n :| n in sync && n !in dir && !(n in clocks && n in slocks);
      SomeStay(dir, sync, clocks, slocks, plan.request, n);
    }
  }

  lemma PlanAsWritten(plan: Plan, sync: Folder, dir: Folder, clocks: set<Name>, slocks: set<Name>, md5: Bytes -> string)
    requires PlanCovers(plan, sync, dir) && GoodFolder(sync) && GoodFolder(dir) && GoodDigests(md5)
    ensures Completed(UP, plan, sync, dir, clocks, slocks, md5)
         == (sync, DepositAll(dir, sync, clocks, slocks, plan.request))
  {
    var pushed := FilesPackets(UP, dir, slocks, plan.push, md5);
    FilesShape(UP, dir, slocks, plan.push, md5);
    DataOnly(PUSH, sync, clocks, pushed, md5);
    LandNothing(PUSH, sync, clocks, pushed);
    PlanToTransfer(plan, sync, dir);
    GoodNames(sync, "");
    RequestsAnswered(PUSH, sync, sync, clocks, plan.request, md5, dir, slocks);
    TwoPhases(sync, sync, clocks, pushed, Requests(plan.request), md5);
  }

  /** With the server's listing as written as well, which is always empty, the server takes itself
      for empty: it pushes nothing and requests every file of the session, whatever it has. The
      client's folder stays as it is. With both mutexes the server's own version of a name is
      overwritten; without any, as on the server as written, no file of the server changes. */
  lemma EmptyListingAsWritten(verb: string, session: seq<Name>, sync: Folder, dir: Folder, clocks: set<Name>,
                              slocks: set<Name>, md5: Bytes -> string)
    requires Lists(session, sync)
    requires GoodFolder(sync) && GoodFolder(dir) && GoodDigests(md5)
    ensures var plan := ReadPlan("", Listing(session));
            var (client, after) := Completed(verb, plan, sync, dir, clocks, slocks, md5);
            && plan.push == [] && client == sync
            && forall n :: !IsTempPath(n) ==>
                 && (if n in sync && n in clocks && n in slocks then Shows(after, n, sync[n])
                     else SameAt(after, dir, n))
                 && (TempPath(n) in after <==> n in sync && n in clocks && n !in slocks)
  {
    var plan := ReadPlan("", Listing(session));
    EmptyListingPlan(session, sync);
    forall n ensures TempPath(n) !in dir { GoodNames(dir, n); }
    GoodNames(sync, "");
    RequestsAnswered(PUSH, sync, sync, clocks, plan.request, md5, dir, slocks);
    assert PlanPackets(verb, plan, dir, slocks, md5) == Requests(plan.request);
    forall n | !IsTempPath(n)
      ensures Deposited(DepositAll(dir, sync, clocks, slocks, plan.request), dir, sync, clocks, slocks, plan.request, n)
    {
      DepositAllAt(dir, sync, clocks, slocks, plan.request, n);
    }
  }

  lemma EmptyListingPlan(session: seq<Name>, sync: Folder)
    requires Lists(session, sync) && GoodFolder(sync)
    ensures var plan := ReadPlan("", Listing(session));
            && plan.push == [] && Distinct(plan.request)
            && forall n :: n in plan.request <==> n in sync || (sync == map[] && n == "")
  {
    ListedPlanCovers([], session, sync, map[]);
    EmptyOrNot(ReadPlan("", Listing(session)).push);
  }
}
