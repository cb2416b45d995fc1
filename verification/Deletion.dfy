/** A user's delete request and how it reaches the server and the user's other sessions. */
module Deletion {
  import opened Seqs
  import opened Codec
  import opened Chunking
  import opened Framing
  import opened Transfer
  import Link
  import opened World

  /** One session: the client's synchronized folder and its mutexes, and the packets under way to
      and from the server. `taken` is history: what the client has received. */
  datatype Peer = Peer(folder: Folder, locks: set<Name>, up: seq<Packet>, down: seq<Packet>, taken: seq<Packet>)

  /** A user with all sessions, by socket. `accepted` is history: the callers of the accepted deletes,
      and the names. */
  datatype Account = Account(server: Folder, peers: map<int, Peer>, accepted: seq<(int, Name)>)

  const DELETE: string := "delete"

  datatype Action =
    /** the user of a session requests a deletion */
    | Ask(socket: int, args: string)
    /** a file changes for another reason: by its user, or by a transfer */
    | Edit(socket: int, name: Name, content: Option<Bytes>)
    | ServerEdit(name: Name, content: Option<Bytes>)
    /** some other packet is queued */
    | OtherUp(socket: int, p: Packet)
    | OtherDown(socket: int, p: Packet)
    | ServerTakes(socket: int)
    | ClientTakes(socket: int)

  predicate Unquote(c: char) { c != '\'' && c != '\"' }

  function Failure(n: Name, reason: string): Packet {
    Packet(DataCommand(DELETE, n, "fail"), 0, 0, reason)
  }

  const NO_SERVER_FILE: string := "Could not find or acess given file path!"
  const NO_LOCAL_FILE: string := "Given file was not found on user local machine."
  function NoMutex(n: Name): string { "No file mutex was found for \"" + n + "\"!" }

  function PushUp(peer: Peer, p: Packet): Peer {
    if |p.command| < COMMAND_FIELD then peer.(up := peer.up + [p]) else peer
  }

  function PushDown(peer: Peer, p: Packet): Peer {
    if |p.command| < COMMAND_FIELD then peer.(down := peer.down + [p]) else peer
  }

  /** A packet that was received is copied as it is. */
  function Tell(peer: Peer, p: Packet): Peer { peer.(down := peer.down + [p]) }

  function Set(folder: Folder, n: Name, content: Option<Bytes>): Folder {
    match content
    case None => folder - {n}
    case Some(c) => folder[n := c]
  }

  /** request_delete_: asks the server and deletes the local file. */
  function Asked(peer: Peer, n: Name): Peer {
    var p := Request(DELETE, n);
    if |p.command| >= COMMAND_FIELD then peer
    else if n !in peer.folder then PushUp(peer, p)
    else PushUp(peer.(folder := peer.folder - {n}, locks := peer.locks - {n}), p)
  }

  /** broadcast_other_sessions */
  function Broadcast(peers: map<int, Peer>, caller: int, p: Packet): map<int, Peer> {
    map s | s in peers :: if s == caller then peers[s] else Tell(peers[s], p)
  }

  /** client_requested_delete_ */
  function Handled(w: Account, caller: int, p: Packet): Account
    requires caller in w.peers
  {
    match RequestName(DELETE, p)
    case None => w
    case Some(n) =>
      if n !in w.server then w.(peers := w.peers[caller := PushDown(w.peers[caller], Failure(n, NO_SERVER_FILE))])
      else Account(w.server - {n}, Broadcast(w.peers, caller, p), w.accepted + [(caller, n)])
  }

  /** The file that a packet tells the client to delete. */
  function Target(p: Packet): Option<Name> {
    var tokens := Split(p.command);
    if |tokens| == 2 && tokens[0] == DELETE then Some(tokens[1])
    else if |tokens| == 3 && tokens[0] == DELETE && tokens[2] != "fail" then Some(tokens[1])
    else None
  }

  /** server_delete_file_command_: a file named "fail" is taken for a failure notice. */
  function Deleted(peer: Peer, p: Packet): Peer {
    match Target(p)
    case None => peer
    case Some(n) =>
      if n !in peer.folder then PushUp(peer, Failure(n, NO_LOCAL_FILE))
      else if n == "fail" then peer
      else if n in peer.locks then peer.(folder := peer.folder - {n})
      else PushUp(peer, Failure(n, NoMutex(n)))
  }

  function Took(peer: Peer): Peer
    requires peer.down != []
  {
    Deleted(peer.(down := peer.down[1..], taken := peer.taken + [peer.down[0]]), peer.down[0])
  }

  /** Not a deletion, by its command. */
  ghost predicate Other(p: Packet) { Split(p.command)[0] != DELETE }

  ghost predicate Enabled(w: Account, a: Action) {
    match a
    case Ask(s, args) => s in w.peers
    case Edit(s, n, c) => s in w.peers
    case ServerEdit(n, c) => true
    case OtherUp(s, p) => s in w.peers && Other(p)
    case OtherDown(s, p) => s in w.peers && Other(p)
    case ServerTakes(s) => s in w.peers && w.peers[s].up != []
    case ClientTakes(s) => s in w.peers && w.peers[s].down != []
  }

  function With(w: Account, s: int, peer: Peer): Account { w.(peers := w.peers[s := peer]) }

  function Do(w: Account, a: Action): Account
    requires Enabled(w, a)
  {
    match a
    case Ask(s, args) => With(w, s, Asked(w.peers[s], Unquoted(args)))
    case Edit(s, n, c) => With(w, s, w.peers[s].(folder := Set(w.peers[s].folder, n, c)))
    case ServerEdit(n, c) => w.(server := Set(w.server, n, c))
    case OtherUp(s, p) => With(w, s, PushUp(w.peers[s], p))
    case OtherDown(s, p) => With(w, s, PushDown(w.peers[s], p))
    case ServerTakes(s) => Handled(With(w, s, w.peers[s].(up := w.peers[s].up[1..])), s, w.peers[s].up[0])
    case ClientTakes(s) => With(w, s, Took(w.peers[s]))
  }

  ghost predicate Run(ws: seq<Account>, actions: seq<Action>) {
    && |ws| == |actions| + 1
    && forall i :: 0 <= i < |actions| ==> Enabled(ws[i], actions[i]) && ws[i + 1] == Do(ws[i], actions[i])
  }

  // ----- one name -----

  /** Nobody puts the file back. */
  ghost predicate NoNew(a: Action, n: Name) {
    !(a.Edit? && a.name == n && a.content.Some?) && !(a.ServerEdit? && a.name == n && a.content.Some?)
  }

  ghost predicate AsksFor(p: Packet, n: Name) { RequestName(DELETE, p) == Some(n) }
  ghost predicate Tells(p: Packet, n: Name) { Target(p) == Some(n) }

  ghost predicate Asking(peer: Peer, n: Name) { exists p :: p in peer.up && AsksFor(p, n) }
  ghost predicate Pending(peer: Peer, n: Name) { exists p :: p in peer.down && Tells(p, n) }

  /** The client has the file and will not delete it when told to: it has no mutex for it, or takes
      its name for a failure notice. */
  ghost predicate Keeps(peer: Peer, n: Name) { n in peer.folder && (n == "fail" || n !in peer.locks) }

  /** The file is gone, or the client has still to be told, or it will not listen. */
  ghost predicate Leaving(peer: Peer, n: Name) {
    n in peer.folder ==> Pending(peer, n) || Keeps(peer, n)
  }

  function Callers(accepted: seq<(int, Name)>, n: Name): seq<int> {
    if accepted == [] then [] else
      var (caller, m) := accepted[|accepted| - 1];
      Callers(accepted[..|accepted| - 1], n) + if m == n then [caller] else []
  }

  /** How many packets told a client to delete `n`. */
  function Told(ps: seq<Packet>, n: Name): nat {
    if ps == [] then 0 else
      Told(ps[..|ps| - 1], n) + if Target(ps[|ps| - 1]) == Some(n) then 1 else 0
  }

  ghost predicate PeerGood(peer: Peer, n: Name) {
    Asking(peer, n) ==> Leaving(peer, n)
  }

  ghost predicate PeerTold(peer: Peer, s: int, callers: seq<int>, n: Name) {
    && Told(peer.taken + peer.down, n) == (if callers == [] || callers[0] == s then 0 else 1)
    && (callers != [] ==> Leaving(peer, n))
  }

  ghost predicate Good(w: Account, n: Name) {
    var callers := Callers(w.accepted, n);
    && |callers| <= 1 && (callers != [] ==> n !in w.server)
    && (forall s :: s in w.peers ==> PeerGood(w.peers[s], n))
    && (forall s :: s in w.peers ==> PeerTold(w.peers[s], s, callers, n))
  }

  /** Before the deletion: no packet about `n` is under way. */
  ghost predicate Quiet(w: Account, n: Name) {
    Callers(w.accepted, n) == [] && forall s :: s in w.peers ==>
      && !Asking(w.peers[s], n) && Told(w.peers[s].taken + w.peers[s].down, n) == 0
  }

  lemma QuietGood(w: Account, n: Name)
    requires Quiet(w, n)
    ensures Good(w, n)
  {
  }

  // ----- commands -----

  lemma FailureTells(n: Name, reason: string)
    requires Free(n, BAR)
    ensures Target(Failure(n, reason)) == None && RequestName(DELETE, Failure(n, reason)) == None
  {
    FailureReads(DELETE, n);
  }

  lemma NamesFree(p: Packet)
    ensures Target(p).Some? ==> Free(Target(p).value, BAR)
    ensures RequestName(DELETE, p).Some? ==>
      Free(RequestName(DELETE, p).value, BAR) && Target(p) == RequestName(DELETE, p)
  {
    JoinOfSplit(p.command);
  }

  lemma ToldSnoc(ps: seq<Packet>, p: Packet, n: Name)
    ensures Told(ps + [p], n) == Told(ps, n) + if Target(p) == Some(n) then 1 else 0
  {
    assert (ps + [p])[..|ps|] == ps;
  }

  lemma CallersSnoc(accepted: seq<(int, Name)>, caller: int, m: Name, n: Name)
    ensures Callers(accepted + [(caller, m)], n) == Callers(accepted, n) + if m == n then [caller] else []
  {
    assert (accepted + [(caller, m)])[..|accepted|] == accepted;
  }

  // ----- one peer -----

  /** Queueing something downwards. */
  lemma DownKeeps(peer: Peer, s: int, callers: seq<int>, p: Packet, n: Name)
    requires PeerGood(peer, n) && PeerTold(peer, s, callers, n) && Target(p) != Some(n)
    ensures PeerGood(PushDown(peer, p), n) && PeerTold(PushDown(peer, p), s, callers, n)
  {
    if |p.command| < COMMAND_FIELD {
      Associate(peer.taken, peer.down, [p]);
      ToldSnoc(peer.taken + peer.down, p, n);
      MorePending(peer, p, n);
      assert PushDown(peer, p) == Tell(peer, p);
    }
  }

  lemma MorePending(peer: Peer, p: Packet, n: Name)
    ensures Pending(Tell(peer, p), n) <==> Pending(peer, n) || Tells(p, n)
  {
    assert forall q :: q in Tell(peer, p).down <==> q in peer.down || q == p;
  }

  /** Being told. */
  lemma TellKeeps(peer: Peer, s: int, caller: int, p: Packet, n: Name)
    requires PeerGood(peer, n) && PeerTold(peer, s, [], n) && Target(p) == Some(n) && s != caller
    ensures PeerGood(Tell(peer, p), n) && PeerTold(Tell(peer, p), s, [caller], n)
  {
    Associate(peer.taken, peer.down, [p]);
    ToldSnoc(peer.taken + peer.down, p, n);
    MorePending(peer, p, n);
  }

  lemma UpKeeps(peer: Peer, s: int, callers: seq<int>, p: Packet, n: Name)
    requires PeerGood(peer, n) && PeerTold(peer, s, callers, n)
    requires AsksFor(p, n) ==> n !in peer.folder
    ensures PeerGood(PushUp(peer, p), n) && PeerTold(PushUp(peer, p), s, callers, n)
  {
    var after := PushUp(peer, p);
    assert forall q :: q in after.up ==> q in peer.up || q == p;
    assert after.down == peer.down && after.taken == peer.taken && after.folder == peer.folder;
    assert Pending(after, n) <==> Pending(peer, n);
  }

  lemma FolderKeeps(peer: Peer, s: int, callers: seq<int>, folder: Folder, locks: set<Name>, n: Name)
    requires PeerGood(peer, n) && PeerTold(peer, s, callers, n)
    requires n in folder ==> n in peer.folder && (n in locks <==> n in peer.locks)
    ensures var after := peer.(folder := folder, locks := locks); PeerGood(after, n) && PeerTold(after, s, callers, n)
  {
    var after := peer.(folder := folder, locks := locks);
    assert Pending(after, n) <==> Pending(peer, n);
    assert Asking(after, n) <==> Asking(peer, n);
  }

  lemma PopUpKeeps(peer: Peer, s: int, callers: seq<int>, n: Name)
    requires PeerGood(peer, n) && PeerTold(peer, s, callers, n) && peer.up != []
    ensures var after := peer.(up := peer.up[1..]); PeerGood(after, n) && PeerTold(after, s, callers, n)
  {
    var after := peer.(up := peer.up[1..]);
    assert Pending(after, n) <==> Pending(peer, n);
  }

  lemma AskedKeeps(peer: Peer, s: int, callers: seq<int>, m: Name, n: Name)
    requires PeerGood(peer, n) && PeerTold(peer, s, callers, n)
    ensures PeerGood(Asked(peer, m), n) && PeerTold(Asked(peer, m), s, callers, n)
  {
    var p := Request(DELETE, m);
    RequestReads(DELETE, m);
    if |p.command| < COMMAND_FIELD {
      if m in peer.folder {
        FolderKeeps(peer, s, callers, peer.folder - {m}, peer.locks - {m}, n);
        UpKeeps(peer.(folder := peer.folder - {m}, locks := peer.locks - {m}), s, callers, p, n);
      } else {
        UpKeeps(peer, s, callers, p, n);
      }
    }
  }

  /** A client takes a packet: told to delete `n`, it does. */
  lemma TookKeeps(peer: Peer, s: int, callers: seq<int>, n: Name)
    requires PeerGood(peer, n) && PeerTold(peer, s, callers, n) && peer.down != []
    ensures PeerGood(Took(peer), n) && PeerTold(Took(peer), s, callers, n)
  {
    var p, rest := peer.down[0], peer.down[1..];
    var popped := peer.(down := rest, taken := peer.taken + [p]);
    NamesFree(p);
    Associate(peer.taken, [p], rest);
    assert peer.down == [p] + rest;
    assert popped.taken + popped.down == peer.taken + peer.down;
    if Target(p) == Some(n) {
      TookTold(popped, s, callers, p, n);
    } else {
      assert Pending(peer, n) ==> Pending(popped, n);
      assert Asking(popped, n) <==> Asking(peer, n);
      TookOther(popped, s, callers, p, n);
    }
  }

  lemma TookTold(peer: Peer, s: int, callers: seq<int>, p: Packet, n: Name)
    requires Told(peer.taken + peer.down, n) == (if callers == [] || callers[0] == s then 0 else 1)
    requires Target(p) == Some(n)
    ensures PeerGood(Deleted(peer, p), n) && PeerTold(Deleted(peer, p), s, callers, n)
  {
    NamesFree(p);
    FailureTells(n, NO_LOCAL_FILE);
    if n !in peer.folder {
      UpKeeps(peer, s, callers, Failure(n, NO_LOCAL_FILE), n);
    }
  }

  lemma TookOther(peer: Peer, s: int, callers: seq<int>, p: Packet, n: Name)
    requires PeerGood(peer, n) && PeerTold(peer, s, callers, n) && Target(p) != Some(n)
    ensures PeerGood(Deleted(peer, p), n) && PeerTold(Deleted(peer, p), s, callers, n)
  {
    NamesFree(p);
    if Target(p).Some? {
      var m := Target(p).value;
      FailureTells(m, NO_LOCAL_FILE);
      FailureTells(m, NoMutex(m));
      UpKeeps(peer, s, callers, Failure(m, NO_LOCAL_FILE), n);
      UpKeeps(peer, s, callers, Failure(m, NoMutex(m)), n);
      FolderKeeps(peer, s, callers, peer.folder - {m}, peer.locks, n);
    }
  }

  // ----- all sessions -----

  /** A step that only changes one peer. */
  lemma WithKeeps(w: Account, s: int, peer: Peer, n: Name)
    requires Good(w, n) && PeerGood(peer, n) && PeerTold(peer, s, Callers(w.accepted, n), n)
    ensures Good(With(w, s, peer), n)
  {
  }

  /** The server takes a request for another name, or for one it does not have. */
  lemma HandledOther(w: Account, caller: int, p: Packet, n: Name)
    requires Good(w, n) && caller in w.peers
    requires AsksFor(p, n) ==> n !in w.server
    ensures Good(Handled(w, caller, p), n)
  {
    NamesFree(p);
    if RequestName(DELETE, p).Some? {
      var m, callers := RequestName(DELETE, p).value, Callers(w.accepted, n);
      if m !in w.server {
        FailureTells(m, NO_SERVER_FILE);
        DownKeeps(w.peers[caller], caller, callers, Failure(m, NO_SERVER_FILE), n);
        WithKeeps(w, caller, PushDown(w.peers[caller], Failure(m, NO_SERVER_FILE)), n);
      } else {
        CallersSnoc(w.accepted, caller, m, n);
        assert callers + [] == callers;
        BroadcastOther(w.peers, caller, p, callers, n);
      }
    }
  }

  ghost predicate PeersGood(peers: map<int, Peer>, callers: seq<int>, n: Name) {
    forall s :: s in peers ==> PeerGood(peers[s], n) && PeerTold(peers[s], s, callers, n)
  }

  lemma BroadcastOther(peers: map<int, Peer>, caller: int, p: Packet, callers: seq<int>, n: Name)
    requires PeersGood(peers, callers, n) && Target(p) != Some(n)
    ensures PeersGood(Broadcast(peers, caller, p), callers, n)
  {
    forall s | s in peers && s != caller
      ensures PeerGood(Tell(peers[s], p), n) && PeerTold(Tell(peers[s], p), s, callers, n)
    {
      var peer := peers[s];
      Associate(peer.taken, peer.down, [p]);
      ToldSnoc(peer.taken + peer.down, p, n);
      MorePending(peer, p, n);
    }
  }

  /** The server accepts a request for `n`: all others are told, and the caller has no such file. */
  lemma HandledTells(w: Account, caller: int, p: Packet, n: Name)
    requires Good(w, n) && caller in w.peers && AsksFor(p, n) && n in w.server
    requires Leaving(w.peers[caller], n)
    ensures Good(Handled(w, caller, p), n) && Callers(Handled(w, caller, p).accepted, n) == [caller]
  {
    NamesFree(p);
    CallersSnoc(w.accepted, caller, n, n);
    assert Callers(w.accepted, n) == [];
    assert [] + [caller] == [caller];
    var after := Handled(w, caller, p);
    forall s | s in w.peers ensures PeerGood(after.peers[s], n) && PeerTold(after.peers[s], s, [caller], n) {
      if s != caller { TellKeeps(w.peers[s], s, caller, p, n); }
    }
  }

  lemma ServerTakesKeeps(w: Account, s: int, n: Name)
    requires Good(w, n) && Enabled(w, ServerTakes(s))
    ensures Good(Do(w, ServerTakes(s)), n)
  {
    var peer := w.peers[s];
    var p, popped := peer.up[0], peer.(up := peer.up[1..]);
    PopUpKeeps(peer, s, Callers(w.accepted, n), n);
    WithKeeps(w, s, popped, n);
    if AsksFor(p, n) && n in w.server {
      assert Asking(peer, n);
      assert Leaving(popped, n) by { assert Pending(popped, n) <==> Pending(peer, n); }
      HandledTells(With(w, s, popped), s, p, n);
    } else {
      HandledOther(With(w, s, popped), s, p, n);
    }
  }

  lemma DoKeeps(w: Account, a: Action, n: Name)
    requires Good(w, n) && Enabled(w, a) && NoNew(a, n)
    ensures Good(Do(w, a), n)
  {
    var callers := Callers(w.accepted, n);
    match a {
      case Ask(s, args) =>
        AskedKeeps(w.peers[s], s, callers, Unquoted(args), n);
      case Edit(s, m, c) =>
        FolderKeeps(w.peers[s], s, callers, Set(w.peers[s].folder, m, c), w.peers[s].locks, n);
      case ServerEdit(m, c) =>
      case OtherUp(s, p) => UpKeeps(w.peers[s], s, callers, p, n);
      case OtherDown(s, p) => DownKeeps(w.peers[s], s, callers, p, n);
      case ServerTakes(s) => ServerTakesKeeps(w, s, n);
      case ClientTakes(s) => TookKeeps(w.peers[s], s, callers, n);
    }
  }

  lemma {:induction false} RunKeeps(ws: seq<Account>, actions: seq<Action>, i: nat, n: Name)
    requires Run(ws, actions) && i < |ws| && Quiet(ws[0], n)
    requires forall a :: a in actions ==> NoNew(a, n)
    ensures Good(ws[i], n)
  {
    if i == 0 {
      QuietGood(ws[0], n);
    } else {
      RunKeeps(ws, actions, i - 1, n);
      DoKeeps(ws[i - 1], actions[i - 1], n);
    }
  }

  lemma {:induction false} NoNewKeeper(ws: seq<Account>, actions: seq<Action>, i: nat, n: Name, s: int)
    requires Run(ws, actions) && i < |ws| && forall a :: a in actions ==> NoNew(a, n)
    ensures ws[i].peers.Keys == ws[0].peers.Keys
    ensures s in ws[i].peers && Keeps(ws[i].peers[s], n) ==> Keeps(ws[0].peers[s], n)
  {
    if i > 0 {
      NoNewKeeper(ws, actions, i - 1, n, s);
      KeeperBefore(ws[i - 1], actions[i - 1], n, s);
    }
  }

  lemma KeeperBefore(w: Account, a: Action, n: Name, s: int)
    requires Enabled(w, a) && NoNew(a, n)
    ensures Do(w, a).peers.Keys == w.peers.Keys
    ensures s in w.peers && Keeps(Do(w, a).peers[s], n) ==> Keeps(w.peers[s], n)
  {
  }

  /** Delete propagation: over every run in which nobody puts the file back, however many sessions
      ask for its deletion, at most one request is accepted. Once it is, the server has no such file
      any more, each other session was told exactly once and the caller never. As soon as a session's
      queue is drained its client has no such file either, unless it is one that keeps it. */
  lemma DeletePropagates(ws: seq<Account>, actions: seq<Action>, i: nat, n: Name, caller: int)
    requires Run(ws, actions) && i < |ws| && Quiet(ws[0], n)
    requires forall a :: a in actions ==> NoNew(a, n)
    requires caller in Callers(ws[i].accepted, n)
    ensures ws[i].peers.Keys == ws[0].peers.Keys
    ensures Callers(ws[i].accepted, n) == [caller] && n !in ws[i].server
    ensures forall s :: s in ws[i].peers ==>
      && Told(ws[i].peers[s].taken + ws[i].peers[s].down, n) == (if s == caller then 0 else 1)
      && (ws[i].peers[s].down == [] && n in ws[i].peers[s].folder ==> Keeps(ws[0].peers[s], n))
  {
    RunKeeps(ws, actions, i, n);
    NoNewKeeper(ws, actions, i, n, caller);
    forall s | s in ws[i].peers && ws[i].peers[s].down == [] && n in ws[i].peers[s].folder
      ensures Keeps(ws[0].peers[s], n)
    {
      NoNewKeeper(ws, actions, i, n, s);
    }
  }

  /** The user of the session neither asks to delete the file nor changes it. */
  ghost predicate LeavesFile(a: Action, s: int, n: Name) {
    !(a.Ask? && a.socket == s && Unquoted(a.args) == n) && !(a.Edit? && a.socket == s && a.name == n)
  }

  /** And those do keep it: whatever it is told, such a client has the file until its own user
      removes it. */
  lemma {:induction false} KeeperKeeps(ws: seq<Account>, actions: seq<Action>, i: nat, n: Name, s: int)
    requires Run(ws, actions) && i < |ws| && s in ws[0].peers && Keeps(ws[0].peers[s], n)
    requires forall a :: a in actions ==> LeavesFile(a, s, n)
    ensures s in ws[i].peers && Keeps(ws[i].peers[s], n)
  {
    if i > 0 {
      KeeperKeeps(ws, actions, i - 1, n, s);
      KeeperAfter(ws[i - 1], actions[i - 1], n, s);
    }
  }

  lemma KeeperAfter(w: Account, a: Action, n: Name, s: int)
    requires Enabled(w, a) && LeavesFile(a, s, n) && s in w.peers && Keeps(w.peers[s], n)
    ensures s in Do(w, a).peers && Keeps(Do(w, a).peers[s], n)
  {
  }

  // ----- all other names -----

  ghost predicate LeftAlone(w: Account, init: Account, m: Name) {
    && w.peers.Keys == init.peers.Keys && Link.SameAt(w.server, init.server, m)
    && (forall s :: s in w.peers ==> PeerAlone(w.peers[s], init.peers[s].folder, m))
  }

  /** Nothing of the step is about `m`. */
  ghost predicate Elsewhere(a: Action, m: Name) {
    match a
    case Ask(s, args) => Unquoted(args) != m
    case Edit(s, n, c) => n != m
    case ServerEdit(n, c) => n != m
    case _ => true
  }

  /** The peer still has what `folder` has under `m`, and no packet about `m`. */
  ghost predicate PeerAlone(peer: Peer, folder: Folder, m: Name) {
    Link.SameAt(peer.folder, folder, m) && !Asking(peer, m) && !Pending(peer, m)
  }

  lemma UpAlone(peer: Peer, folder: Folder, p: Packet, m: Name)
    requires PeerAlone(peer, folder, m) && !AsksFor(p, m)
    ensures PeerAlone(PushUp(peer, p), folder, m)
  {
    assert forall q :: q in PushUp(peer, p).up ==> q in peer.up || q == p;
  }

  lemma TellAlone(peer: Peer, folder: Folder, p: Packet, m: Name)
    requires PeerAlone(peer, folder, m) && !Tells(p, m)
    ensures PeerAlone(Tell(peer, p), folder, m) && PeerAlone(PushDown(peer, p), folder, m)
  {
    MorePending(peer, p, m);
    assert PushDown(peer, p) == Tell(peer, p) || PushDown(peer, p) == peer;
  }

  lemma TookAlone(peer: Peer, folder: Folder, m: Name)
    requires PeerAlone(peer, folder, m) && peer.down != []
    ensures PeerAlone(Took(peer), folder, m)
  {
    var p := peer.down[0];
    var popped := peer.(down := peer.down[1..], taken := peer.taken + [p]);
    assert p in peer.down && !Tells(p, m);
    assert PeerAlone(popped, folder, m);
    NamesFree(p);
    if Target(p).Some? {
      var n := Target(p).value;
      FailureTells(n, NO_LOCAL_FILE);
      FailureTells(n, NoMutex(n));
      UpAlone(popped, folder, Failure(n, NO_LOCAL_FILE), m);
      UpAlone(popped, folder, Failure(n, NoMutex(n)), m);
    }
  }

  lemma HandledAlone(w: Account, init: Account, caller: int, p: Packet, m: Name)
    requires LeftAlone(w, init, m) && caller in w.peers && !AsksFor(p, m)
    ensures LeftAlone(Handled(w, caller, p), init, m)
  {
    NamesFree(p);
    if RequestName(DELETE, p).Some? {
      var n := RequestName(DELETE, p).value;
      FailureTells(n, NO_SERVER_FILE);
      TellAlone(w.peers[caller], init.peers[caller].folder, Failure(n, NO_SERVER_FILE), m);
      var after := Handled(w, caller, p);
      forall s | s in w.peers ensures PeerAlone(after.peers[s], init.peers[s].folder, m) {
        TellAlone(w.peers[s], init.peers[s].folder, p, m);
      }
    }
  }

  lemma StepAlone(w: Account, init: Account, a: Action, m: Name)
    requires LeftAlone(w, init, m) && Enabled(w, a) && Elsewhere(a, m)
    ensures LeftAlone(Do(w, a), init, m)
  {
    match a {
      case Ask(s, args) =>
        var n := Unquoted(args);
        RequestReads(DELETE, n);
        var peer := w.peers[s];
        UpAlone(peer, init.peers[s].folder, Request(DELETE, n), m);
        assert PeerAlone(peer.(folder := peer.folder - {n}, locks := peer.locks - {n}), init.peers[s].folder, m);
        UpAlone(peer.(folder := peer.folder - {n}, locks := peer.locks - {n}), init.peers[s].folder,
                Request(DELETE, n), m);
      case Edit(s, n, c) =>
        assert PeerAlone(w.peers[s].(folder := Set(w.peers[s].folder, n, c)), init.peers[s].folder, m);
      case ServerEdit(n, c) =>
      case OtherUp(s, p) => UpAlone(w.peers[s], init.peers[s].folder, p, m);
      case OtherDown(s, p) => TellAlone(w.peers[s], init.peers[s].folder, p, m);
      case ServerTakes(s) =>
        var peer := w.peers[s];
        assert peer.up[0] in peer.up && !AsksFor(peer.up[0], m);
        assert PeerAlone(peer.(up := peer.up[1..]), init.peers[s].folder, m);
        HandledAlone(With(w, s, peer.(up := peer.up[1..])), init, s, peer.up[0], m);
      case ClientTakes(s) => TookAlone(w.peers[s], init.peers[s].folder, m);
    }
  }

  /** Files that nobody asks to delete or changes stay as they are, at the server and at every
      client, whatever is deleted beside them. */
  lemma {:induction false} OthersUntouched(ws: seq<Account>, actions: seq<Action>, i: nat, m: Name)
    requires Run(ws, actions) && i < |ws| && LeftAlone(ws[0], ws[0], m)
    requires forall a :: a in actions ==> Elsewhere(a, m)
    ensures LeftAlone(ws[i], ws[0], m)
  {
    if i > 0 {
      OthersUntouched(ws, actions, i - 1, m);
      StepAlone(ws[i - 1], ws[0], actions[i - 1], m);
    }
  }

  /** When exactly a client that is told to delete its file does not: when it has no mutex for it, and
      when the file is called "fail". */
  lemma DeletesExactly(peer: Peer, n: Name)
    requires peer.down != [] && Target(peer.down[0]) == Some(n)
    ensures n in Took(peer).folder <==> n in peer.folder && (n == "fail" || n !in peer.locks)
    ensures forall m :: m != n ==> Link.SameAt(Took(peer).folder, peer.folder, m)
  {
  }

  // ----- what is sent -----

  /** The name in a user's request: the argument without quotes. */
  function Unquoted(args: string): Name { Filter(args, Unquote) }

  /** It has no quotes, an argument without any is taken as it is, and dropping one from an argument changes
      nothing. */
  lemma UnquotedMeans(a: string, b: string)
    ensures '\'' !in Unquoted(a) && '\"' !in Unquoted(a)
    ensures '\'' !in a && '\"' !in a ==> Unquoted(a) == a
    ensures Unquoted(a + "\'" + b) == Unquoted(a + b) && Unquoted(a + "\"" + b) == Unquoted(a + b)
  {
    if '\'' !in a && '\"' !in a { NothingToDrop(a); }
    FilterConcat(a, b, Unquote);
    QuoteDrops(a, b, '\'');
    QuoteDrops(a, b, '\"');
    assert "\'" == ['\''] && "\"" == ['\"'];
  }

  lemma QuoteDrops(a: string, b: string, q: char)
    requires !Unquote(q)
    ensures Unquoted(a + [q] + b) == Unquoted(a) + Unquoted(b)
  {
    FilterConcat(a + [q], b, Unquote);
    FilterSnoc(a, q, Unquote);
    assert Unquoted(a) + [] == Unquoted(a);
  }

  lemma {:induction false} NothingToDrop(a: string)
    requires '\'' !in a && '\"' !in a
    ensures Unquoted(a) == a
  {
    if a != "" {
      assert a[0] in a;
      NothingToDrop(a[1..]);
    }
  }

  /** One packet of these tokens went into a queue, and nothing else. */
  ghost predicate OneMore(before: seq<Packet>, after: seq<Packet>, tokens: seq<string>) {
    |after| == |before| + 1 && before <= after && Split(after[|before|].command) == tokens
  }

  ghost predicate OneFailure(before: seq<Packet>, after: seq<Packet>, n: Name, reason: string) {
    if |n| + 12 < 1024 then OneMore(before, after, ["delete", n, "fail"]) && after[|before|].payload == reason
    else after == before
  }

  /** A user's request: the packet goes out, unless it does not fit, and the local file goes with its
      mutex. */
  lemma AskSends(w: Account, s: int, args: string)
    requires Enabled(w, Ask(s, args)) && Free(Unquoted(args), '|')
    ensures var n, after := Unquoted(args), Do(w, Ask(s, args));
            var peer, peer' := w.peers[s], after.peers[s];
            && after == w.(peers := w.peers[s := peer'])
            && (if |n| + 7 < 1024 then OneMore(peer.up, peer'.up, ["delete", n]) else peer' == peer)
            && peer'.down == peer.down && peer'.taken == peer.taken
            && (|n| + 7 < 1024 ==> n !in peer'.folder && (n in peer.folder ==> n !in peer'.locks))
            && forall m :: m != n ==>
                 Link.SameAt(peer'.folder, peer.folder, m) && (m in peer'.locks <==> m in peer.locks)
  {
    RequestReads("delete", Unquoted(args));
    assert DELETE == "delete";
    AskedCommand(Unquoted(args));
  }

  lemma AskedCommand(n: Name)
    requires Free(n, '|')
    ensures Split(Request("delete", n).command) == ["delete", n] && |Request("delete", n).command| == |n| + 7
  {
    SplitCons("delete", n);
    SplitFreeOne(n);
  }

  lemma FailureMeans(before: seq<Packet>, n: Name, reason: string)
    requires Free(n, '|')
    ensures var p := Failure(n, reason);
            && |p.command| == |n| + 12 && p.payload == reason
            && OneMore(before, before + [p], ["delete", n, "fail"])
  {
    FailureReads("delete", n);
    JoinThree("delete", n, "fail");
    assert DELETE == "delete";
  }

  /** The server takes a request for a file it has: it is accepted, the file goes, each other session gets
      the packet as it is, and the caller nothing. */
  lemma TakenIsAccepted(w: Account, s: int, n: Name)
    requires Enabled(w, ServerTakes(s)) && Split(w.peers[s].up[0].command) == ["delete", n] && n in w.server
    ensures var p, after := w.peers[s].up[0], Do(w, ServerTakes(s));
            && after.server == w.server - {n} && after.accepted == w.accepted + [(s, n)]
            && after.peers.Keys == w.peers.Keys
            && after.peers[s] == w.peers[s].(up := w.peers[s].up[1..])
            && forall t :: t in w.peers && t != s ==> after.peers[t] == w.peers[t].(down := w.peers[t].down + [p])
  {
    assert DELETE == "delete";
  }

  /** The server takes a request for a file it does not have: the caller gets one failure. */
  lemma TakenIsRefused(w: Account, s: int, n: Name)
    requires Enabled(w, ServerTakes(s)) && Split(w.peers[s].up[0].command) == ["delete", n] && n !in w.server
    ensures var after := Do(w, ServerTakes(s));
            && after.server == w.server && after.accepted == w.accepted && after.peers.Keys == w.peers.Keys
            && after.peers[s] == w.peers[s].(up := w.peers[s].up[1..], down := after.peers[s].down)
            && OneFailure(w.peers[s].down, after.peers[s].down, n, "Could not find or acess given file path!")
            && forall t :: t in w.peers && t != s ==> after.peers[t] == w.peers[t]
  {
    assert DELETE == "delete";
    NamesFree(w.peers[s].up[0]);
    FailureMeans(w.peers[s].down, n, NO_SERVER_FILE);
  }

  /** What a client replies when it is told to delete a file: a failure when it does not have it, or has no
      mutex for it; nothing when it deletes it, nor when the file is called fail. */
  lemma DeletedReplies(peer: Peer, n: Name)
    requires peer.down != [] && Split(peer.down[0].command) == ["delete", n]
    ensures var after := Took(peer);
            && after.down == peer.down[1..] && after.taken == peer.taken + [peer.down[0]] && after.locks == peer.locks
            && (n !in peer.folder ==>
                  OneFailure(peer.up, after.up, n, "Given file was not found on user local machine."))
            && (n in peer.folder && n != "fail" && n !in peer.locks ==>
                  OneFailure(peer.up, after.up, n, "No file mutex was found for \"" + n + "\"!"))
            && (n in peer.folder && (n == "fail" || n in peer.locks) ==> after.up == peer.up)
  {
    var p := peer.down[0];
    assert DELETE == "delete";
    assert Target(p) == Some(n);
    NamesFree(p);
    FailureMeans(peer.up, n, NO_LOCAL_FILE);
    FailureMeans(peer.up, n, NoMutex(n));
  }

  /** A failure notice, or anything that is no deletion, changes nothing at the client but its queue. */
  lemma FailureIsIgnored(peer: Peer)
    requires peer.down != []
    requires var tokens := Split(peer.down[0].command);
             tokens[0] != "delete" || |tokens| == 1 || |tokens| > 3 || (|tokens| == 3 && tokens[2] == "fail")
    ensures Took(peer) == peer.(down := peer.down[1..], taken := peer.taken + [peer.down[0]])
  {
    assert DELETE == "delete";
  }

  // ----- over runs -----

  /** A packet under way to the server is taken, or still there. */
  lemma {:induction false} IsTaken(ws: seq<Account>, actions: seq<Action>, i: nat, s: int, pos: nat, j: nat)
    returns (k: nat)
    requires Run(ws, actions) && i <= j < |ws| && s in ws[i].peers && s in ws[j].peers
    requires pos < |ws[i].peers[s].up| && ws[j].peers[s].up == []
    ensures i <= k < j && actions[k] == ServerTakes(s) && s in ws[k].peers && ws[k].peers[s].up != []
    ensures ws[k].peers[s].up[0] == ws[i].peers[s].up[pos]
    decreases j - i
  {
    UpQueueMoves(ws[i], actions[i], s);
    if actions[i] == ServerTakes(s) && pos == 0 {
      k := i;
    } else {
      k := IsTaken(ws, actions, i + 1, s, if actions[i] == ServerTakes(s) then pos - 1 else pos, j);
    }
  }

  lemma UpQueueMoves(w: Account, a: Action, s: int)
    requires Enabled(w, a) && s in w.peers
    ensures s in Do(w, a).peers
    ensures (if a == ServerTakes(s) then w.peers[s].up[1..] else w.peers[s].up) <= Do(w, a).peers[s].up
  {
  }

  /** Something else changes the server's file. */
  predicate ChangesThere(a: Action, n: Name) { a.ServerEdit? && a.name == n }

  /** The server has the file, or accepted a request for its deletion. */
  ghost predicate Remains(w: Account, n: Name) { n in w.server || Callers(w.accepted, n) != [] }

  ghost predicate Accepted(w: Account, n: Name) { Callers(w.accepted, n) != [] }

  lemma RemainsStep(w: Account, a: Action, n: Name)
    requires Enabled(w, a)
    ensures Accepted(w, n) ==> Accepted(Do(w, a), n)
    ensures Remains(w, n) && !ChangesThere(a, n) ==> Remains(Do(w, a), n)
  {
    if a.ServerTakes? {
      var m := RequestName(DELETE, w.peers[a.socket].up[0]);
      if m.Some? { CallersSnoc(w.accepted, a.socket, m.value, n); }
    }
  }

  lemma StepOf(ws: seq<Account>, actions: seq<Action>, i: nat)
    requires Run(ws, actions) && i < |actions|
    ensures Enabled(ws[i], actions[i]) && ws[i + 1] == Do(ws[i], actions[i])
  {
  }

  ghost predicate Spared(actions: seq<Action>, n: Name) {
    forall k :: 0 <= k < |actions| ==> !ChangesThere(actions[k], n)
  }

  /** Acceptance is for good. */
  lemma {:induction false} StaysAccepted(ws: seq<Account>, actions: seq<Action>, i: nat, j: nat, n: Name)
    requires Run(ws, actions) && i <= j < |ws| && Accepted(ws[i], n)
    ensures Accepted(ws[j], n)
    decreases j - i
  {
    if i < j {
      StepOf(ws, actions, i);
      RemainsStep(ws[i], actions[i], n);
      StaysAccepted(ws, actions, i + 1, j, n);
    }
  }

  /** Without anyone else removing it a file leaves the server only by an accepted request. */
  lemma {:induction false} RemainsOrAccepted(ws: seq<Account>, actions: seq<Action>, i: nat, j: nat, n: Name)
    requires Run(ws, actions) && i <= j < |ws| && Remains(ws[i], n) && Spared(actions, n)
    ensures Remains(ws[j], n)
    decreases j - i
  {
    if i < j {
      StepOf(ws, actions, i);
      RemainsStep(ws[i], actions[i], n);
      RemainsOrAccepted(ws, actions, i + 1, j, n);
    }
  }

  /** A deletion that a user asks for comes about: once all queues are empty the server does not have the file
      any more, and no client has it but those that keep it; if the server had it when it was asked for, and
      nobody else removes it from there or puts it back. */
  lemma AskedIsGone(ws: seq<Account>, actions: seq<Action>, i: nat, j: nat, s: int, args: string, n: Name)
    requires Run(ws, actions) && i < j < |ws| && actions[i] == Ask(s, args) && n == Unquoted(args)
    requires Free(n, '|') && |n| + 7 < 1024 && n in ws[i].server && Quiet(ws[0], n)
    requires forall a :: a in actions ==> NoNew(a, n)
    requires Spared(actions, n)
    requires forall t :: t in ws[j].peers ==> ws[j].peers[t].up == [] && ws[j].peers[t].down == []
    ensures n !in ws[j].server && ws[j].peers.Keys == ws[0].peers.Keys
    ensures forall t :: t in ws[j].peers && n in ws[j].peers[t].folder ==> Keeps(ws[0].peers[t], n)
  {
    AskSends(ws[i], s, args);
    NoNewKeeper(ws, actions, i, n, s);
    NoNewKeeper(ws, actions, j, n, s);
    var k := IsTaken(ws, actions, i + 1, s, |ws[i].peers[s].up|, j);
    AcceptedThen(ws, actions, i, k, s, n);
    StaysAccepted(ws, actions, k + 1, j, n);
    var caller := Callers(ws[j].accepted, n)[0];
    DeletePropagates(ws, actions, j, n, caller);
  }

  lemma AcceptedThen(ws: seq<Account>, actions: seq<Action>, i: nat, k: nat, s: int, n: Name)
    requires Run(ws, actions) && i <= k < |actions| && actions[k] == ServerTakes(s)
    requires Split(ws[k].peers[s].up[0].command) == ["delete", n] && n in ws[i].server
    requires Spared(actions, n)
    ensures Accepted(ws[k + 1], n)
  {
    RemainsOrAccepted(ws, actions, i, k, n);
    if n in ws[k].server {
      TakenIsAccepted(ws[k], s, n);
      CallersSnoc(ws[k].accepted, s, n, n);
    } else {
      StaysAccepted(ws, actions, k, k + 1, n);
    }
  }

  // ----- the objects -----

  /** A client, as far as deletions go. */
  class Device {
    var folder: Folder
    var locks: set<Name>
    var outgoing: seq<Packet>

    constructor (folder: Folder, locks: set<Name>)
      ensures this.folder == folder && this.locks == locks && outgoing == []
    {
      this.folder, this.locks, outgoing := folder, locks, [];
    }

    /** This client among the packets under way to it. */
    ghost function State(down: seq<Packet>, taken: seq<Packet>): Peer
      reads this
    {
      Peer(folder, locks, outgoing, down, taken)
    }

    method Send(p: Packet)
      modifies this`outgoing
      ensures outgoing == if |p.command| < COMMAND_FIELD then old(outgoing) + [p] else old(outgoing)
    {
      if |p.command| < COMMAND_FIELD {
        outgoing := outgoing + [p];
      }
    }

    /** request_delete_ */
    method RequestDelete(args: string)
      modifies this
      ensures forall down, taken :: State(down, taken) == Asked(old(State(down, taken)), Unquoted(args))
      ensures var n := Unquoted(args);
              Free(n, '|') && |n| + 7 < 1024 ==> OneMore(old(outgoing), outgoing, ["delete", n]) && n !in folder
    {
      var filePath := Unquoted(args);
      assert DELETE == "delete";
      if Free(filePath, '|') { AskedCommand(filePath); }
      var request := Request(DELETE, filePath);
      if |request.command| >= COMMAND_FIELD {
        return;
      }
      Send(request);
      if filePath !in folder {
        return;
      }
      folder := folder - {filePath};
      locks := locks - {filePath};
    }

    /** server_delete_file_command_ for a received packet. */
    method ServerDeleteFile(p: Packet)
      modifies this
      ensures forall down, taken :: State(down, taken) == Deleted(old(State(down, taken)), p)
    {
      var tokens := Split(p.command);
      if tokens[0] != DELETE || |tokens| < 2 || |tokens| > 3 || (|tokens| == 3 && tokens[2] == "fail") {
        return;
      }
      var n := tokens[1];
      if n !in folder {
        Send(Failure(n, NO_LOCAL_FILE));
      } else if n == "fail" {
        return;
      } else if n in locks {
        folder := folder - {n};
      } else {
        Send(Failure(n, NoMutex(n)));
      }
    }
  }

  /** The server's side: a user's folder and, for every session in the list, the queue towards its
      client. */
  class ServerUser {
    var folder: Folder
    var sessions: seq<int>
    var queues: map<int, seq<Packet>>

    ghost predicate Valid()
      reads this
    {
      Distinct(sessions) && forall s :: s in sessions <==> s in queues
    }

    constructor (folder: Folder)
      ensures Valid() && this.folder == folder && sessions == []
    {
      this.folder, sessions, queues := folder, [], map[];
    }

    /** broadcast_other_sessions: one pass over the list. Because the sockets in it are distinct,
        each other session gets the packet exactly once. */
    method BroadcastOthers(caller: int, p: Packet)
      requires Valid()
      modifies this`queues
      ensures Valid()
      ensures queues == Queued(old(queues), caller, p, sessions)
    {
      for i := 0 to |sessions|
        invariant queues == Queued(old(queues), caller, p, sessions[..i])
      {
        var session := sessions[i];
        QueuedStep(old(queues), caller, p, sessions, i);
        if session != caller {
          queues := queues[session := queues[session] + [p]];
        }
      }
      assert sessions[..|sessions|] == sessions;
    }

    /** client_requested_delete_, with the file's mutex created on demand. */
    method RequestedDelete(caller: int, n: Name, p: Packet)
      requires Valid() && caller in sessions
      modifies this`folder, this`queues
      ensures Valid()
      ensures n in old(folder) ==> folder == old(folder) - {n} && queues == Queued(old(queues), caller, p, sessions)
      ensures n !in old(folder) ==> folder == old(folder)
      ensures n !in old(folder) ==>
        queues == if |Failure(n, NO_SERVER_FILE).command| < COMMAND_FIELD
                  then old(queues)[caller := old(queues)[caller] + [Failure(n, NO_SERVER_FILE)]] else old(queues)
    {
      if n !in folder {
        var failure := Failure(n, NO_SERVER_FILE);
        if |failure.command| < COMMAND_FIELD {
          queues := queues[caller := queues[caller] + [failure]];
        }
      } else {
        BroadcastOthers(caller, p);
        folder := folder - {n};
      }
    }
  }

  /** One copy of `p` for each of `done` other than the caller. */
  function Queued(queues: map<int, seq<Packet>>, caller: int, p: Packet, done: seq<int>): map<int, seq<Packet>> {
    map s | s in queues :: if s in done && s != caller then queues[s] + [p] else queues[s]
  }

  lemma QueuedStep(queues: map<int, seq<Packet>>, caller: int, p: Packet, sessions: seq<int>, i: nat)
    requires i < |sessions| && Distinct(sessions) && forall s :: s in sessions <==> s in queues
    ensures var before, s := Queued(queues, caller, p, sessions[..i]), sessions[i];
            && s in before
            && Queued(queues, caller, p, sessions[..i + 1])
               == if s != caller then before[s := before[s] + [p]] else before
  {
    assert sessions[i] in sessions && sessions[i] !in sessions[..i];
    assert sessions[..i + 1] == sessions[..i] + [sessions[i]];
  }

  function Queues(peers: map<int, Peer>): map<int, seq<Packet>> {
    map s | s in peers :: peers[s].down
  }

  /** What the server object does to its queues and folder is what happens to the account. */
  lemma HandledQueues(w: Account, caller: int, p: Packet, n: Name, sessions: seq<int>)
    requires caller in w.peers && RequestName(DELETE, p) == Some(n)
    requires forall s :: s in sessions <==> s in w.peers
    ensures n in w.server ==>
      && Handled(w, caller, p).server == w.server - {n}
      && Queues(Handled(w, caller, p).peers) == Queued(Queues(w.peers), caller, p, sessions)
    ensures n !in w.server ==>
      && Handled(w, caller, p).server == w.server
      && Queues(Handled(w, caller, p).peers)
         == Queues(w.peers)[caller := PushDown(w.peers[caller], Failure(n, NO_SERVER_FILE)).down]
  {
  }
}
