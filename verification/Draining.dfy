/** Every deletion can come about: from every state of an account the packets under way can all be taken. */
module Draining {
  import opened Seqs
  import opened Codec
  import opened Framing
  import opened Transfer
  import Link
  import opened World
  import opened Deletion

  // ----- runs in which packets are taken, and nothing else -----

  ghost predicate Taking(actions: seq<Deletion.Action>) {
    forall a :: a in actions ==> a.ServerTakes? || a.ClientTakes?
  }

  ghost predicate Leads(w: Account, ws: seq<Account>, actions: seq<Deletion.Action>, v: Account) {
    Deletion.Run(ws, actions) && ws[0] == w && ws[|actions|] == v && Taking(actions)
  }

  ghost predicate CanGo(w: Account, v: Account) { exists ws, actions :: Leads(w, ws, actions, v) }

  lemma Stays(w: Account)
    ensures CanGo(w, w)
  {
    assert Leads(w, [w], [], w);
  }

  lemma GoesOn(w: Account, a: Deletion.Action, v: Account)
    requires Deletion.Enabled(w, a) && (a.ServerTakes? || a.ClientTakes?) && CanGo(Deletion.Do(w, a), v)
    ensures CanGo(w, v)
  {
    var ws, actions :| Leads(Deletion.Do(w, a), ws, actions, v);
    RunBefore(w, a, ws, actions);
    assert Leads(w, [w] + ws, [a] + actions, v);
  }

  lemma RunBefore(w: Account, a: Deletion.Action, ws: seq<Account>, actions: seq<Deletion.Action>)
    requires Deletion.Enabled(w, a) && Deletion.Run(ws, actions) && ws[0] == Deletion.Do(w, a)
    ensures Deletion.Run([w] + ws, [a] + actions)
  {
    var vs, all := [w] + ws, [a] + actions;
    forall i | 0 <= i < |all| ensures Deletion.Enabled(vs[i], all[i]) && vs[i + 1] == Deletion.Do(vs[i], all[i]) {
      if i > 0 {
        assert vs[i] == ws[i - 1] && all[i] == actions[i - 1];
      }
    }
  }

  lemma {:induction false} Then(w: Account, u: Account, v: Account, ws: seq<Account>, actions: seq<Deletion.Action>)
    requires Leads(w, ws, actions, u) && CanGo(u, v)
    ensures CanGo(w, v)
    decreases |actions|
  {
    if actions != [] {
      var a := actions[0];
      assert Deletion.Enabled(ws[0], a) && ws[1] == Deletion.Do(ws[0], a);
      assert Leads(ws[1], ws[1..], actions[1..], u);
      Then(ws[1], u, v, ws[1..], actions[1..]);
      GoesOn(w, a, v);
    }
  }

  lemma Joined(w: Account, u: Account, v: Account)
    requires CanGo(w, u) && CanGo(u, v)
    ensures CanGo(w, v)
  {
    var ws, actions :| Leads(w, ws, actions, u);
    Then(w, u, v, ws, actions);
  }

  // ----- one packet -----

  /** No packet to the server is a request. */
  ghost predicate Harmless(w: Account) {
    forall s, p :: s in w.peers && p in w.peers[s].up ==> RequestName("delete", p) == None
  }

  /** The server takes a packet: the other queues to it stay as they are, and all queues to the clients do if
      the packet is no request. */
  lemma ServerTook(w: Account, s: int)
    requires Deletion.Enabled(w, ServerTakes(s))
    ensures var v := Deletion.Do(w, ServerTakes(s));
            && v.peers.Keys == w.peers.Keys && v.peers[s].up == w.peers[s].up[1..]
            && (forall t :: t in w.peers && t != s ==> v.peers[t].up == w.peers[t].up)
            && (Harmless(w) ==> Harmless(v) && forall t :: t in w.peers ==> v.peers[t].down == w.peers[t].down)
  {
    var v := Deletion.Do(w, ServerTakes(s));
    assert DELETE == "delete";
    assert w.peers[s].up[0] in w.peers[s].up;
    assert forall p :: p in w.peers[s].up[1..] ==> p in w.peers[s].up;
  }

  /** A client takes a packet: only its own queues change, and its reply is no request. */
  lemma ClientTook(w: Account, s: int)
    requires Deletion.Enabled(w, ClientTakes(s)) && Harmless(w)
    ensures var v := Deletion.Do(w, ClientTakes(s));
            && v.peers.Keys == w.peers.Keys && v.peers[s].down == w.peers[s].down[1..] && Harmless(v)
            && forall t :: t in w.peers && t != s ==> v.peers[t].down == w.peers[t].down
  {
    var p := w.peers[s].down[0];
    assert DELETE == "delete";
    NamesFree(p);
    if Target(p).Some? {
      FailureTells(Target(p).value, NO_LOCAL_FILE);
      FailureTells(Target(p).value, NoMutex(Target(p).value));
    }
  }

  // ----- all packets -----

  ghost predicate UpEmpty(w: Account) { forall s :: s in w.peers ==> w.peers[s].up == [] }
  ghost predicate DownEmpty(w: Account) { forall s :: s in w.peers ==> w.peers[s].down == [] }

  ghost predicate SameDown(v: Account, w: Account) {
    forall t :: t in w.peers ==> t in v.peers && v.peers[t].down == w.peers[t].down
  }

  ghost function Waiting(w: Account): set<int> { set s | s in w.peers && w.peers[s].up != [] }
  ghost function Unread(w: Account): set<int> { set s | s in w.peers && w.peers[s].down != [] }

  lemma {:induction false} ServerTakesAll(w: Account, s: int) returns (v: Account)
    requires s in w.peers
    ensures CanGo(w, v) && v.peers.Keys == w.peers.Keys && v.peers[s].up == []
    ensures forall t :: t in w.peers && t != s ==> v.peers[t].up == w.peers[t].up
    ensures Harmless(w) ==> Harmless(v) && SameDown(v, w)
    decreases |w.peers[s].up|
  {
    if w.peers[s].up == [] {
      Stays(w);
      v := w;
    } else {
      ServerTook(w, s);
      v := ServerTakesAll(Deletion.Do(w, ServerTakes(s)), s);
      GoesOn(w, ServerTakes(s), v);
    }
  }

  lemma {:induction false} ServerTakesEverything(w: Account) returns (v: Account)
    ensures CanGo(w, v) && v.peers.Keys == w.peers.Keys && UpEmpty(v)
    ensures Harmless(w) ==> SameDown(v, w)
    decreases |Waiting(w)|
  {
    if s :| s in Waiting(w) {
      var u := ServerTakesAll(w, s);
      assert Waiting(u) == Waiting(w) - {s};
      v := ServerTakesEverything(u);
      Joined(w, u, v);
    } else {
      Stays(w);
      v := w;
      forall s | s in w.peers ensures w.peers[s].up == [] { assert s !in Waiting(w); }
    }
  }

  lemma {:induction false} ClientTakesAll(w: Account, s: int) returns (v: Account)
    requires s in w.peers && Harmless(w)
    ensures CanGo(w, v) && v.peers.Keys == w.peers.Keys && v.peers[s].down == [] && Harmless(v)
    ensures forall t :: t in w.peers && t != s ==> v.peers[t].down == w.peers[t].down
    decreases |w.peers[s].down|
  {
    if w.peers[s].down == [] {
      Stays(w);
      v := w;
    } else {
      ClientTook(w, s);
      v := ClientTakesAll(Deletion.Do(w, ClientTakes(s)), s);
      GoesOn(w, ClientTakes(s), v);
    }
  }

  lemma {:induction false} ClientsTakeEverything(w: Account) returns (v: Account)
    requires Harmless(w)
    ensures CanGo(w, v) && v.peers.Keys == w.peers.Keys && DownEmpty(v) && Harmless(v)
    decreases |Unread(w)|
  {
    if s :| s in Unread(w) {
      var u := ClientTakesAll(w, s);
      forall t ensures t in Unread(u) <==> t in Unread(w) - {s} {
        if t in w.peers && t != s { assert u.peers[t].down == w.peers[t].down; }
      }
      assert Unread(u) == Unread(w) - {s};
      v := ClientsTakeEverything(u);
      Joined(w, u, v);
    } else {
      Stays(w);
      v := w;
      forall s | s in w.peers ensures w.peers[s].down == [] { assert s !in Unread(w); }
    }
  }

  /** From every state all packets under way can be taken: the requests, then what the clients are told, then
      their replies, which are not answered. */
  lemma AllCanBeTaken(w: Account) returns (v: Account)
    ensures CanGo(w, v) && v.peers.Keys == w.peers.Keys && UpEmpty(v) && DownEmpty(v)
  {
    var a := ServerTakesEverything(w);
    var b := ClientsTakeEverything(a);
    v := ServerTakesEverything(b);
    Joined(w, a, b);
    Joined(w, b, v);
  }

  // ----- deletions -----

  /** The run begins with a user's request, and ends with all queues empty, without the file at the server, and
      at no client but those that keep it. */
  ghost predicate Deletes(w: Account, ws: seq<Account>, actions: seq<Deletion.Action>, s: int, args: string, n: Name) {
    && Deletion.Run(ws, actions) && ws[0] == w && actions != [] && actions[0] == Ask(s, args)
    && UpEmpty(ws[|actions|]) && DownEmpty(ws[|actions|]) && n !in ws[|actions|].server
    && forall t :: t in ws[|actions|].peers && n in ws[|actions|].peers[t].folder ==>
         t in w.peers && Keeps(w.peers[t], n)
  }

  /** When nothing is under way and nothing was, no packet about any file is. */
  lemma NothingUnderWay(w: Account, n: Name)
    requires UpEmpty(w) && DownEmpty(w) && w.accepted == [] && forall s :: s in w.peers ==> w.peers[s].taken == []
    ensures Quiet(w, n)
  {
  }

  /** Whatever else is under way, any user of the account can delete any file. */
  lemma EveryFileCanBeDeleted(w: Account, s: int, args: string, n: Name)
    requires s in w.peers && n == Unquoted(args) && Free(n, '|') && |n| <= 1016 && n in w.server && Quiet(w, n)
    ensures exists ws, actions :: Deletes(w, ws, actions, s, args, n)
  {
    var ask := Ask(s, args);
    var v := AllCanBeTaken(Deletion.Do(w, ask));
    var ws, actions :| Leads(Deletion.Do(w, ask), ws, actions, v);
    RunBefore(w, ask, ws, actions);
    OnlyTaking(ask, actions, n);
    assert ([w] + ws)[|actions| + 1] == v;
    AskedIsGone([w] + ws, [ask] + actions, 0, |actions| + 1, s, args, n);
    assert Deletes(w, [w] + ws, [ask] + actions, s, args, n);
  }

  lemma OnlyTaking(ask: Deletion.Action, actions: seq<Deletion.Action>, n: Name)
    requires ask.Ask? && Taking(actions)
    ensures Spared([ask] + actions, n) && forall a :: a in [ask] + actions ==> NoNew(a, n)
  {
    forall k | 0 <= k < |[ask] + actions| ensures !ChangesThere(([ask] + actions)[k], n) {
      if k > 0 { assert ([ask] + actions)[k] in actions; }
    }
  }

  // ----- everything else -----

  ghost predicate MayBe(w: Account, v: Account) {
    exists a :: Deletion.Enabled(w, a) && Deletion.Do(w, a) == v
  }

  ghost predicate DifferAt(a: Folder, b: Folder, n: Name) {
    forall m :: m != n ==> Link.SameAt(a, b, m)
  }

  /** At any time any file may change for another reason, at the server or at a client. */
  lemma FilesMayChange(w: Account, s: int, n: Name, folder: Folder)
    ensures DifferAt(w.server, folder, n) ==> MayBe(w, w.(server := folder))
    ensures s in w.peers && DifferAt(w.peers[s].folder, folder, n) ==>
      MayBe(w, w.(peers := w.peers[s := w.peers[s].(folder := folder)]))
  {
    var content := if n in folder then Some(folder[n]) else None;
    if DifferAt(w.server, folder, n) {
      IsSet(w.server, folder, n);
      assert Deletion.Enabled(w, ServerEdit(n, content));
    }
    if s in w.peers && DifferAt(w.peers[s].folder, folder, n) {
      IsSet(w.peers[s].folder, folder, n);
      assert Deletion.Enabled(w, Deletion.Edit(s, n, content));
    }
  }

  lemma IsSet(before: Folder, after: Folder, n: Name)
    requires DifferAt(before, after, n)
    ensures after == Set(before, n, if n in after then Some(after[n]) else None)
  {
    var made := Set(before, n, if n in after then Some(after[n]) else None);
    forall m ensures (m in made <==> m in after) && (m in made ==> made[m] == after[m]) {
      assert m != n ==> Link.SameAt(before, after, m);
    }
  }

  /** And any packet that is no deletion may be queued, in either direction. */
  lemma OthersMayCome(w: Account, s: int, p: Packet)
    requires s in w.peers && |p.command| < 1024 && Split(p.command)[0] != "delete"
    ensures MayBe(w, w.(peers := w.peers[s := w.peers[s].(up := w.peers[s].up + [p])]))
    ensures MayBe(w, w.(peers := w.peers[s := w.peers[s].(down := w.peers[s].down + [p])]))
  {
    assert DELETE == "delete";
    assert Deletion.Enabled(w, Deletion.OtherUp(s, p)) && Deletion.Enabled(w, Deletion.OtherDown(s, p));
  }
}
