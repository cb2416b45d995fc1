/** The registry of users and their sessions: logins, removals and unloads. */
module Registry {
  import opened Seqs

  /** A session is known by its socket. */
  datatype Session = Session(socket: int, machine: string)
  datatype Record = Record(name: string, sessions: seq<Session>)

  /** The limit that a login is checked against, and max_sessions_ of a user. */
  const SESSION_LIMIT: nat := 2
  const MAX_SESSIONS: nat := 2

  datatype Confirmation = Delivered | Failed

  datatype Event =
    /** a new connection; its confirmation may fail to be sent */
    | Login(socket: int, name: string, machine: string, confirmation: Confirmation)
    | Remove(name: string, socket: int)
    /** a removal with the test as it is written */
    | RemoveAsWritten(name: string, socket: int)
    | Unload(name: string)

  /** The first record of that name, or |records|. */
  function Find(records: seq<Record>, name: string): (i: nat)
    ensures i <= |records| && (i < |records| ==> records[i].name == name)
    ensures forall j :: 0 <= j < i ==> records[j].name != name
  {
    var names := seq(|records|, i requires 0 <= i < |records| => records[i].name);
    var i := PositionOf(names, name);
    assert forall j :: 0 <= j < |records| ==> names[j] == records[j].name;
    i
  }

  lemma FindUnique(records: seq<Record>, name: string, i: nat)
    requires i <= |records| && (i < |records| ==> records[i].name == name)
    requires forall j :: 0 <= j < i ==> records[j].name != name
    ensures Find(records, name) == i
  {
  }

  predicate HasSocket(sessions: seq<Session>, socket: int) {
    exists i :: 0 <= i < |sessions| && sessions[i].socket == socket
  }

  function SessionsOf(records: seq<Record>, name: string): seq<Session> {
    var i := Find(records, name);
    if i < |records| then records[i].sessions else []
  }

  /** get_user, and load_user when there is none. */
  function Loaded(records: seq<Record>, name: string): seq<Record> {
    if Find(records, name) < |records| then records else records + [Record(name, [])]
  }

  function Update(records: seq<Record>, name: string, sessions: seq<Session>): (updated: seq<Record>)
    ensures |updated| == |records|
  {
    var i := Find(records, name);
    if i < |records| then records[i := Record(name, sessions)] else records
  }

  predicate Accepts(sessions: seq<Session>, socket: int, confirmation: Confirmation) {
    |sessions| < SESSION_LIMIT && !HasSocket(sessions, socket) && confirmation == Delivered
  }

  /** The position of a socket, or |sessions|. */
  function SocketAt(sessions: seq<Session>, socket: int): (i: nat)
    ensures i <= |sessions| && (i < |sessions| ==> sessions[i].socket == socket)
    ensures forall j :: 0 <= j < i ==> sessions[j].socket != socket
  {
    var sockets := seq(|sessions|, i requires 0 <= i < |sessions| => sessions[i].socket);
    var i := PositionOf(sockets, socket);
    assert forall j :: 0 <= j < |sessions| ==> sockets[j] == sessions[j].socket;
    i
  }

  function Without(sessions: seq<Session>, socket: int): seq<Session> {
    var i := SocketAt(sessions, socket);
    if i < |sessions| then sessions[..i] + sessions[i + 1..] else sessions
  }

  function Step(records: seq<Record>, e: Event): seq<Record> {
    match e
    case Login(socket, name, machine, confirmation) =>
      var loaded := Loaded(records, name);
      var sessions := SessionsOf(loaded, name);
      if !Accepts(sessions, socket, confirmation) then loaded
      else Update(loaded, name, sessions + [Session(socket, machine)])
    case Remove(name, socket) => Update(records, name, Without(SessionsOf(records, name), socket))
    case RemoveAsWritten(name, socket) => records
    case Unload(name) =>
      var i := Find(records, name);
      if i < |records| then records[..i] + records[i + 1..] else records
  }

  function After(events: seq<Event>): seq<Record> {
    if events == [] then [] else Step(After(events[..|events| - 1]), events[|events| - 1])
  }

  // ----- the invariant -----

  ghost predicate DistinctSockets(sessions: seq<Session>) {
    forall i, j :: 0 <= i < j < |sessions| ==> sessions[i].socket != sessions[j].socket
  }

  ghost predicate GoodRecord(r: Record) { |r.sessions| <= 2 && DistinctSockets(r.sessions) }

  ghost predicate Good(records: seq<Record>) {
    && (forall i, j :: 0 <= i < j < |records| ==> records[i].name != records[j].name)
    && (forall i :: 0 <= i < |records| ==> GoodRecord(records[i]))
  }

  lemma WithoutGood(sessions: seq<Session>, socket: int)
    requires |sessions| <= 2 && DistinctSockets(sessions)
    ensures |Without(sessions, socket)| <= 2 && DistinctSockets(Without(sessions, socket))
    ensures !HasSocket(Without(sessions, socket), socket)
    ensures forall s :: s in Without(sessions, socket) <==> s in sessions && s.socket != socket
  {
    var i := SocketAt(sessions, socket);
    if i < |sessions| {
      assert sessions == sessions[..i] + [sessions[i]] + sessions[i + 1..];
    }
  }

  lemma UpdateGood(records: seq<Record>, name: string, sessions: seq<Session>)
    requires Good(records) && GoodRecord(Record(name, sessions))
    ensures Good(Update(records, name, sessions))
  {
  }

  lemma LoadedFinds(records: seq<Record>, name: string)
    ensures var loaded := Loaded(records, name);
            && Find(loaded, name) == Find(records, name) < |loaded|
            && SessionsOf(loaded, name) == SessionsOf(records, name)
  {
    FindUnique(Loaded(records, name), name, Find(records, name));
  }

  lemma LoadedGood(records: seq<Record>, name: string)
    requires Good(records)
    ensures Good(Loaded(records, name)) && Find(Loaded(records, name), name) < |Loaded(records, name)|
    ensures forall other :: SessionsOf(Loaded(records, name), other) == SessionsOf(records, other)
  {
    var loaded := Loaded(records, name);
    forall other ensures SessionsOf(loaded, other) == SessionsOf(records, other) {
      var i := Find(records, other);
      if i < |records| || other != name {
        FindUnique(loaded, other, if i < |records| then i else |loaded|);
      } else {
        FindUnique(loaded, other, |records|);
      }
    }
    LoadedFinds(records, name);
  }

  lemma StepKeeps(records: seq<Record>, e: Event)
    requires Good(records)
    ensures Good(Step(records, e))
  {
    match e {
      case Login(socket, name, machine, confirmation) =>
        LoadedGood(records, name);
        var loaded := Loaded(records, name);
        var sessions := SessionsOf(loaded, name);
        if Accepts(sessions, socket, confirmation) {
          assert GoodRecord(loaded[Find(loaded, name)]);
          UpdateGood(loaded, name, sessions + [Session(socket, machine)]);
        }
      case Remove(name, socket) =>
        if Find(records, name) < |records| {
          WithoutGood(SessionsOf(records, name), socket);
          UpdateGood(records, name, Without(SessionsOf(records, name), socket));
        }
      case RemoveAsWritten(name, socket) =>
      case Unload(name) =>
    }
  }

  /** In every state of every run each name has one record, with at most two sessions on distinct
      sockets. */
  lemma {:induction false} AlwaysGood(events: seq<Event>)
    ensures Good(After(events))
  {
    if events != [] {
      AlwaysGood(events[..|events| - 1]);
      StepKeeps(After(events[..|events| - 1]), events[|events| - 1]);
    }
  }

  lemma UpdateReads(records: seq<Record>, name: string, sessions: seq<Session>, other: string)
    requires Find(records, name) < |records|
    ensures SessionsOf(Update(records, name, sessions), other)
         == if other == name then sessions else SessionsOf(records, other)
  {
    FindUnique(Update(records, name, sessions), other, Find(records, other));
  }

  /** Fewer than two sessions, and none of them on this socket. */
  ghost predicate Admits(sessions: seq<Session>, socket: int) {
    |sessions| < 2 && forall s :: s in sessions ==> s.socket != socket
  }

  /** The names that have a record, in order. */
  function Names(records: seq<Record>): (names: seq<string>)
    ensures |names| == |records|
  {
    seq(|records|, i requires 0 <= i < |records| => records[i].name)
  }

  /** What each event does to the names: a login makes a record for a new one, an unload leaves none of
      that name and keeps the others in order, a removal changes nothing. */
  lemma StepNames(records: seq<Record>, e: Event)
    requires Good(records)
    ensures var before, after := Names(records), Names(Step(records, e));
            match e
            case Login(socket, name, machine, confirmation) =>
              after == if name in before then before else before + [name]
            case Unload(name) => name !in after && after == Filter(before, n => n != name)
            case _ => after == before
  {
    if e.Unload? {
      UnloadNames(records, e.name);
    } else if e.Login? {
      var i, names := Find(records, e.name), Names(records);
      if i < |records| { assert names[i] == e.name; }
    }
  }

  lemma UnloadNames(records: seq<Record>, name: string)
    requires Good(records)
    ensures Names(Step(records, Unload(name))) == Filter(Names(records), n => n != name)
  {
    var i, names := Find(records, name), Names(records);
    if i < |records| {
      assert Names(Step(records, Unload(name))) == names[..i] + names[i + 1..];
      OneDropped(names, i, name);
    } else {
      AllKept(names, n => n != name);
    }
  }

  lemma {:induction false} OneDropped(names: seq<string>, i: nat, name: string)
    requires i < |names| && forall j :: 0 <= j < |names| ==> (names[j] == name <==> j == i)
    ensures Filter(names, n => n != name) == names[..i] + names[i + 1..]
  {
    if i == 0 {
      AllKept(names[1..], n => n != name);
    } else {
      OneDropped(names[1..], i - 1, name);
      assert names[..i] == [names[0]] + names[1..][..i - 1];
    }
  }

  lemma {:induction false} AllKept(names: seq<string>, keep: string -> bool)
    requires forall n :: n in names ==> keep(n)
    ensures Filter(names, keep) == names
  {
    if names != [] { AllKept(names[1..], keep); }
  }

  /** What a login does to all session lists: an accepted one appends its session to its user's,
      a refused one changes none. */
  lemma LoginEffect(records: seq<Record>, socket: int, name: string, machine: string, confirmation: Confirmation,
                    other: string)
    requires Good(records)
    ensures var login := Login(socket, name, machine, confirmation);
            var before, after := SessionsOf(records, other), SessionsOf(Step(records, login), other);
            after == if other == name && Admits(before, socket) && confirmation == Delivered
                     then before + [Session(socket, machine)] else before
  {
    LoadedGood(records, name);
    var loaded := Loaded(records, name);
    UpdateReads(loaded, name, SessionsOf(loaded, name) + [Session(socket, machine)], other);
  }

  /** A removal takes exactly the sessions on that socket from its user. */
  lemma RemoveEffect(records: seq<Record>, name: string, socket: int, other: string)
    requires Good(records)
    ensures var before, after := SessionsOf(records, other), SessionsOf(Step(records, Remove(name, socket)), other);
            && (other != name ==> after == before)
            && (other == name ==> !HasSocket(after, socket))
            && (other == name ==> forall s :: s in after <==> s in before && s.socket != socket)
  {
    if Find(records, name) < |records| {
      assert GoodRecord(records[Find(records, name)]);
      WithoutGood(SessionsOf(records, name), socket);
      UpdateReads(records, name, Without(SessionsOf(records, name), socket), other);
    }
  }

  /** As long as nothing is removed as intended, a user with two sessions stays as it is and every
      login for it is refused, however many removals as written there are: with these alone such a
      user is shut out for good, short of an unload. */
  lemma {:induction false} ShutOut(before: seq<Event>, after: seq<Event>, name: string)
    requires Full(before, name)
    requires forall e :: e in after ==> LeavesAlone(e, name)
    ensures SameSessions(before, before + after, name) && Full(before + after, name)
    decreases |after|
  {
    if after == [] {
      assert before + after == before;
    } else {
      var most, e := after[..|after| - 1], after[|after| - 1];
      ShutOut(before, most, name);
      StaysFull(before + most, e, name);
      ConcatSnoc(before, after);
    }
  }

  ghost predicate SameSessions(a: seq<Event>, b: seq<Event>, name: string) {
    SessionsOf(After(a), name) == SessionsOf(After(b), name)
  }

  /** After these events every login of the user is refused for the number of sessions. */
  ghost predicate Full(events: seq<Event>, name: string) {
    |SessionsOf(After(events), name)| == 2
  }

  ghost predicate LeavesAlone(e: Event, name: string) {
    !(e.Remove? && e.name == name) && !(e.Unload? && e.name == name)
  }

  lemma StaysFull(events: seq<Event>, e: Event, name: string)
    requires Full(events, name) && LeavesAlone(e, name)
    ensures SameSessions(events, events + [e], name) && Full(events + [e], name)
  {
    assert (events + [e])[..|events|] == events;
    AlwaysGood(events);
    StepElsewhere(After(events), e, name);
  }

  lemma StepElsewhere(records: seq<Record>, e: Event, name: string)
    requires Good(records) && |SessionsOf(records, name)| == 2
    requires LeavesAlone(e, name)
    ensures SessionsOf(Step(records, e), name) == SessionsOf(records, name)
  {
    match e {
      case Login(socket, user, machine, confirmation) =>
        LoginEffect(records, socket, user, machine, confirmation, name);
      case Remove(user, socket) =>
        if Find(records, user) < |records| {
          UpdateReads(records, user, Without(SessionsOf(records, user), socket), name);
        }
      case RemoveAsWritten(user, socket) =>
      case Unload(user) => UnloadReads(records, user, name);
    }
  }

  lemma UnloadReads(records: seq<Record>, user: string, name: string)
    requires Good(records) && user != name
    ensures SessionsOf(Step(records, Unload(user)), name) == SessionsOf(records, name)
  {
    var i, k, after := Find(records, user), Find(records, name), Step(records, Unload(user));
    if i < |records| {
      FindUnique(after, name, if k < i then k else k - 1);
    }
  }

  // ----- add_session on its own -----

  /** add_session: its guard admits one session more than the limit. */
  function Added(sessions: seq<Session>, s: Session): seq<Session> {
    if |sessions| <= MAX_SESSIONS then sessions + [s] else sessions
  }

  function AddedAll(sessions: seq<Session>, more: seq<Session>): seq<Session>
    decreases |more|
  {
    if more == [] then sessions else AddedAll(Added(sessions, more[0]), more[1..])
  }

  /** Without the guard of the login, a user gets three sessions: adding any list keeps its first
      three. The limit of two rests on the login alone. */
  lemma {:induction false} AddKeepsThree(sessions: seq<Session>, more: seq<Session>)
    requires |sessions| <= 3
    ensures AddedAll(sessions, more) == if |sessions + more| <= 3 then sessions + more else (sessions + more)[..3]
    decreases |more|
  {
    if more == [] {
      assert sessions + more == sessions;
    } else {
      AddKeepsThree(Added(sessions, more[0]), more[1..]);
      assert sessions + more == (sessions + [more[0]]) + more[1..];
      if |sessions| == 3 {
        assert (sessions + more)[..3] == sessions == (sessions + more[1..])[..3];
        assert |more| == 1 ==> sessions + more[1..] == sessions;
      }
    }
  }

  // ----- the objects -----

  class User {
    const name: string
    var sessions: seq<Session>

    constructor (name: string)
      ensures this.name == name && sessions == []
    {
      this.name := name;
      sessions := [];
    }

    method AddSession(s: Session) returns (ok: bool)
      modifies this
      ensures sessions == Added(old(sessions), s) && (ok <==> |old(sessions)| <= 2)
    {
      ok := |sessions| <= MAX_SESSIONS;
      if ok {
        sessions := sessions + [s];
      }
    }

    method GetSession(socket: int) returns (s: Option<Session>)
      ensures s.Some? <==> HasSocket(sessions, socket)
      ensures s.Some? ==> s.value in sessions && s.value.socket == socket
    {
      for i := 0 to |sessions|
        invariant forall j :: 0 <= j < i ==> sessions[j].socket != socket
      {
        if sessions[i].socket == socket {
          return Some(sessions[i]);
        }
      }
      return None;
    }

    /** The loop of remove_session. */
    method EraseSession(socket: int) returns (ok: bool)
      modifies this
      ensures sessions == Without(old(sessions), socket)
      ensures ok <==> HasSocket(old(sessions), socket)
    {
      var it := 0;
      while it != |sessions|
        invariant 0 <= it <= |sessions| && sessions == old(sessions)
        invariant forall j :: 0 <= j < it ==> sessions[j].socket != socket
      {
        if sessions[it].socket == socket {
          assert SocketAt(sessions, socket) == it;
          sessions := sessions[..it] + sessions[it + 1..];
          return true;
        }
        it := it + 1;
      }
      return false;
    }

    /** remove_session as intended: an error when there is no such session. */
    method RemoveSession(socket: int) returns (ok: bool)
      modifies this
      ensures sessions == Without(old(sessions), socket)
      ensures ok <==> HasSocket(old(sessions), socket)
    {
      var s := GetSession(socket);
      if s == None {
        return false;
      }
      ok := EraseSession(socket);
    }

    /** remove_session with the test as it is written: whatever the socket, it ends in an error and
        removes nothing. */
    method RemoveSessionAsWritten(socket: int) returns (ok: bool)
      modifies this
      ensures !ok && sessions == old(sessions)
    {
      var s := GetSession(socket);
      if s != None {
        return false;
      }
      ok := EraseSession(socket);
    }
  }

  class UserGroup {
    var users: seq<User>

    ghost predicate Valid()
      reads this
    {
      forall i, j :: 0 <= i < j < |users| ==> users[i] != users[j]
    }

    /** The registry these objects make up. */
    ghost function Records(): (records: seq<Record>)
      reads this, users
      ensures |records| == |users|
    {
      seq(|users|, i requires 0 <= i < |users| reads this, users => Record(users[i].name, users[i].sessions))
    }

    constructor ()
      ensures Valid() && users == [] && Records() == After([])
    {
      users := [];
    }

    /** get_user */
    method GetUser(name: string) returns (user: Option<User>)
      ensures user == if Find(Records(), name) < |users| then Some(users[Find(Records(), name)]) else None
    {
      for i := 0 to |users|
        invariant forall j :: 0 <= j < i ==> users[j].name != name
      {
        if users[i].name == name {
          FindUnique(Records(), name, i);
          return Some(users[i]);
        }
      }
      FindUnique(Records(), name, |users|);
      return None;
    }

    /** load_user: does not look for an existing record. */
    method LoadUser(name: string)
      requires Valid()
      modifies this
      ensures Valid() && Records() == old(Records()) + [Record(name, [])]
      ensures |users| == |old(users)| + 1 && users[..|old(users)|] == old(users) && fresh(users[|old(users)|])
    {
      var user := new User(name);
      users := users + [user];
    }

    /** std::vector::erase */
    method EraseUser(it: nat)
      requires Valid() && it < |users|
      modifies this
      ensures Valid() && Records() == old(Records())[..it] + old(Records())[it + 1..]
    {
      users := users[..it] + users[it + 1..];
    }

    /** unload_user */
    method UnloadUser(name: string)
      requires Valid()
      modifies this
      ensures Valid() && Records() == Step(old(Records()), Unload(name))
    {
      var it := 0;
      while it != |users|
        invariant 0 <= it <= |users| && users == old(users)
        invariant forall j :: 0 <= j < it ==> users[j].name != name
      {
        if users[it].name == name {
          FindUnique(Records(), name, it);
          EraseUser(it);
          return;
        }
        it := it + 1;
      }
      FindUnique(Records(), name, it);
    }

    /** Retrieves the user's record, loading it first if there is none. */
    method Retrieve(name: string) returns (user: User, ghost i: nat)
      requires Valid()
      modifies this
      ensures Valid() && Records() == Loaded(old(Records()), name)
      ensures i < |users| && users[i] == user && i == Find(Records(), name)
      ensures user in old(users) || fresh(user)
    {
      LoadedFinds(Records(), name);
      i := Find(Records(), name);
      var found := GetUser(name);
      if found == None {
        LoadUser(name);
        found := GetUser(name);
      }
      assert users[i] in users[..|old(users)|] || i == |old(users)|;
      user := found.value;
    }

    /** handle_new_session: `confirmation` is what becomes of the packet that confirms the login. */
    method HandleNewSession(socket: int, name: string, machine: string, confirmation: Confirmation) returns (ok: bool)
      requires Valid()
      modifies this, users
      ensures Valid() && Records() == Step(old(Records()), Login(socket, name, machine, confirmation))
      ensures ok <==> Admits(SessionsOf(old(Records()), name), socket) && confirmation == Delivered
    {
      LoadedFinds(Records(), name);
      LoginStep(Records(), socket, name, machine, confirmation);
      var user;
      ghost var i;
      user, i := Retrieve(name);
      ghost var loaded := Records();
      ok := TryAdd(user, socket, machine, confirmation);
      assert Records() == loaded[i := Record(name, user.sessions)];
    }
  }

  lemma LoginStep(records: seq<Record>, socket: int, name: string, machine: string, confirmation: Confirmation)
    ensures var loaded := Loaded(records, name);
            var i, sessions := Find(loaded, name), SessionsOf(loaded, name);
            && i < |loaded| && loaded[i] == Record(name, sessions)
            && Step(records, Login(socket, name, machine, confirmation)) == loaded[i :=
                 Record(name, sessions
                        + if Accepts(sessions, socket, confirmation) then [Session(socket, machine)] else [])]
  {
    LoadedFinds(records, name);
    var loaded := Loaded(records, name);
    assert SessionsOf(loaded, name) + [] == SessionsOf(loaded, name);
  }

  /** The guards of a login, for a loaded user. */
  method TryAdd(user: User, socket: int, machine: string, confirmation: Confirmation) returns (ok: bool)
    modifies user
    ensures ok <==> Accepts(old(user.sessions), socket, confirmation)
    ensures user.sessions == old(user.sessions) + if ok then [Session(socket, machine)] else []
  {
    ok := false;
    if |user.sessions| < SESSION_LIMIT {
      var busy := user.GetSession(socket);
      if busy == None && confirmation == Delivered {
        ok := user.AddSession(Session(socket, machine));
      }
    }
  }
}
