/** The argument loop of the vendored option library: options, groups of short options, values
    taken from the next argument, positional arguments, defaults. Arguments are given as their
    matcher classifies them. */
module ArgParse {
  import opened Seqs

  datatype Detail = Detail(
    short: string, longs: seq<string>,
    hasDefault: bool, defaultValue: string,
    hasImplicit: bool, implicitValue: string,
    isContainer: bool)

  function EssentialName(d: Detail): string {
    if d.longs == [] then d.short else d.longs[0]
  }

  /** A registered parser: every name leads to the number of its option, so that an option with a
      short and a long name is found under both. */
  datatype Config = Config(
    details: seq<Detail>, options: map<string, nat>, positional: seq<string>, allowUnrecognised: bool)

  /** Registration refuses a name that is taken; hashes and essential names are distinct. */
  ghost predicate Registered(c: Config) {
    && (forall n :: n in c.options ==> c.options[n] < |c.details|)
    && (forall id :: 0 <= id < |c.details| ==> EssentialName(c.details[id]) in c.options)
    && (forall id :: 0 <= id < |c.details| ==> c.options[EssentialName(c.details[id])] == id)
  }

  /** An element of argv and what the matcher makes of it. */
  datatype Arg =
    | DashDash
    | Plain(raw: string)
    | Group(raw: string, letters: string)
    | Long(raw: string, name: string, setValue: bool, value: string)

  function Raw(a: Arg): string { if a.DashDash? then "--" else a.raw }

  datatype Error = NoSuchOption(name: string) | MissingArgument(name: string) | InvalidSyntax(text: string)
  datatype Result<+T> = Ok(value: T) | Err(error: Error)

  datatype Entry = Entry(key: string, value: string)

  /** The parser's state: how often each option was parsed, the list of parsed values, what
      nobody took, and the next positional name. */
  datatype State = State(counts: seq<nat>, sequential: seq<Entry>, unmatched: seq<string>, next: nat)

  ghost predicate Fitting(c: Config, s: State) {
    Registered(c) && |s.counts| == |c.details| && s.next <= |c.positional|
  }

  /** parse_option, add_to_option */
  function Record(c: Config, s: State, id: nat, value: string): State
    requires id < |c.details| == |s.counts|
  {
    s.(counts := s.counts[id := s.counts[id] + 1],
       sequential := s.sequential + [Entry(EssentialName(c.details[id]), value)])
  }

  function Unmatched(s: State, text: string): State { s.(unmatched := s.unmatched + [text]) }

  /** consume_positional: the next positional option that is a container or still empty takes the
      argument. */
  ghost function Consume(c: Config, s: State, a: string): (r: Result<(State, bool)>)
    requires Fitting(c, s)
    ensures r.Ok? ==> Fitting(c, r.value.0) && r.value.0.next >= s.next
    decreases |c.positional| - s.next
  {
    if s.next == |c.positional| then Ok((s, false))
    else if c.positional[s.next] !in c.options then Err(NoSuchOption(c.positional[s.next]))
    else
      var id := c.options[c.positional[s.next]];
      if c.details[id].isContainer then Ok((Record(c, s, id, a), true))
      else if s.counts[id] == 0 then Ok((Record(c, s, id, a).(next := s.next + 1), true))
      else Consume(c, s.(next := s.next + 1), a)
  }

  /** checked_parse_arg: the implicit value, or the next argument. */
  ghost function TakeValue(c: Config, argv: seq<Arg>, current: nat, s: State, id: nat,
                           name: string): (r: Result<(State, nat)>)
    requires Fitting(c, s) && id < |c.details| && current < |argv|
    ensures r.Ok? ==> Fitting(c, r.value.0) && current <= r.value.1 < |argv|
  {
    var d := c.details[id];
    if d.hasImplicit then Ok((Record(c, s, id, d.implicitValue), current))
    else if current + 1 >= |argv| then Err(MissingArgument(name))
    else Ok((Record(c, s, id, Raw(argv[current + 1])), current + 1))
  }

  /** A group of short options from letter `i` on. */
  ghost function GroupFrom(c: Config, argv: seq<Arg>, current: nat, s: State, letters: string,
                           i: nat): (r: Result<(State, nat)>)
    requires Fitting(c, s) && i <= |letters| && current < |argv|
    ensures r.Ok? ==> Fitting(c, r.value.0) && current <= r.value.1 < |argv|
    decreases |letters| - i
  {
    if i == |letters| then Ok((s, current))
    else
      var name := [letters[i]];
      if name !in c.options then
        if c.allowUnrecognised then GroupFrom(c, argv, current, Unmatched(s, "-" + name), letters, i + 1)
        else Err(NoSuchOption(name))
      else
        var id := c.options[name];
        if i + 1 == |letters| then TakeValue(c, argv, current, s, id, name)
        else if c.details[id].hasImplicit then
          GroupFrom(c, argv, current, Record(c, s, id, c.details[id].implicitValue), letters, i + 1)
        else Ok((Record(c, s, id, letters[i + 1..]), current))
  }

  /** One argument other than `--`, and the position of the argument after it. */
  ghost function OneArg(c: Config, argv: seq<Arg>, current: nat, s: State): (r: Result<(State, nat)>)
    requires Fitting(c, s) && current < |argv| && argv[current] != DashDash
    ensures r.Ok? ==> Fitting(c, r.value.0) && current < r.value.1 <= |argv|
  {
    match argv[current]
    case Plain(raw) =>
      if |raw| > 1 && raw[0] == '-' && !c.allowUnrecognised then Err(InvalidSyntax(raw))
      else
        (match Consume(c, s, raw)
         case Err(e) => Err(e)
         case Ok((t, taken)) => Ok((if taken then t else Unmatched(t, raw), current + 1)))
    case Group(raw, letters) =>
      (match GroupFrom(c, argv, current, s, letters, 0)
       case Err(e) => Err(e)
       case Ok((t, cur)) => Ok((t, cur + 1)))
    case Long(raw, name, setValue, value) =>
      if name == "" then Ok((s, current + 1))
      else if name !in c.options then
        if c.allowUnrecognised then Ok((Unmatched(s, raw), current + 1)) else Err(NoSuchOption(name))
      else if setValue then Ok((Record(c, s, c.options[name], value), current + 1))
      else
        match TakeValue(c, argv, current, s, c.options[name], name)
        case Err(e) => Err(e)
        case Ok((t, cur)) => Ok((t, cur + 1))
  }

  /** The main loop: up to the end, or past a `--`. */
  ghost function MainLoop(c: Config, argv: seq<Arg>, current: nat, s: State): (r: Result<(State, nat, bool)>)
    requires Fitting(c, s) && current <= |argv|
    ensures r.Ok? ==> Fitting(c, r.value.0) && r.value.1 <= |argv| && (!r.value.2 ==> r.value.1 == |argv|)
    decreases |argv| - current
  {
    if current == |argv| then Ok((s, current, false))
    else if argv[current] == DashDash then Ok((s, current + 1, true))
    else
      match OneArg(c, argv, current, s)
      case Err(e) => Err(e)
      case Ok((t, next)) => MainLoop(c, argv, next, t)
  }

  /** Which options get their default, in the order in which the names from `i` on are visited:
      those with a default, not parsed, and not visited before under another name. */
  ghost function DefaultIds(c: Config, names: seq<string>, i: nat, counts: seq<nat>, given: seq<bool>): (ids: seq<nat>)
    requires Registered(c) && |counts| == |given| == |c.details| && i <= |names|
    requires forall n :: n in names ==> n in c.options
    ensures forall i :: 0 <= i < |ids| ==> ids[i] < |c.details|
    decreases |names| - i
  {
    if i == |names| then [] else
      var id := c.options[names[i]];
      if c.details[id].hasDefault && counts[id] == 0 && !given[id] then
        [id] + DefaultIds(c, names, i + 1, counts, given[id := true])
      else DefaultIds(c, names, i + 1, counts, given)
  }

  function DefaultEntry(d: Detail): Entry { Entry(EssentialName(d), d.defaultValue) }

  ghost function DefaultEntries(c: Config, ids: seq<nat>): seq<Entry>
    requires forall i :: 0 <= i < |ids| ==> ids[i] < |c.details|
  {
    if ids == [] then [] else [DefaultEntry(c.details[ids[0]])] + DefaultEntries(c, ids[1..])
  }

  /** The arguments after `--` go to positional options until one is not taken. */
  ghost function Trailing(c: Config, argv: seq<Arg>, current: nat, s: State): (r: Result<State>)
    requires Fitting(c, s) && current <= |argv|
    ensures r.Ok? ==> Fitting(c, r.value)
    decreases |argv| - current
  {
    if current == |argv| then Ok(s)
    else
      match Consume(c, s, Raw(argv[current]))
      case Err(e) => Err(e)
      case Ok((t, taken)) =>
        if taken then Trailing(c, argv, current + 1, t)
        else Ok(t.(unmatched := t.unmatched + Raws(argv[current..])))
  }

  function Raws(args: seq<Arg>): seq<string> {
    seq(|args|, i requires 0 <= i < |args| => Raw(args[i]))
  }

  function NoneGiven(c: Config): seq<bool> { seq(|c.details|, _ => false) }

  datatype Parsed = Parsed(state: State, defaults: seq<Entry>, defaulted: seq<nat>)

  function Initial(c: Config): State {
    State(seq(|c.details|, _ => 0), [], [], 0)
  }

  /** The whole parse; `names` are the registered names in the order of the hash table. */
  ghost function ParseAll(c: Config, argv: seq<Arg>, names: seq<string>): (r: Result<Parsed>)
    requires Registered(c) && |argv| >= 1 && forall n :: n in names ==> n in c.options
  {
    match MainLoop(c, argv, 1, Initial(c))
    case Err(e) => Err(e)
    case Ok((s, current, rest)) =>
      var ids := DefaultIds(c, names, 0, s.counts, NoneGiven(c));
      if !rest then Ok(Parsed(s, DefaultEntries(c, ids), ids))
      else
        match Trailing(c, argv, current, s)
        case Err(e) => Err(e)
        case Ok(t) => Ok(Parsed(t, DefaultEntries(c, ids), ids))
  }

  // ----- every parsed value is counted -----

  function CountKey(entries: seq<Entry>, key: string): nat {
    if entries == [] then 0
    else CountKey(entries[..|entries| - 1], key) + (if entries[|entries| - 1].key == key then 1 else 0)
  }

  /** Each option's count is the number of its entries in the list of parsed values. */
  ghost predicate Accounted(c: Config, s: State)
    requires |s.counts| == |c.details|
  {
    forall id :: 0 <= id < |c.details| ==> s.counts[id] == CountKey(s.sequential, EssentialName(c.details[id]))
  }

  lemma RecordAccounted(c: Config, s: State, id: nat, value: string)
    requires Fitting(c, s) && Accounted(c, s) && id < |c.details|
    ensures Accounted(c, Record(c, s, id, value))
  {
    var t := Record(c, s, id, value);
    assert t.sequential[..|t.sequential| - 1] == s.sequential;
    forall j | 0 <= j < |c.details|
      ensures t.counts[j] == CountKey(t.sequential, EssentialName(c.details[j]))
    {
      assert EssentialName(c.details[j]) == EssentialName(c.details[id]) <==> j == id;
    }
  }

  lemma {:induction false} ConsumeAccounted(c: Config, s: State, a: string)
    requires Fitting(c, s) && Accounted(c, s)
    ensures Consume(c, s, a).Ok? ==> Accounted(c, Consume(c, s, a).value.0)
    decreases |c.positional| - s.next
  {
    if s.next < |c.positional| && c.positional[s.next] in c.options {
      var id := c.options[c.positional[s.next]];
      if c.details[id].isContainer || s.counts[id] == 0 {
        RecordAccounted(c, s, id, a);
      } else {
        ConsumeAccounted(c, s.(next := s.next + 1), a);
      }
    }
  }

  lemma TakeAccounted(c: Config, argv: seq<Arg>, current: nat, s: State, id: nat, name: string)
    requires Fitting(c, s) && Accounted(c, s) && id < |c.details| && current < |argv|
    ensures var r := TakeValue(c, argv, current, s, id, name); r.Ok? ==> Accounted(c, r.value.0)
  {
    RecordAccounted(c, s, id, c.details[id].implicitValue);
    if current + 1 < |argv| { RecordAccounted(c, s, id, Raw(argv[current + 1])); }
  }

  lemma {:induction false} GroupAccounted(c: Config, argv: seq<Arg>, current: nat, s: State, letters: string, i: nat)
    requires Fitting(c, s) && Accounted(c, s) && i <= |letters| && current < |argv|
    ensures var r := GroupFrom(c, argv, current, s, letters, i); r.Ok? ==> Accounted(c, r.value.0)
    decreases |letters| - i
  {
    if i < |letters| {
      var name := [letters[i]];
      if name !in c.options {
        GroupAccounted(c, argv, current, Unmatched(s, "-" + name), letters, i + 1);
      } else {
        var id := c.options[name];
        if i + 1 == |letters| {
          TakeAccounted(c, argv, current, s, id, name);
        } else if c.details[id].hasImplicit {
          RecordAccounted(c, s, id, c.details[id].implicitValue);
          GroupAccounted(c, argv, current, Record(c, s, id, c.details[id].implicitValue), letters, i + 1);
        } else {
          RecordAccounted(c, s, id, letters[i + 1..]);
        }
      }
    }
  }

  lemma OneArgAccounted(c: Config, argv: seq<Arg>, current: nat, s: State)
    requires Fitting(c, s) && Accounted(c, s) && current < |argv| && argv[current] != DashDash
    ensures var r := OneArg(c, argv, current, s); r.Ok? ==> Accounted(c, r.value.0)
  {
    match argv[current] {
      case Plain(raw) => ConsumeAccounted(c, s, raw);
      case Group(raw, letters) => GroupAccounted(c, argv, current, s, letters, 0);
      case Long(raw, name, setValue, value) =>
        if name in c.options {
          RecordAccounted(c, s, c.options[name], value);
          TakeAccounted(c, argv, current, s, c.options[name], name);
        }
    }
  }

  lemma {:induction false} MainAccounted(c: Config, argv: seq<Arg>, current: nat, s: State)
    requires Fitting(c, s) && Accounted(c, s) && current <= |argv|
    ensures var r := MainLoop(c, argv, current, s); r.Ok? ==> Accounted(c, r.value.0)
    decreases |argv| - current
  {
    if current < |argv| && argv[current] != DashDash {
      OneArgAccounted(c, argv, current, s);
      var r := OneArg(c, argv, current, s);
      if r.Ok? { MainAccounted(c, argv, r.value.1, r.value.0); }
    }
  }

  lemma {:induction false} TrailingAccounted(c: Config, argv: seq<Arg>, current: nat, s: State)
    requires Fitting(c, s) && Accounted(c, s) && current <= |argv|
    ensures var r := Trailing(c, argv, current, s); r.Ok? ==> Accounted(c, r.value)
    decreases |argv| - current
  {
    if current < |argv| {
      ConsumeAccounted(c, s, Raw(argv[current]));
      var r := Consume(c, s, Raw(argv[current]));
      if r.Ok? && r.value.1 { TrailingAccounted(c, argv, current + 1, r.value.0); }
    }
  }

  /** On success each option's count equals its entries in the sequential list. */
  lemma ParseAccounted(c: Config, argv: seq<Arg>, names: seq<string>)
    requires Registered(c) && |argv| >= 1 && forall n :: n in names ==> n in c.options
    ensures var r := ParseAll(c, argv, names);
            r.Ok? ==> |r.value.state.counts| == |c.details| && Accounted(c, r.value.state)
  {
    MainAccounted(c, argv, 1, Initial(c));
    var r := MainLoop(c, argv, 1, Initial(c));
    if r.Ok? && r.value.2 { TrailingAccounted(c, argv, r.value.1, r.value.0); }
  }

  // ----- defaults -----

  /** Each option gets its default at most once, and exactly if it has one, was not parsed, and
      is visited. */
  lemma {:induction false} DefaultsOnce(c: Config, names: seq<string>, i: nat, counts: seq<nat>, given: seq<bool>)
    requires Registered(c) && |counts| == |given| == |c.details| && i <= |names|
    requires forall n :: n in names ==> n in c.options
    ensures Distinct(DefaultIds(c, names, i, counts, given))
    ensures forall id: nat :: id in DefaultIds(c, names, i, counts, given) <==>
              && id < |c.details| && c.details[id].hasDefault && counts[id] == 0 && !given[id]
              && exists k :: i <= k < |names| && c.options[names[k]] == id
    decreases |names| - i
  {
    if i < |names| {
      var id := c.options[names[i]];
      var takes := c.details[id].hasDefault && counts[id] == 0 && !given[id];
      DefaultsOnce(c, names, i + 1, counts, if takes then given[id := true] else given);
    }
  }

  /** The options that take the arguments after `--`, one entry for each argument taken. */
  ghost function Takers(c: Config, argv: seq<Arg>, current: nat, s: State): seq<nat>
    requires Fitting(c, s) && current <= |argv|
    decreases |argv| - current
  {
    if current == |argv| then []
    else
      match Consume(c, s, Raw(argv[current]))
      case Err(_) => []
      case Ok((t, taken)) => if taken then [Taker(c, s)] + Takers(c, argv, current + 1, t) else []
  }

  /** The option that the next positional argument goes to, if any does. */
  ghost function Taker(c: Config, s: State): nat
    requires Fitting(c, s)
    decreases |c.positional| - s.next
  {
    if s.next == |c.positional| || c.positional[s.next] !in c.options then 0
    else
      var id := c.options[c.positional[s.next]];
      if c.details[id].isContainer || s.counts[id] == 0 then id
      else Taker(c, s.(next := s.next + 1))
  }

  lemma {:induction false} ConsumeCounts(c: Config, s: State, a: string)
    requires Fitting(c, s)
    ensures var r := Consume(c, s, a);
            r.Ok? && r.value.1 ==>
              Taker(c, s) < |c.details| && r.value.0.counts == s.counts[Taker(c, s) := s.counts[Taker(c, s)] + 1]
    ensures var r := Consume(c, s, a); r.Ok? && !r.value.1 ==> r.value.0.counts == s.counts
    decreases |c.positional| - s.next
  {
    if s.next < |c.positional| && c.positional[s.next] in c.options {
      var id := c.options[c.positional[s.next]];
      if !c.details[id].isContainer && s.counts[id] != 0 {
        ConsumeCounts(c, s.(next := s.next + 1), a);
      }
    }
  }

  /** The trailing arguments raise the counts of their takers and no others. */
  lemma {:induction false} TrailingCounts(c: Config, argv: seq<Arg>, current: nat, s: State, id: nat)
    requires Fitting(c, s) && current <= |argv| && id < |c.details|
    ensures var r := Trailing(c, argv, current, s);
            r.Ok? ==>
              && (r.value.counts[id] == s.counts[id] <==> id !in Takers(c, argv, current, s))
              && r.value.counts[id] >= s.counts[id]
    decreases |argv| - current
  {
    if current < |argv| {
      ConsumeCounts(c, s, Raw(argv[current]));
      var r := Consume(c, s, Raw(argv[current]));
      if r.Ok? && r.value.1 { TrailingCounts(c, argv, current + 1, r.value.0, id); }
    }
  }

  /** Among the options with a default, exactly those with count zero are in the defaults. */
  ghost predicate DefaultsMatchCounts(c: Config, p: Parsed)
    requires |p.state.counts| == |c.details|
  {
    forall id :: 0 <= id < |c.details| && c.details[id].hasDefault ==> (id in p.defaulted <==> p.state.counts[id] == 0)
  }

  /** Each option with a default is among the defaults at most once. On success it is there exactly
      if its count is zero, if and only if no argument after a `--` went to an option with a
      default that had not been parsed before: defaults are given out before those arguments. */
  lemma DefaultsAgree(c: Config, argv: seq<Arg>, names: seq<string>)
    requires Registered(c) && |argv| >= 1
    requires forall n :: n in names <==> n in c.options
    requires ParseAll(c, argv, names).Ok?
    ensures var p := ParseAll(c, argv, names).value;
            var (s, current, rest) := MainLoop(c, argv, 1, Initial(c)).value;
            && |p.state.counts| == |c.details| && Distinct(p.defaulted)
            && (DefaultsMatchCounts(c, p) <==>
                !rest || forall id :: id in Takers(c, argv, current, s) && id < |c.details|
                           ==> !(c.details[id].hasDefault && s.counts[id] == 0))
  {
    var p := ParseAll(c, argv, names).value;
    var (s, current, rest) := MainLoop(c, argv, 1, Initial(c)).value;
    DefaultsOnce(c, names, 0, s.counts, NoneGiven(c));
    forall id | 0 <= id < |c.details|
      ensures id in p.defaulted <==> c.details[id].hasDefault && s.counts[id] == 0
      ensures rest ==> (p.state.counts[id] == s.counts[id] <==> id !in Takers(c, argv, current, s))
      ensures rest ==> p.state.counts[id] >= s.counts[id]
    {
      var k :| 0 <= k < |names| && names[k] == EssentialName(c.details[id]);
      assert c.options[names[k]] == id;
      if rest { TrailingCounts(c, argv, current, s, id); }
    }
  }

  ghost predicate IsPositional(c: Config, id: nat) {
    exists j :: 0 <= j < |c.positional| && c.positional[j] in c.options && c.options[c.positional[j]] == id
  }

  lemma {:induction false} TakerIsPositional(c: Config, s: State, a: string)
    requires Fitting(c, s) && Consume(c, s, a).Ok? && Consume(c, s, a).value.1
    ensures IsPositional(c, Taker(c, s))
    decreases |c.positional| - s.next
  {
    var id := c.options[c.positional[s.next]];
    if !c.details[id].isContainer && s.counts[id] != 0 {
      TakerIsPositional(c, s.(next := s.next + 1), a);
    }
  }

  lemma {:induction false} TakersArePositional(c: Config, argv: seq<Arg>, current: nat, s: State)
    requires Fitting(c, s) && current <= |argv|
    ensures forall id :: id in Takers(c, argv, current, s) ==> IsPositional(c, id)
    decreases |argv| - current
  {
    if current < |argv| {
      var r := Consume(c, s, Raw(argv[current]));
      if r.Ok? && r.value.1 {
        TakerIsPositional(c, s, Raw(argv[current]));
        TakersArePositional(c, argv, current + 1, r.value.0);
      }
    }
  }

  lemma {:induction false} RestNeedsDashes(c: Config, argv: seq<Arg>, current: nat, s: State)
    requires Fitting(c, s) && current <= |argv|
    ensures var r := MainLoop(c, argv, current, s);
            r.Ok? && r.value.2 ==> exists k :: current <= k < |argv| && argv[k] == DashDash
    decreases |argv| - current
  {
    if current < |argv| && argv[current] != DashDash {
      var r := OneArg(c, argv, current, s);
      if r.Ok? { RestNeedsDashes(c, argv, r.value.1, r.value.0); }
    }
  }

  /** What a caller can check beforehand: without a `--`, or when no positional name leads to an
      option with a default, the defaults and the counts agree. */
  lemma DefaultsSafe(c: Config, argv: seq<Arg>, names: seq<string>)
    requires Registered(c) && |argv| >= 1
    requires forall n :: n in names <==> n in c.options
    requires ParseAll(c, argv, names).Ok?
    requires (forall k :: 1 <= k < |argv| ==> argv[k] != DashDash)
          || (forall id :: 0 <= id < |c.details| && c.details[id].hasDefault ==> !IsPositional(c, id))
    ensures var p := ParseAll(c, argv, names).value;
            |p.state.counts| == |c.details| && DefaultsMatchCounts(c, p)
  {
    var (s, current, rest) := MainLoop(c, argv, 1, Initial(c)).value;
    DefaultsAgree(c, argv, names);
    RestNeedsDashes(c, argv, 1, Initial(c));
    TakersArePositional(c, argv, current, s);
  }

  /** An option with a default that is also positional, and the arguments `-- hello`: the option
      has count one and its default is listed as well. */
  lemma DefaultAndValue()
    ensures var c := Config([Detail("", ["file"], true, "x", false, "", false)], map["file" := 0], ["file"], false);
            var argv := [Plain("program"), DashDash, Plain("hello")];
            && Registered(c) && ParseAll(c, argv, ["file"]).Ok?
            && ParseAll(c, argv, ["file"]).value.state.counts == [1]
            && ParseAll(c, argv, ["file"]).value.defaults == [Entry("file", "x")]
            && ParseAll(c, argv, ["file"]).value.state.sequential == [Entry("file", "hello")]
  {
    var c := Config([Detail("", ["file"], true, "x", false, "", false)], map["file" := 0], ["file"], false);
    var argv := [Plain("program"), DashDash, Plain("hello")];
    var s := Initial(c);
    assert s.counts == [0];
    assert MainLoop(c, argv, 1, s) == Ok((s, 2, true));
    assert NoneGiven(c) == [false];
    assert DefaultIds(c, ["file"], 0, s.counts, NoneGiven(c)) == [0];
    assert Consume(c, s, "hello") == Ok((Record(c, s, 0, "hello").(next := 1), true));
    assert Trailing(c, argv, 2, s) == Ok(Record(c, s, 0, "hello").(next := 1));
  }

  // ----- the parser as the source has it -----

  class OptionParser {
    const config: Config
    var counts: seq<nat>
    var hasDefault: seq<bool>
    var sequential: seq<Entry>
    var defaults: seq<Entry>
    var unmatched: seq<string>
    /** The positional iterator of the parse loop. */
    var next: nat

    ghost function View(): State
      reads this
    {
      State(counts, sequential, unmatched, next)
    }

    ghost predicate Valid()
      reads this
    {
      Fitting(config, View()) && |hasDefault| == |counts|
    }

    constructor (config: Config)
      requires Registered(config)
      ensures this.config == config && Valid() && View() == Initial(config)
      ensures defaults == [] && hasDefault == NoneGiven(config)
    {
      this.config := config;
      counts, hasDefault := seq(|config.details|, _ => 0), NoneGiven(config);
      sequential, defaults, unmatched, next := [], [], [], 0;
    }

    method ParseOption(id: nat, value: string)
      requires Valid() && id < |config.details|
      modifies `counts, `sequential
      ensures Valid() && View() == Record(config, old(View()), id, value)
    {
      counts := counts[id := counts[id] + 1];
      sequential := sequential + [Entry(EssentialName(config.details[id]), value)];
    }

    method CheckedParseArg(argv: seq<Arg>, current: nat, id: nat, name: string) returns (r: Result<nat>)
      requires Valid() && id < |config.details| && current < |argv|
      modifies `counts, `sequential
      ensures Valid()
      ensures match TakeValue(config, argv, current, old(View()), id, name)
              case Ok((s, cur)) => r == Ok(cur) && View() == s
              case Err(e) => r == Err(e)
    {
      if current + 1 >= |argv| {
        if config.details[id].hasImplicit {
          ParseOption(id, config.details[id].implicitValue);
        } else {
          return Err(MissingArgument(name));
        }
        r := Ok(current);
      } else if config.details[id].hasImplicit {
        ParseOption(id, config.details[id].implicitValue);
        r := Ok(current);
      } else {
        ParseOption(id, Raw(argv[current + 1]));
        r := Ok(current + 1);
      }
    }

    method ConsumePositional(a: string) returns (r: Result<bool>)
      requires Valid()
      modifies `counts, `sequential, `next
      ensures Valid()
      ensures match Consume(config, old(View()), a)
              case Ok((s, taken)) => r == Ok(taken) && View() == s
              case Err(e) => r == Err(e)
    {
      ghost var was := View();
      while next != |config.positional|
        invariant Valid() && View() == was.(next := next)
        invariant Consume(config, View(), a) == Consume(config, was, a)
        decreases |config.positional| - next
      {
        if config.positional[next] in config.options {
          var id := config.options[config.positional[next]];
          if !config.details[id].isContainer {
            if counts[id] == 0 {
              ParseOption(id, a);
              next := next + 1;
              return Ok(true);
            }
            next := next + 1;
            continue;
          }
          ParseOption(id, a);
          return Ok(true);
        }
        return Err(NoSuchOption(config.positional[next]));
      }
      return Ok(false);
    }

    /** The loop over the letters of a group. */
    method ParseGroup(argv: seq<Arg>, at: nat, letters: string) returns (r: Result<nat>)
      requires Valid() && at < |argv|
      modifies `counts, `sequential, `unmatched
      ensures Valid()
      ensures match GroupFrom(config, argv, at, old(View()), letters, 0)
              case Ok((s, cur)) => r == Ok(cur) && View() == s
              case Err(e) => r == Err(e)
    {
      ghost var goal := GroupFrom(config, argv, at, View(), letters, 0);
      var i := 0;
      while i != |letters|
        invariant 0 <= i <= |letters| && Valid()
        invariant GroupFrom(config, argv, at, View(), letters, i) == goal
        decreases |letters| - i
      {
        var name := [letters[i]];
        if name !in config.options {
          if config.allowUnrecognised {
            unmatched := unmatched + ["-" + name];
            i := i + 1;
            continue;
          }
          return Err(NoSuchOption(name));
        }
        var id := config.options[name];
        if i + 1 == |letters| {
          r := CheckedParseArg(argv, at, id, name);
          return;
        } else if config.details[id].hasImplicit {
          ParseOption(id, config.details[id].implicitValue);
        } else {
          ParseOption(id, letters[i + 1..]);
          return Ok(at);
        }
        i := i + 1;
      }
      return Ok(at);
    }

    /** The body of the main loop for one argument other than `--`. */
    method ParseArg(argv: seq<Arg>, at: nat) returns (r: Result<nat>)
      requires Valid() && at < |argv| && argv[at] != DashDash
      modifies `counts, `sequential, `unmatched, `next
      ensures Valid()
      ensures match OneArg(config, argv, at, old(View()))
              case Ok((s, cur)) => r == Ok(cur) && View() == s
              case Err(e) => r == Err(e)
    {
      match argv[at] {
        case Plain(raw) =>
          if |raw| > 1 && raw[0] == '-' {
            if !config.allowUnrecognised {
              return Err(InvalidSyntax(raw));
            }
          }
          var taken := ConsumePositional(raw);
          if taken.Err? {
            return Err(taken.error);
          }
          if !taken.value {
            unmatched := unmatched + [raw];
          }
          r := Ok(at + 1);
        case Group(raw, letters) =>
          r := ParseGroup(argv, at, letters);
          if r.Ok? {
            r := Ok(r.value + 1);
          }
        case Long(raw, name, setValue, value) =>
          r := Ok(at + 1);
          if name != "" {
            if name !in config.options {
              if config.allowUnrecognised {
                unmatched := unmatched + [raw];
                return;
              }
              return Err(NoSuchOption(name));
            }
            if setValue {
              ParseOption(config.options[name], value);
            } else {
              r := CheckedParseArg(argv, at, config.options[name], name);
              if r.Ok? {
                r := Ok(r.value + 1);
              }
            }
          }
      }
    }

    /** The main loop. Its test is `!=`, but the position never passes the end. */
    method ParseArgs(argv: seq<Arg>) returns (r: Result<(nat, bool)>)
      requires Valid() && |argv| >= 1
      modifies `counts, `sequential, `unmatched, `next
      ensures Valid()
      ensures match MainLoop(config, argv, 1, old(View()))
              case Ok((s, cur, rest)) => r == Ok((cur, rest)) && View() == s
              case Err(e) => r == Err(e)
    {
      ghost var goal := MainLoop(config, argv, 1, View());
      var current: nat := 1;
      while current != |argv|
        invariant Valid() && current <= |argv|
        invariant MainLoop(config, argv, current, View()) == goal
        decreases |argv| - current
      {
        if argv[current] == DashDash {
          return Ok((current + 1, true));
        }
        var after := ParseArg(argv, current);
        if after.Err? {
          return Err(after.error);
        }
        current := after.value;
      }
      return Ok((current, false));
    }

    method ParseDefault(id: nat)
      requires id < |hasDefault| == |config.details|
      modifies `hasDefault, `defaults
      ensures hasDefault == old(hasDefault)[id := true]
      ensures defaults == old(defaults) + [DefaultEntry(config.details[id])]
    {
      hasDefault := hasDefault[id := true];
      defaults := defaults + [DefaultEntry(config.details[id])];
    }

    /** What the names from `i` on will add to the defaults. */
    ghost function Remaining(names: seq<string>, i: nat): seq<Entry>
      requires Valid() && i <= |names| && forall n :: n in names ==> n in config.options
      reads this
    {
      DefaultEntries(config, DefaultIds(config, names, i, counts, hasDefault))
    }

    /** The body of the loop over the registered names. */
    method VisitName(names: seq<string>, i: nat)
      requires Valid() && i < |names| && forall n :: n in names ==> n in config.options
      modifies `hasDefault, `defaults
      ensures Valid() && defaults + Remaining(names, i + 1) == old(defaults) + old(Remaining(names, i))
    {
      DefaultStep(config, names, i, counts, hasDefault, defaults);
      var id := config.options[names[i]];
      if config.details[id].hasDefault {
        if counts[id] == 0 && !hasDefault[id] {
          ParseDefault(id);
        }
      }
    }

    /** The loop over the registered names that gives out the defaults. */
    method ParseDefaults(names: seq<string>)
      requires Valid() && defaults == [] && forall n :: n in names ==> n in config.options
      modifies `hasDefault, `defaults
      ensures Valid() && defaults == DefaultEntries(config, DefaultIds(config, names, 0, counts, old(hasDefault)))
    {
      var i := 0;
      ghost var all := Remaining(names, 0);
      while i < |names|
        invariant 0 <= i <= |names| && Valid()
        invariant defaults + Remaining(names, i) == all
      {
        VisitName(names, i);
        i := i + 1;
      }
    }

    /** The arguments after `--` that positional options take; the loop stops at the first one that
        is not taken. */
    method TakeTrailing(argv: seq<Arg>, from: nat) returns (r: Result<nat>)
      requires Valid() && from <= |argv|
      modifies `counts, `sequential, `next
      ensures Valid() && (r.Ok? ==> r.value <= |argv|)
      ensures match Trailing(config, argv, from, old(View()))
              case Ok(s) => r.Ok? && s == View().(unmatched := unmatched + Raws(argv[r.value..]))
              case Err(e) => r == Err(e)
    {
      ghost var goal := Trailing(config, argv, from, View());
      var current := from;
      while current < |argv|
        invariant Valid() && from <= current <= |argv|
        invariant Trailing(config, argv, current, View()) == goal
      {
        var taken := ConsumePositional(Raw(argv[current]));
        if taken.Err? {
          return Err(taken.error);
        }
        if !taken.value {
          return Ok(current);
        }
        current := current + 1;
      }
      assert unmatched + Raws(argv[current..]) == unmatched;
      return Ok(current);
    }

    /** Both loops over the arguments after `--`. */
    method ParseTrailing(argv: seq<Arg>, from: nat) returns (r: Result<()>)
      requires Valid() && from <= |argv|
      modifies `counts, `sequential, `unmatched, `next
      ensures Valid()
      ensures match Trailing(config, argv, from, old(View()))
              case Ok(s) => r == Ok(()) && View() == s
              case Err(e) => r == Err(e)
    {
      var taken := TakeTrailing(argv, from);
      if taken.Err? {
        return Err(taken.error);
      }
      KeepRest(argv, taken.value);
      r := Ok(());
    }

    /** The loop that keeps what could not be taken. */
    method KeepRest(argv: seq<Arg>, from: nat)
      requires from <= |argv|
      modifies `unmatched
      ensures unmatched == old(unmatched) + Raws(argv[from..])
    {
      var current := from;
      while current != |argv|
        invariant from <= current <= |argv|
        invariant unmatched == old(unmatched) + Raws(argv[from..current])
        decreases |argv| - current
      {
        assert Raws(argv[from..current + 1]) == Raws(argv[from..current]) + [Raw(argv[current])];
        unmatched := unmatched + [Raw(argv[current])];
        current := current + 1;
      }
      assert argv[from..current] == argv[from..];
    }

    /** parse: the main loop, the defaults, and only then the arguments after `--`. */
    method Parse(argv: seq<Arg>, names: seq<string>) returns (r: Result<()>)
      requires Valid() && View() == Initial(config) && |argv| >= 1
      requires forall n :: n in names ==> n in config.options
      requires defaults == [] && hasDefault == NoneGiven(config)
      modifies this
      ensures match ParseAll(config, argv, names)
              case Ok(p) => r == Ok(()) && View() == p.state && defaults == p.defaults
              case Err(e) => r == Err(e)
    {
      var main := ParseArgs(argv);
      if main.Err? {
        return Err(main.error);
      }
      ParseDefaults(names);
      if main.value.1 {
        r := ParseTrailing(argv, main.value.0);
      } else {
        r := Ok(());
      }
    }
  }

  lemma DefaultStep(c: Config, names: seq<string>, i: nat, counts: seq<nat>, given: seq<bool>, sofar: seq<Entry>)
    requires Registered(c) && |counts| == |given| == |c.details| && i < |names|
    requires forall n :: n in names ==> n in c.options
    ensures names[i] in c.options
    ensures var id, all := c.options[names[i]], sofar + DefaultEntries(c, DefaultIds(c, names, i, counts, given));
      if c.details[id].hasDefault && counts[id] == 0 && !given[id]
      then all == sofar + [DefaultEntry(c.details[id])]
                + DefaultEntries(c, DefaultIds(c, names, i + 1, counts, given[id := true]))
      else all == sofar + DefaultEntries(c, DefaultIds(c, names, i + 1, counts, given))
  {
    var id := c.options[names[i]];
    var ids := DefaultIds(c, names, i + 1, counts, given[id := true]);
    assert ([id] + ids)[1..] == ids;
    Associate(sofar, [DefaultEntry(c.details[id])], DefaultEntries(c, ids));
  }
}
