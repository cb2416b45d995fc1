/** Where the parser's results come from: every value and every unmatched text is traced back to the
    argument it comes from, and every argument to what became of it. */
module ArgTrace {
  import opened Seqs
  import opened ArgParse

  datatype Use =
    /** the text behind an equals sign */
    | FromEquals
    /** the option's implicit value */
    | FromImplicit
    /** the rest of a group of letters */
    | FromRest
    /** the argument directly behind */
    | FromNext
    /** the argument itself, for a positional option */
    | FromSelf
    /** nobody took it */
    | LeftOver

  /** What became of an argument, or of one letter of a group: `text` is the value of option `id`, or was
      left over. */
  datatype Item = Item(at: nat, letter: nat, use: Use, id: nat, text: string)

  ghost function Entries(c: Config, items: seq<Item>): seq<Entry>
    requires Known(c, items)
  {
    if items == [] then [] else
      var most, last := items[..|items| - 1], items[|items| - 1];
      Entries(c, most) + if last.use == LeftOver then [] else [Entry(EssentialName(c.details[last.id]), last.text)]
  }

  function Leftovers(items: seq<Item>): seq<string> {
    if items == [] then [] else
      var most, last := items[..|items| - 1], items[|items| - 1];
      Leftovers(most) + if last.use == LeftOver then [last.text] else []
  }

  /** How many values an option got. */
  function CountId(items: seq<Item>, id: nat): nat {
    if items == [] then 0 else
      var most, last := items[..|items| - 1], items[|items| - 1];
      CountId(most, id) + if last.use != LeftOver && last.id == id then 1 else 0
  }

  // ----- where a text may come from -----

  /** A long option with this number. */
  predicate IsLong(c: Config, a: Arg, id: nat) {
    a.Long? && a.name in c.options && c.options[a.name] == id
  }

  /** The letter of a group that stands for this option. */
  predicate IsLetter(c: Config, a: Arg, letter: nat, id: nat) {
    a.Group? && letter < |a.letters| && [a.letters[letter]] in c.options && c.options[[a.letters[letter]]] == id
  }

  /** The item comes from its argument, which stands before position `stop`, where the options end, or behind it. */
  ghost predicate ComesFrom(c: Config, argv: seq<Arg>, stop: nat, x: Item) {
    && x.at < |argv| && x.at != stop && (x.use != LeftOver ==> x.id < |c.details|)
    && var a := argv[x.at];
       match x.use
       case FromEquals => x.at < stop && IsLong(c, a, x.id) && a.setValue && x.text == a.value
       case FromImplicit =>
         && x.at < stop && c.details[x.id].hasImplicit && x.text == c.details[x.id].implicitValue
         && ((IsLong(c, a, x.id) && !a.setValue) || IsLetter(c, a, x.letter, x.id))
       case FromRest =>
         && x.at < stop && !c.details[x.id].hasImplicit && IsLetter(c, a, x.letter, x.id)
         && x.letter + 1 < |a.letters| && x.text == a.letters[x.letter + 1..]
       case FromNext =>
         && x.at < stop && !c.details[x.id].hasImplicit && x.at + 1 < |argv|
         && x.text == (if argv[x.at + 1].DashDash? then "--" else argv[x.at + 1].raw)
         && ((IsLong(c, a, x.id) && !a.setValue) || (IsLetter(c, a, x.letter, x.id) && x.letter + 1 == |a.letters|))
       case FromSelf =>
         && (x.at < stop ==> a.Plain?) && IsPositional(c, x.id)
         && x.text == (if a.DashDash? then "--" else a.raw)
       case LeftOver =>
         if x.at > stop || a.Plain? then x.text == (if a.DashDash? then "--" else a.raw)
         else if a.Long? then c.allowUnrecognised && a.name !in c.options && x.text == a.raw
         else a.Group? && x.letter < |a.letters| && c.allowUnrecognised && [a.letters[x.letter]] !in c.options
              && x.text == "-" + [a.letters[x.letter]]
  }

  /** Items in the order of the arguments, and of the letters in a group. */
  predicate Before(x: Item, y: Item) { x.at < y.at || (x.at == y.at && x.letter < y.letter) }

  ghost predicate InOrder(items: seq<Item>) {
    forall i, j :: 0 <= i < j < |items| ==> Before(items[i], items[j])
  }

  /** The item is the last of its argument, and takes the next one as its value. */
  ghost predicate TakenAsValue(items: seq<Item>, k: nat) {
    exists i :: 0 <= i < |items| && items[i].use == FromNext && items[i].at + 1 == k
  }

  ghost predicate HasItem(items: seq<Item>, k: nat, letter: nat) {
    exists i :: 0 <= i < |items| && items[i].at == k && items[i].letter == letter
  }

  /** The letter is part of the value of an earlier letter of its group. */
  ghost predicate InValue(items: seq<Item>, k: nat, letter: nat) {
    exists i :: 0 <= i < |items| && items[i].at == k && items[i].letter < letter && items[i].use == FromRest
  }

  /** What became of an argument that was not taken as a value, in the main loop. */
  ghost predicate ArgExplained(c: Config, items: seq<Item>, a: Arg, k: nat) {
    match a
    case DashDash => false
    case Plain(raw) => HasItem(items, k, 0) && (|raw| > 1 && raw[0] == '-' ==> c.allowUnrecognised)
    case Long(raw, name, setValue, value) => name == "" || HasItem(items, k, 0)
    case Group(raw, letters) => forall i :: 0 <= i < |letters| ==> HasItem(items, k, i) || InValue(items, k, i)
  }

  /** What became of argument `k`. */
  ghost predicate Explained(c: Config, argv: seq<Arg>, stop: nat, items: seq<Item>, k: nat)
    requires k < |argv|
  {
    if k == stop then argv[k] == DashDash
    else if k > stop then HasItem(items, k, 0)
    else if TakenAsValue(items, k) then forall i :: 0 <= i < |items| ==> items[i].at != k
    else ArgExplained(c, items, argv[k], k)
  }

  // ----- lists of items -----

  ghost predicate Known(c: Config, items: seq<Item>) {
    forall i :: 0 <= i < |items| && items[i].use != LeftOver ==> items[i].id < |c.details|
  }

  /** The state `t` is `s` with what the items say. */
  ghost predicate Adds(c: Config, s: State, items: seq<Item>, t: State) {
    && Known(c, items) && |s.counts| == |t.counts| == |c.details|
    && t.sequential == s.sequential + Entries(c, items) && t.unmatched == s.unmatched + Leftovers(items)
    && forall id :: 0 <= id < |c.details| ==> t.counts[id] == s.counts[id] + CountId(items, id)
  }

  lemma {:induction false} EntriesConcat(c: Config, a: seq<Item>, b: seq<Item>)
    requires Known(c, a) && Known(c, b)
    ensures Known(c, a + b) && Entries(c, a + b) == Entries(c, a) + Entries(c, b)
    ensures Leftovers(a + b) == Leftovers(a) + Leftovers(b)
    decreases |b|
  {
    if b == [] {
      assert a + b == a;
    } else {
      var most, last := b[..|b| - 1], b[|b| - 1];
      EntriesConcat(c, a, most);
      ConcatSnoc(a, b);
      assert (a + b)[..|a + b| - 1] == a + most;
      Associate(Entries(c, a), Entries(c, most),
                if last.use == LeftOver then [] else [Entry(EssentialName(c.details[last.id]), last.text)]);
      Associate(Leftovers(a), Leftovers(most), if last.use == LeftOver then [last.text] else []);
    }
  }

  lemma {:induction false} CountConcat(a: seq<Item>, b: seq<Item>, id: nat)
    ensures CountId(a + b, id) == CountId(a, id) + CountId(b, id)
    decreases |b|
  {
    if b == [] {
      assert a + b == a;
    } else {
      CountConcat(a, b[..|b| - 1], id);
      assert (a + b)[..|a + b| - 1] == a + b[..|b| - 1];
    }
  }

  lemma AddsConcat(c: Config, s: State, a: seq<Item>, t: State, b: seq<Item>, u: State)
    requires Adds(c, s, a, t) && Adds(c, t, b, u)
    ensures Adds(c, s, a + b, u)
  {
    EntriesConcat(c, a, b);
    forall id | 0 <= id < |c.details| ensures u.counts[id] == s.counts[id] + CountId(a + b, id) {
      CountConcat(a, b, id);
    }
    Associate(s.sequential, Entries(c, a), Entries(c, b));
    Associate(s.unmatched, Leftovers(a), Leftovers(b));
  }

  lemma AddsNothing(c: Config, s: State)
    requires |s.counts| == |c.details|
    ensures Adds(c, s, [], s)
  {
    assert s.sequential + [] == s.sequential && s.unmatched + [] == s.unmatched;
  }

  lemma AddsOne(c: Config, s: State, x: Item)
    requires |c.details| == |s.counts| && (x.use != LeftOver ==> x.id < |c.details|)
    ensures x.use != LeftOver ==> Adds(c, s, [x], Record(c, s, x.id, x.text))
    ensures x.use == LeftOver ==> Adds(c, s, [x], Unmatched(s, x.text))
  {
    assert [x][..0] == [];
    assert s.sequential + [] == s.sequential && s.unmatched + [] == s.unmatched;
    assert CountId([x][..0], x.id) == 0;
  }

  // ----- one argument -----

  /** The items of one argument: all at `k`, from letter `i` on. */
  ghost predicate ItemsAt(c: Config, argv: seq<Arg>, items: seq<Item>, k: nat, i: nat) {
    && InOrder(items)
    && forall j :: 0 <= j < |items| ==> items[j].at == k && items[j].letter >= i && ComesFrom(c, argv, |argv|, items[j])
  }

  lemma TraceTake(c: Config, argv: seq<Arg>, k: nat, s: State, id: nat, name: string, letter: nat) returns (x: Item)
    requires Fitting(c, s) && id < |c.details| && k < |argv| && TakeValue(c, argv, k, s, id, name).Ok?
    requires (IsLong(c, argv[k], id) && !argv[k].setValue)
          || (IsLetter(c, argv[k], letter, id) && letter + 1 == |argv[k].letters|)
    ensures var (t, next) := TakeValue(c, argv, k, s, id, name).value;
            && Adds(c, s, [x], t) && t.next == s.next && next == (if x.use == FromNext then k + 1 else k)
    ensures x.at == k && x.letter == letter && ComesFrom(c, argv, |argv|, x) && x.use in {FromNext, FromImplicit}
  {
    if c.details[id].hasImplicit {
      x := Item(k, letter, FromImplicit, id, c.details[id].implicitValue);
    } else {
      x := Item(k, letter, FromNext, id, Raw(argv[k + 1]));
    }
    AddsOne(c, s, x);
  }

  /** All letters from `i` on have an item or are part of a value. */
  ghost predicate LettersExplained(items: seq<Item>, k: nat, i: nat, n: nat) {
    forall j :: i <= j < n ==> HasItem(items, k, j) || InValue(items, k, j)
  }

  lemma ConsLetter(c: Config, argv: seq<Arg>, x: Item, rest: seq<Item>, k: nat, i: nat, n: nat)
    requires x.at == k && x.letter == i && ComesFrom(c, argv, |argv|, x)
    requires ItemsAt(c, argv, rest, k, i + 1) && LettersExplained(rest, k, i + 1, n)
    ensures ItemsAt(c, argv, [x] + rest, k, i) && LettersExplained([x] + rest, k, i, n)
    ensures x.use != FromNext ==> (TakenAsValue([x] + rest, k + 1) <==> TakenAsValue(rest, k + 1))
  {
    var items := [x] + rest;
    assert items[0] == x;
    assert forall j :: 0 <= j < |rest| ==> items[j + 1] == rest[j];
    forall j | i < j < n ensures HasItem(items, k, j) || InValue(items, k, j) {
      assert HasItem(rest, k, j) || InValue(rest, k, j);
    }
  }

  /** A letter that ends its group: it is the last, or the rest is its value. */
  lemma LastLetter(c: Config, argv: seq<Arg>, x: Item)
    requires x.at < |argv| && argv[x.at].Group? && ComesFrom(c, argv, |argv|, x)
    requires x.letter + 1 == |argv[x.at].letters| || x.use == FromRest
    ensures ItemsAt(c, argv, [x], x.at, x.letter)
    ensures LettersExplained([x], x.at, x.letter, |argv[x.at].letters|)
    ensures TakenAsValue([x], x.at + 1) <==> x.use == FromNext
  {
    assert [x][0] == x;
  }

  lemma {:induction false} TraceGroup(c: Config, argv: seq<Arg>, k: nat, s: State, i: nat) returns (items: seq<Item>)
    requires Fitting(c, s) && k < |argv| && argv[k].Group? && i <= |argv[k].letters|
    requires GroupFrom(c, argv, k, s, argv[k].letters, i).Ok?
    ensures var (t, next) := GroupFrom(c, argv, k, s, argv[k].letters, i).value;
            && Adds(c, s, items, t) && t.next == s.next
            && next == (if TakenAsValue(items, k + 1) then k + 1 else k)
    ensures ItemsAt(c, argv, items, k, i) && LettersExplained(items, k, i, |argv[k].letters|)
    decreases |argv[k].letters| - i, 0
  {
    var letters := argv[k].letters;
    items := [];
    if i == |letters| {
      AddsNothing(c, s);
    } else if [letters[i]] !in c.options {
      var x := Item(k, i, LeftOver, 0, "-" + [letters[i]]);
      items := TraceLetter(c, argv, k, s, i, x, Unmatched(s, x.text));
    } else {
      var id := c.options[[letters[i]]];
      if i + 1 == |letters| {
        var x := TraceTake(c, argv, k, s, id, [letters[i]], i);
        LastLetter(c, argv, x);
        items := [x];
      } else if c.details[id].hasImplicit {
        var x := Item(k, i, FromImplicit, id, c.details[id].implicitValue);
        items := TraceLetter(c, argv, k, s, i, x, Record(c, s, id, x.text));
      } else {
        var x := Item(k, i, FromRest, id, letters[i + 1..]);
        AddsOne(c, s, x);
        LastLetter(c, argv, x);
        items := [x];
      }
    }
  }

  lemma {:induction false} TraceLetter(c: Config, argv: seq<Arg>, k: nat, s: State, i: nat, x: Item, u: State)
    returns (items: seq<Item>)
    requires Fitting(c, s) && k < |argv| && argv[k].Group? && i < |argv[k].letters|
    requires x.at == k && x.letter == i && ComesFrom(c, argv, |argv|, x) && x.use != FromNext
    requires u == if x.use == LeftOver then Unmatched(s, x.text) else Record(c, s, x.id, x.text)
    requires GroupFrom(c, argv, k, u, argv[k].letters, i + 1).Ok?
    ensures var (t, next) := GroupFrom(c, argv, k, u, argv[k].letters, i + 1).value;
            && Adds(c, s, items, t) && t.next == s.next
            && next == (if TakenAsValue(items, k + 1) then k + 1 else k)
    ensures ItemsAt(c, argv, items, k, i) && LettersExplained(items, k, i, |argv[k].letters|)
    decreases |argv[k].letters| - i - 1, 1
  {
    var rest := TraceGroup(c, argv, k, u, i + 1);
    AddsOne(c, s, x);
    AddsConcat(c, s, [x], u, rest, GroupFrom(c, argv, k, u, argv[k].letters, i + 1).value.0);
    ConsLetter(c, argv, x, rest, k, i, |argv[k].letters|);
    items := [x] + rest;
  }

  // ----- positional options -----

  /** An option that takes one value and has one. */
  ghost predicate Filled(c: Config, counts: seq<nat>, j: nat)
    requires j < |c.positional|
  {
    && c.positional[j] in c.options
    && var id := c.options[c.positional[j]];
       id < |c.details| && id < |counts| && !c.details[id].isContainer && counts[id] > 0
  }

  /** This option is the first positional one, from `from` on, that can take a value. */
  ghost predicate FirstFree(c: Config, counts: seq<nat>, from: nat, id: nat) {
    exists j :: from <= j < |c.positional| && c.positional[j] in c.options && c.options[c.positional[j]] == id
      && id < |c.details| && id < |counts| && (c.details[id].isContainer || counts[id] == 0)
      && forall i :: from <= i < j ==> Filled(c, counts, i)
  }

  ghost predicate AllFilled(c: Config, counts: seq<nat>, from: nat) {
    forall j :: from <= j < |c.positional| ==> Filled(c, counts, j)
  }

  lemma {:induction false} TraceConsume(c: Config, s: State, a: string) returns (id: nat)
    requires Fitting(c, s) && Consume(c, s, a).Ok?
    ensures var (t, taken) := Consume(c, s, a).value;
            if taken then
              && id < |c.details| && IsPositional(c, id) && FirstFree(c, s.counts, s.next, id)
              && t == Record(c, s, id, a).(next := t.next)
              && forall i :: s.next <= i < t.next ==> Filled(c, t.counts, i)
            else t == s.(next := t.next) && t.next == |c.positional| && AllFilled(c, s.counts, s.next)
    decreases |c.positional| - s.next
  {
    id := 0;
    if s.next < |c.positional| {
      var m := c.options[c.positional[s.next]];
      if c.details[m].isContainer || s.counts[m] == 0 {
        id := m;
      } else {
        assert Filled(c, s.counts, s.next);
        id := TraceConsume(c, s.(next := s.next + 1), a);
        FilledMore(c, s, a, id);
      }
    }
  }

  lemma FilledMore(c: Config, s: State, a: string, id: nat)
    requires Fitting(c, s) && s.next < |c.positional| && Filled(c, s.counts, s.next)
    ensures FirstFree(c, s.counts, s.next + 1, id) ==> FirstFree(c, s.counts, s.next, id)
    ensures AllFilled(c, s.counts, s.next + 1) ==> AllFilled(c, s.counts, s.next)
    ensures id < |c.details| ==> Filled(c, Record(c, s, id, a).counts, s.next)
  {
    if FirstFree(c, s.counts, s.next + 1, id) {
      var j :| s.next + 1 <= j < |c.positional| && c.positional[j] in c.options && c.options[c.positional[j]] == id
        && id < |c.details| && id < |s.counts| && (c.details[id].isContainer || s.counts[id] == 0)
        && forall i :: s.next + 1 <= i < j ==> Filled(c, s.counts, i);
      assert forall i :: s.next <= i < j ==> Filled(c, s.counts, i);
    }
  }

  /** The positional names passed over are all filled. */
  ghost predicate Skipped(c: Config, s: State) {
    s.next <= |c.positional| && forall i :: 0 <= i < s.next ==> Filled(c, s.counts, i)
  }

  lemma SkippedGrows(c: Config, s: State, items: seq<Item>, t: State)
    requires Skipped(c, s) && Adds(c, s, items, t) && t.next == s.next
    ensures Skipped(c, t)
  {
    forall i | 0 <= i < t.next ensures Filled(c, t.counts, i) {
      assert Filled(c, s.counts, i);
    }
  }

  /** A positional option takes a value only when it is its turn, and an argument is left over only when no
      positional option can take it. */
  ghost predicate InTurn(c: Config, counts: seq<nat>, x: Item, positional: bool) {
    && (x.use == FromSelf ==> FirstFree(c, counts, 0, x.id))
    && (x.use == LeftOver && positional ==> AllFilled(c, counts, 0))
  }

  // ----- one argument, with its place in turn -----

  lemma TracePositional(c: Config, argv: seq<Arg>, k: nat, s: State) returns (x: Item)
    requires Fitting(c, s) && k < |argv| && Skipped(c, s) && Consume(c, s, Raw(argv[k])).Ok?
    ensures var (t, taken) := Consume(c, s, Raw(argv[k])).value;
            var u := if taken then t else Unmatched(t, Raw(argv[k]));
            && Adds(c, s, [x], u) && Skipped(c, u) && InTurn(c, s.counts, x, true)
            && x == Item(k, 0, if taken then FromSelf else LeftOver, x.id, Raw(argv[k]))
            && (taken ==> x.id < |c.details| && IsPositional(c, x.id))
            && (!taken ==> t == s.(next := |c.positional|) && AllFilled(c, s.counts, 0))
  {
    var id := TraceConsume(c, s, Raw(argv[k]));
    var (t, taken) := Consume(c, s, Raw(argv[k])).value;
    if taken {
      x := Item(k, 0, FromSelf, id, Raw(argv[k]));
      AddsOne(c, s, x);
      SkippedTaken(c, s, x, t);
      FreeFromStart(c, s, id);
    } else {
      x := Item(k, 0, LeftOver, 0, Raw(argv[k]));
      AddsOne(c, s, x);
      assert Unmatched(t, x.text) == Unmatched(s, x.text).(next := t.next);
    }
  }

  lemma SkippedTaken(c: Config, s: State, x: Item, t: State)
    requires Skipped(c, s) && Adds(c, s, [x], t) && s.next <= t.next <= |c.positional|
    requires forall i :: s.next <= i < t.next ==> Filled(c, t.counts, i)
    ensures Skipped(c, t)
  {
    SkippedGrows(c, s, [x], t.(next := s.next));
  }

  lemma FreeFromStart(c: Config, s: State, id: nat)
    requires Skipped(c, s) && FirstFree(c, s.counts, s.next, id)
    ensures FirstFree(c, s.counts, 0, id)
  {
    var j :| s.next <= j < |c.positional| && c.positional[j] in c.options && c.options[c.positional[j]] == id
      && id < |c.details| && id < |s.counts| && (c.details[id].isContainer || s.counts[id] == 0)
      && forall i :: s.next <= i < j ==> Filled(c, s.counts, i);
    assert forall i :: 0 <= i < j ==> Filled(c, s.counts, i);
  }

  /** One round of the main loop. */
  ghost predicate Traced(c: Config, argv: seq<Arg>, k: nat, s: State, items: seq<Item>, t: State, next: nat) {
    && k < |argv| && Adds(c, s, items, t) && Skipped(c, t) && ItemsAt(c, argv, items, k, 0)
    && next == (if TakenAsValue(items, k + 1) then k + 2 else k + 1)
    && ArgExplained(c, items, argv[k], k)
    && (argv[k].Plain? ==> |items| == 1 && InTurn(c, s.counts, items[0], true))
    && (!argv[k].Plain? ==> forall i :: 0 <= i < |items| ==> items[i].use != FromSelf)
  }

  lemma TraceArg(c: Config, argv: seq<Arg>, k: nat, s: State) returns (items: seq<Item>)
    requires Fitting(c, s) && k < |argv| && argv[k] != DashDash && OneArg(c, argv, k, s).Ok? && Skipped(c, s)
    ensures Traced(c, argv, k, s, items, OneArg(c, argv, k, s).value.0, OneArg(c, argv, k, s).value.1)
  {
    match argv[k] {
      case Plain(raw) =>
        var x := TracePositional(c, argv, k, s);
        items := [x];
        assert items[0] == x;
      case Group(raw, letters) =>
        items := TraceGroup(c, argv, k, s, 0);
        SkippedGrows(c, s, items, OneArg(c, argv, k, s).value.0);
      case Long(raw, name, setValue, value) =>
        items := TraceLong(c, argv, k, s);
        SkippedGrows(c, s, items, OneArg(c, argv, k, s).value.0);
    }
  }

  lemma TraceLong(c: Config, argv: seq<Arg>, k: nat, s: State) returns (items: seq<Item>)
    requires Fitting(c, s) && k < |argv| && argv[k].Long? && OneArg(c, argv, k, s).Ok?
    ensures var (t, next) := OneArg(c, argv, k, s).value;
            && Adds(c, s, items, t) && t.next == s.next && ItemsAt(c, argv, items, k, 0)
            && next == (if TakenAsValue(items, k + 1) then k + 2 else k + 1)
            && ArgExplained(c, items, argv[k], k)
    ensures forall i :: 0 <= i < |items| ==> items[i].use != FromSelf
  {
    var a := argv[k];
    items := [];
    if a.name == "" {
      AddsNothing(c, s);
    } else if a.name !in c.options {
      items := [Item(k, 0, LeftOver, 0, a.raw)];
      AddsOne(c, s, items[0]);
    } else if a.setValue {
      items := [Item(k, 0, FromEquals, c.options[a.name], a.value)];
      AddsOne(c, s, items[0]);
    } else {
      var x := TraceTake(c, argv, k, s, c.options[a.name], a.name, 0);
      items := [x];
      assert items[0] == x;
    }
  }

  // ----- the arguments so far -----

  function CountsOf(c: Config, items: seq<Item>): seq<nat> {
    seq(|c.details|, id requires 0 <= id < |c.details| => CountId(items, id))
  }

  /** Item `i` had its turn, given the values before it. */
  ghost predicate Turn(c: Config, argv: seq<Arg>, stop: nat, items: seq<Item>, i: nat)
    requires i < |items| && items[i].at < |argv|
  {
    InTurn(c, CountsOf(c, items[..i]), items[i], items[i].at > stop || argv[items[i].at].Plain?)
  }

  ghost predicate ItemsGood(c: Config, argv: seq<Arg>, stop: nat, items: seq<Item>, k: nat) {
    && InOrder(items)
    && forall i :: 0 <= i < |items| ==>
         items[i].at < k && ComesFrom(c, argv, stop, items[i]) && Turn(c, argv, stop, items, i)
  }

  ghost predicate ArgsExplained(c: Config, argv: seq<Arg>, stop: nat, items: seq<Item>, k: nat)
    requires k <= |argv|
  {
    forall m :: 1 <= m < k ==> Explained(c, argv, stop, items, m)
  }

  /** All arguments before `k` are accounted for, and `k` is not a value. */
  ghost predicate Sofar(c: Config, argv: seq<Arg>, stop: nat, k: nat, s: State, items: seq<Item>) {
    && Fitting(c, s) && Adds(c, Initial(c), items, s) && Skipped(c, s) && k <= |argv|
    && ItemsGood(c, argv, stop, items, k) && ArgsExplained(c, argv, stop, items, k) && !TakenAsValue(items, k)
  }

  lemma InOrderConcat(a: seq<Item>, b: seq<Item>, k: nat)
    requires InOrder(a) && InOrder(b)
    requires (forall i :: 0 <= i < |a| ==> a[i].at < k) && (forall i :: 0 <= i < |b| ==> b[i].at >= k)
    ensures InOrder(a + b)
  {
  }

  lemma CountsNow(c: Config, items: seq<Item>, s: State)
    requires Adds(c, Initial(c), items, s)
    ensures s.counts == CountsOf(c, items)
  {
  }

  lemma TurnKept(c: Config, argv: seq<Arg>, stop: nat, a: seq<Item>, b: seq<Item>, i: nat)
    requires i < |a| && a[i].at < |argv|
    ensures (a + b)[i] == a[i] && (Turn(c, argv, stop, a, i) <==> Turn(c, argv, stop, a + b, i))
  {
    assert (a + b)[..i] == a[..i];
  }

  /** Items of later arguments do not change what became of an earlier one. */
  lemma ExplainedKept(c: Config, argv: seq<Arg>, stop: nat, a: seq<Item>, b: seq<Item>, m: nat, k: nat)
    requires m < k <= |argv| && Explained(c, argv, stop, a, m)
    requires forall i :: 0 <= i < |b| ==> b[i].at >= k
    ensures Explained(c, argv, stop, a + b, m)
  {
    HasKept(a, b);
    assert forall i :: 0 <= i < |a| ==> (a + b)[i] == a[i];
    assert forall i :: |a| <= i < |a + b| ==> (a + b)[i] == b[i - |a|];
    assert TakenAsValue(a + b, m) <==> TakenAsValue(a, m);
    if m != stop && m < stop && !TakenAsValue(a, m) && argv[m].Group? {
      forall i | 0 <= i < |argv[m].letters| ensures HasItem(a + b, m, i) || InValue(a + b, m, i) {
        assert HasItem(a, m, i) || InValue(a, m, i);
      }
    }
  }

  lemma HasKept(a: seq<Item>, b: seq<Item>)
    ensures forall k, i :: HasItem(a, k, i) ==> HasItem(a + b, k, i)
    ensures forall k, i :: InValue(a, k, i) ==> InValue(a + b, k, i)
    ensures forall k, i :: HasItem(b, k, i) ==> HasItem(a + b, k, i)
    ensures forall k, i :: InValue(b, k, i) ==> InValue(a + b, k, i)
  {
    assert forall i :: 0 <= i < |a| ==> (a + b)[i] == a[i];
    assert forall i :: 0 <= i < |b| ==> (a + b)[|a| + i] == b[i];
  }

  lemma NewTurn(c: Config, argv: seq<Arg>, k: nat, s: State, items: seq<Item>, more: seq<Item>, t: State, next: nat,
                i: nat)
    requires Adds(c, Initial(c), items, s) && Traced(c, argv, k, s, more, t, next) && i < |more|
    ensures Turn(c, argv, |argv|, items + more, |items| + i)
  {
    var all := items + more;
    assert all[|items| + i] == more[i];
    if argv[k].Plain? {
      CountsNow(c, items, s);
      assert all[..|items|] == items;
    }
  }

  lemma Extended(c: Config, argv: seq<Arg>, k: nat, s: State, items: seq<Item>, more: seq<Item>, t: State, next: nat)
    requires 1 <= k && Sofar(c, argv, |argv|, k, s, items) && Traced(c, argv, k, s, more, t, next) && next <= |argv|
    requires Fitting(c, t)
    ensures Sofar(c, argv, |argv|, next, t, items + more)
  {
    var all := items + more;
    AddsConcat(c, Initial(c), items, s, more, t);
    InOrderConcat(items, more, k);
    forall i | 0 <= i < |all|
      ensures all[i].at < next && ComesFrom(c, argv, |argv|, all[i]) && Turn(c, argv, |argv|, all, i)
    {
      if i < |items| {
        TurnKept(c, argv, |argv|, items, more, i);
      } else {
        NewTurn(c, argv, k, s, items, more, t, next, i - |items|);
      }
    }
    NextExplained(c, argv, k, items, more, next);
  }

  lemma NextExplained(c: Config, argv: seq<Arg>, k: nat, items: seq<Item>, more: seq<Item>, next: nat)
    requires 1 <= k < |argv| && next <= |argv| && ItemsGood(c, argv, |argv|, items, k)
    requires ArgsExplained(c, argv, |argv|, items, k) && !TakenAsValue(items, k)
    requires ItemsAt(c, argv, more, k, 0) && ArgExplained(c, more, argv[k], k)
    requires next == if TakenAsValue(more, k + 1) then k + 2 else k + 1
    ensures ArgsExplained(c, argv, |argv|, items + more, next) && !TakenAsValue(items + more, next)
  {
    var all := items + more;
    assert forall i :: 0 <= i < |items| ==> all[i] == items[i];
    assert forall i :: 0 <= i < |more| ==> all[|items| + i] == more[i];
    assert forall i :: |items| <= i < |all| ==> all[i] == more[i - |items|];
    forall m | 1 <= m < next ensures Explained(c, argv, |argv|, all, m) {
      if m < k {
        ExplainedKept(c, argv, |argv|, items, more, m, k);
      } else if m == k {
        ArgKept(c, items, more, argv[k], k);
      }
    }
  }

  lemma ArgKept(c: Config, items: seq<Item>, more: seq<Item>, a: Arg, k: nat)
    requires ArgExplained(c, more, a, k)
    ensures ArgExplained(c, items + more, a, k)
  {
    HasKept(items, more);
    if a.Group? {
      forall i | 0 <= i < |a.letters| ensures HasItem(items + more, k, i) || InValue(items + more, k, i) {
        assert HasItem(more, k, i) || InValue(more, k, i);
      }
    }
  }

  // ----- the loops -----

  /** Some items account for all arguments before `k`. */
  ghost predicate Reached(c: Config, argv: seq<Arg>, stop: nat, k: nat, s: State) {
    exists items :: Sofar(c, argv, stop, k, s, items)
  }

  lemma MainRound(c: Config, argv: seq<Arg>, k: nat, s: State)
    requires Fitting(c, s) && 1 <= k < |argv| && Reached(c, argv, |argv|, k, s)
    requires argv[k] != DashDash && OneArg(c, argv, k, s).Ok?
    ensures Reached(c, argv, |argv|, OneArg(c, argv, k, s).value.1, OneArg(c, argv, k, s).value.0)
  {
    var items :| Sofar(c, argv, |argv|, k, s, items);
    var more := TraceArg(c, argv, k, s);
    var (t, next) := OneArg(c, argv, k, s).value;
    Extended(c, argv, k, s, items, more, t, next);
  }

  ghost predicate RoundKeeps(c: Config, argv: seq<Arg>, P: (nat, State) -> bool, k: nat, s: State) {
    Fitting(c, s) && k < |argv| && argv[k] != DashDash && P(k, s) && OneArg(c, argv, k, s).Ok? ==>
      P(OneArg(c, argv, k, s).value.1, OneArg(c, argv, k, s).value.0)
  }

  /** What the main loop reaches: the position of the `--` that ends the options, or the end. */
  lemma {:induction false} MainInduction(c: Config, argv: seq<Arg>, P: (nat, State) -> bool, k: nat, s: State)
    returns (stop: nat)
    requires Fitting(c, s) && 1 <= k <= |argv| && P(k, s) && MainLoop(c, argv, k, s).Ok?
    requires forall m, t :: m >= 1 ==> RoundKeeps(c, argv, P, m, t)
    ensures var (t, next, rest) := MainLoop(c, argv, k, s).value;
            && P(stop, t) && (rest ==> next == stop + 1 && stop < |argv| && argv[stop] == DashDash)
            && (!rest ==> stop == |argv|)
    decreases |argv| - k
  {
    stop := k;
    if k < |argv| && argv[k] != DashDash {
      assert RoundKeeps(c, argv, P, k, s);
      var (t, next) := OneArg(c, argv, k, s).value;
      stop := MainInduction(c, argv, P, next, t);
    }
  }

  lemma TraceMain(c: Config, argv: seq<Arg>) returns (stop: nat)
    requires Registered(c) && |argv| >= 1 && MainLoop(c, argv, 1, Initial(c)).Ok?
    ensures var (t, next, rest) := MainLoop(c, argv, 1, Initial(c)).value;
            && Reached(c, argv, |argv|, stop, t)
            && (rest ==> next == stop + 1 && stop < |argv| && argv[stop] == DashDash)
            && (!rest ==> stop == |argv|)
  {
    var P := (k: nat, t: State) => Reached(c, argv, |argv|, k, t);
    forall k: nat, t: State | k >= 1 ensures RoundKeeps(c, argv, P, k, t) {
      if Fitting(c, t) && k < |argv| && argv[k] != DashDash && Reached(c, argv, |argv|, k, t) {
        if OneArg(c, argv, k, t).Ok? { MainRound(c, argv, k, t); }
      }
    }
    StartReached(c, argv);
    stop := MainInduction(c, argv, P, 1, Initial(c));
  }

  /** The options end at `stop`. */
  lemma Stops(c: Config, argv: seq<Arg>, stop: nat, s: State)
    requires Reached(c, argv, |argv|, stop, s) && stop < |argv| && argv[stop] == DashDash
    ensures Reached(c, argv, stop, stop + 1, s)
  {
    var items :| Sofar(c, argv, |argv|, stop, s, items);
    forall i | 0 <= i < |items| ensures ComesFrom(c, argv, stop, items[i]) && Turn(c, argv, stop, items, i) {
      assert ComesFrom(c, argv, |argv|, items[i]) && Turn(c, argv, |argv|, items, i);
    }
    forall m | 1 <= m < stop ensures Explained(c, argv, stop, items, m) {
      assert Explained(c, argv, |argv|, items, m);
    }
    assert Sofar(c, argv, stop, stop + 1, s, items);
  }

  lemma TrailingGood(c: Config, argv: seq<Arg>, stop: nat, k: nat, s: State, items: seq<Item>, x: Item)
    requires stop < k < |argv| && ItemsGood(c, argv, stop, items, k) && Adds(c, Initial(c), items, s)
    requires x.at == k && ComesFrom(c, argv, stop, x) && InTurn(c, s.counts, x, true)
    ensures ItemsGood(c, argv, stop, items + [x], k + 1)
  {
    var all := items + [x];
    InOrderConcat(items, [x], k);
    LastTurn(c, argv, stop, items, s, x);
    forall i | 0 <= i < |all|
      ensures all[i].at < k + 1 && ComesFrom(c, argv, stop, all[i]) && Turn(c, argv, stop, all, i)
    {
      if i < |items| { TurnKept(c, argv, stop, items, [x], i); }
    }
  }

  lemma LastTurn(c: Config, argv: seq<Arg>, stop: nat, items: seq<Item>, s: State, x: Item)
    requires Adds(c, Initial(c), items, s) && x.at < |argv| && InTurn(c, s.counts, x, true)
    ensures (items + [x])[|items|] == x && Turn(c, argv, stop, items + [x], |items|)
  {
    CountsNow(c, items, s);
    assert (items + [x])[..|items|] == items;
  }

  lemma TrailingExplained(c: Config, argv: seq<Arg>, stop: nat, k: nat, items: seq<Item>, x: Item)
    requires stop < k < |argv| && ItemsGood(c, argv, stop, items, k) && ArgsExplained(c, argv, stop, items, k)
    requires x.at == k && x.letter == 0 && x.use != FromNext
    ensures ArgsExplained(c, argv, stop, items + [x], k + 1) && !TakenAsValue(items + [x], k + 1)
  {
    var all := items + [x];
    assert all[|items|] == x && forall i :: 0 <= i < |items| ==> all[i] == items[i];
    forall m | 1 <= m < k + 1 ensures Explained(c, argv, stop, all, m) {
      if m < k { ExplainedKept(c, argv, stop, items, [x], m, k); } else { assert HasItem(all, k, 0); }
    }
  }

  /** One more item behind the end of the options. */
  lemma TrailingItem(c: Config, argv: seq<Arg>, stop: nat, k: nat, s: State, items: seq<Item>, x: Item, t: State)
    requires stop < k < |argv| && Sofar(c, argv, stop, k, s, items)
    requires Adds(c, s, [x], t) && Fitting(c, t) && Skipped(c, t)
    requires x.at == k && x.letter == 0 && x.use in {FromSelf, LeftOver} && ComesFrom(c, argv, stop, x)
    requires InTurn(c, s.counts, x, true)
    ensures Reached(c, argv, stop, k + 1, t)
  {
    AddsConcat(c, Initial(c), items, s, [x], t);
    TrailingGood(c, argv, stop, k, s, items, x);
    TrailingExplained(c, argv, stop, k, items, x);
    assert Sofar(c, argv, stop, k + 1, t, items + [x]);
  }

  lemma TrailingTaken(c: Config, argv: seq<Arg>, stop: nat, k: nat, s: State)
    requires Fitting(c, s) && stop < k < |argv| && Reached(c, argv, stop, k, s)
    requires Consume(c, s, Raw(argv[k])).Ok? && Consume(c, s, Raw(argv[k])).value.1
    ensures Reached(c, argv, stop, k + 1, Consume(c, s, Raw(argv[k])).value.0)
  {
    var items :| Sofar(c, argv, stop, k, s, items);
    var x := TracePositional(c, argv, k, s);
    TrailingItem(c, argv, stop, k, s, items, x, Consume(c, s, Raw(argv[k])).value.0);
  }

  /** Passing over filled names adds nothing. */
  lemma TrailingPassed(c: Config, argv: seq<Arg>, stop: nat, k: nat, s: State)
    requires Fitting(c, s) && stop < k < |argv| && Reached(c, argv, stop, k, s)
    requires Consume(c, s, Raw(argv[k])).Ok? && !Consume(c, s, Raw(argv[k])).value.1
    ensures AllFilled(c, s.counts, 0) && Consume(c, s, Raw(argv[k])).value.0 == s.(next := |c.positional|)
    ensures Reached(c, argv, stop, k, s.(next := |c.positional|))
  {
    var items :| Sofar(c, argv, stop, k, s, items);
    var x := TracePositional(c, argv, k, s);
    assert Sofar(c, argv, stop, k, s.(next := |c.positional|), items);
  }

  lemma TrailingLeft(c: Config, argv: seq<Arg>, stop: nat, k: nat, s: State)
    requires stop < k < |argv| && Reached(c, argv, stop, k, s) && AllFilled(c, s.counts, 0)
    ensures Reached(c, argv, stop, k + 1, Unmatched(s, Raw(argv[k])))
  {
    var items :| Sofar(c, argv, stop, k, s, items);
    var x := Item(k, 0, LeftOver, 0, Raw(argv[k]));
    AddsOne(c, s, x);
    TrailingItem(c, argv, stop, k, s, items, x, Unmatched(s, Raw(argv[k])));
  }

  function WithRest(s: State, args: seq<Arg>): State { s.(unmatched := s.unmatched + Raws(args)) }

  lemma WithRestStep(s: State, argv: seq<Arg>, k: nat)
    requires k < |argv|
    ensures WithRest(s, argv[k..]) == WithRest(Unmatched(s, Raw(argv[k])), argv[k + 1..])
  {
    assert Raws(argv[k..]) == [Raw(argv[k])] + Raws(argv[k + 1..]);
    Associate(s.unmatched, [Raw(argv[k])], Raws(argv[k + 1..]));
  }

  lemma {:induction false} TraceRest(c: Config, argv: seq<Arg>, stop: nat, k: nat, s: State)
    requires stop < k <= |argv| && Reached(c, argv, stop, k, s) && AllFilled(c, s.counts, 0)
    ensures Reached(c, argv, stop, |argv|, WithRest(s, argv[k..]))
    decreases |argv| - k
  {
    if k == |argv| {
      assert WithRest(s, argv[k..]) == s;
    } else {
      TrailingLeft(c, argv, stop, k, s);
      TraceRest(c, argv, stop, k + 1, Unmatched(s, Raw(argv[k])));
      WithRestStep(s, argv, k);
    }
  }

  /** What one argument behind the end of the options does to a property of position and state. */
  ghost predicate TrailingKeeps(c: Config, argv: seq<Arg>, P: (nat, State) -> bool, k: nat, s: State) {
    Fitting(c, s) && k < |argv| && P(k, s) && Consume(c, s, Raw(argv[k])).Ok? ==>
      var (t, taken) := Consume(c, s, Raw(argv[k])).value;
      if taken then P(k + 1, t) else P(|argv|, WithRest(t, argv[k..]))
  }

  lemma {:induction false} TrailingInduction(c: Config, argv: seq<Arg>, P: (nat, State) -> bool, from: nat, k: nat,
                                             s: State)
    requires Fitting(c, s) && from <= k <= |argv| && P(k, s) && Trailing(c, argv, k, s).Ok?
    requires forall m, t :: m >= from ==> TrailingKeeps(c, argv, P, m, t)
    ensures P(|argv|, Trailing(c, argv, k, s).value)
    decreases |argv| - k
  {
    if k < |argv| {
      assert TrailingKeeps(c, argv, P, k, s);
      var (t, taken) := Consume(c, s, Raw(argv[k])).value;
      if taken { TrailingInduction(c, argv, P, from, k + 1, t); }
    }
  }

  lemma TraceTrailing(c: Config, argv: seq<Arg>, stop: nat, s: State)
    requires Fitting(c, s) && stop < |argv| && Reached(c, argv, stop, stop + 1, s) && Trailing(c, argv, stop + 1, s).Ok?
    ensures Reached(c, argv, stop, |argv|, Trailing(c, argv, stop + 1, s).value)
  {
    var P := (k: nat, t: State) => Reached(c, argv, stop, k, t);
    forall k: nat, t: State | k >= stop + 1 ensures TrailingKeeps(c, argv, P, k, t) {
      if Fitting(c, t) && k < |argv| && Reached(c, argv, stop, k, t) && Consume(c, t, Raw(argv[k])).Ok? {
        TrailingRound(c, argv, stop, k, t);
      }
    }
    TrailingInduction(c, argv, P, stop + 1, stop + 1, s);
  }

  lemma TrailingRound(c: Config, argv: seq<Arg>, stop: nat, k: nat, s: State)
    requires Fitting(c, s) && stop < k < |argv| && Reached(c, argv, stop, k, s) && Consume(c, s, Raw(argv[k])).Ok?
    ensures var (t, taken) := Consume(c, s, Raw(argv[k])).value;
            if taken then Reached(c, argv, stop, k + 1, t) else Reached(c, argv, stop, |argv|, WithRest(t, argv[k..]))
  {
    if Consume(c, s, Raw(argv[k])).value.1 {
      TrailingTaken(c, argv, stop, k, s);
    } else {
      TrailingPassed(c, argv, stop, k, s);
      TraceRest(c, argv, stop, k, s.(next := |c.positional|));
    }
  }

  // ----- the whole parse -----

  /** The items explain a parse: its values and unmatched texts are theirs, in order; each comes from its
      argument, in turn; and they say of every argument what became of it. */
  ghost predicate Explains(c: Config, argv: seq<Arg>, s: State, items: seq<Item>, stop: nat) {
    && Known(c, items) && |s.counts| == |c.details|
    && s.sequential == Entries(c, items) && s.unmatched == Leftovers(items)
    && (forall id :: 0 <= id < |c.details| ==> s.counts[id] == CountId(items, id))
    && ItemsGood(c, argv, stop, items, |argv|)
    && forall m :: 1 <= m < |argv| ==> Explained(c, argv, stop, items, m)
  }

  lemma ReachedExplains(c: Config, argv: seq<Arg>, stop: nat, s: State)
    requires Reached(c, argv, stop, |argv|, s)
    ensures Explainable(c, argv, s)
  {
    var items :| Sofar(c, argv, stop, |argv|, s, items);
    assert [] + Entries(c, items) == Entries(c, items) && [] + Leftovers(items) == Leftovers(items);
    assert Explains(c, argv, s, items, stop);
  }

  lemma StartReached(c: Config, argv: seq<Arg>)
    requires Registered(c) && |argv| >= 1
    ensures Reached(c, argv, |argv|, 1, Initial(c))
  {
    AddsNothing(c, Initial(c));
    assert Sofar(c, argv, |argv|, 1, Initial(c), []);
  }

  ghost predicate Explainable(c: Config, argv: seq<Arg>, s: State) {
    exists items, stop :: Explains(c, argv, s, items, stop)
  }

  lemma RestExplained(c: Config, argv: seq<Arg>, stop: nat, s: State)
    requires Fitting(c, s) && stop < |argv| && Reached(c, argv, |argv|, stop, s)
    requires argv[stop] == DashDash && Trailing(c, argv, stop + 1, s).Ok?
    ensures Explainable(c, argv, Trailing(c, argv, stop + 1, s).value)
  {
    Stops(c, argv, stop, s);
    TraceTrailing(c, argv, stop, s);
    ReachedExplains(c, argv, stop, Trailing(c, argv, stop + 1, s).value);
  }

  /** Every successful parse is explained: where each value and each unmatched text comes from, and what
      became of each argument. */
  lemma EveryArgument(c: Config, argv: seq<Arg>, names: seq<string>)
    requires Registered(c) && |argv| >= 1 && forall n :: n in names ==> n in c.options
    requires ParseAll(c, argv, names).Ok?
    ensures Explainable(c, argv, ParseAll(c, argv, names).value.state)
  {
    var stop := TraceMain(c, argv);
    var (s, next, rest) := MainLoop(c, argv, 1, Initial(c)).value;
    if rest {
      RestExplained(c, argv, stop, s);
    } else {
      ReachedExplains(c, argv, |argv|, s);
    }
  }

  // ----- the errors -----

  /** The argument gives no value to an option `name` that needs one. */
  ghost predicate NeedsValue(c: Config, a: Arg, name: string) {
    && name in c.options && c.options[name] < |c.details| && !c.details[c.options[name]].hasImplicit
    && ((a.Long? && a.name == name && !a.setValue)
        || (a.Group? && |a.letters| > 0 && name == [a.letters[|a.letters| - 1]]))
  }

  /** What is wrong with an argument. */
  ghost predicate WrongHere(c: Config, a: Arg, last: bool, e: Error) {
    match e
    case NoSuchOption(name) =>
      && name !in c.options
      && (name in c.positional
          || (!c.allowUnrecognised && a.Long? && a.name == name && name != "")
          || (!c.allowUnrecognised && a.Group? && exists i :: 0 <= i < |a.letters| && [a.letters[i]] == name))
    case MissingArgument(name) => last && NeedsValue(c, a, name)
    case InvalidSyntax(text) => !c.allowUnrecognised && a == Plain(text) && |text| > 1 && text[0] == '-'
  }

  ghost predicate WrongAt(c: Config, argv: seq<Arg>, k: nat, e: Error) {
    k < |argv| && WrongHere(c, argv[k], k + 1 == |argv|, e)
  }

  lemma {:induction false} ConsumeWrong(c: Config, s: State, a: string)
    requires Fitting(c, s) && Consume(c, s, a).Err?
    ensures var e := Consume(c, s, a).error; e.NoSuchOption? && e.name in c.positional && e.name !in c.options
    decreases |c.positional| - s.next
  {
    if c.positional[s.next] in c.options { ConsumeWrong(c, s.(next := s.next + 1), a); }
  }

  lemma {:induction false} GroupWrong(c: Config, argv: seq<Arg>, k: nat, s: State, i: nat)
    requires Fitting(c, s) && k < |argv| && argv[k].Group? && i <= |argv[k].letters|
    requires GroupFrom(c, argv, k, s, argv[k].letters, i).Err?
    ensures WrongAt(c, argv, k, GroupFrom(c, argv, k, s, argv[k].letters, i).error)
    decreases |argv[k].letters| - i
  {
    var letters := argv[k].letters;
    var name := [letters[i]];
    if name !in c.options {
      if c.allowUnrecognised { GroupWrong(c, argv, k, Unmatched(s, "-" + name), i + 1); }
    } else if i + 1 < |letters| {
      var id := c.options[name];
      GroupWrong(c, argv, k, Record(c, s, id, c.details[id].implicitValue), i + 1);
    }
  }

  lemma OneArgWrong(c: Config, argv: seq<Arg>, k: nat, s: State)
    requires Fitting(c, s) && k < |argv| && argv[k] != DashDash && OneArg(c, argv, k, s).Err?
    ensures WrongAt(c, argv, k, OneArg(c, argv, k, s).error)
  {
    match argv[k] {
      case Plain(raw) => if Consume(c, s, raw).Err? { ConsumeWrong(c, s, raw); }
      case Group(raw, letters) => GroupWrong(c, argv, k, s, 0);
      case Long(raw, name, setValue, value) =>
    }
  }

  lemma {:induction false} MainWrong(c: Config, argv: seq<Arg>, k: nat, s: State)
    requires Fitting(c, s) && k <= |argv| && MainLoop(c, argv, k, s).Err?
    ensures exists m :: k <= m < |argv| && WrongAt(c, argv, m, MainLoop(c, argv, k, s).error)
    decreases |argv| - k
  {
    var r := OneArg(c, argv, k, s);
    if r.Err? {
      OneArgWrong(c, argv, k, s);
    } else {
      MainWrong(c, argv, r.value.1, r.value.0);
    }
  }

  lemma {:induction false} TrailingWrong(c: Config, argv: seq<Arg>, k: nat, s: State)
    requires Fitting(c, s) && k <= |argv| && Trailing(c, argv, k, s).Err?
    ensures exists m :: k <= m < |argv| && WrongAt(c, argv, m, Trailing(c, argv, k, s).error)
    decreases |argv| - k
  {
    var r := Consume(c, s, Raw(argv[k]));
    if r.Err? {
      ConsumeWrong(c, s, Raw(argv[k]));
      assert WrongAt(c, argv, k, r.error);
    } else {
      TrailingWrong(c, argv, k + 1, r.value.0);
    }
  }

  /** Every failed parse fails for a reason that one of the arguments shows. */
  lemma EveryError(c: Config, argv: seq<Arg>, names: seq<string>)
    requires Registered(c) && |argv| >= 1 && forall n :: n in names ==> n in c.options
    requires ParseAll(c, argv, names).Err?
    ensures exists k :: 1 <= k < |argv| && WrongAt(c, argv, k, ParseAll(c, argv, names).error)
  {
    var r := MainLoop(c, argv, 1, Initial(c));
    if r.Err? {
      MainWrong(c, argv, 1, Initial(c));
    } else {
      MainRest(c, argv, 1, Initial(c));
      TrailingWrong(c, argv, r.value.1, r.value.0);
    }
  }

  lemma {:induction false} MainRest(c: Config, argv: seq<Arg>, k: nat, s: State)
    requires Fitting(c, s) && k <= |argv| && MainLoop(c, argv, k, s).Ok?
    ensures MainLoop(c, argv, k, s).value.1 >= k
    decreases |argv| - k
  {
    if k < |argv| && argv[k] != DashDash {
      var (t, next) := OneArg(c, argv, k, s).value;
      MainRest(c, argv, next, t);
    }
  }

  // ----- the defaults -----

  lemma {:induction false} EntriesAre(c: Config, ids: seq<nat>)
    requires forall i :: 0 <= i < |ids| ==> ids[i] < |c.details|
    ensures |DefaultEntries(c, ids)| == |ids|
    ensures forall i :: 0 <= i < |ids| ==>
              var d := c.details[ids[i]]; DefaultEntries(c, ids)[i] == Entry(EssentialName(d), d.defaultValue)
  {
    if ids != [] { EntriesAre(c, ids[1..]); }
  }

  /** The names at these positions, further and further on in the order of visiting, give out the defaults. */
  ghost predicate Visits(c: Config, names: seq<string>, ids: seq<nat>, from: nat, at: seq<nat>) {
    && |at| == |ids| && (forall i, j :: 0 <= i < j < |at| ==> at[i] < at[j])
    && forall i :: 0 <= i < |at| ==>
         from <= at[i] < |names| && names[at[i]] in c.options && c.options[names[at[i]]] == ids[i]
  }

  lemma {:induction false} DefaultsInOrder(c: Config, names: seq<string>, i: nat, counts: seq<nat>, given: seq<bool>)
    returns (at: seq<nat>)
    requires Registered(c) && |counts| == |given| == |c.details| && i <= |names|
    requires forall n :: n in names ==> n in c.options
    ensures Visits(c, names, DefaultIds(c, names, i, counts, given), i, at)
    decreases |names| - i
  {
    at := [];
    if i < |names| {
      var id := c.options[names[i]];
      if c.details[id].hasDefault && counts[id] == 0 && !given[id] {
        var rest := DefaultsInOrder(c, names, i + 1, counts, given[id := true]);
        at := [i] + rest;
      } else {
        at := DefaultsInOrder(c, names, i + 1, counts, given);
      }
    }
  }

  /** The list of defaults names each option that gets one, in the order of visiting, with its default value. */
  lemma DefaultsListed(c: Config, argv: seq<Arg>, names: seq<string>)
    requires Registered(c) && |argv| >= 1 && forall n :: n in names ==> n in c.options
    requires ParseAll(c, argv, names).Ok?
    ensures var p := ParseAll(c, argv, names).value;
            && |p.defaults| == |p.defaulted| && (exists at :: Visits(c, names, p.defaulted, 0, at))
            && forall i :: 0 <= i < |p.defaults| ==>
                 && p.defaulted[i] < |c.details|
                 && var d := c.details[p.defaulted[i]]; p.defaults[i] == Entry(EssentialName(d), d.defaultValue)
  {
    EntriesAre(c, ParseAll(c, argv, names).value.defaulted);
    var at := DefaultsInOrder(c, names, 0, MainLoop(c, argv, 1, Initial(c)).value.0.counts, NoneGiven(c));
  }
}
