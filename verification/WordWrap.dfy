/** The word wrapper of the vendored option library's help text. Its cursor moves backwards: when
    a line is full, it returns to the start of the last word and breaks there. */
module WordWrap {
  import opened Seqs
  import opened Codec

  predicate Blank(c: char) { c == ' ' || c == '\t' }

  /** A text the loop runs on: a blank was appended, so that it does not end in a line feed. */
  predicate Ended(t: string) { t != "" && t[|t| - 1] == ' ' }

  /** Why a line ends: with line feeds of its own, or because it is full. */
  datatype Kind = Feeds | Full

  /** The lines a text is cut into: each begins where the one before it ended. Of the last line it
      says whether it is printed. */
  datatype Layout =
    | Line(before: Layout, from: nat, at: nat, kind: Kind)
    | Start

  /** Where the line after a layout begins. */
  function End(l: Layout): nat { if l.Line? then l.at else 0 }

  /** Where looking at that line begins: after a break its first character is passed over. */
  function From(l: Layout): nat { if l.Line? then l.at + 1 else 0 }

  ghost predicate NoFeed(t: string, a: nat, b: nat)
    requires b <= |t|
  {
    forall k :: a <= k < b ==> t[k] != '\n'
  }

  ghost predicate NoBlank(t: string, a: nat, b: nat)
    requires b <= |t|
  {
    forall k :: a <= k < b ==> !Blank(t[k])
  }

  ghost predicate AllBlank(t: string, a: nat, b: nat)
    requires b <= |t|
  {
    forall k :: a <= k < b ==> Blank(t[k])
  }

  /** The position at which the line after `l` is found to be full. */
  function FullAt(l: Layout, allowed: nat): nat {
    if End(l) + allowed < From(l) then From(l) else End(l) + allowed
  }

  /** A line that ends with the line feeds from `feed` on, before it is full. */
  ghost predicate FeedsFrom(t: string, before: Layout, feed: nat, at: nat, allowed: nat) {
    && From(before) <= feed < at < |t| && feed <= FullAt(before, allowed)
    && NoFeed(t, End(before), feed) && (forall k :: feed <= k < at ==> t[k] == '\n') && t[at] != '\n'
  }

  /** A full line: it is broken after its last blank, or, when it has none, where it is full. */
  ghost predicate FullTo(t: string, before: Layout, at: nat, allowed: nat) {
    var s, full := End(before), FullAt(before, allowed);
    && s <= at <= full < |t| && NoFeed(t, s, full + 1)
    && (if at > s && Blank(t[at - 1]) then NoBlank(t, at, full) else at == full && NoBlank(t, s, full))
  }

  /** The finished lines of a text, as the wrapper should cut it. */
  ghost predicate Good(t: string, l: Layout, allowed: nat)
    decreases l
  {
    l.Line? ==>
      && Good(t, l.before, allowed) && l.from == End(l.before) && l.from <= l.at < |t|
      && match l.kind
         case Feeds => exists feed: nat :: FeedsFrom(t, l.before, feed, l.at, allowed)
         case Full => FullTo(t, l.before, l.at, allowed)
  }

  /** The rest after the finished lines fits on one line. */
  ghost predicate Fits(t: string, l: Layout, allowed: nat) {
    End(l) < |t| <= FullAt(l, allowed) && NoFeed(t, End(l), |t|)
  }

  function Spaces(n: nat): string { seq(n, _ => ' ') }

  /** A finished line is followed by a line feed, unless it brings its own, and an indent. */
  function RenderLine(text: string, kind: Kind, indent: nat): string {
    text + (if kind.Feeds? then "" else "\n") + Spaces(indent)
  }

  function Render(t: string, l: Layout, indent: nat): string
    decreases l
  {
    match l
    case Start => ""
    case Line(before, from, at, kind) =>
      Render(t, before, indent) + (if from <= at <= |t| then RenderLine(t[from..at], kind, indent) else "")
  }

  /** The printed end: the last line without the appended blank, and not at all when only blanks
      were seen on it. */
  ghost function Tail(t: string, l: Layout): string
    requires End(l) < |t| && From(l) <= |t|
  {
    if AllBlank(t, From(l), |t|) then "" else t[End(l)..|t| - 1]
  }

  // ----- what a good layout is worth -----

  /** The text of the finished lines. */
  function TextOf(t: string, l: Layout): string
    decreases l
  {
    match l
    case Start => ""
    case Line(before, from, at, _) => TextOf(t, before) + (if from <= at <= |t| then t[from..at] else "")
  }

  /** Without the inserted breaks and indents the finished lines are the text up to the last. */
  lemma {:induction false} TextKept(t: string, l: Layout, allowed: nat)
    requires Good(t, l, allowed) && End(l) <= |t|
    ensures TextOf(t, l) == t[..End(l)]
    decreases l
  {
    match l {
      case Start =>
      case Line(before, from, at, _) =>
        TextKept(t, before, allowed);
        assert t[..at] == t[..from] + t[from..at];
    }
  }

  /** The most a line can hold: one character even if nothing is allowed. */
  function Width(allowed: nat): nat { if allowed == 0 then 1 else allowed }

  /** No line holds more text than that, neither the finished ones nor the printed last one, which
      leaves room for the appended blank. */
  lemma WidthKept(t: string, l: Layout, allowed: nat)
    requires Good(t, l, allowed)
    ensures l.Line? && l.kind == Full ==> l.at - l.from <= Width(allowed) && NoFeed(t, l.from, l.at)
    ensures l.Line? && l.kind == Feeds ==>
      exists feed: nat :: l.from <= feed < l.at && feed - l.from <= Width(allowed)
                  && NoFeed(t, l.from, feed) && (forall k :: feed <= k < l.at ==> t[k] == '\n')
    ensures Fits(t, l, allowed) ==> |Tail(t, l)| < Width(allowed) && Free(Tail(t, l), '\n')
  {
    if l.Line? && l.kind == Feeds {
      var feed: nat :| FeedsFrom(t, l.before, feed, l.at, allowed);
      assert l.from <= feed < l.at && NoFeed(t, l.from, feed);
    }
  }

  /** A full line is not broken early: between the break and the position where the line is full there is no
      blank, and unless it is broken right there, there is one just before the break. */
  lemma BreaksLate(t: string, l: Layout, allowed: nat)
    requires Good(t, l, allowed) && l.Line? && l.kind == Full
    ensures var full := l.from + (if allowed == 0 && l.before.Line? then 1 else allowed);
            && l.at <= full < |t| && (forall k :: l.at <= k < full ==> t[k] != ' ' && t[k] != '\t')
            && (l.at < full ==> l.at > l.from && (t[l.at - 1] == ' ' || t[l.at - 1] == '\t'))
  {
  }

  /** After the lines of a good layout the next line is determined. */
  lemma NextLineUnique(t: string, before: Layout, a: Layout, b: Layout, allowed: nat)
    requires a.Line? && b.Line? && a.before == before == b.before
    requires Good(t, a, allowed) && Good(t, b, allowed)
    ensures a == b
  {
    if a.kind == Full && b.kind == Full {
      FullUnique(t, before, a.at, b.at, allowed);
    } else {
      var f: nat :| FeedsFrom(t, before, f, if a.kind == Feeds then a.at else b.at, allowed);
      FeedsNotFull(t, before, f, if a.kind == Feeds then a.at else b.at, allowed);
      var g: nat :| FeedsFrom(t, before, g, b.at, allowed);
      FeedsUnique(t, before, f, a.at, g, b.at, allowed);
    }
  }

  /** A line with line feeds of its own before it is full is never a full line. */
  lemma FeedsNotFull(t: string, before: Layout, feed: nat, at: nat, allowed: nat)
    requires FeedsFrom(t, before, feed, at, allowed)
    ensures forall other: nat :: !FullTo(t, before, other, allowed)
  {
    assert t[feed] == '\n';
  }

  lemma FeedsUnique(t: string, before: Layout, f: nat, a: nat, g: nat, b: nat, allowed: nat)
    requires FeedsFrom(t, before, f, a, allowed) && FeedsFrom(t, before, g, b, allowed)
    ensures a == b
  {
    assert t[f] == '\n' && t[g] == '\n';
  }

  lemma FullUnique(t: string, before: Layout, a: nat, b: nat, allowed: nat)
    requires FullTo(t, before, a, allowed) && FullTo(t, before, b, allowed)
    ensures a == b
  {
    var s := End(before);
    assert a > s && Blank(t[a - 1]) ==> b > a - 1;
    assert b > s && Blank(t[b - 1]) ==> a > b - 1;
  }

  /** Where the rest fits on one line, no further line is good. */
  lemma FittingIsLast(t: string, l: Layout, more: Layout, allowed: nat)
    requires Fits(t, l, allowed) && more.Line? && more.before == l
    ensures !Good(t, more, allowed)
  {
    if more.kind == Feeds {
      forall feed: nat ensures !FeedsFrom(t, l, feed, more.at, allowed) {
        assert 0 <= feed < |t| && End(l) <= feed ==> t[feed] != '\n';
      }
    }
  }

  ghost predicate Prefix(a: Layout, b: Layout)
    decreases b
  {
    a == b || (b.Line? && Prefix(a, b.before))
  }

  lemma {:induction false} StartIsPrefix(l: Layout)
    ensures Prefix(Start, l)
    decreases l
  {
    if l.Line? { StartIsPrefix(l.before); }
  }

  /** Of two good layouts one begins the other. */
  lemma {:induction false} Comparable(t: string, a: Layout, b: Layout, allowed: nat)
    requires Good(t, a, allowed) && Good(t, b, allowed)
    ensures Prefix(a, b) || Prefix(b, a)
    decreases a
  {
    if a == Start {
      StartIsPrefix(b);
    } else {
      Comparable(t, a.before, b, allowed);
      if Prefix(a.before, b) && a.before != b {
        var next := After(t, a.before, b, allowed);
        NextLineUnique(t, a.before, a, next, allowed);
      }
    }
  }

  /** The line that follows a proper prefix. */
  lemma {:induction false} After(t: string, a: Layout, b: Layout, allowed: nat) returns (next: Layout)
    requires Good(t, b, allowed) && Prefix(a, b) && a != b
    ensures next.Line? && next.before == a && Good(t, next, allowed) && Prefix(next, b)
    decreases b
  {
    if b.before == a {
      next := b;
    } else {
      next := After(t, a, b.before, allowed);
    }
  }

  /** There is only one good layout whose rest fits on one line: the declarative description
      determines the wrapper's output. */
  lemma LayoutUnique(t: string, a: Layout, b: Layout, allowed: nat)
    requires Good(t, a, allowed) && Fits(t, a, allowed) && Good(t, b, allowed) && Fits(t, b, allowed)
    ensures a == b
  {
    Comparable(t, a, b, allowed);
    if a != b {
      var next;
      if Prefix(a, b) {
        next := After(t, a, b, allowed);
        FittingIsLast(t, a, next, allowed);
      } else {
        next := After(t, b, a, allowed);
        FittingIsLast(t, b, next, allowed);
      }
    }
  }

  /** The declarative description of the output: a good layout, rendered, and the printed end. */
  ghost predicate Wrapped(t: string, indent: nat, allowed: nat, result: string) {
    exists l :: Good(t, l, allowed) && Fits(t, l, allowed) && result == Render(t, l, indent) + Tail(t, l)
  }

  /** It leaves nothing open. */
  lemma WrappedUnique(t: string, indent: nat, allowed: nat, a: string, b: string)
    requires Wrapped(t, indent, allowed, a) && Wrapped(t, indent, allowed, b)
    ensures a == b
  {
    var l :| Good(t, l, allowed) && Fits(t, l, allowed) && a == Render(t, l, indent) + Tail(t, l);
    var m :| Good(t, m, allowed) && Fits(t, m, allowed) && b == Render(t, m, indent) + Tail(t, m);
    LayoutUnique(t, l, m, allowed);
  }

  /** What is printed, without inserted breaks and indents, is the text up to some position; what
      comes after is blank, except when the last line begins with its only visible character:
      that character is lost. */
  lemma WhatIsLost(t: string, l: Layout, allowed: nat)
    requires Ended(t) && Good(t, l, allowed) && Fits(t, l, allowed)
    ensures var kept := End(l) + |Tail(t, l)|;
            && kept <= |t| && TextOf(t, l) + Tail(t, l) == t[..kept]
            && (AllBlank(t, kept, |t|) <==> !(l.Line? && !Blank(t[l.at]) && AllBlank(t, l.at + 1, |t|)))
  {
    TextKept(t, l, allowed);
    var kept := End(l) + |Tail(t, l)|;
    assert t[..kept] == t[..End(l)] + t[End(l)..kept];
  }

  /** The description `abcdefghi j` at the smallest width the caller uses, 10: the `j` is lost. */
  lemma LosesLastLetter()
    ensures var t, l := "abcdefghi j" + " ", Line(Start, 0, 10, Full);
            Good(t, l, 10) && Fits(t, l, 10) && Tail(t, l) == ""
  {
    var t, l := "abcdefghi j" + " ", Line(Start, 0, 10, Full);
    assert |t| == 12 && t[9] == ' ' && t[11] == ' ';
    assert FullTo(t, Start, 10, 10);
  }

  // ----- the printed string -----

  /** Between two line feeds there are at most `width` characters. */
  ghost predicate Narrow(r: string, width: nat) {
    forall i, j :: 0 <= i <= j <= |r| && NoFeed(r, i, j) ==> j - i <= width
  }

  /** At position `i` there are as many blanks. */
  ghost predicate BlanksAt(r: string, i: nat, indent: nat) {
    i + indent <= |r| && forall k :: i <= k < i + indent ==> r[k] == ' '
  }

  /** After every line feed that no other one follows, the text is indented. */
  ghost predicate Indented(r: string, indent: nat) {
    forall i :: 0 <= i < |r| && r[i] == '\n' && (i + 1 < |r| ==> r[i + 1] != '\n') ==> BlanksAt(r, i + 1, indent)
  }

  /** What is inserted behind a piece: a line feed, unless it has its own. */
  function FeedAfter(piece: string): string {
    if piece != "" && piece[|piece| - 1] == '\n' then "" else "\n"
  }

  /** Pieces of text one behind the other, with what is inserted between them: a line feed, unless the piece
      before ends with one of its own, and the indent. */
  function Interleave(pieces: seq<string>, indent: nat): string {
    if pieces == [] then ""
    else if |pieces| == 1 then pieces[0]
    else
      var most, last := pieces[..|pieces| - 1], pieces[|pieces| - 1];
      Interleave(most, indent) + FeedAfter(most[|most| - 1]) + Spaces(indent) + last
  }

  /** What holds of the printed string: no line is wider than indent and width, every line but the first is
      indented, and without what was inserted it is the text up to `kept`, behind which at most one
      character is not blank. */
  ghost predicate Printed(t: string, indent: nat, allowed: nat, r: string) {
    && Narrow(r, indent + (if allowed == 0 then 1 else allowed)) && Indented(r, indent)
    && exists pieces, kept :: PrintsText(t, pieces, kept, indent, r)
  }

  ghost predicate PrintsText(t: string, pieces: seq<string>, kept: nat, indent: nat, r: string) {
    && r == Interleave(pieces, indent) && kept < |t| && Flatten(pieces) == t[..kept]
    && forall k :: kept < k < |t| ==> t[k] == ' ' || t[k] == '\t'
  }

  predicate FeedEnds(a: string) { a == "" || a[|a| - 1] == '\n' }

  lemma NarrowConcat(a: string, b: string, width: nat)
    requires FeedEnds(a) && Narrow(a, width) && Narrow(b, width)
    ensures Narrow(a + b, width)
  {
    var r := a + b;
    assert a != "" ==> r[|a| - 1] == '\n';
    forall i, j | 0 <= i <= j <= |r| && NoFeed(r, i, j) ensures j - i <= width {
      if j <= |a| {
        assert forall k :: i <= k < j ==> r[k] == a[k];
        assert NoFeed(a, i, j);
      } else if i >= |a| {
        assert forall k :: i - |a| <= k < j - |a| ==> b[k] == r[k + |a|];
        assert NoFeed(b, i - |a|, j - |a|);
      }
    }
  }

  /** A line: some text, and then nothing but line feeds. */
  lemma NarrowLine(s: string, c: nat, width: nat)
    requires c <= |s| && c <= width && forall k :: c <= k < |s| ==> s[k] == '\n'
    ensures Narrow(s, width)
  {
    forall i, j | 0 <= i <= j <= |s| ensures NoFeed(s, i, j) ==> j - i <= width {
      if j > c && i < j {
        assert s[j - 1] == '\n';
      }
    }
  }

  /** The same inside a string, where no indent is due behind the last feed. */
  ghost predicate IndentedInside(r: string, indent: nat) {
    forall i :: 0 <= i < |r| - 1 && r[i] == '\n' && r[i + 1] != '\n' ==> BlanksAt(r, i + 1, indent)
  }

  lemma IndentedConcat(a: string, b: string, c: nat, indent: nat)
    requires FeedEnds(a) && IndentedInside(a, indent) && c <= |b|
    requires (forall k :: 0 <= k < c ==> b[k] != '\n') && (forall k :: c <= k < |b| ==> b[k] == '\n')
    requires a == "" || BlanksAt(b, 0, indent)
    ensures IndentedInside(a + b, indent)
  {
    var r := a + b;
    forall i | 0 <= i < |r| - 1 && r[i] == '\n' && r[i + 1] != '\n' ensures BlanksAt(r, i + 1, indent) {
      if i < |a| - 1 {
        assert a[i] == r[i] && a[i + 1] == r[i + 1];
        assert BlanksAt(a, i + 1, indent);
      } else if i == |a| - 1 {
        assert forall k :: |a| <= k < |a| + indent ==> r[k] == b[k - |a|];
      }
    }
  }

  /** The indent of the line after a layout. */
  function Lead(l: Layout, indent: nat): string { if l.Line? then Spaces(indent) else "" }

  lemma LeadIsBlank(l: Layout, indent: nat)
    ensures |Lead(l, indent)| <= indent && NoFeed(Lead(l, indent), 0, |Lead(l, indent)|)
    ensures l.Line? ==> BlanksAt(Lead(l, indent), 0, indent)
  {
  }

  /** Where the text of a line ends and its line feeds begin. */
  ghost predicate TextThenFeeds(s: string, c: nat) {
    c <= |s| && (forall k :: 0 <= k < c ==> s[k] != '\n') && (forall k :: c <= k < |s| ==> s[k] == '\n')
  }

  lemma LineIsText(t: string, l: Layout, allowed: nat) returns (c: nat)
    requires Good(t, l, allowed) && l.Line?
    ensures c <= Width(allowed) && TextThenFeeds(t[l.from..l.at], c)
    ensures l.kind == Feeds <==> c < l.at - l.from
  {
    if l.kind == Feeds {
      var feed: nat :| FeedsFrom(t, l.before, feed, l.at, allowed);
      c := feed - l.from;
    } else {
      c := l.at - l.from;
    }
  }

  lemma LeadBefore(lead: string, s: string, c: nat, indent: nat)
    requires NoFeed(lead, 0, |lead|) && TextThenFeeds(s, c)
    ensures TextThenFeeds(lead + s, |lead| + c)
    ensures BlanksAt(lead, 0, indent) ==> BlanksAt(lead + s, 0, indent)
  {
    var r := lead + s;
    assert forall k :: |lead| <= k < |r| ==> r[k] == s[k - |lead|];
  }

  /** What one line adds to the printed string. */
  lemma LinePrints(body: string, lead: string, s: string, c: nat, width: nat, indent: nat)
    requires FeedEnds(body) && Narrow(body, indent + width) && IndentedInside(body, indent)
    requires NoFeed(lead, 0, |lead|) && |lead| <= indent && (body == "" || BlanksAt(lead, 0, indent))
    requires TextThenFeeds(s, c) && c <= width && c < |s|
    ensures var r := body + (lead + s);
            r != "" && FeedEnds(r) && Narrow(r, indent + width) && IndentedInside(r, indent)
  {
    LeadBefore(lead, s, c, indent);
    NarrowLine(lead + s, |lead| + c, indent + width);
    NarrowConcat(body, lead + s, indent + width);
    IndentedConcat(body, lead + s, |lead| + c, indent);
  }

  /** The finished lines: up to the indent of the next one they end in a line feed. */
  lemma {:induction false} LinesPrint(t: string, l: Layout, allowed: nat, indent: nat)
    returns (body: string, pieces: seq<string>)
    requires Good(t, l, allowed)
    ensures Render(t, l, indent) == body + Lead(l, indent) && (l.Line? <==> body != "")
    ensures FeedEnds(body) && Narrow(body, indent + Width(allowed)) && IndentedInside(body, indent)
    ensures Flatten(pieces) == TextOf(t, l) && (l.Line? <==> pieces != [])
    ensures l.Line? ==> body == Interleave(pieces, indent) + FeedAfter(pieces[|pieces| - 1])
    decreases l
  {
    match l {
      case Start =>
        body, pieces := "", [];
      case Line(before, from, at, kind) =>
        var text := t[from..at];
        var feed := if kind.Feeds? then "" else "\n";
        var most, parts := LinesPrint(t, before, allowed, indent);
        var c := LineIsText(t, l, allowed);
        LeadIsBlank(before, indent);
        FeedClosesLine(text, c, kind);
        LinePrints(most, Lead(before, indent), text + feed, c, Width(allowed), indent);
        body, pieces := most + (Lead(before, indent) + (text + feed)), parts + [text];
        FlattenSnoc(parts, text);
        Regrouped(most, Lead(before, indent), text, feed, Spaces(indent));
        PieceFollows(most, parts, before, text, indent);
    }
  }

  lemma PieceFollows(body: string, pieces: seq<string>, l: Layout, text: string, indent: nat)
    requires (l.Line? <==> body != "") && (l.Line? <==> pieces != [])
    requires l.Line? ==> body == Interleave(pieces, indent) + FeedAfter(pieces[|pieces| - 1])
    ensures Interleave(pieces + [text], indent) == body + Lead(l, indent) + text
  {
    InterleaveSnoc(pieces, text, indent);
    assert "" + "" + text == text;
  }

  lemma FeedClosesLine(text: string, c: nat, kind: Kind)
    requires TextThenFeeds(text, c) && (kind == Feeds <==> c < |text|)
    ensures var feed := if kind.Feeds? then "" else "\n";
            feed == FeedAfter(text) && TextThenFeeds(text + feed, c) && c < |text + feed|
  {
  }

  lemma InterleaveSnoc(pieces: seq<string>, p: string, indent: nat)
    ensures Interleave(pieces + [p], indent)
         == if pieces == [] then p
            else Interleave(pieces, indent) + FeedAfter(pieces[|pieces| - 1]) + Spaces(indent) + p
  {
    assert (pieces + [p])[..|pieces|] == pieces;
  }

  lemma Regrouped(a: string, b: string, c: string, d: string, e: string)
    ensures (a + b) + (c + d + e) == a + (b + (c + d)) + e
    ensures a + (b + (c + d)) == (a + b + c) + d
  {
  }

  lemma TailPrints(t: string, body: string, l: Layout, allowed: nat, indent: nat, r: string)
    requires Good(t, l, allowed) && Fits(t, l, allowed) && (l.Line? <==> body != "")
    requires FeedEnds(body) && Narrow(body, indent + Width(allowed)) && IndentedInside(body, indent)
    requires r == body + (Lead(l, indent) + Tail(t, l))
    ensures Narrow(r, indent + (if allowed == 0 then 1 else allowed)) && Indented(r, indent)
  {
    var lead, tail := Lead(l, indent), Tail(t, l);
    WidthKept(t, l, allowed);
    LeadIsBlank(l, indent);
    LeadBefore(lead, tail, |tail|, indent);
    NarrowLine(lead + tail, |lead + tail|, indent + Width(allowed));
    NarrowConcat(body, lead + tail, indent + Width(allowed));
    IndentedAtEnd(body, lead + tail, indent);
  }

  lemma IndentedAtEnd(a: string, b: string, indent: nat)
    requires FeedEnds(a) && IndentedInside(a, indent) && NoFeed(b, 0, |b|) && (a == "" || BlanksAt(b, 0, indent))
    ensures Indented(a + b, indent)
  {
    var r := a + b;
    forall i | 0 <= i < |r| && r[i] == '\n' && (i + 1 < |r| ==> r[i + 1] != '\n') ensures BlanksAt(r, i + 1, indent) {
      assert i < |a|;
      if i < |a| - 1 {
        assert a[i] == r[i] && a[i + 1] == r[i + 1];
        assert BlanksAt(a, i + 1, indent);
      } else {
        assert forall k :: |a| <= k < |a| + indent ==> r[k] == b[k - |a|];
      }
    }
  }

  /** What the wrapper prints is as it should be, in terms of the string alone. */
  lemma WrappedPrints(t: string, indent: nat, allowed: nat, r: string)
    requires Ended(t) && Wrapped(t, indent, allowed, r)
    ensures Printed(t, indent, allowed, r)
  {
    var l :| Good(t, l, allowed) && Fits(t, l, allowed) && r == Render(t, l, indent) + Tail(t, l);
    var body, pieces := LinesPrint(t, l, allowed, indent);
    Associate(body, Lead(l, indent), Tail(t, l));
    TailPrints(t, body, l, allowed, indent, r);
    PieceFollows(body, pieces, l, Tail(t, l), indent);
    FlattenSnoc(pieces, Tail(t, l));
    WhatIsKept(t, l, allowed, pieces + [Tail(t, l)], indent, r);
    AllPrinted(t, indent, allowed, r, pieces + [Tail(t, l)], End(l) + |Tail(t, l)|);
  }

  lemma AllPrinted(t: string, indent: nat, allowed: nat, r: string, pieces: seq<string>, kept: nat)
    requires Narrow(r, indent + (if allowed == 0 then 1 else allowed)) && Indented(r, indent)
    requires PrintsText(t, pieces, kept, indent, r)
    ensures Printed(t, indent, allowed, r)
  {
  }

  lemma WhatIsKept(t: string, l: Layout, allowed: nat, pieces: seq<string>, indent: nat, r: string)
    requires Ended(t) && Good(t, l, allowed) && Fits(t, l, allowed) && Flatten(pieces) == TextOf(t, l) + Tail(t, l)
    requires r == Interleave(pieces, indent)
    ensures PrintsText(t, pieces, End(l) + |Tail(t, l)|, indent, r)
  {
    WhatIsLost(t, l, allowed);
  }

  // ----- the loop -----

  /** The inner loop over line feeds. */
  method SkipFeeds(t: string, start: nat, before: nat) returns (current: nat, previous: nat, appendNewLine: bool)
    requires start < |t| && Ended(t)
    ensures start <= current < |t| && t[current] != '\n'
    ensures forall k :: start <= k < current ==> t[k] == '\n'
    ensures appendNewLine <==> current > start
    ensures previous == if appendNewLine then current - 1 else before
  {
    current, previous, appendNewLine := start, before, false;
    while t[current] == '\n'
      invariant start <= current < |t|
      invariant forall k :: start <= k < current ==> t[k] == '\n'
      invariant appendNewLine <==> current > start
      invariant previous == if appendNewLine then current - 1 else before
      decreases |t| - current
    {
      previous := current;
      current := current + 1;
      appendNewLine := true;
    }
  }

  /** The loop is at position `i` of the line after `l`, whose last word known so far starts at
      `word`. */
  ghost predicate Inside(t: string, l: Layout, allowed: nat, i: nat, word: nat) {
    var s := End(l);
    && s <= word <= i <= |t| && s < |t| && From(l) <= i && (i <= FullAt(l, allowed) || i == From(l))
    && NoFeed(t, s, i) && (word > s ==> Blank(t[word - 1])) && (i > 0 ==> NoBlank(t, word, i - 1))
  }

  /** Only blanks were seen on the line. */
  ghost predicate White(t: string, l: Layout, i: nat)
    requires i <= |t|
  {
    AllBlank(t, From(l), i)
  }

  /** Looking at one more character of a line that goes on. */
  lemma InsideNext(t: string, l: Layout, allowed: nat, i: nat, word: nat, word': nat)
    requires Inside(t, l, allowed, i, word) && i < |t| && t[i] != '\n' && i - End(l) < allowed
    requires word' == if i > End(l) && Blank(t[i - 1]) then i else word
    ensures Inside(t, l, allowed, i + 1, word')
    ensures White(t, l, i + 1) <==> White(t, l, i) && Blank(t[i])
  {
  }

  /** A line found full at `i` is broken before its last word, or right there. */
  lemma InsideFull(t: string, l: Layout, allowed: nat, i: nat, word: nat, word': nat)
    requires Inside(t, l, allowed, i, word) && i < |t| && t[i] != '\n' && i - End(l) >= allowed
    requires word' == if i > End(l) && Blank(t[i - 1]) then i else word
    ensures FullTo(t, l, if word' != End(l) then word' else i, allowed)
  {
    assert i == FullAt(l, allowed);
  }

  lemma InsideFeeds(t: string, l: Layout, allowed: nat, i: nat, word: nat, at: nat)
    requires Inside(t, l, allowed, i, word) && i < at < |t| && t[at] != '\n'
    requires forall k :: i <= k < at ==> t[k] == '\n'
    ensures FeedsFrom(t, l, i, at, allowed)
  {
  }

  /** After a break. */
  lemma InsideFirst(t: string, l: Layout, allowed: nat, at: nat)
    requires l.Line? && l.at == at < |t| && t[at] != '\n'
    ensures Inside(t, l, allowed, at + 1, at) && White(t, l, at + 1)
  {
  }

  /** A finished line joins the others. */
  lemma AddLine(t: string, l: Layout, allowed: nat, at: nat, previous: nat, indent: nat, result: string)
    returns (l': Layout)
    requires End(l) <= at < |t| && previous < |t|
    requires result == Render(t, l, indent)
                       + RenderLine(t[End(l)..at], if t[previous] == '\n' then Feeds else Full, indent)
    requires Good(t, l, allowed) && t[at] != '\n'
    requires t[previous] == '\n' ==> exists feed: nat :: FeedsFrom(t, l, feed, at, allowed)
    requires t[previous] != '\n' ==> FullTo(t, l, at, allowed)
    ensures l'.Line? && l'.at == at && result == Render(t, l', indent)
    ensures Good(t, l', allowed) && Inside(t, l', allowed, at + 1, at) && White(t, l', at + 1)
  {
    l' := Line(l, End(l), at, if t[previous] == '\n' then Feeds else Full);
    InsideFirst(t, l', allowed, at);
  }

  /** The first half of an iteration: looks at one character and decides whether the line ends,
      which may move the cursor back to the last word. */
  method Look(t: string, startLine: nat, at: nat, before: nat, word: nat, white: bool, size: nat, allowed: nat,
              ghost l: Layout)
    returns (current: nat, previous: nat, lastSpace: nat, onlyWhiteSpace: bool, appendNewLine: bool)
    requires Ended(t) && Inside(t, l, allowed, at, word) && at < |t| && startLine == End(l)
    requires white <==> White(t, l, at)
    requires size == at - startLine && before == (if at == 0 then 0 else at - 1) && (at == 0 || startLine < at)
    ensures previous < |t| && startLine <= current < |t| && t[current] != '\n'
    ensures appendNewLine && t[previous] == '\n' ==> FeedsFrom(t, l, at, current, allowed)
    ensures appendNewLine && t[previous] != '\n' ==> FullTo(t, l, current, allowed)
    ensures appendNewLine ==> current > startLine || current == at
    ensures !appendNewLine ==> current == at && Inside(t, l, allowed, at + 1, lastSpace)
    ensures !appendNewLine ==> (onlyWhiteSpace <==> White(t, l, at + 1))
  {
    current, previous, lastSpace, onlyWhiteSpace := at, before, word, white;
    if t[previous] == ' ' || t[previous] == '\t' {
      lastSpace := current;
    }
    if t[current] != ' ' && t[current] != '\t' {
      onlyWhiteSpace := false;
    }
    current, previous, appendNewLine := SkipFeeds(t, current, previous);
    if appendNewLine {
      InsideFeeds(t, l, allowed, at, word, current);
    } else if size >= allowed {
      InsideFull(t, l, allowed, at, word, lastSpace);
    } else {
      InsideNext(t, l, allowed, at, word, lastSpace);
    }
    if !appendNewLine && size >= allowed {
      if lastSpace != startLine {
        current := lastSpace;
        previous := current;
      }
      appendNewLine := true;
    }
  }

  /** What is printed at the end of a line. */
  method EndLine(result: string, t: string, startLine: nat, current: nat, previous: nat, indent: nat)
    returns (out: string)
    requires startLine <= current <= |t| && previous < |t|
    ensures out == result + RenderLine(t[startLine..current], if t[previous] == '\n' then Feeds else Full, indent)
  {
    out := result + t[startLine..current];
    if t[previous] != '\n' {
      out := out + "\n";
    }
    out := out + Spaces(indent);
    if t[previous] != '\n' {
      out := out + t[current..current];
    }
  }

  /** The variables of the loop; iterators are positions. */
  datatype Cursor = Cursor(current: nat, previous: nat, startLine: nat, lastSpace: nat, size: nat,
                           onlyWhiteSpace: bool, result: string)

  /** What holds whenever the loop tests its condition. */
  ghost predicate Loop(t: string, indent: nat, allowed: nat, c: Cursor, l: Layout) {
    && Ended(t) && Inside(t, l, allowed, c.current, c.lastSpace)
    && (c.onlyWhiteSpace <==> White(t, l, c.current))
    && c.startLine == End(l) && (c.current == 0 || c.startLine < c.current)
    && c.size == c.current - c.startLine && c.previous == (if c.current == 0 then 0 else c.current - 1)
    && Good(t, l, allowed) && c.result == Render(t, l, indent)
  }

  /** One iteration. The cursor may jump back to the last word, but then a line begins there. */
  method Iterate(t: string, indent: nat, allowed: nat, c: Cursor, ghost l: Layout) returns (d: Cursor, ghost l': Layout)
    requires Loop(t, indent, allowed, c, l) && c.current != |t|
    ensures Loop(t, indent, allowed, d, l')
    ensures d.startLine > c.startLine || (d.startLine == c.startLine && d.current > c.current)
  {
    var current, previous, lastSpace, onlyWhiteSpace, appendNewLine :=
      Look(t, c.startLine, c.current, c.previous, c.lastSpace, c.onlyWhiteSpace, c.size, allowed, l);
    if appendNewLine {
      var result := EndLine(c.result, t, c.startLine, current, previous, indent);
      l' := AddLine(t, l, allowed, current, previous, indent, result);
      d := Cursor(current + 1, current, current, current, 1, true, result);
      LoopBreaks(t, indent, allowed, l', current, result);
    } else {
      l' := l;
      d := Cursor(current + 1, current, c.startLine, lastSpace, c.size + 1, onlyWhiteSpace, c.result);
      LoopGoesOn(t, indent, allowed, c, l, lastSpace, onlyWhiteSpace);
    }
  }

  lemma LoopBreaks(t: string, indent: nat, allowed: nat, l: Layout, at: nat, result: string)
    requires Ended(t) && l.Line? && l.at == at < |t| && Good(t, l, allowed) && result == Render(t, l, indent)
    requires Inside(t, l, allowed, at + 1, at) && White(t, l, at + 1)
    ensures Loop(t, indent, allowed, Cursor(at + 1, at, at, at, 1, true, result), l)
  {
  }

  lemma LoopGoesOn(t: string, indent: nat, allowed: nat, c: Cursor, l: Layout, word: nat, white: bool)
    requires Loop(t, indent, allowed, c, l) && c.current < |t|
    requires Inside(t, l, allowed, c.current + 1, word) && (white <==> White(t, l, c.current + 1))
    ensures var next := Cursor(c.current + 1, c.current, c.startLine, word, c.size + 1, white, c.result);
            Loop(t, indent, allowed, next, l)
  {
  }

  /** format_description on the expanded text, to which it appends a blank. */
  method Wrap(text: string, indent: nat, allowed: nat) returns (result: string)
    ensures Wrapped(text + " ", indent, allowed, result) && Printed(text + " ", indent, allowed, result)
  {
    var desc := text + " ";
    var c := Cursor(0, 0, 0, 0, 0, true, "");
    ghost var lines := Start;
    while c.current != |desc|
      invariant Loop(desc, indent, allowed, c, lines)
      decreases |desc| - c.startLine, |desc| - c.current
    {
      c, lines := Iterate(desc, indent, allowed, c, lines);
    }
    result := if c.onlyWhiteSpace then c.result else c.result + desc[c.startLine..c.previous];
    WrappedPrints(desc, indent, allowed, result);
  }
}
