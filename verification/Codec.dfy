/** The command codec: tokens joined by '|', split by `split_buffer` or `getline`, and carried in
    a NUL-padded character field of 1024 bytes. */
module Codec {
  import opened Seqs

  const BAR: char := '|'
  const NUL: char := '\0'
  /** sizeof(packet::command) */
  const COMMAND_FIELD: nat := 1024
  /** how many values an unsigned 64-bit size has */
  const TWO64: nat := 0x1_0000_0000_0000_0000

  ghost predicate Free(s: string, c: char) { forall i :: 0 <= i < |s| ==> s[i] != c }

  /** Position of the first `c`, or |s| when there is none. */
  function IndexOf(s: string, c: char): (i: nat)
    ensures i <= |s|
    ensures Free(s[..i], c)
    ensures i < |s| ==> s[i] == c
  {
    if s == "" || s[0] == c then 0 else
      var i := IndexOf(s[1..], c) + 1;
      assert forall k :: 0 < k < i ==> s[k] == s[1..][..i - 1][k - 1];
      i
  }

  lemma IndexOfUnique(s: string, c: char, i: nat)
    requires i <= |s| && Free(s[..i], c) && (i < |s| ==> s[i] == c)
    ensures IndexOf(s, c) == i
  {
    var j := IndexOf(s, c);
    assert forall k :: 0 <= k < i ==> s[k] == s[..i][k];
    assert forall k :: 0 <= k < j ==> s[k] == s[..j][k];
  }

  /** Position after the last `c`, or 0 when there is none. */
  function AfterLast(s: string, c: char): (i: nat)
    ensures i <= |s| && Free(s[i..], c)
    ensures i > 0 ==> s[i - 1] == c
  {
    if s == "" then 0
    else if s[|s| - 1] == c then |s|
    else
      var i := AfterLast(s[..|s| - 1], c);
      assert s[i..] == s[..|s| - 1][i..] + [s[|s| - 1]];
      i
  }

  lemma AfterLastUnique(s: string, c: char, i: nat)
    requires i <= |s| && Free(s[i..], c) && (i > 0 ==> s[i - 1] == c)
    ensures AfterLast(s, c) == i
  {
    FreeFrom(s, c, i);
    FreeFrom(s, c, AfterLast(s, c));
  }

  lemma FreeFrom(s: string, c: char, i: nat)
    requires i <= |s| && Free(s[i..], c)
    ensures forall k :: i <= k < |s| ==> s[k] != c
  {
    forall k | i <= k < |s| ensures s[k] != c {
      assert s[k] == s[i..][k - i];
    }
  }

  /** The tokens of `s` between the bars; empty tokens are kept. */
  function Split(s: string): (tokens: seq<string>)
    ensures |tokens| >= 1
  {
    var i := IndexOf(s, BAR);
    if i == |s| then [s] else [s[..i]] + Split(s[i + 1..])
  }

  function Join(tokens: seq<string>): string
    requires |tokens| >= 1
  {
    if |tokens| == 1 then tokens[0] else tokens[0] + [BAR] + Join(tokens[1..])
  }

  ghost predicate BarFree(tokens: seq<string>) {
    forall i :: 0 <= i < |tokens| ==> Free(tokens[i], BAR)
  }

  lemma {:induction false} SplitOfJoin(tokens: seq<string>)
    requires |tokens| >= 1 && BarFree(tokens)
    ensures Split(Join(tokens)) == tokens
  {
    var s := Join(tokens);
    if |tokens| == 1 {
      IndexOfUnique(s, BAR, |s|);
    } else {
      assert s[..|tokens[0]|] == tokens[0];
      IndexOfUnique(s, BAR, |tokens[0]|);
      assert s[|tokens[0]| + 1..] == Join(tokens[1..]);
      SplitOfJoin(tokens[1..]);
    }
  }

  lemma CutAt(s: string, i: nat)
    requires i < |s|
    ensures s == s[..i] + [s[i]] + s[i + 1..]
  {
  }

  lemma JoinCons(first: string, rest: seq<string>)
    requires |rest| >= 1 && Free(first, BAR) && BarFree(rest)
    ensures Join([first] + rest) == first + [BAR] + Join(rest)
    ensures BarFree([first] + rest)
  {
    assert ([first] + rest)[1..] == rest;
  }

  lemma {:induction false} JoinOfSplit(s: string)
    ensures Join(Split(s)) == s
    ensures BarFree(Split(s))
  {
    var i := IndexOf(s, BAR);
    if i < |s| {
      var rest := s[i + 1..];
      JoinOfSplit(rest);
      JoinCons(s[..i], Split(rest));
      CutAt(s, i);
    }
  }

  /** Number of occurrences of `c`. */
  function Count(s: string, c: char): nat {
    if s == "" then 0 else (if s[0] == c then 1 else 0) + Count(s[1..], c)
  }

  lemma {:induction false} CountOfConcat(a: string, b: string, c: char)
    ensures Count(a + b, c) == Count(a, c) + Count(b, c)
  {
    if a == "" {
      assert a + b == b;
    } else {
      CountOfConcat(a[1..], b, c);
      assert (a + b)[1..] == a[1..] + b;
    }
  }

  lemma {:induction false} CountOfFree(s: string, c: char)
    requires Free(s, c)
    ensures Count(s, c) == 0
  {
    if s != "" { CountOfFree(s[1..], c); }
  }

  /** Every string splits into one token more than it has bars: no dispatcher ever sees zero
      arguments. */
  lemma {:induction false} TokenCount(s: string)
    ensures |Split(s)| == 1 + Count(s, BAR)
  {
    var i := IndexOf(s, BAR);
    CountOfFree(s[..i], BAR);
    if i < |s| {
      TokenCount(s[i + 1..]);
      assert s == s[..i] + ([BAR] + s[i + 1..]);
      CountOfConcat(s[..i], [BAR] + s[i + 1..], BAR);
      assert ([BAR] + s[i + 1..])[1..] == s[i + 1..];
    } else {
      assert s[..i] == s;
    }
  }

  /** What repeated `std::getline(stream, token, '|')` yields: a trailing empty token is not
      reported, and the empty string has no tokens at all. */
  function GetLines(s: string): seq<string> {
    if s == "" then []
    else
      var i := IndexOf(s, BAR);
      if i == |s| then [s] else [s[..i]] + GetLines(s[i + 1..])
  }

  /** The two readers of a listing disagree exactly on the empty string and on a trailing bar,
      where `split_buffer` reports one empty name more. */
  lemma {:induction false} ReadersAgree(s: string)
    ensures Split(s) == GetLines(s) + (if s == "" || s[|s| - 1] == BAR then [""] else [])
  {
    var i := IndexOf(s, BAR);
    if s == "" {
    } else if i == |s| {
      assert s[..i] == s;
      assert s[..i][|s| - 1] != BAR;
    } else {
      var rest := s[i + 1..];
      ReadersAgree(rest);
      assert if rest == "" then s[|s| - 1] == BAR else s[|s| - 1] == rest[|rest| - 1];
      Associate([s[..i]], GetLines(rest), if rest == "" || rest[|rest| - 1] == BAR then [""] else []);
    }
  }

  /** The string a `const char*` denotes: everything before the first NUL. */
  function CString(buffer: seq<char>): (s: string)
    ensures Free(s, NUL)
  {
    buffer[..IndexOf(buffer, NUL)]
  }

  function Fill(n: nat): (z: string)
    ensures |z| == n && forall i :: 0 <= i < n ==> z[i] == NUL
  {
    seq(n, _ => NUL)
  }

  /** A field of `size` characters holding `s`, padded with NULs. */
  function Field(s: string, size: nat): (f: string)
    requires |s| <= size
    ensures |f| == size
  {
    s + Fill(size - |s|)
  }

  lemma FieldRoundTrip(s: string, size: nat)
    requires Free(s, NUL) && |s| < size
    ensures CString(Field(s, size)) == s
  {
    var f := Field(s, size);
    assert f[..|s|] == s;
    IndexOfUnique(f, NUL, |s|);
  }

  /** A NUL-free command of at most 1023 characters survives join, field and split. */
  lemma CommandRoundTrip(tokens: seq<string>)
    requires |tokens| >= 1 && BarFree(tokens)
    requires forall i :: 0 <= i < |tokens| ==> Free(tokens[i], NUL)
    requires |Join(tokens)| < COMMAND_FIELD
    ensures Split(CString(Field(Join(tokens), COMMAND_FIELD))) == tokens
  {
    JoinFree(tokens, NUL);
    FieldRoundTrip(Join(tokens), COMMAND_FIELD);
    SplitOfJoin(tokens);
  }

  lemma JoinTwo(a: string, b: string)
    ensures Join([a, b]) == a + [BAR] + b
  {
    assert [a, b][1..] == [b];
  }

  lemma JoinThree(a: string, b: string, c: string)
    ensures Join([a, b, c]) == a + [BAR] + b + [BAR] + c
  {
    JoinTwo(b, c);
    assert [a, b, c][1..] == [b, c];
    Associate(a + [BAR], b + [BAR], c);
    Associate(a + [BAR], b, [BAR]);
  }

  /** A join of bar-free tokens that are not empty is not empty and does not end in a bar. */
  lemma {:induction false} JoinEnds(tokens: seq<string>)
    requires tokens != [] && forall i :: 0 <= i < |tokens| ==> tokens[i] != "" && Free(tokens[i], BAR)
    ensures Join(tokens) != "" && Join(tokens)[|Join(tokens)| - 1] != BAR
  {
    if |tokens| > 1 { JoinEnds(tokens[1..]); }
  }

  lemma {:induction false} JoinFree(tokens: seq<string>, c: char)
    requires |tokens| >= 1 && c != BAR
    requires forall i :: 0 <= i < |tokens| ==> Free(tokens[i], c)
    ensures Free(Join(tokens), c)
  {
    if |tokens| > 1 { JoinFree(tokens[1..], c); }
  }

  /** Tokens inherit the absence of a character from the split string. */
  lemma {:induction false} SplitFree(s: string, c: char)
    requires Free(s, c)
    ensures forall i :: 0 <= i < |Split(s)| ==> Free(Split(s)[i], c)
  {
    var i := IndexOf(s, BAR);
    if i < |s| { SplitFree(s[i + 1..], c); }
  }

  /** `buffer` starts with the C string `text` and its terminator. */
  ghost predicate Holds(buffer: array<char>, text: string)
    reads buffer
  {
    |text| < buffer.Length && buffer[..|text|] == text && buffer[|text|] == NUL && Free(text, NUL)
  }

  /** strchr: the first `c` at or after `from`, if it comes before the terminating NUL. */
  method StrChr(buffer: array<char>, from: nat, c: char, ghost text: string) returns (found: bool, pos: nat)
    requires Holds(buffer, text) && from <= |text| && c != NUL
    ensures from <= pos <= |text| && pos - from == IndexOf(text[from..], c)
    ensures found <==> pos < |text|
  {
    pos := from;
    assert forall k :: 0 <= k < |text| ==> text[k] == buffer[..|text|][k];
    while buffer[pos] != NUL && buffer[pos] != c
      invariant from <= pos <= |text|
      invariant forall k :: from <= k < pos ==> text[k] != c
      decreases |text| - pos
    {
      pos := pos + 1;
    }
    found := buffer[pos] == c;
    assert forall k :: 0 <= k < pos - from ==> text[from..][k] == text[from + k];
    IndexOfUnique(text[from..], c, pos - from);
  }

  /** std::string(first, count) on the characters between two positions. */
  method Substring(buffer: array<char>, start: nat, end: nat, ghost text: string) returns (s: string)
    requires Holds(buffer, text) && start <= end <= |text|
    ensures s == text[start..end]
  {
    s := buffer[start..end];
    assert forall k :: start <= k < end ==> s[k - start] == buffer[k] == buffer[..|text|][k];
  }

  /** split_buffer: the tokens of the C string in `buffer`, which must be terminated. */
  method SplitBuffer(buffer: array<char>) returns (tokens: seq<string>)
    requires |CString(buffer[..])| < buffer.Length
    ensures tokens == Split(CString(buffer[..]))
  {
    tokens := SplitHeld(buffer, CString(buffer[..]));
  }

  method SplitHeld(buffer: array<char>, ghost text: string) returns (tokens: seq<string>)
    requires Holds(buffer, text)
    ensures tokens == Split(text)
  {
    tokens := [];
    var start := 0;
    assert text[0..] == text;
    var more, end := StrChr(buffer, 0, BAR, text);
    while more
      invariant start <= end <= |text|
      invariant end - start == IndexOf(text[start..], BAR)
      invariant more <==> end < |text|
      invariant tokens + Split(text[start..]) == Split(text)
      decreases |text| - start
    {
      SplitStep(tokens, text, start, end);
      var token := Substring(buffer, start, end, text);
      tokens := tokens + [token];
      start := end + 1;
      more, end := StrChr(buffer, start, BAR, text);
    }
    var last := Substring(buffer, start, end, text);
    assert last == text[start..];
    tokens := tokens + [last];
  }

  lemma SplitStep(tokens: seq<string>, text: string, start: nat, end: nat)
    requires start <= end < |text| && end - start == IndexOf(text[start..], BAR)
    ensures tokens + Split(text[start..]) == (tokens + [text[start..end]]) + Split(text[end + 1..])
  {
    assert text[start..][..end - start] == text[start..end];
    assert text[start..][end - start + 1..] == text[end + 1..];
    Associate(tokens, [text[start..end]], Split(text[end + 1..]));
  }

  /** strcharray: copies `input` into the first `maxSize` characters of `output` and pads with
      NULs, or fails without writing when it would not fit with its terminator. `maxSize` is an
      unsigned 64-bit size: when it is zero, `maxSize - 1` wraps to the largest one, so that the
      input passes and is copied without a terminator. */
  method StrCharArray(input: string, output: array<char>, maxSize: nat) returns (ok: bool)
    requires maxSize <= output.Length && maxSize < TWO64 && |input| < TWO64
    requires maxSize == 0 ==> |input| <= output.Length
    modifies output
    ensures ok <==> |input| < maxSize || maxSize == 0
    ensures !ok ==> output[..] == old(output[..])
    ensures ok ==> var end := if maxSize == 0 then |input| else maxSize;
      output[..end] == Field(CString(input), end) && output[end..] == old(output[end..])
  {
    if |input| > (maxSize - 1) % TWO64 {
      return false;
    }
    StrNCpy(input, output, |input|);
    var i := |input|;
    ghost var end := if maxSize == 0 then |input| else maxSize;
    while i < maxSize
      invariant |input| <= i <= end
      invariant output[..|input|] == Field(CString(input), |input|)
      invariant forall k :: |input| <= k < i ==> output[k] == NUL
      invariant output[end..] == old(output[end..])
    {
      output[i] := NUL;
      i := i + 1;
    }
    assert forall k :: 0 <= k < |input| ==> output[..|input|][k] == output[k];
    assert output[..end] == Field(CString(input), end);
    return true;
  }

  /** strncpy: copies up to the first NUL of `input` and fills the rest of the `n` characters. */
  method StrNCpy(input: string, output: array<char>, n: nat)
    requires n <= |input| && n <= output.Length && n == |input|
    modifies output
    ensures output[..n] == Field(CString(input), n)
    ensures output[n..] == old(output[n..])
  {
    var i := 0;
    ghost var stop := IndexOf(input, NUL);
    assert forall k :: 0 <= k < stop ==> input[k] == input[..stop][k];
    while i < n && input[i] != NUL
      invariant i <= stop <= n
      invariant forall k :: 0 <= k < i ==> output[k] == input[k]
      invariant output[n..] == old(output[n..])
    {
      output[i] := input[i];
      i := i + 1;
    }
    while i < n
      invariant stop <= i <= n
      invariant forall k :: 0 <= k < stop ==> output[k] == input[k]
      invariant forall k :: stop <= k < i ==> output[k] == NUL
      invariant output[n..] == old(output[n..])
    {
      output[i] := NUL;
      i := i + 1;
    }
    assert output[..n] == Field(CString(input), n);
  }
}
