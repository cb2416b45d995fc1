/** The integer parser of the vendored option library: a value is accumulated in the unsigned type
    and then checked against, and converted to, the requested type. */
module IntParse {
  import opened Arithmetic

  /** A requested integer type with `size` unsigned values; a signed one ranges from -size/2 to
      size/2 - 1. */
  datatype IntType = IntType(size: nat, signed: bool)

  ghost predicate Machine(t: IntType) { t.size >= 256 && t.size % 2 == 0 }

  function Min(t: IntType): int { if t.signed then -(t.size / 2) else 0 }
  function Max(t: IntType): int { if t.signed then t.size / 2 - 1 else t.size - 1 }

  /** A numeral as the matcher splits it. */
  datatype Numeral = Numeral(negative: bool, hex: bool, digits: string)

  datatype Parsed = Value(v: int) | Incorrect

  function Base(hex: bool): nat { if hex then 16 else 10 }

  /** The value of a digit, or -1. */
  function Digit(hex: bool, c: char): (d: int)
    ensures -1 <= d < Base(hex)
  {
    if '0' <= c <= '9' then c as int - '0' as int
    else if hex && 'a' <= c <= 'f' then c as int - 'a' as int + 10
    else if hex && 'A' <= c <= 'F' then c as int - 'A' as int + 10
    else -1
  }

  ghost predicate AllDigits(hex: bool, s: string) { forall i :: 0 <= i < |s| ==> Digit(hex, s[i]) >= 0 }

  /** The number a string of digits denotes. */
  ghost function Magnitude(hex: bool, s: string): nat
    requires AllDigits(hex, s)
  {
    if s == "" then 0 else Magnitude(hex, s[..|s| - 1]) * Base(hex) + Digit(hex, s[|s| - 1])
  }

  /** What parsing should give: a signed number in the range of the type; an unsigned type takes no
      sign. */
  ghost function Intended(n: Numeral, t: IntType): Parsed {
    if !AllDigits(n.hex, n.digits) || (n.negative && !t.signed) then Incorrect
    else
      var v: int := if n.negative then 0 - Magnitude(n.hex, n.digits) else Magnitude(n.hex, n.digits);
      if Min(t) <= v <= Max(t) then Value(v) else Incorrect
  }

  // ----- what digits, numerals and limits are -----

  /** A digit's value is its place in the alphabet, and nothing else is a digit. */
  lemma DigitsAre(c: char, i: nat)
    ensures i < 10 ==> Digit(false, "0123456789"[i]) == i
    ensures i < 16 ==> Digit(true, "0123456789abcdef"[i]) == Digit(true, "0123456789ABCDEF"[i]) == i
    ensures Digit(false, c) >= 0 <==> c in "0123456789"
    ensures Digit(true, c) >= 0 <==> c in "0123456789abcdefABCDEF"
  {
    IsPlace(c);
  }

  lemma IsPlace(c: char)
    ensures '0' <= c <= '9' ==> c == "0123456789"[c as int - '0' as int]
    ensures 'a' <= c <= 'f' ==> c == "0123456789abcdefABCDEF"[c as int - 'a' as int + 10]
    ensures 'A' <= c <= 'F' ==> c == "0123456789abcdefABCDEF"[c as int - 'A' as int + 16]
    ensures '0' <= c <= '9' ==> c == "0123456789abcdefABCDEF"[c as int - '0' as int]
  {
  }

  /** The numeral of a number in an alphabet of digits. */
  function Written(n: nat, alphabet: string): string
    requires |alphabet| >= 2
  {
    (if n < |alphabet| then "" else Written(n / |alphabet|, alphabet)) + [alphabet[n % |alphabet|]]
  }

  /** An alphabet that the parser reads in this base. */
  ghost predicate Reads(hex: bool, alphabet: string) {
    |alphabet| == Base(hex) && forall i :: 0 <= i < |alphabet| ==> Digit(hex, alphabet[i]) == i
  }

  lemma Alphabets()
    ensures Reads(false, "0123456789") && Reads(true, "0123456789abcdef") && Reads(true, "0123456789ABCDEF")
  {
    forall i: nat | i < 16
      ensures i < 10 ==> Digit(false, "0123456789"[i]) == i
      ensures Digit(true, "0123456789abcdef"[i]) == Digit(true, "0123456789ABCDEF"[i]) == i
    {
      DigitsAre('0', i);
    }
  }

  lemma MagnitudeSnoc(hex: bool, s: string, c: char)
    requires AllDigits(hex, s) && Digit(hex, c) >= 0
    ensures AllDigits(hex, s + [c]) && Magnitude(hex, s + [c]) == Magnitude(hex, s) * Base(hex) + Digit(hex, c)
  {
    AllDigitsSnoc(hex, s, c);
    assert (s + [c])[..|s|] == s;
  }

  ghost predicate Denotes(hex: bool, s: string, n: nat) { AllDigits(hex, s) && Magnitude(hex, s) == n }

  /** Every number's decimal and hexadecimal numeral, in either case, denotes that number. */
  lemma NumeralsDenote(n: nat)
    ensures Denotes(false, Written(n, "0123456789"), n)
    ensures Denotes(true, Written(n, "0123456789abcdef"), n) && Denotes(true, Written(n, "0123456789ABCDEF"), n)
  {
    Alphabets();
    WrittenDenotes(false, "0123456789", n);
    WrittenDenotes(true, "0123456789abcdef", n);
    WrittenDenotes(true, "0123456789ABCDEF", n);
  }

  lemma {:induction false} WrittenDenotes(hex: bool, alphabet: string, n: nat)
    requires Reads(hex, alphabet)
    ensures Denotes(hex, Written(n, alphabet), n)
    decreases n
  {
    if n < |alphabet| {
      NoMore(n, |alphabet|);
      DigitDenotes(hex, alphabet, n, "");
    } else {
      WrittenDenotes(hex, alphabet, n / |alphabet|);
      DigitDenotes(hex, alphabet, n, Written(n / |alphabet|, alphabet));
    }
  }

  lemma NoMore(n: nat, base: nat)
    requires n < base
    ensures n / base == 0 && Denotes(true, "", n / base) && Denotes(false, "", n / base)
  {
    QuotientUnique(n, base, 0, n);
  }

  lemma DigitDenotes(hex: bool, alphabet: string, n: nat, head: string)
    requires Reads(hex, alphabet) && Denotes(hex, head, n / |alphabet|)
    ensures Denotes(hex, head + [alphabet[n % |alphabet|]], n)
  {
    MagnitudeSnoc(hex, head, alphabet[n % |alphabet|]);
    QuotientAndRemainder(n, |alphabet|);
  }

  /** The limits of the machine's types. */
  lemma Limits(size: nat)
    ensures Min(IntType(0x100, true)) == -128 && Max(IntType(0x100, true)) == 127
    ensures Min(IntType(0x1_0000, true)) == -32768 && Max(IntType(0x1_0000, true)) == 32767
    ensures Min(IntType(0x1_0000_0000, true)) == -2147483648 && Max(IntType(0x1_0000_0000, true)) == 2147483647
    ensures Min(IntType(0x1_0000_0000_0000_0000, true)) == -9223372036854775808
    ensures Max(IntType(0x1_0000_0000_0000_0000, true)) == 9223372036854775807
    ensures Min(IntType(size, false)) == 0 && Max(IntType(size, false)) == size - 1
  {
  }

  // ----- accumulation -----

  /** One digit more in the unsigned type, where the multiplication wraps around: -1 when there is
      no digit or the test `result > next` fires. */
  function Next(hex: bool, result: int, c: char, size: nat): (next: int)
    requires size > 0 && -1 <= result < size
    ensures -1 <= next < size
  {
    if result < 0 || Digit(hex, c) < 0 then -1
    else
      var next := (result * Base(hex) + Digit(hex, c)) % size;
      if result > next then -1 else next
  }

  function Accumulated(hex: bool, s: string, size: nat): (r: int)
    requires size > 0
    ensures -1 <= r < size
  {
    if s == "" then 0 else Next(hex, Accumulated(hex, s[..|s| - 1], size), s[|s| - 1], size)
  }

  lemma {:induction false} FailureStays(hex: bool, s: string, k: nat, size: nat)
    requires size > 0 && k <= |s| && Accumulated(hex, s[..k], size) == -1
    ensures Accumulated(hex, s, size) == -1
    decreases |s|
  {
    if k == |s| {
      assert s[..k] == s;
    } else {
      assert s[..|s| - 1][..k] == s[..k];
      FailureStays(hex, s[..|s| - 1], k, size);
    }
  }

  /** The loop of integer_parser. */
  method Accumulate(hex: bool, digits: string, size: nat) returns (ok: bool, result: nat)
    requires size > 0
    ensures ok <==> Accumulated(hex, digits, size) >= 0
    ensures ok ==> result == Accumulated(hex, digits, size)
  {
    result := 0;
    var i := 0;
    while i < |digits|
      invariant 0 <= i <= |digits| && result < size
      invariant Accumulated(hex, digits[..i], size) == result
    {
      var digit := Digit(hex, digits[i]);
      assert digits[..i + 1][..i] == digits[..i];
      if digit < 0 {
        FailureStays(hex, digits, i + 1, size);
        return false, 0;
      }
      var next := (result * Base(hex) + digit) % size;
      if result > next {
        FailureStays(hex, digits, i + 1, size);
        return false, 0;
      }
      result := next;
      i := i + 1;
    }
    assert digits[..i] == digits;
    ok := true;
  }

  /** While the number fits the unsigned type, accumulation is exact: the wrap test never fires. */
  lemma {:induction false} AccumulatesExactly(hex: bool, s: string, size: nat)
    requires AllDigits(hex, s) && Magnitude(hex, s) < size
    ensures Accumulated(hex, s, size) == Magnitude(hex, s)
  {
    if s != "" {
      var head, d := s[..|s| - 1], Digit(hex, s[|s| - 1]);
      var m := Magnitude(hex, head);
      assert Magnitude(hex, s) == m * Base(hex) + d && d >= 0;
      assert m <= m * Base(hex);
      AccumulatesExactly(hex, head, size);
      SmallResidue(m * Base(hex) + d, size);
    }
  }

  lemma SmallResidue(n: nat, size: nat)
    requires n < size
    ensures n % size == n
  {
    QuotientUnique(n, size, 0, n);
  }

  lemma AllDigitsSnoc(hex: bool, s: string, c: char)
    ensures AllDigits(hex, s + [c]) <==> AllDigits(hex, s) && Digit(hex, c) >= 0
  {
    assert (s + [c])[|s|] == c;
    assert forall i :: 0 <= i < |s| ==> (s + [c])[i] == s[i];
  }

  lemma NextResidue(hex: bool, r: int, m: nat, c: char, size: nat)
    requires size > 0 && -1 <= r < size && Digit(hex, c) >= 0 && (r >= 0 ==> r == m % size)
    ensures Next(hex, r, c, size) >= 0 ==> Next(hex, r, c, size) == (m * Base(hex) + Digit(hex, c)) % size
  {
    ResidueStep(m, Base(hex), Digit(hex, c), size);
  }

  /** Whatever is accumulated is the number modulo the size of the type, and came from digits. */
  lemma {:induction false} AccumulatesResidue(hex: bool, s: string, size: nat)
    requires size > 0
    ensures !AllDigits(hex, s) ==> Accumulated(hex, s, size) == -1
    ensures AllDigits(hex, s) && Accumulated(hex, s, size) >= 0 ==>
      Accumulated(hex, s, size) == Magnitude(hex, s) % size
  {
    if s != "" {
      var head, c := s[..|s| - 1], s[|s| - 1];
      AccumulatesResidue(hex, head, size);
      AllDigitsSnoc(hex, head, c);
      assert s == head + [c];
      if AllDigits(hex, s) && Accumulated(hex, s, size) >= 0 {
        NextResidue(hex, Accumulated(hex, head, size), Magnitude(hex, head), c, size);
      }
    }
  }

  /** The number that the first `k` digits denote, modulo the size of the type. */
  ghost function Residue(hex: bool, s: string, k: nat, size: nat): (r: nat)
    requires size > 0 && k <= |s| && AllDigits(hex, s)
  {
    Magnitude(hex, s[..k]) % size
  }

  /** Reading the numeral digit by digit, its residue never becomes smaller. */
  ghost predicate NeverFalls(hex: bool, s: string, size: nat)
    requires size > 0 && AllDigits(hex, s)
  {
    forall k :: 0 <= k < |s| ==> Residue(hex, s, k, size) <= Residue(hex, s, k + 1, size)
  }

  lemma NeverFallsHead(hex: bool, s: string, size: nat)
    requires size > 0 && AllDigits(hex, s) && s != ""
    ensures var head := s[..|s| - 1];
            NeverFalls(hex, s, size) <==>
              NeverFalls(hex, head, size) && Magnitude(hex, head) % size <= Magnitude(hex, s) % size
  {
    var head := s[..|s| - 1];
    forall k | 0 <= k <= |head| ensures Residue(hex, s, k, size) == Residue(hex, head, k, size) {
      assert s[..k] == head[..k];
    }
    assert s[..|s|] == s && head[..|head|] == head;
    assert Residue(hex, s, |head|, size) == Magnitude(hex, head) % size;
    assert Residue(hex, s, |head| + 1, size) == Magnitude(hex, s) % size;
  }

  /** The wrap test lets a numeral through exactly when its residues never fall. */
  lemma {:induction false} AccumulatesIff(hex: bool, s: string, size: nat)
    requires size > 0 && AllDigits(hex, s)
    ensures Accumulated(hex, s, size) >= 0 <==> NeverFalls(hex, s, size)
  {
    if s != "" {
      var head, d := s[..|s| - 1], Digit(hex, s[|s| - 1]);
      AccumulatesIff(hex, head, size);
      AccumulatesResidue(hex, head, size);
      NeverFallsHead(hex, s, size);
      ResidueStep(Magnitude(hex, head), Base(hex), d, size);
    }
  }

  lemma ResidueStep(m: nat, base: nat, d: nat, size: nat)
    requires size > 0
    ensures ((m % size) * base + d) % size == (m * base + d) % size
  {
    MultiplesDrop(m, m / size, m % size, base, d, size);
  }

  lemma MultiplesDrop(m: nat, q: nat, r: nat, base: nat, d: nat, size: nat)
    requires size > 0 && m == q * size + r
    ensures (r * base + d) % size == (m * base + d) % size
  {
    Regroup(q, size, r, base);
    AddMultiple(r * base + d, q * base, size);
  }

  lemma Regroup(q: nat, size: nat, r: nat, base: nat)
    ensures (q * size + r) * base == (q * base) * size + r * base
  {
  }

  lemma AddMultiple(a: nat, k: nat, size: nat)
    requires size > 0
    ensures (a + k * size) % size == a % size
    decreases k
  {
    if k > 0 {
      AddMultiple(a, k - 1, size);
      assert a + k * size == (a + (k - 1) * size) + size;
      ModStep(a + (k - 1) * size, size);
    }
  }

  lemma ModStep(n: nat, size: nat)
    requires size > 0
    ensures (n + size) % size == n % size
  {
    var q, r := n / size, n % size;
    assert n + size == (q + 1) * size + r;
    QuotientUnique(n + size, size, q + 1, r);
  }

  // ----- range check and conversion -----

  /** static_cast from the unsigned to the signed type */
  function AsSigned(u: nat, size: nat): int { if u < size / 2 then u else u - size }

  /** check_signed_range */
  predicate InRange(t: IntType, negative: bool, u: nat) {
    t.signed ==> if negative then u <= t.size / 2 else u <= t.size / 2 - 1
  }

  /** checked_negate: `-R(t - 1) - 1`, where t - 1 is computed in the unsigned type. */
  function Negated(u: nat, size: nat): int
    requires size > 0
  {
    -AsSigned((u - 1) % size, size) - 1
  }

  /** For an unsigned value that passed the check the negation is exact, down to the most negative
      number, and neither of its two operations leaves the signed type. */
  lemma NegationFits(t: IntType, u: nat)
    requires Machine(t) && t.signed && InRange(t, true, u)
    ensures Negated(u, t.size) == 0 - u
    ensures Min(t) <= -AsSigned((u - 1) % t.size, t.size) <= Max(t) && Min(t) <= Negated(u, t.size)
  {
    if u == 0 {
      ModStep(0, t.size);
      assert (u - 1) % t.size == t.size - 1 by { QuotientOfMinusOne(t.size); }
    } else {
      QuotientUnique(u - 1, t.size, 0, u - 1);
    }
  }

  lemma QuotientOfMinusOne(size: nat)
    requires size > 0
    ensures -1 % size == size - 1
  {
    var q, r := -1 / size, -1 % size;
    assert (q + 1) * size == size - 1 - r;
    MultipleIsLarge(q + 1, size);
  }

  /** integer_parser */
  method ParseInteger(n: Numeral, t: IntType) returns (p: Parsed)
    requires Machine(t)
    ensures p == Intended(n, t) <==> !Overlooked(n, t)
    ensures Overlooked(n, t) ==> p == Value(Wrapped(n, t))
  {
    ParsesExactly(n, t);
    var ok, result := Accumulate(n.hex, n.digits, t.size);
    if !ok {
      return Incorrect;
    }
    if !InRange(t, n.negative, result) {
      return Incorrect;
    }
    if n.negative {
      if t.signed {
        p := Value(Negated(result, t.size));
      } else {
        p := Incorrect;
      }
    } else {
      p := Value(if t.signed then AsSigned(result, t.size) else result);
    }
  }

  /** What integer_parser gives. */
  ghost function ParsedAs(n: Numeral, t: IntType): Parsed
    requires Machine(t)
  {
    var u := Accumulated(n.hex, n.digits, t.size);
    if u < 0 || !InRange(t, n.negative, u) || (n.negative && !t.signed) then Incorrect
    else if n.negative then Value(Negated(u, t.size))
    else Value(if t.signed then AsSigned(u, t.size) else u)
  }

  /** A numeral beyond the unsigned type whose residues never fall, digit by digit, and end in the
      range of the type. */
  ghost predicate Overlooked(n: Numeral, t: IntType)
    requires Machine(t)
  {
    && AllDigits(n.hex, n.digits) && Magnitude(n.hex, n.digits) >= t.size && !(n.negative && !t.signed)
    && NeverFalls(n.hex, n.digits, t.size)
    && InRange(t, n.negative, Magnitude(n.hex, n.digits) % t.size)
  }

  /** Its residue, with its sign. */
  ghost function Wrapped(n: Numeral, t: IntType): int
    requires Machine(t) && AllDigits(n.hex, n.digits)
  {
    var r := Magnitude(n.hex, n.digits) % t.size;
    if n.negative then 0 - r else r
  }

  /** Parsing does what it should, except exactly on these numerals, for which it gives the residue.
      In particular it is exact on every numeral whose magnitude fits the unsigned type. */
  lemma ParsesExactly(n: Numeral, t: IntType)
    requires Machine(t)
    ensures ParsedAs(n, t) == Intended(n, t) <==> !Overlooked(n, t)
    ensures Overlooked(n, t) ==> ParsedAs(n, t) == Value(Wrapped(n, t))
  {
    AccumulatesResidue(n.hex, n.digits, t.size);
    if AllDigits(n.hex, n.digits) {
      var m := Magnitude(n.hex, n.digits);
      AccumulatesIff(n.hex, n.digits, t.size);
      if m < t.size {
        AccumulatesExactly(n.hex, n.digits, t.size);
      }
      var u := Accumulated(n.hex, n.digits, t.size);
      if u >= 0 && n.negative && t.signed && InRange(t, true, u) {
        NegationFits(t, u);
      }
    }
  }

  /** 6000000000 as a 32-bit int: the wrap test does not fire, and 1705032704 comes out. */
  lemma SixBillion()
    ensures ParsedAs(Numeral(false, false, "6000000000"), IntType(0x1_0000_0000, true)) == Value(1705032704)
    ensures Overlooked(Numeral(false, false, "6000000000"), IntType(0x1_0000_0000, true))
    ensures Intended(Numeral(false, false, "6000000000"), IntType(0x1_0000_0000, true)) == Incorrect
  {
    SixAndZeros("6000000000");
    ParsesExactly(Numeral(false, false, "6000000000"), IntType(0x1_0000_0000, true));
  }

  predicate IsSixAndZeros(s: string) {
    |s| == 10 && s[0] == '6' && forall i :: 0 < i < 10 ==> s[i] == '0'
  }

  lemma SixThousand(s: string)
    requires IsSixAndZeros(s)
    ensures AllDigits(false, s) && Magnitude(false, s[..4]) == Accumulated(false, s[..4], 0x1_0000_0000) == 6000
  {
    assert s[..1] == [s[0]] && s[..1][..0] == "";
    OneZero(s, 1, 6, 6);
    OneZero(s, 2, 60, 60);
    OneZero(s, 3, 600, 600);
  }

  lemma SixMillion(s: string)
    requires IsSixAndZeros(s)
    ensures AllDigits(false, s) && Magnitude(false, s[..7]) == Accumulated(false, s[..7], 0x1_0000_0000) == 6000000
  {
    SixThousand(s);
    OneZero(s, 4, 6000, 6000);
    OneZero(s, 5, 60000, 60000);
    OneZero(s, 6, 600000, 600000);
  }

  lemma SixAndZeros(s: string)
    requires IsSixAndZeros(s)
    ensures AllDigits(false, s) && Magnitude(false, s) == 6000000000
    ensures Accumulated(false, s, 0x1_0000_0000) == 1705032704
  {
    SixMillion(s);
    OneZero(s, 7, 6000000, 6000000);
    OneZero(s, 8, 60000000, 60000000);
    OneZero(s, 9, 600000000, 600000000);
    assert s[..10] == s;
  }

  /** A zero more: the number becomes ten times as large, and what is accumulated ten times as
      large modulo 2^32. */
  lemma OneZero(s: string, k: nat, m: nat, r: nat)
    requires AllDigits(false, s) && k < |s| && s[k] == '0' && r < 0x1_0000_0000
    requires Magnitude(false, s[..k]) == m && Accumulated(false, s[..k], 0x1_0000_0000) == r
    ensures Magnitude(false, s[..k + 1]) == m * 10
    ensures Accumulated(false, s[..k + 1], 0x1_0000_0000)
         == if r > (r * 10) % 0x1_0000_0000 then -1 else (r * 10) % 0x1_0000_0000
  {
    var t := s[..k + 1];
    assert t != "" && t[..|t| - 1] == s[..k] && t[|t| - 1] == '0';
  }
}
