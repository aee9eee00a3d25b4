/**
 * The pieces of Go's standard library that the swarm snapshot depends on:
 * strings.Split (with a one-character separator), strings.HasPrefix and
 * strconv.Itoa, each with an independent inverse or characterisation.
 */
module GoStrings {

  /** strings.HasPrefix: s is prefix followed by some (possibly empty) rest. */
  function HasPrefix(s: string, prefix: string): (b: bool)
    ensures b <==> exists rest :: s == prefix + rest
  {
    PrefixDecomposition(s, prefix);
    |prefix| <= |s| && s[..|prefix|] == prefix
  }

  /** Comparing the leading characters decides whether s splits as prefix + rest. */
  lemma PrefixDecomposition(s: string, prefix: string)
    ensures (|prefix| <= |s| && s[..|prefix|] == prefix) <==> exists rest :: s == prefix + rest
  {
    if |prefix| <= |s| && s[..|prefix|] == prefix {
      assert s == prefix + s[|prefix|..];
    }
    if exists rest :: s == prefix + rest {
      var rest :| s == prefix + rest;
      assert s[..|prefix|] == prefix;
    }
  }

  /** The inverse of Split: the parts glued back together with the separator between them. */
  function Join(parts: seq<string>, sep: char): string
    requires |parts| >= 1
  {
    if |parts| == 1 then parts[0] else parts[0] + [sep] + Join(parts[1..], sep)
  }

  /**
   * strings.Split(s, string(sep)): the maximal separator-free pieces of s, in order.
   * There is always at least one piece; there is exactly one when sep does not occur.
   */
  function Split(s: string, sep: char): (parts: seq<string>)
    ensures |parts| >= 1
    ensures forall i :: 0 <= i < |parts| ==> sep !in parts[i]
    ensures Join(parts, sep) == s
    ensures |parts| == 1 <==> sep !in s
    decreases |s|
  {
    if s == [] then [""]
    else
      var rest := Split(s[1..], sep);
      assert s == [s[0]] + s[1..];
      if s[0] == sep then
        assert ([""] + rest)[1..] == rest;
        [""] + rest
      else
        var parts := [[s[0]] + rest[0]] + rest[1..];
        assert parts[1..] == rest[1..];
        assert |rest| > 1 ==> Join(rest, sep) == rest[0] + [sep] + Join(rest[1..], sep);
        parts
  }

  /** Join of at least two parts starts with the first two parts and a separator between them. */
  lemma {:induction false} JoinFirstTwo(parts: seq<string>, sep: char)
    requires |parts| >= 2
    ensures var p := parts[0] + [sep] + parts[1];
            |p| <= |Join(parts, sep)| && Join(parts, sep)[..|p|] == p
            && (|parts| == 2 <==> |p| == |Join(parts, sep)|)
            && (|parts| > 2 ==> Join(parts, sep)[|p|] == sep)
  {
    var tail := parts[1..];
    if |parts| == 2 {
      assert Join(tail, sep) == parts[1];
    } else {
      assert Join(tail, sep) == parts[1] + [sep] + Join(tail[1..], sep);
    }
  }

  /** The characters strconv.Itoa writes. */
  predicate IsDigit(c: char) {
    '0' <= c <= '9'
  }

  function DigitChar(d: nat): (c: char)
    requires d < 10
    ensures IsDigit(c)
  {
    ('0' as int + d) as char
  }

  /** The decimal digits of n, most significant first, without leading zeros. */
  function DecimalDigits(n: nat): (s: string)
    ensures |s| >= 1
    ensures forall i :: 0 <= i < |s| ==> IsDigit(s[i])
    ensures s[0] == '0' <==> n == 0
    decreases n
  {
    if n < 10 then [DigitChar(n)] else DecimalDigits(n / 10) + [DigitChar(n % 10)]
  }

  /** strconv.Itoa: a minus sign for negative numbers, then the decimal digits. */
  function Itoa(n: int): (s: string)
    ensures |s| >= 1
    ensures '.' !in s
  {
    if n < 0 then "-" + DecimalDigits(-n) else DecimalDigits(n)
  }

  /** The value of a string of decimal digits (an independent reading of them). */
  function ParseDigits(s: string): int
    requires forall i :: 0 <= i < |s| ==> IsDigit(s[i])
  {
    if s == [] then 0 else 10 * ParseDigits(s[..|s| - 1]) + (s[|s| - 1] as int - '0' as int)
  }

  /** The value of an optionally signed decimal numeral. */
  function ParseInt(s: string): int
    requires |s| >= 1
    requires s[0] == '-' || IsDigit(s[0])
    requires forall i :: 1 <= i < |s| ==> IsDigit(s[i])
  {
    if s[0] == '-' then -ParseDigits(s[1..]) else ParseDigits(s)
  }

  lemma {:induction false} ParseDecimalDigits(n: nat)
    ensures ParseDigits(DecimalDigits(n)) == n
    decreases n
  {
    var s := DecimalDigits(n);
    if n >= 10 {
      ParseDecimalDigits(n / 10);
      assert s[..|s| - 1] == DecimalDigits(n / 10);
    }
  }

  /** Itoa loses nothing: reading its output back gives the number. */
  lemma ItoaRoundTrip(n: int)
    ensures ParseInt(Itoa(n)) == n
  {
    if n < 0 {
      NegativeRoundTrip(n);
    } else {
      ParseDecimalDigits(n);
    }
  }

  /** A negative number reads back through its sign and its digits. */
  lemma NegativeRoundTrip(n: int)
    requires n < 0
    ensures ParseInt(Itoa(n)) == n
  {
    var digits := DecimalDigits(-n);
    assert Itoa(n) == "-" + digits;
    ParseSigned(digits);
    ParseDecimalDigits(-n);
  }

  /** A minus sign in front of a numeral negates its value. */
  lemma ParseSigned(digits: string)
    requires |digits| >= 1 && forall i :: 0 <= i < |digits| ==> IsDigit(digits[i])
    ensures ParseInt("-" + digits) == -ParseDigits(digits)
  {
    assert ("-" + digits)[1..] == digits;
  }
}
