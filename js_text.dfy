/**
  The few JavaScript string operations the forecast parsers are built from:
  `String.prototype.split` on a one-character separator, its inverse `join`,
  `startsWith`, and `parseInt` on decimal tokens, with the decimal formatting
  that `parseInt` inverts.
 */
module JsText {

  /** `s.split(sep)`: the pieces between the separators, in order; never empty. */
  function Split(s: string, sep: char): (parts: seq<string>)
    ensures |parts| >= 1
  {
    if s == [] then [""]
    else
      var rest := Split(s[1..], sep);
      if s[0] == sep then [""] + rest else [[s[0]] + rest[0]] + rest[1..]
  }

  /** `parts.join(sep)`. */
  function Join(parts: seq<string>, sep: char): string
    requires |parts| >= 1
  {
    if |parts| == 1 then parts[0] else parts[0] + [sep] + Join(parts[1..], sep)
  }

  function Last<T>(s: seq<T>): T
    requires |s| > 0
  {
    s[|s| - 1]
  }

  /** Joining the pieces of a split with the same separator gives the string back. */
  lemma {:induction false} SplitJoin(s: string, sep: char)
    ensures Join(Split(s, sep), sep) == s
  {
    if s != [] {
      var rest := Split(s[1..], sep);
      SplitJoin(s[1..], sep);
      if s[0] == sep {
        assert s == [sep] + s[1..];
      } else {
        var first := [s[0]] + rest[0];
        if |rest| == 1 {
          assert s == [s[0]] + s[1..];
        } else {
          assert Join(rest, sep) == rest[0] + [sep] + Join(rest[1..], sep);
          assert s == [s[0]] + s[1..];
          assert Split(s, sep) == [first] + rest[1..];
        }
      }
    }
  }

  /** The pieces hold no separator, and there is more than one exactly when the string holds one. */
  lemma {:induction false} SplitPieces(s: string, sep: char)
    ensures forall i :: 0 <= i < |Split(s, sep)| ==> sep !in Split(s, sep)[i]
    ensures |Split(s, sep)| > 1 <==> sep in s
  {
    if s != [] {
      SplitPieces(s[1..], sep);
      assert s == [s[0]] + s[1..];
    }
  }

  /** The first piece is a prefix of the string. */
  lemma {:induction false} SplitFirstPrefix(s: string, sep: char)
    ensures Split(s, sep)[0] <= s
  {
    if s != [] {
      SplitFirstPrefix(s[1..], sep);
      assert s == [s[0]] + s[1..];
    }
  }

  /** A string without the separator is one piece. */
  lemma {:induction false} SplitWithout(s: string, sep: char)
    requires sep !in s
    ensures Split(s, sep) == [s]
  {
    if s != [] {
      SplitWithout(s[1..], sep);
      assert s == [s[0]] + s[1..];
    }
  }

  /** A separator that follows a separator-free prefix ends the first piece. */
  lemma {:induction false} SplitAfterFirst(a: string, b: string, sep: char)
    requires sep !in a
    ensures Split(a + [sep] + b, sep) == [a] + Split(b, sep)
  {
    if a == [] {
      assert a + [sep] + b == [sep] + b;
    } else {
      SplitAfterFirst(a[1..], b, sep);
      assert (a + [sep] + b)[1..] == a[1..] + [sep] + b;
      assert [a[0]] + a[1..] == a;
    }
  }

  /** The last piece of a split is whatever follows the last separator. */
  lemma {:induction false} SplitLastAfter(a: string, b: string, sep: char)
    requires sep !in b
    ensures |Split(a + [sep] + b, sep)| >= 2
    ensures Last(Split(a + [sep] + b, sep)) == b
  {
    if a == [] {
      assert a + [sep] + b == [sep] + b;
      SplitWithout(b, sep);
    } else {
      SplitLastAfter(a[1..], b, sep);
      assert (a + [sep] + b)[1..] == a[1..] + [sep] + b;
    }
  }

  predicate IsDigit(c: char) {
    '0' <= c <= '9'
  }

  predicate AllDigits(s: string) {
    forall i :: 0 <= i < |s| ==> IsDigit(s[i])
  }

  /** The longest prefix of `s` made of decimal digits. */
  function DigitPrefix(s: string): (ds: string)
    ensures AllDigits(ds) && ds <= s
    ensures |ds| < |s| ==> !IsDigit(s[|ds|])
  {
    if s != [] && IsDigit(s[0]) then [s[0]] + DigitPrefix(s[1..]) else []
  }

  /** The value of a string of decimal digits, most significant first. */
  function DigitsValue(ds: string): nat
    requires AllDigits(ds)
  {
    if ds == [] then 0
    else DigitsValue(ds[..|ds| - 1]) * 10 + (Last(ds) as int - '0' as int)
  }

  /** The string starts with a number: a digit, or a sign and then a digit. */
  predicate StartsWithNumber(s: string) {
    (|s| > 0 && IsDigit(s[0])) || (|s| > 1 && (s[0] == '-' || s[0] == '+') && IsDigit(s[1]))
  }

  /**
    `parseInt(s, 10)` on a token: an optional sign, then the value of the leading
    run of digits; everything after the first non-digit is ignored. A token with
    no leading digit gives 0 here (JavaScript gives NaN).
   */
  function ParseInt(s: string): (n: int)
    ensures n != 0 ==> StartsWithNumber(s)
    ensures n < 0 ==> s[0] == '-'
  {
    if |s| > 0 && s[0] == '-' then -(DigitsValue(DigitPrefix(s[1..])) as int)
    else if |s| > 0 && s[0] == '+' then DigitsValue(DigitPrefix(s[1..]))
    else DigitsValue(DigitPrefix(s))
  }

  function Digit(d: nat): char
    requires d < 10
  {
    ('0' as int + d) as char
  }

  /** Decimal digits of `n`, most significant first, no leading zero. */
  function NatToString(n: nat): (s: string)
    ensures |s| >= 1 && AllDigits(s)
  {
    if n < 10 then [Digit(n)] else NatToString(n / 10) + [Digit(n % 10)]
  }

  /** `String(n)` for an integer `n`. */
  function IntToString(n: int): string {
    if n < 0 then "-" + NatToString(-n) else NatToString(n)
  }

  lemma {:induction false} NatToStringValue(n: nat)
    ensures DigitsValue(NatToString(n)) == n
  {
    if n >= 10 {
      var s := NatToString(n);
      assert s[..|s| - 1] == NatToString(n / 10);
      NatToStringValue(n / 10);
    }
  }

  lemma {:induction false} DigitPrefixOf(ds: string, rest: string)
    requires AllDigits(ds)
    requires rest == [] || !IsDigit(rest[0])
    ensures DigitPrefix(ds + rest) == ds
  {
    if ds != [] {
      assert (ds + rest)[1..] == ds[1..] + rest;
      DigitPrefixOf(ds[1..], rest);
    }
  }

  lemma ParseNatFormatted(n: nat, rest: string)
    requires rest == [] || !IsDigit(rest[0])
    ensures DigitsValue(DigitPrefix(NatToString(n) + rest)) == n
  {
    DigitPrefixOf(NatToString(n), rest);
    NatToStringValue(n);
  }

  lemma ParseIntSigned(tail: string)
    ensures ParseInt(['-'] + tail) == -(DigitsValue(DigitPrefix(tail)) as int)
  {
    assert (['-'] + tail)[1..] == tail;
  }

  lemma ParseIntUnsigned(s: string)
    requires s != [] && IsDigit(s[0])
    ensures ParseInt(s) == DigitsValue(DigitPrefix(s))
  {
  }

  lemma ParseNegativeFormatted(m: nat, rest: string)
    requires m > 0
    requires rest == [] || !IsDigit(rest[0])
    ensures ParseInt(IntToString(-(m as int)) + rest) == -(m as int)
  {
    var tail := NatToString(m) + rest;
    assert IntToString(-(m as int)) + rest == ['-'] + tail;
    var v: int := DigitsValue(DigitPrefix(tail));
    assert v == m by { ParseNatFormatted(m, rest); }
    assert ParseInt(['-'] + tail) == -v by { ParseIntSigned(tail); }
  }

  lemma ParseNonNegativeFormatted(n: nat, rest: string)
    requires rest == [] || !IsDigit(rest[0])
    ensures ParseInt(IntToString(n) + rest) == n
  {
    var digits := NatToString(n);
    var v := DigitsValue(DigitPrefix(digits + rest));
    assert v == n by { ParseNatFormatted(n, rest); }
    assert ParseInt(digits + rest) == v by { ParseIntUnsigned(digits + rest); }
  }

  /**
    `parseInt` reads back a formatted integer, whatever non-digit text follows it
    (a unit such as " mph", a query string, nothing).
   */
  lemma ParseIntFormatted(n: int, rest: string)
    requires rest == [] || !IsDigit(rest[0])
    ensures ParseInt(IntToString(n) + rest) == n
  {
    if n < 0 {
      ParseNegativeFormatted(-n, rest);
    } else {
      ParseNonNegativeFormatted(n, rest);
    }
  }

  /** A formatted integer holds nothing but a sign and digits. */
  lemma IntToStringChars(n: int, c: char)
    requires !IsDigit(c) && c != '-'
    ensures c !in IntToString(n)
  {
    var m: nat := if n < 0 then -n else n;
    assert AllDigits(NatToString(m));
  }

  /** `String.prototype.startsWith` (noaaforecast.js:388). */
  predicate StartsWith(s: string, prefix: string) {
    prefix <= s
  }
}
