/** The JavaScript string and number conversions the two parsers rely on:
    `split` on a one-character separator, `parseInt(s, 10)` with its
    longest-digit-prefix reading, and the decimal text of an integer inside a
    template literal. */
module Strings {
  import opened Wrappers
  import opened Text

  /** `s.split(sep)`: the pieces between occurrences of `sep`. */
  function Split(s: string, sep: char): (r: seq<string>)
    ensures |r| >= 1
    ensures forall i :: 0 <= i < |r| ==> sep !in r[i]
  {
    if |s| == 0 then [""]
    else
      var rest := Split(s[1..], sep);
      if s[0] == sep then [""] + rest
      else [[s[0]] + rest[0]] + rest[1..]
  }

  /** `pieces.join(sep)`. */
  function Join(pieces: seq<string>, sep: char): string
    requires |pieces| >= 1
  {
    if |pieces| == 1 then pieces[0] else pieces[0] + [sep] + Join(pieces[1..], sep)
  }

  /** Joining the pieces gives back the original string. */
  lemma {:induction false} SplitJoin(s: string, sep: char)
    ensures Join(Split(s, sep), sep) == s
  {
    if |s| > 0 {
      var rest := Split(s[1..], sep);
      SplitJoin(s[1..], sep);
      if s[0] == sep {
        assert Split(s, sep) == [""] + rest;
        assert ([""] + rest)[1..] == rest;
        assert Join(Split(s, sep), sep) == "" + [sep] + Join(rest, sep);
        assert s == [s[0]] + s[1..];
      } else {
        var r := Split(s, sep);
        assert r == [[s[0]] + rest[0]] + rest[1..];
        if |rest| == 1 {
          assert Join(r, sep) == [s[0]] + rest[0];
        } else {
          assert r[1..] == rest[1..];
          assert Join(r, sep) == ([s[0]] + rest[0]) + [sep] + Join(rest[1..], sep);
          assert Join(rest, sep) == rest[0] + [sep] + Join(rest[1..], sep);
        }
        assert s == [s[0]] + s[1..];
      }
    }
  }

  /** A string without the separator is a single piece. */
  lemma {:induction false} SplitNoSep(a: string, sep: char)
    requires sep !in a
    ensures Split(a, sep) == [a]
  {
    if |a| > 0 {
      SplitNoSep(a[1..], sep);
      assert [a[0]] + a[1..] == a;
    }
  }

  /** A separator-free prefix followed by the separator is the first piece. */
  lemma {:induction false} SplitAtFirst(a: string, sep: char, b: string)
    requires sep !in a
    ensures Split(a + [sep] + b, sep) == [a] + Split(b, sep)
  {
    if |a| == 0 {
      assert a + [sep] + b == [sep] + b;
      assert ([sep] + b)[1..] == b;
    } else {
      SplitAtFirst(a[1..], sep, b);
      assert (a + [sep] + b)[1..] == a[1..] + [sep] + b;
      assert [a[0]] + a[1..] == a;
    }
  }

  /** Splitting a join of separator-free pieces gives the pieces back. */
  lemma {:induction false} JoinSplit(pieces: seq<string>, sep: char)
    requires |pieces| >= 1
    requires forall i :: 0 <= i < |pieces| ==> sep !in pieces[i]
    ensures Split(Join(pieces, sep), sep) == pieces
  {
    if |pieces| == 1 {
      SplitNoSep(pieces[0], sep);
    } else {
      JoinSplit(pieces[1..], sep);
      SplitAtFirst(pieces[0], sep, Join(pieces[1..], sep));
      assert [pieces[0]] + pieces[1..] == pieces;
    }
  }

  /** Appending a piece appends a separator and the piece. */
  lemma {:induction false} JoinSnoc(pieces: seq<string>, last: string, sep: char)
    requires |pieces| >= 1
    ensures Join(pieces + [last], sep) == Join(pieces, sep) + [sep] + last
  {
    if |pieces| == 1 {
      assert pieces + [last] == [pieces[0], last];
      assert [pieces[0], last][1..] == [last];
    } else {
      JoinSnoc(pieces[1..], last, sep);
      assert (pieces + [last])[1..] == pieces[1..] + [last];
    }
  }

  /** Every character of a piece comes from the split string. */
  lemma {:induction false} SplitPiecesWithin(s: string, sep: char)
    ensures forall i, c :: 0 <= i < |Split(s, sep)| && c in Split(s, sep)[i] ==> c in s
  {
    if |s| > 0 {
      SplitPiecesWithin(s[1..], sep);
      assert forall c :: c in s[1..] ==> c in s;
    }
  }

  /** A string with n separators splits into n + 1 pieces. */
  lemma {:induction false} SplitCount(s: string, sep: char)
    ensures |Split(s, sep)| == multiset(s)[sep] + 1
  {
    if |s| > 0 {
      SplitCount(s[1..], sep);
      assert s == [s[0]] + s[1..];
      assert multiset(s) == multiset{s[0]} + multiset(s[1..]);
    }
  }

  predicate IsDigit(c: char) {
    '0' <= c <= '9'
  }

  predicate AllDigits(s: string) {
    forall i :: 0 <= i < |s| ==> IsDigit(s[i])
  }

  /** The value of a run of decimal digits. */
  function DigitsValue(d: string): nat
    requires AllDigits(d)
  {
    if |d| == 0 then 0 else DigitsValue(d[..|d| - 1]) * 10 + ((d[|d| - 1] as int) - ('0' as int))
  }

  /** The longest run of decimal digits at the start of `s`. */
  function DigitPrefix(s: string): (r: string)
    ensures |r| <= |s| && r == s[..|r|]
    ensures AllDigits(r)
    ensures |r| < |s| ==> !IsDigit(s[|r|])
  {
    if |s| > 0 && IsDigit(s[0]) then [s[0]] + DigitPrefix(s[1..]) else ""
  }

  /** `parseInt(s, 10)`: leading whitespace is skipped, one optional sign is
      read, then the longest run of decimal digits; without any digit the
      result is `NaN` (here `None`). Whatever follows the digits is ignored. */
  function ParseInt(s: string): (r: Option<int>)
    ensures var d := DigitPrefix(Unsigned(DropLeading(s)));
      && (r.None? <==> d == "")
      && (r.Some? ==> r.value == DigitsValue(d) || r.value == 0 - DigitsValue(d))
    ensures var t := DropLeading(s);
      && (r.Some? && |t| > 0 && t[0] == '-' ==> r.value == 0 - DigitsValue(DigitPrefix(t[1..])))
      && (r.Some? && !(|t| > 0 && t[0] == '-') ==> r.value == DigitsValue(DigitPrefix(Unsigned(t))))
    ensures r.Some? && r.value < 0 ==> |DropLeading(s)| > 0 && DropLeading(s)[0] == '-'
  {
    ParseSigned(DropLeading(s))
  }

  /** The text after one leading sign, if there is one. */
  function Unsigned(t: string): string {
    if |t| > 0 && (t[0] == '-' || t[0] == '+') then t[1..] else t
  }

  /** `parseInt` after the leading whitespace. */
  function ParseSigned(t: string): Option<int> {
    if |t| > 0 && t[0] == '-' then
      var d := DigitPrefix(t[1..]);
      if |d| == 0 then None else Some(0 - DigitsValue(d))
    else
      var d := DigitPrefix(if |t| > 0 && t[0] == '+' then t[1..] else t);
      if |d| == 0 then None else Some(DigitsValue(d))
  }

  function DigitChar(n: nat): (c: char)
    requires n < 10
    ensures IsDigit(c)
  {
    (('0' as int) + n) as char
  }

  /** The decimal text of a natural number, without leading zeros. */
  function NatToString(n: nat): (r: string)
    ensures |r| >= 1 && AllDigits(r)
  {
    if n < 10 then [DigitChar(n)] else NatToString(n / 10) + [DigitChar(n % 10)]
  }

  /** `${n}` for an integer `n`. */
  function IntToString(n: int): string {
    if n < 0 then "-" + NatToString(-n) else NatToString(n)
  }

  lemma {:induction false} DigitsValueOfNatToString(n: nat)
    ensures DigitsValue(NatToString(n)) == n
  {
    var r := NatToString(n);
    if n >= 10 {
      DigitsValueOfNatToString(n / 10);
      assert r[..|r| - 1] == NatToString(n / 10);
    }
  }

  /** Digits followed by a non-digit: the digit prefix is exactly the digits. */
  lemma {:induction false} DigitPrefixOfDigits(d: string, rest: string)
    requires AllDigits(d)
    requires |rest| == 0 || !IsDigit(rest[0])
    ensures DigitPrefix(d + rest) == d
  {
    if |d| > 0 {
      DigitPrefixOfDigits(d[1..], rest);
      assert (d + rest)[1..] == d[1..] + rest;
      assert [d[0]] + d[1..] == d;
    } else {
      assert d + rest == rest;
    }
  }

  lemma {:induction false} DropLeadingNonSpace(t: string)
    requires |t| > 0 && !IsSpace(t[0])
    ensures DropLeading(t) == t
  {
  }

  lemma {:induction false} ParseSignedDigits(d: string, rest: string)
    requires |d| > 0 && AllDigits(d)
    requires |rest| == 0 || !IsDigit(rest[0])
    ensures ParseSigned(d + rest) == Some(DigitsValue(d))
  {
    DigitPrefixOfDigits(d, rest);
  }

  lemma {:induction false} ParseSignedMinus(t: string)
    requires |t| > 0 && t[0] == '-' && |DigitPrefix(t[1..])| > 0
    ensures ParseSigned(t) == Some(0 - DigitsValue(DigitPrefix(t[1..])))
  {
  }

  lemma {:induction false} ParseSignedNegative(d: string, rest: string)
    requires |d| > 0 && AllDigits(d)
    requires |rest| == 0 || !IsDigit(rest[0])
    ensures ParseSigned("-" + (d + rest)) == Some(0 - DigitsValue(d))
  {
    var t := "-" + (d + rest);
    assert t[0] == '-' && DigitPrefix(t[1..]) == d by {
      assert t[1..] == d + rest;
      DigitPrefixOfDigits(d, rest);
    }
    ParseSignedMinus(t);
  }

  lemma {:induction false} ParseIntUnsigned(d: string, rest: string)
    requires |d| > 0 && AllDigits(d)
    requires |rest| == 0 || !IsDigit(rest[0])
    ensures ParseInt(d + rest) == Some(DigitsValue(d))
  {
    assert (d + rest)[0] == d[0];
    DropLeadingNonSpace(d + rest);
    ParseSignedDigits(d, rest);
  }

  lemma {:induction false} ParseIntNegative(d: string, rest: string)
    requires |d| > 0 && AllDigits(d)
    requires |rest| == 0 || !IsDigit(rest[0])
    ensures ParseInt("-" + (d + rest)) == Some(0 - DigitsValue(d))
  {
    DropLeadingNonSpace("-" + (d + rest));
    ParseSignedNegative(d, rest);
  }

  /** `parseInt` reads back the decimal text of any integer, whatever
      non-digit text follows it. */
  lemma {:induction false} ParseIntOfString(n: int, rest: string)
    requires |rest| == 0 || !IsDigit(rest[0])
    ensures ParseInt(IntToString(n) + rest) == Some(n)
  {
    if n < 0 {
      var m: nat := -n;
      var d := NatToString(m);
      assert IntToString(n) == "-" + d;
      assert IntToString(n) + rest == "-" + (d + rest);
      ParseIntNegative(d, rest);
      DigitsValueOfNatToString(m);
    } else {
      var d := NatToString(n);
      assert IntToString(n) == d;
      ParseIntUnsigned(d, rest);
      DigitsValueOfNatToString(n);
    }
  }

  /** Reading stops at the first non-digit. */
  lemma {:induction false} ParseIntPrefix()
    ensures ParseInt("5abc") == Some(5)
  {
    var d := "5";
    assert d[..0] == "";
    assert DigitsValue(d) == 5;
    assert "5abc" == d + "abc";
    ParseIntUnsigned(d, "abc");
  }

  /** Text without digits is not a number. */
  lemma {:induction false} ParseIntNoDigits()
    ensures ParseInt("") == None
    ensures ParseInt("x1") == None
  {
    DropLeadingNonSpace("x1");
  }
}
