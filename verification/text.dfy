/** JavaScript string primitives the core relies on: the whitespace class
    shared by `String.prototype.trim` and the regular-expression class `\s`,
    `trim`, `replace(/\s+/g, ' ')`, and `toLowerCase` restricted to ASCII.

    Besides the operations themselves the module gives an independent
    description of whitespace normalisation: `Words(s)`, the maximal runs of
    non-whitespace characters, and `JoinSpace`, which glues words with single
    spaces. `NormalizeIsJoinOfWords` proves that trimming and collapsing is
    exactly `JoinSpace(Words(s))`. */
module Text {

  /** ECMAScript WhiteSpace and LineTerminator code points: the set removed by
      `trim` and matched by `\s`. */
  predicate IsSpace(c: char) {
    || c == ' ' || c == '\t' || c == '\n' || c == '\r'
    || c == '\U{000B}' || c == '\U{000C}' || c == '\U{00A0}' || c == '\U{1680}'
    || ('\U{2000}' <= c <= '\U{200A}')
    || c == '\U{2028}' || c == '\U{2029}' || c == '\U{202F}' || c == '\U{205F}'
    || c == '\U{3000}' || c == '\U{FEFF}'
  }

  predicate NoSpace(s: string) {
    forall i :: 0 <= i < |s| ==> !IsSpace(s[i])
  }

  /** `s` has no whitespace at either end (the shape `trim` produces). */
  predicate Trimmed(s: string) {
    |s| == 0 || (!IsSpace(s[0]) && !IsSpace(s[|s| - 1]))
  }

  /** Every whitespace character of `s` is a plain space and no two
      whitespace characters are adjacent (the shape the collapse produces). */
  predicate Collapsed(s: string) {
    && (forall i :: 0 <= i < |s| && IsSpace(s[i]) ==> s[i] == ' ')
    && (forall i :: 0 <= i < |s| - 1 ==> !(IsSpace(s[i]) && IsSpace(s[i + 1])))
  }

  /** Removes the leading whitespace run. */
  function DropLeading(s: string): (r: string)
    ensures |r| <= |s| && r == s[|s| - |r|..]
    ensures |r| > 0 ==> !IsSpace(r[0])
    ensures forall i :: 0 <= i < |s| - |r| ==> IsSpace(s[i])
  {
    if |s| > 0 && IsSpace(s[0]) then DropLeading(s[1..]) else s
  }

  /** Removes the trailing whitespace run. */
  function DropTrailing(s: string): (r: string)
    ensures |r| <= |s| && r == s[..|r|]
    ensures |r| > 0 ==> !IsSpace(r[|r| - 1])
    ensures forall i :: |r| <= i < |s| ==> IsSpace(s[i])
  {
    if |s| > 0 && IsSpace(s[|s| - 1]) then DropTrailing(s[..|s| - 1]) else s
  }

  /** `String.prototype.trim`: `r` is `s` without its leading and trailing
      whitespace runs. */
  function Trim(s: string): (r: string)
    ensures Trimmed(r)
    ensures |r| <= |s|
    ensures NoSpace(s) ==> r == s
  {
    var d := DropLeading(s);
    var r := DropTrailing(d);
    assert NoSpace(s) ==> d == s by {
      assert NoSpace(s) && |s| > 0 ==> !IsSpace(s[0]);
    }
    assert NoSpace(s) ==> r == d by {
      assert NoSpace(s) && |d| > 0 ==> !IsSpace(d[|d| - 1]);
    }
    r
  }

  /** `s.replace(/\s+/g, ' ')`: every maximal whitespace run becomes one
      space. */
  function Collapse(s: string): (r: string)
    ensures |r| <= |s|
    ensures |r| == 0 <==> |s| == 0
    ensures |r| > 0 ==> (IsSpace(r[0]) <==> IsSpace(s[0]))
    ensures |r| > 0 ==> (IsSpace(r[|r| - 1]) <==> IsSpace(s[|s| - 1]))
    ensures Collapsed(r)
    decreases |s|
  {
    if |s| == 0 then ""
    else if IsSpace(s[0]) then
      var u := DropLeading(s[1..]);
      var c := Collapse(u);
      assert |u| == 0 ==> IsSpace(s[|s| - 1]) by {
        if |u| == 0 && |s| > 1 { assert IsSpace(s[1..][|s| - 2]); }
      }
      assert |u| > 0 ==> u[|u| - 1] == s[|s| - 1];
      CollapsedCons(' ', c);
      " " + c
    else
      var c := Collapse(s[1..]);
      CollapsedCons(s[0], c);
      [s[0]] + c
  }

  /** A character before a collapsed text keeps it collapsed unless two
      whitespace characters meet. */
  lemma {:induction false} CollapsedCons(x: char, c: string)
    requires Collapsed(c)
    requires IsSpace(x) ==> x == ' ' && (|c| == 0 || !IsSpace(c[0]))
    ensures Collapsed([x] + c)
  {
    var r := [x] + c;
    assert forall i :: 1 <= i < |r| ==> r[i] == c[i - 1];
  }

  /** The maximal non-whitespace prefix of `s`. */
  function TakeWord(s: string): (w: string)
    ensures |w| <= |s| && w == s[..|w|] && NoSpace(w)
    ensures |w| < |s| ==> IsSpace(s[|w|])
    ensures |s| > 0 && !IsSpace(s[0]) ==> |w| > 0
  {
    if |s| == 0 || IsSpace(s[0]) then "" else [s[0]] + TakeWord(s[1..])
  }

  /** The maximal runs of non-whitespace characters of `s`, in order. */
  function Words(s: string): (ws: seq<string>)
    ensures ValidWords(ws)
    decreases |s|
  {
    var t := DropLeading(s);
    if |t| == 0 then []
    else
      var w := TakeWord(t);
      var rest := Words(t[|w|..]);
      ValidWordsCons(w, rest);
      [w] + rest
  }

  lemma {:induction false} ValidWordsCons(w: string, ws: seq<string>)
    requires |w| > 0 && NoSpace(w) && ValidWords(ws)
    ensures ValidWords([w] + ws)
  {
    assert forall i :: 1 <= i < |[w] + ws| ==> ([w] + ws)[i] == ws[i - 1];
  }

  predicate ValidWords(ws: seq<string>) {
    forall i :: 0 <= i < |ws| ==> |ws[i]| > 0 && NoSpace(ws[i])
  }

  /** The words separated by single spaces. */
  function JoinSpace(ws: seq<string>): string {
    if |ws| == 0 then ""
    else if |ws| == 1 then ws[0]
    else ws[0] + (" " + JoinSpace(ws[1..]))
  }

  /** The normalisation applied to every string before comparison. */
  function Normalize(s: string): (r: string)
    ensures Trimmed(r) && Collapsed(r)
  {
    Collapse(Trim(s))
  }

  lemma {:induction false} WordsDropLeading(s: string)
    ensures Words(DropLeading(s)) == Words(s)
  {
    var d := DropLeading(s);
    assert DropLeading(d) == d by {
      if |d| > 0 { assert !IsSpace(d[0]); }
    }
  }

  lemma {:induction false} DropLeadingAppend(x: string, y: string)
    ensures DropLeading(x + y) == if |DropLeading(x)| > 0 then DropLeading(x) + y else DropLeading(y)
    decreases |x|
  {
    if |x| == 0 {
      assert x + y == y;
    } else if IsSpace(x[0]) {
      assert (x + y)[1..] == x[1..] + y;
      DropLeadingAppend(x[1..], y);
    } else {
    }
  }

  lemma {:induction false} TakeWordAppend(x: string, y: string)
    requires NoSpace(x)
    requires |y| == 0 || IsSpace(y[0])
    ensures TakeWord(x + y) == x
    decreases |x|
  {
    if |x| == 0 {
      assert x + y == y;
    } else {
      assert (x + y)[1..] == x[1..] + y;
      TakeWordAppend(x[1..], y);
    }
  }

  /** One step of `Words` on a string that starts with a word. */
  lemma {:induction false} WordsStep(t: string)
    requires |t| > 0 && !IsSpace(t[0])
    ensures Words(t) == [TakeWord(t)] + Words(t[|TakeWord(t)|..])
  {
    assert DropLeading(t) == t;
  }

  /** A string with no word has no words. */
  lemma {:induction false} WordsNone(t: string)
    requires |DropLeading(t)| == 0
    ensures Words(t) == []
  {
  }

  /** A word followed by whitespace (or nothing) is the first word. */
  lemma {:induction false} WordsConsWord(w: string, rest: string)
    requires |w| > 0 && NoSpace(w)
    requires |rest| == 0 || IsSpace(rest[0])
    ensures Words(w + rest) == [w] + Words(rest)
  {
    TakeWordAppend(w, rest);
    WordsStep(w + rest);
    assert (w + rest)[|w|..] == rest;
  }

  /** A leading whitespace character does not change the words. */
  lemma {:induction false} WordsSpaceCons(c: char, j: string)
    requires IsSpace(c)
    ensures Words([c] + j) == Words(j)
  {
    assert DropLeading([c] + j) == DropLeading(j) by {
      assert ([c] + j)[1..] == j;
    }
    WordsDropLeading([c] + j);
    WordsDropLeading(j);
  }

  lemma {:induction false} WordsSnocSpace(x: string, c: char)
    requires IsSpace(c)
    ensures Words(x + [c]) == Words(x)
    decreases |x|
  {
    if |x| == 0 {
      WordsSpaceCons(c, "");
      assert [c] + "" == [c];
      assert x + [c] == [c];
    } else if IsSpace(x[0]) {
      assert x == [x[0]] + x[1..];
      assert x + [c] == [x[0]] + (x[1..] + [c]);
      WordsSpaceCons(x[0], x[1..] + [c]);
      WordsSpaceCons(x[0], x[1..]);
      WordsSnocSpace(x[1..], c);
    } else {
      var w := TakeWord(x);
      var rest := x[|w|..];
      assert x == w + rest;
      assert x + [c] == w + (rest + [c]);
      WordsConsWord(w, rest);
      WordsConsWord(w, rest + [c]);
      WordsSnocSpace(rest, c);
    }
  }

  lemma {:induction false} WordsDropTrailing(s: string)
    ensures Words(DropTrailing(s)) == Words(s)
    decreases |s|
  {
    if |s| > 0 && IsSpace(s[|s| - 1]) {
      var p := s[..|s| - 1];
      assert s == p + [s[|s| - 1]];
      WordsSnocSpace(p, s[|s| - 1]);
      WordsDropTrailing(p);
    }
  }

  lemma {:induction false} WordsTrim(s: string)
    ensures Words(Trim(s)) == Words(s)
  {
    WordsDropTrailing(DropLeading(s));
    WordsDropLeading(s);
  }

  lemma {:induction false} CollapseWordPrefix(w: string, r: string)
    requires NoSpace(w)
    ensures Collapse(w + r) == w + Collapse(r)
    decreases |w|
  {
    if |w| == 0 {
      assert w + r == r;
    } else {
      var x, v := w[0], w[1..];
      assert w == [x] + v && w + r == [x] + (v + r);
      CollapseWordPrefix(v, r);
      CollapseCharCons(x, v + r);
      ConsAssoc(x, v, Collapse(r));
    }
  }

  lemma {:induction false} ConsAssoc(x: char, v: string, c: string)
    ensures [x] + (v + c) == ([x] + v) + c
  {
  }

  /** A non-whitespace character passes through the collapse unchanged. */
  lemma {:induction false} CollapseCharCons(x: char, rest: string)
    requires !IsSpace(x)
    ensures Collapse([x] + rest) == [x] + Collapse(rest)
  {
    assert ([x] + rest)[1..] == rest;
  }

  /** The collapse of a string that starts with whitespace. */
  lemma {:induction false} CollapseSpaceCons(r: string)
    requires |r| > 0 && IsSpace(r[0])
    ensures Collapse(r) == " " + Collapse(DropLeading(r[1..]))
  {
  }

  /** After the first word of a trimmed string, what follows the whitespace
      run is again trimmed and non-empty. */
  lemma {:induction false} TrimmedTail(t: string, r: string)
    requires Trimmed(t) && 0 < |r| <= |t| && r == t[|t| - |r|..] && IsSpace(r[0])
    ensures |DropLeading(r[1..])| > 0 && Trimmed(DropLeading(r[1..]))
  {
    assert r[|r| - 1] == t[|t| - 1];
    assert |r| >= 2;
    var u := DropLeading(r[1..]);
    assert r[1..][|r| - 2] == t[|t| - 1];
    assert u[|u| - 1] == t[|t| - 1];
  }

  /** What follows the first word of `t` and the whitespace run after it. */
  function AfterFirstWord(t: string): string {
    var r := t[|TakeWord(t)|..];
    if |r| == 0 then r else DropLeading(r[1..])
  }

  lemma {:induction false} AfterFirstWordTrimmed(t: string)
    requires Trimmed(t) && |t| > 0
    ensures Trimmed(AfterFirstWord(t)) && |AfterFirstWord(t)| < |t|
  {
    var w := TakeWord(t);
    var r := t[|w|..];
    if |r| > 0 {
      TrimmedTail(t, r);
    }
  }

  lemma {:induction false} WordsSplitTrimmed(t: string)
    requires Trimmed(t) && |t| > 0
    ensures Words(t) == [TakeWord(t)] + Words(AfterFirstWord(t))
  {
    WordsStep(t);
    var r := t[|TakeWord(t)|..];
    if |r| > 0 {
      WordsSpaceDrop(r);
    }
  }

  /** `s` is its first word followed by the rest. */
  lemma {:induction false} SplitAtWord(s: string)
    ensures s == TakeWord(s) + s[|TakeWord(s)|..]
  {
  }

  lemma {:induction false} CollapseSplitTrimmed(t: string)
    requires Trimmed(t) && |t| > 0
    ensures |AfterFirstWord(t)| == 0 ==> Collapse(t) == TakeWord(t)
    ensures |AfterFirstWord(t)| > 0 ==> Collapse(t) == TakeWord(t) + (" " + Collapse(AfterFirstWord(t)))
  {
    var w := TakeWord(t);
    var r := t[|w|..];
    SplitAtWord(t);
    CollapseWordPrefix(w, r);
    if |r| > 0 {
      TrimmedTail(t, r);
      CollapseSpaceCons(r);
    } else {
      assert w + Collapse(r) == w;
    }
  }

  /** Words of a string that starts with whitespace. */
  lemma {:induction false} WordsSpaceDrop(r: string)
    requires |r| > 0 && IsSpace(r[0])
    ensures Words(r) == Words(DropLeading(r[1..]))
  {
    assert DropLeading(r) == DropLeading(r[1..]);
    WordsDropLeading(r);
  }

  lemma {:induction false} CollapseTrimmed(t: string)
    requires Trimmed(t)
    ensures Collapse(t) == JoinSpace(Words(t))
    decreases |t|
  {
    if |t| > 0 {
      var w, u := TakeWord(t), AfterFirstWord(t);
      AfterFirstWordTrimmed(t);
      WordsSplitTrimmed(t);
      CollapseSplitTrimmed(t);
      if |u| == 0 {
        WordsNone(u);
        assert Words(t) == [w];
      } else {
        var ws := Words(u);
        assert |ws| > 0 by {
          WordsStep(u);
        }
        CollapseTrimmed(u);
        JoinSpaceCons(w, ws);
      }
    }
  }

  lemma {:induction false} JoinSpaceCons(w: string, ws: seq<string>)
    requires |ws| > 0
    ensures JoinSpace([w] + ws) == w + (" " + JoinSpace(ws))
  {
    assert ([w] + ws)[1..] == ws;
  }

  /** Trimming and collapsing is exactly gluing the words of `s` with single
      spaces. */
  lemma {:induction false} NormalizeIsJoinOfWords(s: string)
    ensures Normalize(s) == JoinSpace(Words(s))
  {
    CollapseTrimmed(Trim(s));
    WordsTrim(s);
  }

  lemma {:induction false} WordsOfWord(w: string)
    requires |w| > 0 && NoSpace(w)
    ensures Words(w) == [w]
  {
    WordsConsWord(w, "");
    assert w + "" == w;
    WordsNone("");
  }

  lemma {:induction false} WordsOfWordThenSpace(w: string, j: string)
    requires |w| > 0 && NoSpace(w)
    ensures Words(w + (" " + j)) == [w] + Words(j)
  {
    WordsConsWord(w, " " + j);
    WordsSpaceCons(' ', j);
  }

  predicate AllSpace(s: string) {
    forall i :: 0 <= i < |s| ==> IsSpace(s[i])
  }

  lemma {:induction false} ConsSplit(x: string, y: string)
    requires |x| > 0
    ensures x + y == [x[0]] + (x[1..] + y)
  {
    assert x == [x[0]] + x[1..];
  }

  lemma {:induction false} WordsAfterSpaces(gap: string, j: string)
    requires AllSpace(gap)
    ensures Words(gap + j) == Words(j)
    decreases |gap|
  {
    if |gap| > 0 {
      var rest := gap[1..] + j;
      ConsSplit(gap, j);
      WordsSpaceCons(gap[0], rest);
      WordsAfterSpaces(gap[1..], j);
    } else {
      assert gap + j == j;
    }
  }

  /** Two words separated by any whitespace run are exactly those two words. */
  lemma {:induction false} WordsOfTwoWords(w1: string, gap: string, w2: string)
    requires |w1| > 0 && NoSpace(w1) && |w2| > 0 && NoSpace(w2)
    requires |gap| > 0 && AllSpace(gap)
    ensures Words(w1 + gap + w2) == [w1, w2]
  {
    assert w1 + gap + w2 == w1 + (gap + w2);
    WordsConsWord(w1, gap + w2);
    WordsAfterSpaces(gap, w2);
    WordsOfWord(w2);
  }

  /** `Words` recovers the words `JoinSpace` glued together. */
  lemma {:induction false} WordsOfJoinSpace(ws: seq<string>)
    requires ValidWords(ws)
    ensures Words(JoinSpace(ws)) == ws
    decreases |ws|
  {
    if |ws| == 1 {
      WordsOfWord(ws[0]);
    } else if |ws| > 1 {
      var rest := ws[1..];
      assert ValidWords(rest) by {
        assert forall i :: 0 <= i < |rest| ==> rest[i] == ws[i + 1];
      }
      assert Words(JoinSpace(ws)) == [ws[0]] + Words(JoinSpace(rest)) by {
        assert JoinSpace(ws) == ws[0] + (" " + JoinSpace(rest));
        WordsOfWordThenSpace(ws[0], JoinSpace(rest));
      }
      WordsOfJoinSpace(rest);
      assert ws == [ws[0]] + rest;
    }
  }

  /** Two strings normalise to the same text exactly when they have the same
      words: normalisation only collapses whitespace that is already there. */
  lemma {:induction false} NormalizeEqualIffSameWords(s: string, t: string)
    ensures Normalize(s) == Normalize(t) <==> Words(s) == Words(t)
  {
    NormalizeIsJoinOfWords(s);
    NormalizeIsJoinOfWords(t);
    if Normalize(s) == Normalize(t) {
      WordsOfJoinSpace(Words(s));
      WordsOfJoinSpace(Words(t));
    }
  }

  /** Normalising twice is normalising once. */
  lemma {:induction false} NormalizeIdempotent(s: string)
    ensures Normalize(Normalize(s)) == Normalize(s)
  {
    NormalizeIsJoinOfWords(s);
    NormalizeIsJoinOfWords(Normalize(s));
    WordsOfJoinSpace(Words(s));
  }

  /** `toLowerCase` on one character, restricted to ASCII letters. */
  function LowerChar(c: char): (r: char)
    ensures 'A' <= c <= 'Z' ==> 'a' <= r <= 'z' && r as int - c as int == 32
    ensures !('A' <= c <= 'Z') ==> r == c
  {
    if 'A' <= c <= 'Z' then (c as int + 32) as char else c
  }

  /** `toLowerCase` on a string: the character-wise lower-casing. */
  function Lower(s: string): (r: string)
    ensures |r| == |s|
    ensures forall i :: 0 <= i < |s| ==> r[i] == LowerChar(s[i])
  {
    seq(|s|, i requires 0 <= i < |s| => LowerChar(s[i]))
  }

  lemma {:induction false} LowerAppend(a: string, b: string)
    ensures Lower(a + b) == Lower(a) + Lower(b)
  {
  }

  /** Lower-casing never turns whitespace into a letter or back. */
  lemma {:induction false} LowerKeepsSpace(c: char)
    ensures IsSpace(LowerChar(c)) <==> IsSpace(c)
  {
  }

  function LowerWords(ws: seq<string>): (r: seq<string>)
    ensures |r| == |ws|
    ensures forall i :: 0 <= i < |ws| ==> r[i] == Lower(ws[i])
  {
    seq(|ws|, i requires 0 <= i < |ws| => Lower(ws[i]))
  }

  lemma {:induction false} LowerWordsValid(ws: seq<string>)
    requires ValidWords(ws)
    ensures ValidWords(LowerWords(ws))
  {
    forall i, k | 0 <= i < |ws| && 0 <= k < |ws[i]|
      ensures !IsSpace(LowerWords(ws)[i][k])
    {
      LowerKeepsSpace(ws[i][k]);
    }
  }

  /** Lower-casing a joined text lower-cases each word. */
  lemma {:induction false} LowerJoinSpace(ws: seq<string>)
    ensures Lower(JoinSpace(ws)) == JoinSpace(LowerWords(ws))
    decreases |ws|
  {
    if |ws| > 1 {
      LowerAppend(ws[0], " " + JoinSpace(ws[1..]));
      LowerAppend(" ", JoinSpace(ws[1..]));
      LowerJoinSpace(ws[1..]);
      assert LowerWords(ws)[1..] == LowerWords(ws[1..]);
    }
  }

  /** Comparing normalised, lower-cased text is comparing the words of the
      two strings up to ASCII case. */
  lemma {:induction false} LowerNormalizeEqualIff(s: string, t: string)
    ensures Lower(Normalize(s)) == Lower(Normalize(t))
        <==> LowerWords(Words(s)) == LowerWords(Words(t))
  {
    NormalizeIsJoinOfWords(s);
    NormalizeIsJoinOfWords(t);
    LowerJoinSpace(Words(s));
    LowerJoinSpace(Words(t));
    LowerWordsValid(Words(s));
    LowerWordsValid(Words(t));
    if Lower(Normalize(s)) == Lower(Normalize(t)) {
      WordsOfJoinSpace(LowerWords(Words(s)));
      WordsOfJoinSpace(LowerWords(Words(t)));
    }
  }

  /** `trim` leaves an already trimmed string as it is. */
  lemma {:induction false} TrimOfTrimmed(s: string)
    requires Trimmed(s)
    ensures Trim(s) == s
  {
    assert DropLeading(s) == s by {
      if |s| > 0 { assert !IsSpace(s[0]); }
    }
    assert DropTrailing(s) == s by {
      if |s| > 0 { assert !IsSpace(s[|s| - 1]); }
    }
  }

  lemma {:induction false} DropLeadingAllSpace(gap: string)
    requires AllSpace(gap)
    ensures DropLeading(gap) == ""
  {
    if |gap| > 0 {
      DropLeadingAllSpace(gap[1..]);
    }
  }

  lemma {:induction false} DropTrailingSpaces(y: string, gap: string)
    requires AllSpace(gap)
    ensures DropTrailing(y + gap) == DropTrailing(y)
    decreases |gap|
  {
    if |gap| > 0 {
      var front := gap[..|gap| - 1];
      assert (y + gap)[..|y + gap| - 1] == y + front;
      DropTrailingSpaces(y, front);
    } else {
      assert y + gap == y;
    }
  }

  /** `trim` ignores whitespace added around a string. */
  lemma {:induction false} TrimSurrounded(pre: string, x: string, post: string)
    requires AllSpace(pre) && AllSpace(post)
    ensures Trim(pre + x + post) == Trim(x)
  {
    assert pre + x + post == pre + (x + post);
    DropLeadingAppend(pre, x + post);
    DropLeadingAllSpace(pre);
    DropLeadingAppend(x, post);
    if |DropLeading(x)| > 0 {
      DropTrailingSpaces(DropLeading(x), post);
    } else {
      DropLeadingAllSpace(post);
    }
  }
}
