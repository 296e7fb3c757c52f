/**
 * The handful of Python `str` operations the code relies on: `split` with and
 * without a separator, `join`, `strip`, ASCII case mapping, `str(int)` and
 * `int(str)`. Case mapping is ASCII-only: Python's full Unicode case tables
 * are not part of the model.
 */
module Strings {
  import opened Wrappers

  // ---------------------------------------------------------------------
  // Searching

  /** `pat` occurs in `s` starting at index `j`. */
  predicate OccursAt<T(==)>(s: seq<T>, pat: seq<T>, j: nat) {
    j + |pat| <= |s| && s[j..j + |pat|] == pat
  }

  /** `s.find(pat)`: the lowest index where `pat` occurs, or `None`. */
  function Find<T(==)>(s: seq<T>, pat: seq<T>): (r: Option<nat>)
    ensures r.Some? ==> OccursAt(s, pat, r.value)
    ensures r.Some? ==> forall j :: 0 <= j < r.value ==> !OccursAt(s, pat, j)
    ensures r.None? ==> forall j :: 0 <= j <= |s| ==> !OccursAt(s, pat, j)
    decreases |s|
  {
    if |s| < |pat| then None
    else if s[..|pat|] == pat then
      assert OccursAt(s, pat, 0);
      Some(0)
    else
      match Find(s[1..], pat)
      case None =>
        assert forall j :: 1 <= j <= |s| ==> (OccursAt(s, pat, j) ==> OccursAt(s[1..], pat, j - 1));
        None
      case Some(k) =>
        assert OccursAt(s[1..], pat, k);
        assert s[1..][k..k + |pat|] == s[k + 1..k + 1 + |pat|];
        assert forall j :: 1 <= j < k + 1 ==> (OccursAt(s, pat, j) ==> OccursAt(s[1..], pat, j - 1));
        Some(k + 1)
  }

  /** The first index of `c` in `s` (`s.index(c)`). */
  function IndexOf(s: string, c: char): (i: nat)
    requires c in s
    ensures i < |s| && s[i] == c && c !in s[..i]
    ensures forall j :: 0 <= j < i ==> s[j] != c
  {
    if s[0] == c then 0
    else
      var k := IndexOf(s[1..], c);
      assert s[..k + 1] == [s[0]] + s[1..][..k];
      k + 1
  }

  // ---------------------------------------------------------------------
  // split / join

  /** `s.split(sep)` for a one-character separator. */
  function Split(s: string, sep: char): (parts: seq<string>)
    ensures |parts| >= 1
    ensures forall k :: 0 <= k < |parts| ==> sep !in parts[k]
    decreases |s|
  {
    if sep in s then
      var i := IndexOf(s, sep);
      [s[..i]] + Split(s[i + 1..], sep)
    else [s]
  }

  /** The number of times `c` occurs in `s`. */
  function Occurrences(s: string, c: char): nat
    decreases |s|
  {
    if s == [] then 0 else (if s[0] == c then 1 else 0) + Occurrences(s[1..], c)
  }

  lemma {:induction false} OccurrencesAppend(a: string, b: string, c: char)
    ensures Occurrences(a + b, c) == Occurrences(a, c) + Occurrences(b, c)
    decreases |a|
  {
    if a == [] {
      assert a + b == b;
    } else {
      assert (a + b)[1..] == a[1..] + b;
      OccurrencesAppend(a[1..], b, c);
    }
  }

  lemma {:induction false} OccurrencesAbsent(s: string, c: char)
    requires c !in s
    ensures Occurrences(s, c) == 0
    decreases |s|
  {
    if s != [] {
      assert c !in s[1..] by {
        assert forall j :: 0 <= j < |s[1..]| ==> s[1..][j] == s[j + 1];
      }
      OccurrencesAbsent(s[1..], c);
    }
  }

  /** `s.split(sep)` has one field more than `s` has separators. */
  lemma {:induction false} SplitCountsFields(s: string, sep: char)
    ensures |Split(s, sep)| == Occurrences(s, sep) + 1
    decreases |s|
  {
    if sep in s {
      var i := IndexOf(s, sep);
      assert s == s[..i] + ([sep] + s[i + 1..]);
      OccurrencesAppend(s[..i], [sep] + s[i + 1..], sep);
      assert ([sep] + s[i + 1..])[1..] == s[i + 1..];
      OccurrencesAbsent(s[..i], sep);
      SplitCountsFields(s[i + 1..], sep);
    } else {
      OccurrencesAbsent(s, sep);
    }
  }

  /** `sep.join(parts)`. */
  function Join(parts: seq<string>, sep: string): string
    decreases |parts|
  {
    if |parts| == 0 then ""
    else if |parts| == 1 then parts[0]
    else parts[0] + sep + Join(parts[1..], sep)
  }

  /** Splitting on a character and joining back with it restores the string. */
  lemma {:induction false} JoinSplit(s: string, sep: char)
    ensures Join(Split(s, sep), [sep]) == s
    decreases |s|
  {
    if sep in s {
      var i := IndexOf(s, sep);
      var head, rest := s[..i], s[i + 1..];
      var tail := Split(rest, sep);
      JoinSplit(rest, sep);
      assert Split(s, sep) == [head] + tail;
      assert Join([head] + tail, [sep]) == head + [sep] + Join(tail, [sep]) by {
        assert ([head] + tail)[1..] == tail;
      }
      assert s == head + [sep] + rest;
    }
  }

  /** Splitting a join of components free of the separator gives the components back. */
  lemma {:induction false} SplitJoin(parts: seq<string>, sep: char)
    requires |parts| >= 1
    requires forall i :: 0 <= i < |parts| ==> sep !in parts[i]
    ensures Split(Join(parts, [sep]), sep) == parts
    decreases |parts|
  {
    if |parts| == 1 {
      assert Join(parts, [sep]) == parts[0];
    } else {
      var w := parts[0];
      var rest := Join(parts[1..], [sep]);
      assert Join(parts, [sep]) == w + [sep] + rest;
      SplitCons(w, sep, rest);
      SplitJoin(parts[1..], sep);
      assert parts == [w] + parts[1..];
    }
  }

  /** The first field of `s.split(sep)` is the text before the first `sep`. */
  lemma {:induction false} SplitHead(s: string, sep: char)
    ensures sep in s ==> Split(s, sep)[0] == s[..IndexOf(s, sep)]
    ensures sep !in s ==> Split(s, sep) == [s]
  {
  }

  /** A field free of the separator, then the separator: `split` yields that field first. */
  lemma SplitCons(w: string, sep: char, r: string)
    requires sep !in w
    ensures Split(w + [sep] + r, sep) == [w] + Split(r, sep)
  {
    var s := w + [sep] + r;
    assert s[|w|] == sep;
    assert forall j :: 0 <= j < |w| ==> s[j] == w[j];
    var i := IndexOf(s, sep);
    assert i == |w|;
    assert s[..i] == w && s[i + 1..] == r;
  }

  /** `s.split(sep)` for a separator of several characters (`"\r\n"`). */
  function SplitOn(s: string, sep: string): (parts: seq<string>)
    requires |sep| > 0
    ensures |parts| >= 1
    decreases |s|
  {
    match Find(s, sep)
    case None => [s]
    case Some(i) => [s[..i]] + SplitOn(s[i + |sep|..], sep)
  }

  // ---------------------------------------------------------------------
  // Whitespace, strip, split()

  /** Python's `str.isspace` for one character. */
  predicate IsSpace(c: char) {
    var n := c as int;
    n == 32 || 9 <= n <= 13 || 0x1c <= n <= 0x1f || n == 0x85 || n == 0xa0
    || n == 0x1680 || 0x2000 <= n <= 0x200a || n == 0x2028 || n == 0x2029
    || n == 0x202f || n == 0x205f || n == 0x3000
  }

  predicate NoSpace(s: string) {
    forall i :: 0 <= i < |s| ==> !IsSpace(s[i])
  }

  function LStrip(s: string): (r: string)
    ensures |r| <= |s| && r == s[|s| - |r|..]
    ensures r == [] || !IsSpace(r[0])
    ensures forall i :: 0 <= i < |s| - |r| ==> IsSpace(s[i])
    decreases |s|
  {
    if s != [] && IsSpace(s[0]) then LStrip(s[1..]) else s
  }

  function RStrip(s: string): (r: string)
    ensures |r| <= |s| && r == s[..|r|]
    ensures r == [] || !IsSpace(r[|r| - 1])
    ensures forall i :: |r| <= i < |s| ==> IsSpace(s[i])
    decreases |s|
  {
    if s != [] && IsSpace(s[|s| - 1]) then RStrip(s[..|s| - 1]) else s
  }

  /** `s.strip()`: leading and trailing whitespace removed. */
  function Strip(s: string): string {
    RStrip(LStrip(s))
  }

  /** A string without whitespace is its own strip. */
  lemma StripNoSpace(s: string)
    requires NoSpace(s)
    ensures Strip(s) == s
  {
  }

  /** Length of the leading run of non-whitespace characters. */
  function TokenLen(s: string): (n: nat)
    ensures n <= |s| && NoSpace(s[..n])
    ensures n < |s| ==> IsSpace(s[n])
    decreases |s|
  {
    if s == [] || IsSpace(s[0]) then 0
    else
      var k := TokenLen(s[1..]);
      assert s[..k + 1] == [s[0]] + s[1..][..k];
      1 + k
  }

  /** Non-empty runs of non-whitespace characters. */
  predicate Words(toks: seq<string>) {
    forall k :: 0 <= k < |toks| ==> toks[k] != "" && NoSpace(toks[k])
  }

  lemma WordsCons(w: string, rest: seq<string>)
    requires w != "" && NoSpace(w) && Words(rest)
    ensures Words([w] + rest)
  {
    var toks := [w] + rest;
    forall k | 0 <= k < |toks| ensures toks[k] != "" && NoSpace(toks[k]) {
      if k > 0 {
        assert toks[k] == rest[k - 1];
      }
    }
  }

  /** `s.split()`: the maximal runs of non-whitespace characters, in order. */
  function SplitWs(s: string): (toks: seq<string>)
    ensures Words(toks)
    decreases |s|
  {
    var t := LStrip(s);
    if t == [] then []
    else
      var n := TokenLen(t);
      var rest := SplitWs(t[n..]);
      WordsCons(t[..n], rest);
      [t[..n]] + rest
  }

  /** Words joined by single spaces split back into the same words. */
  lemma {:induction false} SplitWsJoin(toks: seq<string>)
    requires Words(toks)
    ensures SplitWs(Join(toks, " ")) == toks
    decreases |toks|
  {
    if |toks| == 0 {
      assert Join(toks, " ") == "";
    } else if |toks| == 1 {
      SplitWsJoinOne(toks);
    } else {
      var tl := toks[1..];
      WordsTail(toks);
      SplitWsJoin(tl);
      JoinStartsWith(tl);
      SplitWsJoinStep(toks[0], tl, toks);
    }
  }

  /** The first of some words is a word, and the rest are words. */
  lemma WordsTail(toks: seq<string>)
    requires Words(toks) && toks != []
    ensures toks[0] != "" && NoSpace(toks[0]) && Words(toks[1..])
  {
    var tl := toks[1..];
    forall k | 0 <= k < |tl| ensures tl[k] != "" && NoSpace(tl[k]) {
      assert tl[k] == toks[k + 1];
    }
  }

  lemma SplitWsJoinOne(toks: seq<string>)
    requires Words(toks) && |toks| == 1
    ensures SplitWs(Join(toks, " ")) == toks
  {
    SplitWsWord(toks[0]);
    assert Join(toks, " ") == toks[0];
    assert toks == [toks[0]];
  }

  lemma SplitWsJoinStep(w: string, tl: seq<string>, toks: seq<string>)
    requires w != [] && NoSpace(w) && |tl| >= 1 && toks == [w] + tl
    requires SplitWs(Join(tl, " ")) == tl
    requires Join(tl, " ") != [] && !IsSpace(Join(tl, " ")[0])
    ensures SplitWs(Join(toks, " ")) == toks
  {
    JoinCons(toks);
    assert toks[1..] == tl;
    SplitWsCons(w, Join(tl, " "), Join(toks, " "));
  }

  lemma JoinCons(toks: seq<string>)
    requires |toks| >= 2
    ensures Join(toks, " ") == toks[0] + (" " + Join(toks[1..], " "))
  {
  }

  lemma SplitWsWord(w: string)
    requires w != [] && NoSpace(w)
    ensures SplitWs(w) == [w]
  {
    TokenLenWhole(w, "");
    assert w + "" == w;
    SplitWsStep(w, "");
    assert SplitWs("") == [];
  }

  lemma SplitWsCons(w: string, rest: string, s: string)
    requires w != [] && NoSpace(w)
    requires rest != [] && !IsSpace(rest[0])
    requires s == w + (" " + rest)
    ensures SplitWs(s) == [w] + SplitWs(rest)
  {
    var tail := " " + rest;
    TokenLenWhole(w, tail);
    SplitWsStep(w, tail);
    assert LStrip(tail) == LStrip(rest) by {
      assert tail[1..] == rest;
    }
    assert LStrip(rest) == rest;
    SplitWsStripped(tail);
  }

  /** One step of `split()` over a word followed by whitespace or nothing. */
  lemma SplitWsStep(w: string, tail: string)
    requires w != [] && NoSpace(w)
    requires LStrip(w + tail) == w + tail && TokenLen(w + tail) == |w|
    requires (w + tail)[..|w|] == w
    ensures SplitWs(w + tail) == [w] + SplitWs(tail)
  {
    assert (w + tail)[|w|..] == tail;
  }

  /** `split()` only sees the string after its leading whitespace. */
  lemma SplitWsStripped(x: string)
    ensures SplitWs(x) == SplitWs(LStrip(x))
  {
    assert LStrip(LStrip(x)) == LStrip(x);
  }

  lemma JoinStartsWith(toks: seq<string>)
    requires |toks| >= 1
    requires Words(toks)
    ensures Join(toks, " ") != [] && !IsSpace(Join(toks, " ")[0])
  {
    var w := toks[0];
    assert w != [] && NoSpace(w);
    var j := Join(toks, " ");
    if |toks| > 1 {
      assert j == w + " " + Join(toks[1..], " ");
    } else {
      assert j == w;
    }
    assert j[0] == w[0];
    assert !IsSpace(w[0]);
  }

  /** Token length of a word followed by a space or nothing is its length. */
  lemma {:induction false} TokenLenWhole(w: string, tail: string)
    requires w != [] && NoSpace(w)
    requires tail == [] || IsSpace(tail[0])
    ensures LStrip(w + tail) == w + tail
    ensures TokenLen(w + tail) == |w|
    ensures (w + tail)[..|w|] == w
    decreases |w|
  {
    if |w| > 1 {
      TokenLenWhole(w[1..], tail);
      assert (w + tail)[1..] == w[1..] + tail;
    } else {
      assert (w + tail)[1..] == tail;
    }
  }

  // ---------------------------------------------------------------------
  // ASCII case mapping

  function LowerChar(c: char): char {
    if 'A' <= c <= 'Z' then (c as int + 32) as char else c
  }

  function UpperChar(c: char): char {
    if 'a' <= c <= 'z' then (c as int - 32) as char else c
  }

  /** `s.lower()` restricted to ASCII letters. */
  function Lower(s: string): (r: string)
    ensures |r| == |s| && forall i :: 0 <= i < |s| ==> r[i] == LowerChar(s[i])
    decreases |s|
  {
    if s == [] then [] else [LowerChar(s[0])] + Lower(s[1..])
  }

  /** `s.upper()` restricted to ASCII letters. */
  function Upper(s: string): (r: string)
    ensures |r| == |s| && forall i :: 0 <= i < |s| ==> r[i] == UpperChar(s[i])
    decreases |s|
  {
    if s == [] then [] else [UpperChar(s[0])] + Upper(s[1..])
  }

  // ---------------------------------------------------------------------
  // Decimal integers: str(int) and int(str)

  predicate IsDigit(c: char) {
    '0' <= c <= '9'
  }

  predicate AllDigits(s: string) {
    forall i :: 0 <= i < |s| ==> IsDigit(s[i])
  }

  function DigitChar(d: nat): (c: char)
    requires d < 10
    ensures IsDigit(c) && c as int - '0' as int == d
  {
    ('0' as int + d) as char
  }

  /** `str(n)` for a natural number. */
  function NatToString(n: nat): (s: string)
    ensures |s| >= 1 && AllDigits(s)
    decreases n
  {
    if n < 10 then [DigitChar(n)] else NatToString(n / 10) + [DigitChar(n % 10)]
  }

  /** The value of a string of decimal digits. */
  function DigitsValue(s: string): nat
    requires AllDigits(s)
    decreases |s|
  {
    if s == [] then 0
    else 10 * DigitsValue(s[..|s| - 1]) + (s[|s| - 1] as int - '0' as int)
  }

  /** Reading back the decimal rendering of `n` gives `n`. */
  lemma {:induction false} NatToStringValue(n: nat)
    ensures DigitsValue(NatToString(n)) == n
    decreases n
  {
    if n >= 10 {
      NatToStringValue(n / 10);
      var s := NatToString(n);
      assert s[..|s| - 1] == NatToString(n / 10);
    }
  }

  /** `str(i)` for any integer. */
  function IntToString(i: int): (s: string)
    ensures |s| >= 1
  {
    if i < 0 then "-" + NatToString(-i) else NatToString(i)
  }

  /** Digits with single underscores between them, as `int()` accepts. */
  predicate DigitGroups(s: string)
    decreases |s|
  {
    && s != [] && IsDigit(s[0])
    && (|s| == 1
        || (s[1] == '_' && |s| > 2 && DigitGroups(s[2..]))
        || (s[1] != '_' && DigitGroups(s[1..])))
  }

  /** A plain run of digits is a single digit group. */
  lemma {:induction false} DigitGroupsOfDigits(s: string)
    requires s != [] && AllDigits(s)
    ensures DigitGroups(s)
    decreases |s|
  {
    if |s| > 1 {
      DigitGroupsOfDigits(s[1..]);
    }
  }

  /** The digits of `s`, underscores dropped. */
  function DropUnderscores(s: string): (r: string)
    ensures AllDigits(r)
    ensures AllDigits(s) ==> r == s
    decreases |s|
  {
    if s == [] then []
    else if IsDigit(s[0]) then [s[0]] + DropUnderscores(s[1..])
    else DropUnderscores(s[1..])
  }

  /**
   * `int(s)` for base 10: surrounding whitespace, an optional sign, and
   * digit groups separated by single underscores. Non-ASCII decimal digits,
   * which Python also accepts, are not part of the model.
   */
  function PyInt(s: string): (r: Option<int>)
  {
    var t := Strip(s);
    if t == [] then None
    else
      var neg := t[0] == '-';
      var body := if t[0] == '-' || t[0] == '+' then t[1..] else t;
      if !DigitGroups(body) then None
      else
        var v: int := DigitsValue(DropUnderscores(body));
        Some(if neg then -v else v)
  }

  /** `int(s)` of a plain run of digits is the value of those digits. */
  lemma PyIntOfDigits(s: string)
    requires s != [] && AllDigits(s)
    ensures PyInt(s) == Some(DigitsValue(s))
  {
    assert NoSpace(s) by {
      forall i | 0 <= i < |s| ensures !IsSpace(s[i]) {
        assert IsDigit(s[i]);
      }
    }
    StripNoSpace(s);
    assert IsDigit(s[0]);
    DigitGroupsOfDigits(s);
  }

  /** `int(str(n))` gives back `n`. */
  lemma PyIntOfNatToString(n: nat)
    ensures PyInt(NatToString(n)) == Some(n)
  {
    PyIntOfDigits(NatToString(n));
    NatToStringValue(n);
  }

}
