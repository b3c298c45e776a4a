/** Small result types shared by the parser, the patcher and the writer. */
module Basics {
  datatype Option<+T> = None | Some(value: T)

  datatype Result<+T, +E> = Ok(value: T) | Err(error: E)

  /** The outcome of an operation that only changes state: it succeeds or fails with an error. */
  datatype Outcome<+E> = Pass | Fail(error: E)
}

/**
 * The string operations the script relies on, written out with Python's
 * meaning: `str.isspace`, `str.splitlines(keepends=True)`, `str.strip`,
 * `str.split()` with no separator, `str.upper` (for the letters that matter),
 * `startswith`, the `in` substring test and `str(int)`.
 */
module Text {
  import opened Basics

  /** Python's `str.isspace` for a single character. */
  predicate IsSpace(c: char) {
    || c == '\t' || c == '\n' || c == '\U{b}' || c == '\U{c}' || c == '\r'
    || ('\U{1c}' <= c <= '\U{1f}') || c == ' ' || c == '\U{85}' || c == '\U{a0}'
    || c == '\U{1680}' || ('\U{2000}' <= c <= '\U{200a}')
    || c == '\U{2028}' || c == '\U{2029}' || c == '\U{202f}' || c == '\U{205f}'
    || c == '\U{3000}'
  }

  /** The characters at which `str.splitlines` ends a line. */
  predicate IsLineBreak(c: char) {
    || c == '\n' || c == '\r' || c == '\U{b}' || c == '\U{c}'
    || c == '\U{1c}' || c == '\U{1d}' || c == '\U{1e}' || c == '\U{85}'
    || c == '\U{2028}' || c == '\U{2029}'
  }

  lemma LineBreakIsSpace(c: char)
    ensures IsLineBreak(c) ==> IsSpace(c)
  {
  }

  /** Joins a sequence of strings with nothing between them (`"".join`). */
  function Concat(ls: seq<string>): string
  {
    if ls == [] then [] else ls[0] + Concat(ls[1..])
  }

  /** Joining commutes with splitting the list of pieces anywhere. */
  lemma {:induction false} ConcatAppend(a: seq<string>, b: seq<string>)
    ensures Concat(a + b) == Concat(a) + Concat(b)
  {
    if a == [] {
      assert a + b == b;
    } else {
      assert (a + b)[1..] == a[1..] + b;
      ConcatAppend(a[1..], b);
    }
  }

  /** Index of the first line-break character of `t`, or `|t|` when there is none. */
  function FirstBreak(t: string): (b: nat)
    ensures b <= |t|
    ensures b < |t| ==> IsLineBreak(t[b])
    ensures forall i :: 0 <= i < b ==> !IsLineBreak(t[i])
  {
    if t == [] then 0
    else if IsLineBreak(t[0]) then 0
    else 1 + FirstBreak(t[1..])
  }

  /** Length of the first line of `t`, its terminator included ("\r\n" counts as one). */
  function FirstLineLength(t: string): (e: nat)
    requires t != []
    ensures 0 < e <= |t|
  {
    var b := FirstBreak(t);
    if b == |t| then |t|
    else if t[b] == '\r' && b + 1 < |t| && t[b + 1] == '\n' then b + 2
    else b + 1
  }

  /**
   * One piece of `str.splitlines(keepends=True)`: it holds no line break
   * before its terminator, which is a single break character or "\r\n";
   * only the last piece may have no terminator.
   */
  predicate Piece(l: string, isLast: bool) {
    var b := FirstBreak(l);
    && l != []
    && (|| b == |l| - 1
        || (b == |l| - 2 && l[b] == '\r' && l[b + 1] == '\n')
        || (isLast && b == |l|))
  }

  /** Two neighbouring pieces do not split a "\r\n" pair between them. */
  predicate KeepsCrLf(a: string, b: string) {
    a != [] && b != [] ==> !(a[|a| - 1] == '\r' && b[0] == '\n')
  }

  /** Every piece is a line with its terminator, and no "\r\n" is split between two pieces. */
  predicate LinePieces(ls: seq<string>) {
    && (forall i :: 0 <= i < |ls| ==> Piece(ls[i], i == |ls| - 1))
    && (forall i :: 0 <= i < |ls| - 1 ==> KeepsCrLf(ls[i], ls[i + 1]))
  }

  /**
   * `str.splitlines(keepends=True)`: the text is cut after every line
   * break ("\r\n" counting as one), and joining the pieces gives it back.
   */
  function SplitLines(t: string): (ls: seq<string>)
    ensures Concat(ls) == t
    ensures LinePieces(ls)
    decreases |t|
  {
    if t == [] then []
    else
      var e := FirstLineLength(t);
      assert t[..e] + t[e..] == t;
      FirstBreakOfPrefix(t, e);
      var rest := SplitLines(t[e..]);
      var ls := [t[..e]] + rest;
      assert Piece(ls[0], 0 == |ls| - 1);
      assert forall i :: 1 <= i < |ls| ==> ls[i] == rest[i - 1];
      assert rest != [] ==> KeepsCrLf(ls[0], ls[1]);
      assert rest != [] ==> rest[0][0] == t[e];
      assert LinePieces(ls);
      ls
  }

  /** Cutting `t` at or after its first line break does not move that break. */
  lemma {:induction false} FirstBreakOfPrefix(t: string, e: nat)
    requires FirstBreak(t) <= e <= |t|
    ensures FirstBreak(t[..e]) == FirstBreak(t)
  {
    if t != [] && !IsLineBreak(t[0]) {
      assert t[..e][1..] == t[1..][..e - 1];
      FirstBreakOfPrefix(t[1..], e - 1);
    }
  }

  /** `str.lstrip()`: drops the leading white space. */
  function StripLeft(s: string): (r: string)
    ensures |r| <= |s|
    ensures r != [] ==> !IsSpace(r[0])
  {
    if s != [] && IsSpace(s[0]) then StripLeft(s[1..]) else s
  }

  /** `str.rstrip()`: drops the trailing white space. */
  function StripRight(s: string): (r: string)
    ensures |r| <= |s|
    ensures r != [] ==> !IsSpace(r[|r| - 1]) && r[0] == s[0]
  {
    if s != [] && IsSpace(s[|s| - 1]) then StripRight(s[..|s| - 1]) else s
  }

  /** `str.strip()`: the result neither starts nor ends with white space. */
  function Strip(s: string): (r: string)
    ensures r != [] ==> !IsSpace(r[0]) && !IsSpace(r[|r| - 1])
  {
    StripRight(StripLeft(s))
  }

  /** `str.lstrip()` removes a prefix of `s`, all of it white space. */
  lemma {:induction false} StripLeftRemoves(s: string)
    ensures var r := StripLeft(s);
            && r == s[|s| - |r|..]
            && forall i :: 0 <= i < |s| - |r| ==> IsSpace(s[i])
  {
    if s != [] && IsSpace(s[0]) {
      StripLeftRemoves(s[1..]);
    }
  }

  /** `str.rstrip()` removes a suffix of `s`, all of it white space. */
  lemma {:induction false} StripRightRemoves(s: string)
    ensures var r := StripRight(s);
            && r == s[..|r|]
            && forall i :: |r| <= i < |s| ==> IsSpace(s[i])
  {
    if s != [] && IsSpace(s[|s| - 1]) {
      StripRightRemoves(s[..|s| - 1]);
    }
  }

  /** `r` is `s` with the white space before position `lo` and after `lo + |r|` removed. */
  predicate TrimmedAt(s: string, r: string, lo: nat) {
    && lo + |r| <= |s| && r == s[lo..lo + |r|]
    && (forall i :: 0 <= i < lo ==> IsSpace(s[i]))
    && (forall i :: lo + |r| <= i < |s| ==> IsSpace(s[i]))
  }

  /** `str.strip()` removes white space from both ends of `s`, and nothing else. */
  lemma StripTrims(s: string)
    ensures exists lo :: TrimmedAt(s, Strip(s), lo)
  {
    var l := StripLeft(s);
    var lo := |s| - |l|;
    StripLeftRemoves(s);
    var r := StripRight(l);
    StripRightRemoves(l);
    assert Strip(s) == r;
    assert lo + |r| <= |s|;
    assert r == s[lo..lo + |r|] by {
      assert l == s[lo..];
      assert r == l[..|r|];
    }
    forall i | lo + |r| <= i < |s|
      ensures IsSpace(s[i])
    {
      assert s[i] == l[i - lo];
    }
    assert TrimmedAt(s, r, lo);
  }

  /** The longest prefix of `s` that holds no white space. */
  function WordAt(s: string): (w: string)
    ensures |w| <= |s| && w == s[..|w|]
    ensures forall i :: 0 <= i < |w| ==> !IsSpace(w[i])
    ensures |w| < |s| ==> IsSpace(s[|w|])
  {
    if s == [] || IsSpace(s[0]) then [] else [s[0]] + WordAt(s[1..])
  }

  /** A word as `str.split()` produces it: non-empty and free of white space. */
  predicate IsWord(w: string) {
    w != [] && forall i :: 0 <= i < |w| ==> !IsSpace(w[i])
  }

  /** `str.split()` with no separator: the maximal runs of non-space characters, in order. */
  function Words(s: string): (ws: seq<string>)
    ensures forall i :: 0 <= i < |ws| ==> IsWord(ws[i])
    ensures ws == [] <==> forall i :: 0 <= i < |s| ==> IsSpace(s[i])
    decreases |s|
  {
    if s == [] then []
    else if IsSpace(s[0]) then Words(s[1..])
    else
      var w := WordAt(s);
      assert s[0] == w[0];
      [w] + Words(s[|w|..])
  }

  /** White space in front of a text adds no words. */
  lemma {:induction false} WordsOfSpace(g: string, s: string)
    requires forall i :: 0 <= i < |g| ==> IsSpace(g[i])
    ensures Words(g + s) == Words(s)
  {
    if g == [] {
      assert g + s == s;
    } else {
      assert (g + s)[1..] == g[1..] + s;
      WordsOfSpace(g[1..], s);
    }
  }

  /** A word followed by the end or by white space is the next word `split()` yields. */
  lemma WordsOfWord(w: string, t: string)
    requires IsWord(w) && (t != [] ==> IsSpace(t[0]))
    ensures Words(w + t) == [w] + Words(t)
  {
    WordAtOf(w, t);
    assert (w + t)[0] == w[0];
    assert (w + t)[|w|..] == t;
  }

  /** Python's slice `ws[lo:hi]` for `0 <= lo <= hi`: clamped to the length. */
  function Slice<T>(ws: seq<T>, lo: nat, hi: nat): (r: seq<T>)
    requires lo <= hi
    ensures |r| <= hi - lo
    ensures lo <= |ws| ==> r == ws[lo..if hi <= |ws| then hi else |ws|]
    ensures lo > |ws| ==> r == []
  {
    if lo > |ws| then [] else ws[lo..if hi <= |ws| then hi else |ws|]
  }

  predicate StartsWith(s: string, p: string) {
    |p| <= |s| && s[..|p|] == p
  }

  lemma StartsWithConcat(p: string, q: string)
    ensures StartsWith(p + q, p)
  {
    assert (p + q)[..|p|] == p;
  }

  /** Python's `p in s` for strings. */
  predicate Contains(s: string, p: string)
    decreases |s|
  {
    StartsWith(s, p) || (s != [] && Contains(s[1..], p))
  }

  predicate OccursAt(s: string, p: string, i: nat) {
    i + |p| <= |s| && s[i..i + |p|] == p
  }

  /** The substring test holds exactly when `p` occurs at some position of `s`. */
  lemma {:induction false} ContainsAt(s: string, p: string)
    ensures Contains(s, p) <==> exists i :: OccursAt(s, p, i)
    decreases |s|
  {
    if StartsWith(s, p) {
      assert OccursAt(s, p, 0);
    }
    if s != [] {
      ContainsAt(s[1..], p);
      if Contains(s[1..], p) {
        var i: nat :| OccursAt(s[1..], p, i);
        assert s[1..][i..i + |p|] == s[i + 1..i + 1 + |p|];
        assert OccursAt(s, p, i + 1);
      }
      if exists i :: OccursAt(s, p, i) {
        var i: nat :| OccursAt(s, p, i);
        if i > 0 {
          assert s[1..][i - 1..i - 1 + |p|] == s[i..i + |p|];
          assert OccursAt(s[1..], p, i - 1);
        } else {
          assert s[..|p|] == s[0..0 + |p|];
        }
      }
    } else if exists i :: OccursAt(s, p, i) {
      var i: nat :| OccursAt(s, p, i);
      assert p == [] && s[..|p|] == p;
    }
  }

  /**
   * `str.upper` for one character. Only the characters whose upper case is
   * a single ASCII letter are mapped: a-z, dotless i and long s.
   */
  function UpperChar(c: char): (u: char)
    ensures 'a' <= c <= 'z' ==> u as int == c as int - 32
    ensures !('a' <= c <= 'z') && c != '\U{131}' && c != '\U{17f}' ==> u == c
  {
    if 'a' <= c <= 'z' then (c as int - 32) as char
    else if c == '\U{131}' then 'I'
    else if c == '\U{17f}' then 'S'
    else c
  }

  /** `str.upper`, character by character (see `UpperChar`). */
  function Upper(s: string): (u: string)
    ensures |u| == |s|
  {
    seq(|s|, i requires 0 <= i < |s| => UpperChar(s[i]))
  }

  function DigitChar(d: nat): (c: char)
    requires d < 10
    ensures '0' <= c <= '9'
  {
    ('0' as int + d) as char
  }

  predicate IsDigit(c: char) {
    '0' <= c <= '9'
  }

  function DigitValue(c: char): nat
    requires IsDigit(c)
  {
    c as int - '0' as int
  }

  /** The number a string of decimal digits denotes. */
  function DigitsValue(s: string): nat
    requires forall i :: 0 <= i < |s| ==> IsDigit(s[i])
  {
    if s == [] then 0
    else DigitsValue(s[..|s| - 1]) * 10 + DigitValue(s[|s| - 1])
  }

  /** The decimal digits of a natural number, most significant first. */
  function NatToString(n: nat): (s: string)
    ensures s != []
    ensures forall i :: 0 <= i < |s| ==> IsDigit(s[i])
    ensures DigitsValue(s) == n
    ensures s[0] == '0' ==> n == 0 && |s| == 1
  {
    if n < 10 then [DigitChar(n)]
    else
      var s := NatToString(n / 10) + [DigitChar(n % 10)];
      assert s[..|s| - 1] == NatToString(n / 10);
      assert s[0] == NatToString(n / 10)[0];
      s
  }

  /** `str(n)` for an integer: an optional minus sign followed by the digits of `|n|`. */
  function IntToString(n: int): (s: string)
    ensures s != [] && (s[0] == '-' <==> n < 0)
    ensures forall i :: 0 < i < |s| ==> IsDigit(s[i])
    ensures n >= 0 ==> IsDigit(s[0]) && DigitsValue(s) == n
    ensures n < 0 ==> |s| > 1 && DigitsValue(s[1..]) == -n
    ensures var d := if n < 0 then 1 else 0; s[d] == '0' ==> s == "0"
  {
    if n < 0 then "-" + NatToString(-n) else NatToString(n)
  }

  /** `sep.join(ws)`. */
  function Join(ws: seq<string>, sep: string): string
  {
    if ws == [] then ""
    else if |ws| == 1 then ws[0]
    else ws[0] + sep + Join(ws[1..], sep)
  }

  /** The word at the front of `w + t` is `w` when `w` is a word and `t` is empty or starts with white space. */
  lemma {:induction false} WordAtOf(w: string, t: string)
    requires forall i :: 0 <= i < |w| ==> !IsSpace(w[i])
    requires t != [] ==> IsSpace(t[0])
    ensures WordAt(w + t) == w
  {
    if w != [] {
      assert (w + t)[1..] == w[1..] + t;
      WordAtOf(w[1..], t);
    }
  }

  /** Splitting words joined by single spaces gives the words back. */
  lemma {:induction false} WordsOfJoin(ws: seq<string>)
    requires forall i :: 0 <= i < |ws| ==> IsWord(ws[i])
    ensures Words(Join(ws, " ")) == ws
  {
    if ws == [] {
    } else if |ws| == 1 {
      var w := ws[0];
      WordAtOf(w, []);
      assert w + [] == w;
      assert w[|w|..] == [];
    } else {
      var w, rest := ws[0], Join(ws[1..], " ");
      var s := w + " " + rest;
      assert s == w + (" " + rest);
      WordAtOf(w, " " + rest);
      assert s[0] == w[0];
      assert s[|w|..] == " " + rest;
      assert (" " + rest)[1..] == rest;
      WordsOfJoin(ws[1..]);
    }
  }

  /** Words joined by single spaces form a line with no white space at either end. */
  lemma {:induction false} JoinEnds(ws: seq<string>)
    requires ws != [] && forall i :: 0 <= i < |ws| ==> IsWord(ws[i])
    ensures var s := Join(ws, " "); s != [] && !IsSpace(s[0]) && !IsSpace(s[|s| - 1])
    ensures forall i :: 0 <= i < |Join(ws, " ")| ==> !IsLineBreak(Join(ws, " ")[i])
  {
    if |ws| > 1 {
      JoinEnds(ws[1..]);
      var w, rest := ws[0], Join(ws[1..], " ");
      assert Join(ws, " ") == w + " " + rest;
      forall i | 0 <= i < |Join(ws, " ")|
        ensures !IsLineBreak(Join(ws, " ")[i])
      {
        if i < |w| {
          LineBreakIsSpace(w[i]);
        } else if i > |w| {
          assert Join(ws, " ")[i] == rest[i - |w| - 1];
        }
      }
    } else {
      forall i | 0 <= i < |ws[0]|
        ensures !IsLineBreak(ws[0][i])
      {
        LineBreakIsSpace(ws[0][i]);
      }
    }
  }

  /** Stripping a line `body + "\n"` whose body has no white space at either end gives the body. */
  lemma StripLine(body: string)
    requires body != [] && !IsSpace(body[0]) && !IsSpace(body[|body| - 1])
    ensures Strip(body + "\n") == body
  {
    var s := body + "\n";
    assert StripLeft(s) == s;
    assert s[..|s| - 1] == body;
    assert StripRight(s) == StripRight(body);
  }

  /** `splitlines(keepends=True)` gives back lines that each end in "\n" and hold no other line break. */
  lemma {:induction false} SplitLinesOfLines(ls: seq<string>)
    requires forall i :: 0 <= i < |ls| ==> EndsLine(ls[i])
    ensures SplitLines(Concat(ls)) == ls
  {
    if ls != [] {
      var l, rest := ls[0], Concat(ls[1..]);
      var t := l + rest;
      assert Concat(ls) == t;
      var b := |l| - 1;
      FirstBreakAt(l, rest);
      assert t[b] == '\n';
      assert FirstLineLength(t) == b + 1;
      assert t[..b + 1] == l && t[b + 1..] == rest;
      SplitLinesOfLines(ls[1..]);
    }
  }

  /** `l` ends in "\n" and holds no line break before it. */
  predicate EndsLine(l: string) {
    && l != [] && l[|l| - 1] == '\n'
    && forall i :: 0 <= i < |l| - 1 ==> !IsLineBreak(l[i])
  }

  lemma {:induction false} FirstBreakAt(l: string, rest: string)
    requires EndsLine(l)
    ensures FirstBreak(l + rest) == |l| - 1
  {
    if |l| > 1 {
      assert (l + rest)[1..] == l[1..] + rest;
      FirstBreakAt(l[1..], rest);
    }
  }
}
