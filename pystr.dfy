/**
  The parts of Python's `str` behaviour that the modelled code relies on:
  `isspace`, `strip`, `split()`, `" ".join`, `startswith`, `in`, `replace`,
  `lower` (ASCII letters only), `splitlines`, `str(int)` and `f"{n:02}"`.
*/
module PyStr {

  import Outcomes

  // ---------------------------------------------------------------------
  // Character classes
  // ---------------------------------------------------------------------

  /** `c.isspace()` in Python 3: the Unicode whitespace characters. */
  predicate IsSpace(c: char) {
    c == ' ' || ('\t' <= c <= '\r') || ('\U{1c}' <= c <= '\U{1f}')
    || c == '\U{85}' || c == '\U{a0}' || c == '\U{1680}'
    || ('\U{2000}' <= c <= '\U{200a}') || c == '\U{2028}' || c == '\U{2029}'
    || c == '\U{202f}' || c == '\U{205f}' || c == '\U{3000}'
  }

  /** The characters at which `str.splitlines()` ends a line. */
  predicate IsLineBreak(c: char) {
    ('\n' <= c <= '\r') || ('\U{1c}' <= c <= '\U{1e}')
    || c == '\U{85}' || c == '\U{2028}' || c == '\U{2029}'
  }

  lemma LineBreakIsSpace(c: char)
    requires IsLineBreak(c)
    ensures IsSpace(c)
  {
  }

  predicate NoLineBreak(s: string) {
    forall i :: 0 <= i < |s| ==> !IsLineBreak(s[i])
  }

  lemma ConcatAssoc<T>(a: seq<T>, b: seq<T>, c: seq<T>)
    ensures (a + b) + c == a + (b + c)
  {
  }

  lemma NoLineBreakConcat(a: string, b: string)
    requires NoLineBreak(a) && NoLineBreak(b)
    ensures NoLineBreak(a + b)
  {
  }

  predicate IsDigit(c: char) {
    '0' <= c <= '9'
  }

  predicate AllDigits(s: string) {
    forall i :: 0 <= i < |s| ==> IsDigit(s[i])
  }

  // ---------------------------------------------------------------------
  // Substrings
  // ---------------------------------------------------------------------

  /** `sub` occurs in `s` starting at index `i`. */
  predicate MatchAt(s: string, sub: string, i: nat) {
    i + |sub| <= |s| && s[i..i + |sub|] == sub
  }

  /** Python's `sub in s`. */
  predicate Contains(s: string, sub: string) {
    exists i: nat | i <= |s| :: MatchAt(s, sub, i)
  }

  /** Python's `s.startswith(p)`. */
  predicate StartsWith(s: string, p: string) {
    |p| <= |s| && s[..|p|] == p
  }

  predicate EndsWith(s: string, p: string) {
    |p| <= |s| && s[|s| - |p|..] == p
  }

  lemma ContainsWitness(s: string, sub: string, i: nat)
    requires MatchAt(s, sub, i)
    ensures Contains(s, sub)
  {
  }

  /** A substring of a prefix or of a suffix is a substring of the whole. */
  lemma ContainsInConcat(a: string, b: string, sub: string)
    ensures Contains(a, sub) ==> Contains(a + b, sub)
    ensures Contains(b, sub) ==> Contains(a + b, sub)
  {
    if Contains(a, sub) {
      var i: nat :| i <= |a| && MatchAt(a, sub, i);
      assert (a + b)[i..i + |sub|] == a[i..i + |sub|];
      assert MatchAt(a + b, sub, i);
    }
    if Contains(b, sub) {
      var i: nat :| i <= |b| && MatchAt(b, sub, i);
      assert (a + b)[|a| + i..|a| + i + |sub|] == b[i..i + |sub|];
      assert MatchAt(a + b, sub, |a| + i);
    }
  }

  // ---------------------------------------------------------------------
  // strip
  // ---------------------------------------------------------------------

  /** `s.lstrip()`. */
  function LStrip(s: string): (r: string)
    ensures |r| <= |s| && r == s[|s| - |r|..]
    ensures r == [] || !IsSpace(r[0])
    ensures forall i :: 0 <= i < |s| - |r| ==> IsSpace(s[i])
  {
    if s != [] && IsSpace(s[0]) then LStrip(s[1..]) else s
  }

  /** `s.rstrip()`. */
  function RStrip(s: string): (r: string)
    ensures |r| <= |s| && r == s[..|r|]
    ensures r == [] || !IsSpace(r[|r| - 1])
    ensures forall i :: |r| <= i < |s| ==> IsSpace(s[i])
  {
    if s != [] && IsSpace(s[|s| - 1]) then RStrip(s[..|s| - 1]) else s
  }

  /** `s.strip()`: a slice of `s` with no whitespace at either end, empty
      exactly when `s` is all whitespace. */
  function Strip(s: string): (r: string)
    ensures exists i: nat :: MatchAt(s, r, i)
    ensures r == [] || (!IsSpace(r[0]) && !IsSpace(r[|r| - 1]))
    ensures r == [] <==> forall i :: 0 <= i < |s| ==> IsSpace(s[i])
    ensures forall c :: c in r ==> c in s
  {
    StripSlice(s);
    RStrip(LStrip(s))
  }

  lemma StripSlice(s: string)
    ensures MatchAt(s, RStrip(LStrip(s)), |s| - |LStrip(s)|)
    ensures RStrip(LStrip(s)) == [] <==> forall i :: 0 <= i < |s| ==> IsSpace(s[i])
    ensures forall c :: c in RStrip(LStrip(s)) ==> c in s
  {
    StripMatch(s, LStrip(s), RStrip(LStrip(s)));
    StripEmpty(s, LStrip(s), RStrip(LStrip(s)));
    MatchChars(s, RStrip(LStrip(s)), |s| - |LStrip(s)|);
  }

  lemma StripMatch(s: string, l: string, r: string)
    requires l == LStrip(s) && r == RStrip(l)
    ensures MatchAt(s, r, |s| - |l|)
  {
    PrefixOfSuffix(s, |s| - |l|, l, r);
  }

  /** A prefix of a suffix of `s` occurs in `s` where the suffix starts. */
  lemma PrefixOfSuffix(s: string, k: nat, l: string, r: string)
    requires k <= |s| && l == s[k..] && |r| <= |l| && r == l[..|r|]
    ensures MatchAt(s, r, k)
  {
    assert s[k..][..|r|] == s[k..k + |r|];
  }

  /** The characters of a substring are characters of the string. */
  lemma MatchChars(s: string, sub: string, k: nat)
    requires MatchAt(s, sub, k)
    ensures forall c :: c in sub ==> c in s
  {
    forall c | c in sub ensures c in s {
      var j :| 0 <= j < |sub| && sub[j] == c;
      assert s[k + j] == c;
    }
  }

  lemma StripEmpty(s: string, l: string, r: string)
    requires l == LStrip(s) && r == RStrip(l)
    ensures r == [] <==> forall i :: 0 <= i < |s| ==> IsSpace(s[i])
  {
    var k := |s| - |l|;
    if r == [] {
      forall i | 0 <= i < |s| ensures IsSpace(s[i]) {
        if i >= k {
          assert s[i] == l[i - k];
        }
      }
    } else {
      assert l != [] && !IsSpace(l[0]);
      assert s[k] == l[0];
    }
  }

  predicate IsStripped(s: string) {
    s == [] || (!IsSpace(s[0]) && !IsSpace(s[|s| - 1]))
  }

  lemma StripIsStripped(s: string)
    ensures IsStripped(Strip(s))
  {
  }

  lemma StripOfStripped(s: string)
    requires IsStripped(s)
    ensures Strip(s) == s
  {
  }

  lemma StripIdempotent(s: string)
    ensures Strip(Strip(s)) == Strip(s)
  {
    StripOfStripped(Strip(s));
  }

  /** Leading and trailing whitespace around a stripped text does not survive `strip`. */
  lemma {:induction false} StripPadded(pre: string, body: string, post: string)
    requires forall i :: 0 <= i < |pre| ==> IsSpace(pre[i])
    requires forall i :: 0 <= i < |post| ==> IsSpace(post[i])
    requires IsStripped(body)
    ensures Strip(pre + body + post) == body
  {
    var bp := body + post;
    var whole := pre + body + post;
    assert whole == pre + bp;
    LStripPadded(pre, bp);
    var l := LStrip(whole);
    assert l == LStrip(bp);
    if body == [] {
      assert bp == post;
      LStripAllSpace(post);
      assert RStrip(l) == [];
    } else {
      assert bp[0] == body[0];
      assert l == bp;
      RStripPadded(body, post);
      assert RStrip(l) == body;
    }
    assert Strip(whole) == RStrip(l);
  }

  lemma {:induction false} LStripPadded(pre: string, rest: string)
    requires forall i :: 0 <= i < |pre| ==> IsSpace(pre[i])
    ensures LStrip(pre + rest) == LStrip(rest)
  {
    if pre != [] {
      assert (pre + rest)[0] == pre[0];
      assert (pre + rest)[1..] == pre[1..] + rest;
      assert LStrip(pre + rest) == LStrip((pre + rest)[1..]);
      LStripPadded(pre[1..], rest);
    } else {
      assert pre + rest == rest;
    }
  }

  lemma LStripAllSpace(s: string)
    requires forall i :: 0 <= i < |s| ==> IsSpace(s[i])
    ensures LStrip(s) == [] && RStrip(LStrip(s)) == []
  {
  }

  lemma {:induction false} RStripPadded(body: string, post: string)
    requires forall i :: 0 <= i < |post| ==> IsSpace(post[i])
    requires body == [] || !IsSpace(body[|body| - 1])
    ensures RStrip(body + post) == body
  {
    if post != [] {
      assert (body + post)[..|body + post| - 1] == body + post[..|post| - 1];
      RStripPadded(body, post[..|post| - 1]);
    } else {
      assert body + post == body;
    }
  }

  // ---------------------------------------------------------------------
  // split() and join
  // ---------------------------------------------------------------------

  /** A piece produced by `str.split()`: non-empty, no whitespace. */
  predicate IsWord(w: string) {
    w != [] && forall i :: 0 <= i < |w| ==> !IsSpace(w[i])
  }

  function WordEnd(s: string): (n: nat)
    ensures n <= |s|
    ensures forall i :: 0 <= i < n ==> !IsSpace(s[i])
    ensures n == |s| || IsSpace(s[n])
  {
    if s == [] || IsSpace(s[0]) then 0 else 1 + WordEnd(s[1..])
  }

  /** `s.split()` with no separator: the maximal runs of non-whitespace. */
  function Words(s: string): (ws: seq<string>)
    ensures forall k :: 0 <= k < |ws| ==> IsWord(ws[k])
    decreases |s|
  {
    if s == [] then []
    else if IsSpace(s[0]) then Words(s[1..])
    else
      var n := WordEnd(s);
      [s[..n]] + Words(s[n..])
  }

  /** `sep.join(parts)`. */
  function Join(sep: string, parts: seq<string>): string {
    if |parts| == 0 then ""
    else if |parts| == 1 then parts[0]
    else parts[0] + sep + Join(sep, parts[1..])
  }

  lemma {:induction false} WordsAfterWord(w: string, t: string)
    requires IsWord(w)
    requires t == [] || IsSpace(t[0])
    ensures Words(w + t) == [w] + Words(t)
  {
    var s := w + t;
    WordEndOf(w, t);
    assert s[..|w|] == w && s[|w|..] == t;
  }

  lemma {:induction false} WordEndOf(w: string, t: string)
    requires forall i :: 0 <= i < |w| ==> !IsSpace(w[i])
    requires t == [] || IsSpace(t[0])
    ensures WordEnd(w + t) == |w|
  {
    if w != [] {
      assert (w + t)[1..] == w[1..] + t;
      WordEndOf(w[1..], t);
    } else {
      assert w + t == t;
    }
  }

  /** `" ".join(ws).split() == ws` for pieces that `split()` could have produced. */
  lemma {:induction false} WordsOfJoin(ws: seq<string>)
    requires forall k :: 0 <= k < |ws| ==> IsWord(ws[k])
    ensures Words(Join(" ", ws)) == ws
  {
    if |ws| == 0 {
    } else if |ws| == 1 {
      WordsAfterWord(ws[0], "");
      assert ws[0] + "" == ws[0];
    } else {
      var rest := Join(" ", ws[1..]);
      assert Join(" ", ws) == ws[0] + (" " + rest);
      WordsAfterWord(ws[0], " " + rest);
      assert (" " + rest)[1..] == rest;
      WordsOfJoin(ws[1..]);
      assert ws == [ws[0]] + ws[1..];
    }
  }

  /** Appending to the last piece is the same as appending to the joined text. */
  lemma {:induction false} JoinAppendLast(sep: string, ws: seq<string>, tail: string)
    requires |ws| > 0
    ensures Join(sep, ws) + tail == Join(sep, ws[..|ws| - 1] + [ws[|ws| - 1] + tail])
  {
    if |ws| == 1 {
      assert ws[..0] + [ws[0] + tail] == [ws[0] + tail];
    } else {
      var ws' := ws[..|ws| - 1] + [ws[|ws| - 1] + tail];
      assert ws'[0] == ws[0];
      assert ws'[1..] == ws[1..][..|ws[1..]| - 1] + [ws[1..][|ws[1..]| - 1] + tail];
      JoinAppendLast(sep, ws[1..], tail);
    }
  }

  /** A join of pieces without line breaks, joined by a break-free separator, has none. */
  lemma {:induction false} JoinNoLineBreak(sep: string, parts: seq<string>)
    requires NoLineBreak(sep)
    requires forall k :: 0 <= k < |parts| ==> NoLineBreak(parts[k])
    ensures NoLineBreak(Join(sep, parts))
  {
    if |parts| > 1 {
      JoinNoLineBreak(sep, parts[1..]);
    }
  }

  // ---------------------------------------------------------------------
  // replace
  // ---------------------------------------------------------------------

  /** `s.replace(pat, rep)`: every non-overlapping occurrence, left to right. */
  function Replace(s: string, pat: string, rep: string): string
    requires |pat| > 0
    decreases |s|
  {
    if |s| < |pat| then s
    else if s[..|pat|] == pat then rep + Replace(s[|pat|..], pat, rep)
    else [s[0]] + Replace(s[1..], pat, rep)
  }

  /** When `pat` does not occur, `replace` changes nothing. */
  lemma {:induction false} ReplaceAbsent(s: string, pat: string, rep: string)
    requires |pat| > 0
    requires !Contains(s, pat)
    ensures Replace(s, pat, rep) == s
  {
    if |s| >= |pat| {
      assert !MatchAt(s, pat, 0);
      if Contains(s[1..], pat) {
        var i: nat :| i <= |s[1..]| && MatchAt(s[1..], pat, i);
        assert s[1 + i..1 + i + |pat|] == s[1..][i..i + |pat|];
        assert MatchAt(s, pat, 1 + i);
      }
      ReplaceAbsent(s[1..], pat, rep);
      assert s == [s[0]] + s[1..];
    }
  }

  /** When the only occurrence of `pat` is the final one, only it is replaced. */
  lemma {:induction false} ReplaceLast(p: string, pat: string, rep: string)
    requires |pat| > 0
    requires forall i: nat :: i < |p| ==> !MatchAt(p + pat, pat, i)
    ensures Replace(p + pat, pat, rep) == p + rep
  {
    var s := p + pat;
    if p == [] {
      assert s == pat && s[..|pat|] == pat && s[|pat|..] == [];
    } else {
      assert !MatchAt(s, pat, 0);
      assert s[..|pat|] != pat;
      assert s[1..] == p[1..] + pat;
      forall i: nat | i < |p[1..]| ensures !MatchAt(p[1..] + pat, pat, i) {
        assert (p[1..] + pat)[i..i + |pat|] == s[1 + i..1 + i + |pat|];
        assert !MatchAt(s, pat, 1 + i);
      }
      ReplaceLast(p[1..], pat, rep);
      assert [s[0]] + (p[1..] + rep) == p + rep;
    }
  }

  /** A replacement by a non-empty text is empty exactly when the input is. */
  lemma ReplaceEmpty(s: string, pat: string, rep: string)
    requires |pat| > 0 && |rep| > 0
    ensures Replace(s, pat, rep) == [] <==> s == []
  {
  }

  /** Replacing a pattern that occurs by a text that starts differently
      changes the string. */
  lemma {:induction false} ReplaceChanges(s: string, pat: string, rep: string)
    requires |pat| >= 2 && |rep| >= 2 && rep[..2] != pat[..2]
    requires Contains(s, pat)
    ensures Replace(s, pat, rep) != s
    decreases |s|
  {
    var i: nat :| i <= |s| && MatchAt(s, pat, i);
    if MatchAt(s, pat, 0) {
      var r := Replace(s, pat, rep);
      assert r == rep + Replace(s[|pat|..], pat, rep);
      assert r[..2] == rep[..2];
      assert s[..2] == pat[..2];
    } else {
      assert s[1..][i - 1..i - 1 + |pat|] == s[i..i + |pat|];
      assert MatchAt(s[1..], pat, i - 1);
      ReplaceChanges(s[1..], pat, rep);
    }
  }

  // ---------------------------------------------------------------------
  // lower
  // ---------------------------------------------------------------------

  function LowerChar(c: char): char {
    if 'A' <= c <= 'Z' then (c as int + 32) as char else c
  }

  /** `s.lower()` restricted to the ASCII letters. */
  function Lower(s: string): (r: string)
    ensures |r| == |s|
    ensures forall i :: 0 <= i < |s| ==> r[i] == LowerChar(s[i])
  {
    if s == [] then [] else [LowerChar(s[0])] + Lower(s[1..])
  }

  /** Lower-casing commutes with concatenation: the keyword tests can split a text. */
  lemma LowerConcat(a: string, b: string)
    ensures Lower(a + b) == Lower(a) + Lower(b)
  {
  }

  // ---------------------------------------------------------------------
  // counting
  // ---------------------------------------------------------------------

  function Count(s: string, c: char): nat {
    if s == [] then 0 else (if s[0] == c then 1 else 0) + Count(s[1..], c)
  }

  lemma {:induction false} CountConcat(a: string, b: string, c: char)
    ensures Count(a + b, c) == Count(a, c) + Count(b, c)
  {
    if a != [] {
      assert (a + b)[1..] == a[1..] + b;
      CountConcat(a[1..], b, c);
    } else {
      assert a + b == b;
    }
  }

  lemma {:induction false} CountAbsent(s: string, c: char)
    requires c !in s
    ensures Count(s, c) == 0
  {
    if s != [] {
      CountAbsent(s[1..], c);
    }
  }

  // ---------------------------------------------------------------------
  // splitlines
  // ---------------------------------------------------------------------

  function LineEnd(s: string): (n: nat)
    ensures n <= |s|
    ensures forall i :: 0 <= i < n ==> !IsLineBreak(s[i])
    ensures n == |s| || IsLineBreak(s[n])
  {
    if s == [] || IsLineBreak(s[0]) then 0 else 1 + LineEnd(s[1..])
  }

  /** `s.splitlines()`: "\r\n" is one boundary and a final boundary opens no empty line. */
  function SplitLines(s: string): (lines: seq<string>)
    ensures forall k :: 0 <= k < |lines| ==> NoLineBreak(lines[k])
    decreases |s|
  {
    if s == [] then []
    else
      var n := LineEnd(s);
      if n == |s| then [s]
      else
        var next := if s[n] == '\r' && n + 1 < |s| && s[n + 1] == '\n' then n + 2 else n + 1;
        [s[..n]] + SplitLines(s[next..])
  }

  lemma {:induction false} LineEndOf(l: string, rest: string)
    requires NoLineBreak(l)
    ensures LineEnd(l + "\n" + rest) == |l|
  {
    if l != [] {
      assert (l + "\n" + rest)[1..] == l[1..] + "\n" + rest;
      LineEndOf(l[1..], rest);
    }
  }

  /** A line without breaks followed by "\n" is the first element of `splitlines`. */
  /** A non-empty line without breaks splits into itself. */
  lemma SplitLinesOfLine(l: string)
    requires l != "" && NoLineBreak(l)
    ensures SplitLines(l) == [l]
  {
    assert LineEnd(l) == |l|;
  }

  lemma SplitLinesCons(l: string, rest: string)
    requires NoLineBreak(l)
    ensures SplitLines(l + "\n" + rest) == [l] + SplitLines(rest)
  {
    var s := l + "\n" + rest;
    LineEndOf(l, rest);
    assert s[..|l|] == l;
    assert s[|l| + 1..] == rest;
  }

  /** Lines without breaks, the last one not empty, joined by "\n" split back into themselves. */
  lemma {:induction false} SplitLinesOfJoin(ls: seq<string>)
    requires forall k :: 0 <= k < |ls| ==> NoLineBreak(ls[k])
    requires ls != [] ==> ls[|ls| - 1] != ""
    ensures SplitLines(Join("\n", ls)) == ls
  {
    if |ls| == 1 {
      SplitLinesOfLine(ls[0]);
    } else if |ls| > 1 {
      SplitLinesOfJoin(ls[1..]);
      SplitLinesCons(ls[0], Join("\n", ls[1..]));
    }
  }

  // ---------------------------------------------------------------------
  // integers as text
  // ---------------------------------------------------------------------

  function DigitChar(d: nat): char
    requires d < 10
  {
    ('0' as int + d) as char
  }

  /** `str(n)` for a non-negative int. */
  function NatToString(n: nat): (s: string)
    ensures |s| >= 1 && forall i :: 0 <= i < |s| ==> IsDigit(s[i])
    ensures s[0] == '0' ==> n == 0
  {
    if n < 10 then [DigitChar(n)] else NatToString(n / 10) + [DigitChar(n % 10)]
  }

  /** The value of a string of decimal digits. */
  function ParseDigits(s: string): nat
    requires forall i :: 0 <= i < |s| ==> IsDigit(s[i])
  {
    if s == [] then 0
    else
      assert IsDigit(s[|s| - 1]);
      ParseDigits(s[..|s| - 1]) * 10 + (s[|s| - 1] as int - '0' as int)
  }

  /** Printing a number and reading it back gives the number. */
  lemma {:induction false} ParseNatToString(n: nat)
    ensures ParseDigits(NatToString(n)) == n
  {
    if n >= 10 {
      var s := NatToString(n);
      assert s[..|s| - 1] == NatToString(n / 10);
      ParseNatToString(n / 10);
    }
  }

  lemma NatToStringInjective(a: nat, b: nat)
    requires NatToString(a) == NatToString(b)
    ensures a == b
  {
    ParseNatToString(a);
    ParseNatToString(b);
  }

  /** `str(i)` for any int. */
  function IntToString(i: int): string {
    if i < 0 then "-" + NatToString(-i) else NatToString(i)
  }

  /** `f"{n:02}"` for a non-negative int. */
  function Pad2(n: nat): (s: string)
    ensures forall i :: 0 <= i < |s| ==> IsDigit(s[i])
    ensures n < 100 ==> |s| == 2
  {
    if n < 10 then "0" + NatToString(n)
    else
      assert n < 100 ==> |NatToString(n / 10)| == 1;
      NatToString(n)
  }

  /** Two padded digits read back as the number. */
  lemma Pad2Parse(n: nat)
    requires n < 100
    ensures ParseDigits(Pad2(n)) == n
  {
    ParseNatToString(n);
    if n < 10 {
      assert Pad2(n)[..1] == "0";
    }
  }

  /** Python's `int(text)` on an already stripped text: optional sign, ASCII digits. */
  function ParseInt(s: string): Outcomes.Option<int> {
    if s == [] then Outcomes.None
    else
      var neg := s[0] == '-';
      var body := if s[0] == '-' || s[0] == '+' then s[1..] else s;
      if body != [] && AllDigits(body) then
        var v: int := ParseDigits(body);
        Outcomes.Some(if neg then -v else v)
      else Outcomes.None
  }

  /** A character after the first that is not a digit makes `int()` fail. */
  lemma ParseIntRejects(s: string, i: nat)
    requires 0 < i < |s| && !IsDigit(s[i])
    ensures ParseInt(s) == Outcomes.None
  {
    if s[0] == '-' || s[0] == '+' {
      assert s[1..][i - 1] == s[i];
    }
  }

  lemma ParseIntOfNat(n: nat)
    ensures ParseInt(NatToString(n)) == Outcomes.Some(n)
  {
    ParseNatToString(n);
  }

  /** `int(str(i)) == i`. */
  lemma ParseIntOfInt(i: int)
    ensures ParseInt(IntToString(i)) == Outcomes.Some(i)
  {
    if i < 0 {
      var s := IntToString(i);
      assert s[1..] == NatToString(-i);
      ParseNatToString(-i);
    } else {
      ParseIntOfNat(i);
    }
  }
}
