/**
 * The parts of Python's `str` that the engine relies on, over `seq<char>`:
 * whitespace, `strip`, `split`, `join`, `find`/`rfind`, `in`, `count`,
 * `replace`, slicing from the end, case mapping and `str(int)`.
 */
module Text {

  /** Python's `str.isspace` for one character: what `split()` and `strip()` treat as whitespace. */
  predicate IsSpace(c: char) {
    c == ' ' || ('\t' <= c <= '\r') || ('\U{1c}' <= c <= '\U{1f}') || c == '\U{85}' || c == '\U{a0}'
    || c == '\U{1680}' || ('\U{2000}' <= c <= '\U{200a}') || c == '\U{2028}' || c == '\U{2029}'
    || c == '\U{202f}' || c == '\U{205f}' || c == '\U{3000}'
  }

  /** Every character is whitespace (`s.strip() == ""`). */
  predicate IsBlank(s: string) {
    forall i :: 0 <= i < |s| ==> IsSpace(s[i])
  }

  /** No character is whitespace. */
  predicate NoSpace(s: string) {
    forall i :: 0 <= i < |s| ==> !IsSpace(s[i])
  }

  // ---------------------------------------------------------------- strip

  function TrimStart(s: string): (r: string)
    ensures |r| <= |s| && r == s[|s| - |r|..]
    ensures r == [] || !IsSpace(r[0])
    ensures IsBlank(s[..|s| - |r|])
    decreases |s|
  {
    if |s| > 0 && IsSpace(s[0]) then
      var r := TrimStart(s[1..]);
      assert s[..|s| - |r|] == [s[0]] + s[1..][..|s| - 1 - |r|];
      r
    else s
  }

  function TrimEnd(s: string): (r: string)
    ensures |r| <= |s| && r == s[..|r|]
    ensures r == [] || !IsSpace(r[|r| - 1])
    ensures IsBlank(s[|r|..])
    decreases |s|
  {
    if |s| > 0 && IsSpace(s[|s| - 1]) then
      var r := TrimEnd(s[..|s| - 1]);
      assert s[|r|..] == s[..|s| - 1][|r|..] + [s[|s| - 1]];
      r
    else s
  }

  /** A blank prefix holds only whitespace. */
  lemma BlankPrefixSpace(s: string, m: nat, j: nat)
    requires m <= |s| && IsBlank(s[..m]) && j < |s|
    ensures j < m ==> IsSpace(s[j])
  {
    if j < m {
      assert s[..m][j] == s[j];
    }
  }

  /** A blank suffix holds only whitespace. */
  lemma BlankSuffixSpace(s: string, m: nat, j: nat)
    requires m <= |s| && IsBlank(s[m..]) && j < |s|
    ensures m <= j ==> IsSpace(s[j])
  {
    if m <= j {
      assert s[m..][j - m] == s[j];
    }
  }

  /** Python's `str.strip()`: the result neither starts nor ends with whitespace, and is empty exactly for blank input. */
  function Strip(s: string): (r: string)
    ensures |r| <= |s|
    ensures r == [] || (!IsSpace(r[0]) && !IsSpace(r[|r| - 1]))
    ensures r == [] <==> IsBlank(s)
  {
    var t := TrimStart(s);
    var r := TrimEnd(t);
    assert r == [] ==> IsBlank(s) by {
      if r == [] {
        assert t == t[|r|..];
        assert s == s[..|s| - |t|] + t;
      }
    }
    r
  }

  /** Leading whitespace before a word is what `lstrip` removes. */
  lemma {:induction false} TrimStartBlank(ws: string, t: string)
    requires IsBlank(ws) && (t == [] || !IsSpace(t[0]))
    ensures TrimStart(ws + t) == t
    decreases |ws|
  {
    if ws == [] {
      assert ws + t == t;
    } else {
      assert (ws + t)[1..] == ws[1..] + t;
      TrimStartBlank(ws[1..], t);
    }
  }

  /** Trailing whitespace after a word is what `rstrip` removes. */
  lemma {:induction false} TrimEndBlank(t: string, ws: string)
    requires IsBlank(ws) && (t == [] || !IsSpace(t[|t| - 1]))
    ensures TrimEnd(t + ws) == t
    decreases |ws|
  {
    if ws == [] {
      assert t + ws == t;
    } else {
      assert (t + ws)[..|t + ws| - 1] == t + ws[..|ws| - 1];
      TrimEndBlank(t, ws[..|ws| - 1]);
    }
  }

  /** After `k` blanks and a non-space, `lstrip` leaves the text from position `k`. */
  lemma TrimStartAt(t: string, k: nat)
    requires k < |t| && IsBlank(t[..k]) && !IsSpace(t[k])
    ensures TrimStart(t) == t[k..]
  {
    TrimStartBlank(t[..k], t[k..]);
    assert t[..k] + t[k..] == t;
  }

  /** `rstrip` keeps everything up to a non-space character. */
  lemma TrimEndKeeps(u: string, n: nat)
    requires 0 < n <= |u| && !IsSpace(u[n - 1])
    ensures n <= |TrimEnd(u)| && TrimEnd(u)[..n] == u[..n]
  {
    var v := TrimEnd(u);
    BlankSuffixSpace(u, |v|, n - 1);
    assert v[..n] == u[..|v|][..n];
  }

  /** Text made of blanks and then `p`, which neither starts nor ends with a space, strips to text that starts with `p`. */
  lemma StripStartsWith(t: string, k: nat, p: string)
    requires p != [] && !IsSpace(p[0]) && !IsSpace(p[|p| - 1])
    requires k + |p| <= |t| && IsBlank(t[..k]) && t[k..k + |p|] == p
    ensures StartsWith(Strip(t), p)
  {
    assert t[k] == p[0];
    TrimStartAt(t, k);
    var u := t[k..];
    assert u[|p| - 1] == p[|p| - 1];
    TrimEndKeeps(u, |p|);
    var v := TrimEnd(u);
    assert Strip(t) == v;
    assert u[..|p|] == p;
  }

  /** Text that starts and ends with a non-space is its own `strip()`. */
  lemma StripNoop(s: string)
    requires s != [] && !IsSpace(s[0]) && !IsSpace(s[|s| - 1])
    ensures Strip(s) == s
  {
  }

  /** `s.strip()` is a slice of `s`: what is left after the leading whitespace, up to the trailing whitespace. */
  lemma StripIsSlice(s: string, k: nat, r: string)
    requires k == |s| - |TrimStart(s)| && r == Strip(s)
    ensures k + |r| <= |s| && r == s[k..k + |r|]
  {
    var t := TrimStart(s);
    StripParts(s, t, r);
    SliceOfSlice(s, t, r, k);
  }

  /** `strip()` is `rstrip` after `lstrip`, and each keeps a slice. */
  lemma StripParts(s: string, t: string, r: string)
    requires t == TrimStart(s) && r == Strip(s)
    ensures |t| <= |s| && t == s[|s| - |t|..] && |r| <= |t| && r == t[..|r|]
  {
    assert r == TrimEnd(t);
  }

  /** A prefix of a suffix is a slice. */
  lemma SliceOfSlice(s: string, t: string, r: string, k: nat)
    requires |t| <= |s| && k == |s| - |t| && t == s[k..] && |r| <= |t| && r == t[..|r|]
    ensures k + |r| <= |s| && r == s[k..k + |r|]
  {
    assert forall i :: 0 <= i < |r| ==> r[i] == t[i] == s[k + i];
  }

  lemma StripIdempotent(s: string)
    ensures Strip(Strip(s)) == Strip(s)
  {
    var r := Strip(s);
    if r != [] {
      assert TrimStart(r) == r;
      assert TrimEnd(r) == r;
    }
  }

  // ---------------------------------------------------------------- split on whitespace

  /** Length of the leading run of non-whitespace characters. */
  function WordEnd(s: string): (k: nat)
    ensures k <= |s|
    ensures NoSpace(s[..k])
    ensures k < |s| ==> IsSpace(s[k])
    decreases |s|
  {
    if |s| == 0 || IsSpace(s[0]) then 0
    else
      var k := 1 + WordEnd(s[1..]);
      assert s[..k] == [s[0]] + s[1..][..k - 1];
      k
  }

  /** Python's `str.split()` without a separator: the maximal runs of non-whitespace characters, in order. */
  function Words(s: string): (ws: seq<string>)
    ensures forall i :: 0 <= i < |ws| ==> ws[i] != [] && NoSpace(ws[i])
    ensures ws == [] <==> IsBlank(s)
    decreases |s|
  {
    if |s| == 0 then []
    else if IsSpace(s[0]) then
      var ws := Words(s[1..]);
      assert IsBlank(s) <==> IsBlank(s[1..]) by {
        if IsBlank(s[1..]) {
          forall i | 0 <= i < |s| ensures IsSpace(s[i]) {
            if i > 0 { assert s[i] == s[1..][i - 1]; }
          }
        }
      }
      ws
    else
      var k := WordEnd(s);
      [s[..k]] + Words(s[k..])
  }

  lemma {:induction false} WordEndOfPrefix(a: string, rest: string)
    requires NoSpace(a)
    requires rest == [] || IsSpace(rest[0])
    ensures WordEnd(a + rest) == |a|
    decreases |a|
  {
    if |a| > 0 {
      assert (a + rest)[1..] == a[1..] + rest;
      WordEndOfPrefix(a[1..], rest);
    }
  }

  /** Joining words with single spaces and splitting on whitespace gives the words back. */
  lemma {:induction false} WordsOfJoin(ws: seq<string>)
    requires forall i :: 0 <= i < |ws| ==> ws[i] != [] && NoSpace(ws[i])
    ensures Words(Join(" ", ws)) == ws
    decreases |ws|
  {
    if |ws| == 1 {
      WordEndOfPrefix(ws[0], []);
      assert ws[0] + [] == ws[0];
    } else if |ws| > 1 {
      var a, j := ws[0], Join(" ", ws[1..]);
      var s := a + (" " + j);
      assert Join(" ", ws) == s;
      WordEndOfPrefix(a, " " + j);
      assert s[..|a|] == a;
      assert s[|a|..] == " " + j;
      assert (" " + j)[1..] == j;
      WordsOfJoin(ws[1..]);
    }
  }

  // ---------------------------------------------------------------- find, in, count

  /** `sub` occurs in `s` at index `i`. */
  predicate OccursAt(s: string, sub: string, i: int) {
    0 <= i && i + |sub| <= |s| && s[i..i + |sub|] == sub
  }

  /** Python's `s.find(sub, from)`: the first index at or after `from` where `sub` occurs, or -1. */
  function FindFrom(s: string, sub: string, from: nat): (r: int)
    ensures r == -1 || (from <= r && OccursAt(s, sub, r))
    ensures forall j :: from <= j && (r == -1 || j < r) ==> !OccursAt(s, sub, j)
    decreases |s| - from
  {
    if from + |sub| > |s| then -1
    else if s[from..from + |sub|] == sub then from
    else FindFrom(s, sub, from + 1)
  }

  /** Python's `sub in s`. */
  predicate Contains(s: string, sub: string) {
    FindFrom(s, sub, 0) >= 0
  }

  lemma ContainsIff(s: string, sub: string)
    ensures Contains(s, sub) <==> exists i :: OccursAt(s, sub, i)
  {
    if exists i :: OccursAt(s, sub, i) {
      var i :| OccursAt(s, sub, i);
      assert FindFrom(s, sub, 0) != -1;
    }
  }

  /** The last index at or before `i` where `sub` occurs, or -1. */
  function LastAtOrBefore(s: string, sub: string, i: int): (r: int)
    ensures r == -1 || (r <= i && OccursAt(s, sub, r))
    ensures forall j :: r < j <= i ==> !OccursAt(s, sub, j)
    decreases i + 1
  {
    if i < 0 then -1
    else if OccursAt(s, sub, i) then i
    else LastAtOrBefore(s, sub, i - 1)
  }

  /** Python's `s.rfind(sub)`: the last index where `sub` occurs, or -1. */
  function RFind(s: string, sub: string): (r: int)
    ensures r == -1 || OccursAt(s, sub, r)
    ensures forall j :: r < j ==> !OccursAt(s, sub, j)
  {
    LastAtOrBefore(s, sub, |s| - |sub|)
  }

  /** Python's `s.count(sub)`: non-overlapping occurrences, scanning left to right (`len(s) + 1` for an empty `sub`). */
  function Count(s: string, sub: string): (n: nat)
    ensures n > 0 <==> Contains(s, sub)
    decreases |s|
  {
    if |sub| == 0 then |s| + 1
    else
      var i := FindFrom(s, sub, 0);
      if i < 0 then 0 else 1 + Count(s[i + |sub|..], sub)
  }

  // ---------------------------------------------------------------- split, join, replace

  /** Python's `s.split(sep)` for a non-empty separator: always at least one piece. */
  function Split(s: string, sep: string): (r: seq<string>)
    requires |sep| > 0
    ensures |r| >= 1
    decreases |s|
  {
    var i := FindFrom(s, sep, 0);
    if i < 0 then [s] else [s[..i]] + Split(s[i + |sep|..], sep)
  }

  /** Python's `sep.join(xs)`. */
  function Join(sep: string, xs: seq<string>): string
  {
    if |xs| == 0 then ""
    else if |xs| == 1 then xs[0]
    else xs[0] + sep + Join(sep, xs[1..])
  }

  lemma JoinCons(sep: string, a: string, tail: seq<string>)
    requires |tail| >= 1
    ensures Join(sep, [a] + tail) == a + sep + Join(sep, tail)
  {
    assert ([a] + tail)[1..] == tail;
  }

  lemma {:induction false} JoinSnoc(sep: string, xs: seq<string>, x: string)
    requires |xs| >= 1
    ensures Join(sep, xs + [x]) == Join(sep, xs) + sep + x
  {
    if |xs| == 1 {
      assert (xs + [x])[1..] == [x];
    } else {
      assert (xs + [x])[1..] == xs[1..] + [x];
      JoinSnoc(sep, xs[1..], x);
    }
  }

  lemma SplitAt(s: string, i: nat, n: nat)
    requires i + n <= |s|
    ensures s == s[..i] + s[i..i + n] + s[i + n..]
  {}

  lemma {:induction false} JoinSplit(s: string, sep: string)
    requires |sep| > 0
    ensures Join(sep, Split(s, sep)) == s
    decreases |s|
  {
    var i := FindFrom(s, sep, 0);
    if i >= 0 {
      var rest := s[i + |sep|..];
      JoinSplit(rest, sep);
      JoinCons(sep, s[..i], Split(rest, sep));
      assert OccursAt(s, sep, i);
      SplitAt(s, i, |sep|);
    }
  }

  /** Python's `s.replace(pat, rep)` for a non-empty pattern: every non-overlapping occurrence, left to right. */
  function Replace(s: string, pat: string, rep: string): string
    requires |pat| > 0
    decreases |s|
  {
    var i := FindFrom(s, pat, 0);
    if i < 0 then s else s[..i] + rep + Replace(s[i + |pat|..], pat, rep)
  }

  // ---------------------------------------------------------------- prefixes and suffixes

  /** Concatenation regroups freely (a helper for proofs that build text step by step). */
  lemma AppendAssoc(a: string, b: string, c: string)
    ensures (a + b) + c == a + (b + c)
  {
  }

  predicate StartsWith(s: string, p: string) {
    |p| <= |s| && s[..|p|] == p
  }

  predicate EndsWith(s: string, p: string) {
    |p| <= |s| && s[|s| - |p|..] == p
  }

  /** A prefix stays a prefix when text is added around both sides. */
  lemma StartsWithFrame(h: string, x: string, y: string, p: string)
    requires StartsWith(x, p)
    ensures StartsWith(h + x + y, h + p)
  {
    assert (h + x + y)[..|h + p|] == h + x[..|p|];
  }

  /** Python's `s[:n]`. */
  function Take(s: string, n: nat): (r: string)
    ensures |r| == if n < |s| then n else |s|
    ensures r == s[..|r|]
  {
    if n < |s| then s[..n] else s
  }

  /** Python's `s[-n:]` (which is all of `s` when `n` is 0). */
  function TakeLast(s: string, n: nat): (r: string)
    ensures |r| <= |s|
    ensures n > 0 ==> |r| == if n < |s| then n else |s|
    ensures r == s[|s| - |r|..]
  {
    if n == 0 || n >= |s| then s else s[|s| - n..]
  }

  // ---------------------------------------------------------------- case mapping

  /** `str.lower` on one character, for ASCII and Latin-1 letters. */
  function LowerChar(c: char): char {
    if 'A' <= c <= 'Z' || ('À' <= c <= 'Þ' && c != '×') then (c as int + 32) as char else c
  }

  /** `str.upper` on one character, for ASCII and Latin-1 letters. */
  function UpperChar(c: char): char {
    if 'a' <= c <= 'z' || ('à' <= c <= 'þ' && c != '÷') then (c as int - 32) as char else c
  }

  function Lower(s: string): (r: string)
    ensures |r| == |s|
  {
    seq(|s|, i requires 0 <= i < |s| => LowerChar(s[i]))
  }

  /** A cased character: one that `lower` or `upper` changes. */
  predicate Cased(c: char) {
    LowerChar(c) != c || UpperChar(c) != c
  }

  /** Python's `str.title()`: a character after a cased one is lower-cased, every other character upper-cased. */
  function Title(s: string): (r: string)
    ensures |r| == |s|
    ensures forall i :: 0 < i < |s| && Cased(s[i - 1]) ==> r[i] == LowerChar(s[i])
    ensures forall i :: 0 <= i < |s| && (i == 0 || !Cased(s[i - 1])) ==> r[i] == UpperChar(s[i])
  {
    var r := seq(|s|, i requires 0 <= i < |s| => TitleAt(s, i));
    assert forall i :: 0 <= i < |s| ==> r[i] == TitleAt(s, i);
    r
  }

  /** Character `i` of `s.title()`. */
  function TitleAt(s: string, i: nat): char
    requires i < |s|
  {
    if i > 0 && Cased(s[i - 1]) then LowerChar(s[i]) else UpperChar(s[i])
  }

  // ---------------------------------------------------------------- list slicing

  /** Python's `xs[:n]` on a list. */
  function Prefix<T>(xs: seq<T>, n: nat): (r: seq<T>)
    ensures |r| == if n < |xs| then n else |xs|
    ensures r == xs[..|r|]
  {
    if n < |xs| then xs[..n] else xs
  }

  // ---------------------------------------------------------------- numbers

  function DigitChar(d: nat): char
    requires d < 10
  {
    "0123456789"[d]
  }

  function NatToString(n: nat): (r: string)
    ensures |r| >= 1
    decreases n
  {
    if n < 10 then [DigitChar(n)] else NatToString(n / 10) + [DigitChar(n % 10)]
  }

  /** Python's `str(i)` for an integer. */
  function IntToString(i: int): string {
    if i < 0 then "-" + NatToString(-i) else NatToString(i)
  }
}
