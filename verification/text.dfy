/**
 * Character classes and string operations with the semantics of the Python
 * built-ins the system uses (`str.lower`, `str.strip`, `str.split`,
 * `str.join`, `in` on strings, `re.sub` on a run of one character).
 */
module Text {

  /** Python's `str.isspace`: the characters `str.split()` and `str.strip()` treat as blanks. */
  predicate IsSpace(c: char)
  {
    || c == ' ' || c == '\t' || c == '\n' || c == '\r'
    || c == '\U{0B}' || c == '\U{0C}'
    || ('\U{1C}' <= c <= '\U{1F}')
    || c == '\U{85}' || c == '\U{A0}' || c == '\U{1680}'
    || ('\U{2000}' <= c <= '\U{200A}')
    || c == '\U{2028}' || c == '\U{2029}' || c == '\U{202F}' || c == '\U{205F}' || c == '\U{3000}'
  }

  /** One-character case mapping of `str.lower` on ASCII and Latin-1 letters. */
  function LowerChar(c: char): char
  {
    if 'A' <= c <= 'Z' || ('\U{C0}' <= c <= '\U{DE}' && c != '\U{D7}') then (c as int + 32) as char
    else if c == '\U{178}' then '\U{FF}'
    else c
  }

  /** One-character case mapping of `str.upper` on ASCII and Latin-1 letters. */
  function UpperChar(c: char): char
  {
    if 'a' <= c <= 'z' || ('\U{E0}' <= c <= '\U{FE}' && c != '\U{F7}') then (c as int - 32) as char
    else if c == '\U{FF}' then '\U{178}'
    else c
  }

  function MapChars(s: string, f: char -> char): (r: string)
    ensures |r| == |s|
    ensures forall i :: 0 <= i < |s| ==> r[i] == f(s[i])
  {
    seq(|s|, i requires 0 <= i < |s| => f(s[i]))
  }

  /** Python's `s.lower()`, character by character. */
  function Lower(s: string): (r: string)
    ensures |r| == |s|
    ensures forall i :: 0 <= i < |s| ==> r[i] == LowerChar(s[i])
  {
    if s == [] then [] else [LowerChar(s[0])] + Lower(s[1..])
  }

  /** Python's `s.upper()`, character by character. */
  function Upper(s: string): (r: string)
    ensures |r| == |s|
    ensures forall i :: 0 <= i < |s| ==> r[i] == UpperChar(s[i])
  {
    if s == [] then [] else [UpperChar(s[0])] + Upper(s[1..])
  }

  /** `s.replace(a, b)` for single characters `a` and `b`. */
  function ReplaceChar(s: string, a: char, b: char): (r: string)
    ensures |r| == |s|
    ensures a != b ==> a !in r
    ensures forall c :: c in r && c != b ==> c in s
    ensures a !in s ==> r == s
  {
    var r := MapChars(s, x => if x == a then b else x);
    assert a !in s ==> r == s by {
      if a !in s {
        assert forall i :: 0 <= i < |s| ==> r[i] == s[i];
      }
    }
    assert forall c :: c in r && c != b ==> c in s by {
      forall c | c in r && c != b
        ensures c in s
      {
        var i :| 0 <= i < |r| && r[i] == c;
        assert s[i] == c;
      }
    }
    r
  }

  /** Number of leading characters of `s` that satisfy `p`. */
  function LeadLen(s: string, p: char -> bool): (n: nat)
    ensures n <= |s|
    ensures forall i :: 0 <= i < n ==> p(s[i])
    ensures n < |s| ==> !p(s[n])
  {
    if |s| == 0 || !p(s[0]) then 0 else 1 + LeadLen(s[1..], p)
  }

  /** Removes the leading and trailing characters that satisfy `p`. */
  function StripBy(s: string, p: char -> bool): (r: string)
    ensures |r| <= |s|
    ensures r != "" ==> !p(r[0]) && !p(r[|r| - 1])
    ensures (s == "" || (!p(s[0]) && !p(s[|s| - 1]))) ==> r == s
    ensures forall c :: c in r ==> c in s
  {
    if |s| > 0 && p(s[0]) then StripBy(s[1..], p)
    else if |s| > 0 && p(s[|s| - 1]) then StripBy(s[..|s| - 1], p)
    else s
  }

  /** Python's `s.strip()`. */
  function Strip(s: string): string
  {
    StripBy(s, IsSpace)
  }

  /** Python's `s.strip(c)` for one character `c`. */
  function StripChar(s: string, c: char): string
  {
    StripBy(s, x => x == c)
  }

  predicate IsPrefix(p: string, s: string)
  {
    |p| <= |s| && s[..|p|] == p
  }

  /** Python's `sub in s` on strings. */
  predicate Contains(s: string, sub: string)
    decreases |s|
  {
    IsPrefix(sub, s) || (|s| > 0 && Contains(s[1..], sub))
  }

  /** Index of the first `c` in `s`, or `|s|` when there is none. */
  function IndexOf(s: string, c: char): (k: nat)
    ensures k <= |s|
    ensures forall i :: 0 <= i < k ==> s[i] != c
    ensures k < |s| ==> s[k] == c
  {
    if |s| == 0 || s[0] == c then 0 else 1 + IndexOf(s[1..], c)
  }

  /** Python's `s.split(sep)` for a one-character separator. */
  function Split(s: string, sep: char): (parts: seq<string>)
    ensures |parts| >= 1
    ensures forall i :: 0 <= i < |parts| ==> sep !in parts[i]
    decreases |s|
  {
    var k := IndexOf(s, sep);
    if k == |s| then [s] else [s[..k]] + Split(s[k + 1..], sep)
  }

  /** Python's `sep.join(parts)`. */
  function Join(parts: seq<string>, sep: string): string
  {
    if |parts| == 0 then ""
    else if |parts| == 1 then parts[0]
    else parts[0] + sep + Join(parts[1..], sep)
  }

  /** Splitting on a character and joining back with it gives the string back. */
  lemma {:induction false} JoinSplit(s: string, sep: char)
    ensures Join(Split(s, sep), [sep]) == s
    decreases |s|
  {
    var k := IndexOf(s, sep);
    if k < |s| {
      var rest := s[k + 1..];
      var tail := Split(rest, sep);
      JoinSplit(rest, sep);
      var parts := [s[..k]] + tail;
      assert Split(s, sep) == parts;
      assert parts[1..] == tail;
      assert Join(parts, [sep]) == s[..k] + [sep] + Join(tail, [sep]);
      assert s == s[..k] + [sep] + rest;
    }
  }

  predicate NotSpace(c: char)
  {
    !IsSpace(c)
  }

  predicate NoSpace(w: string)
  {
    forall j :: 0 <= j < |w| ==> !IsSpace(w[j])
  }

  /** Python's `s.split()`: the maximal runs of non-blank characters. */
  function Words(s: string): (ws: seq<string>)
    ensures forall i :: 0 <= i < |ws| ==> ws[i] != "" && NoSpace(ws[i])
    decreases |s|
  {
    var t := s[LeadLen(s, IsSpace)..];
    if t == "" then []
    else
      var n := LeadLen(t, NotSpace);
      [t[..n]] + Words(t[n..])
  }

  /** True when `c` does not occur in `s`. */
  predicate Avoids(s: string, c: char)
  {
    forall j :: 0 <= j < |s| ==> s[j] != c
  }

  lemma AvoidsSlice(s: string, c: char, a: nat, b: nat)
    requires a <= b <= |s| && Avoids(s, c)
    ensures Avoids(s[a..b], c)
  {
    forall j | 0 <= j < b - a ensures s[a..b][j] != c { assert s[a..b][j] == s[a + j]; }
  }

  /** A character absent from `s` is absent from every word of `s`. */
  lemma {:induction false} WordsAvoid(s: string, c: char)
    requires Avoids(s, c)
    ensures forall i :: 0 <= i < |Words(s)| ==> Avoids(Words(s)[i], c)
    decreases |s|
  {
    var t := s[LeadLen(s, IsSpace)..];
    if t != "" {
      var n := LeadLen(t, NotSpace);
      AvoidsSlice(s, c, LeadLen(s, IsSpace), |s|);
      AvoidsSlice(t, c, 0, n);
      AvoidsSlice(t, c, n, |t|);
      WordsAvoid(t[n..], c);
      WordsUnfold(s, t, n);
      AvoidsCons(t[..n], Words(t[n..]), c);
    }
  }

  lemma WordsUnfold(s: string, t: string, n: nat)
    requires t == s[LeadLen(s, IsSpace)..] && t != "" && n == LeadLen(t, NotSpace)
    ensures Words(s) == [t[..n]] + Words(t[n..])
  {
  }

  lemma AvoidsCons(w: string, ws: seq<string>, c: char)
    requires Avoids(w, c) && forall i :: 0 <= i < |ws| ==> Avoids(ws[i], c)
    ensures forall i :: 0 <= i < |[w] + ws| ==> Avoids(([w] + ws)[i], c)
  {
    forall i | 0 <= i < |[w] + ws| ensures Avoids(([w] + ws)[i], c) {
      if i > 0 { assert ([w] + ws)[i] == ws[i - 1]; }
    }
  }

  /**
   * No blank other than a single `' '`, none at either end and never two in
   * a row: the shape of `' '.join(s.split())`.
   */
  predicate SingleSpaced(r: string)
  {
    forall i :: 0 <= i < |r| && IsSpace(r[i]) ==> r[i] == ' ' && 0 < i < |r| - 1 && !IsSpace(r[i + 1])
  }

  lemma {:induction false} JoinWordsSingleSpaced(ws: seq<string>)
    requires forall i :: 0 <= i < |ws| ==> ws[i] != "" && NoSpace(ws[i])
    ensures SingleSpaced(Join(ws, " "))
    ensures |ws| > 0 ==> Join(ws, " ") != "" && !IsSpace(Join(ws, " ")[0])
    ensures |ws| > 0 ==> !IsSpace(Join(ws, " ")[|Join(ws, " ")| - 1])
  {
    if |ws| > 1 {
      var w := ws[0];
      var j := Join(ws[1..], " ");
      JoinWordsSingleSpaced(ws[1..]);
      var r := w + " " + j;
      assert Join(ws, " ") == r;
      forall i | 0 <= i < |r| && IsSpace(r[i])
        ensures r[i] == ' ' && 0 < i < |r| - 1 && !IsSpace(r[i + 1])
      {
        if i == |w| {
          assert r[i + 1] == j[0];
        } else if i > |w| {
          assert r[i] == j[i - |w| - 1];
          assert r[i + 1] == j[i - |w|];
        }
      }
    }
  }

  /** Words joined by single spaces split back into the same words. */
  lemma {:induction false} WordsJoin(ws: seq<string>)
    requires forall i :: 0 <= i < |ws| ==> ws[i] != "" && NoSpace(ws[i])
    ensures Words(Join(ws, " ")) == ws
  {
    if |ws| == 1 {
      WordsOne(ws[0]);
    } else if |ws| > 1 {
      WordsJoin(ws[1..]);
      JoinWordsSingleSpaced(ws[1..]);
      assert Join(ws, " ") == ws[0] + " " + Join(ws[1..], " ");
      WordsCons(ws[0], Join(ws[1..], " "));
    }
  }

  /** A single word is its own split. */
  lemma WordsOne(w: string)
    requires w != "" && NoSpace(w)
    ensures Words(w) == [w]
  {
    assert LeadLen(w, IsSpace) == 0 by { assert !IsSpace(w[0]); }
    assert LeadLen(w, NotSpace) == |w|;
    WordsUnfold(w, w, |w|);
    assert w[..|w|] == w && w[|w|..] == "";
  }

  /** A word, a blank and text that starts with a word split into that word and the text's words. */
  lemma WordsCons(w: string, j: string)
    requires w != "" && NoSpace(w) && j != "" && !IsSpace(j[0])
    ensures Words(w + " " + j) == [w] + Words(j)
  {
    var s := w + " " + j;
    assert s[..|w|] == w && s[|w|..] == " " + j;
    LeadLenIs(s, IsSpace, 0);
    LeadLenIs(s, NotSpace, |w|);
    WordsUnfold(s, s, |w|);
    WordsBlank(j);
  }

  /** The length of the leading run is where `p` first fails. */
  lemma LeadLenIs(s: string, p: char -> bool, n: nat)
    requires n <= |s| && (forall i :: 0 <= i < n ==> p(s[i])) && (n < |s| ==> !p(s[n]))
    ensures LeadLen(s, p) == n
  {
  }

  /** A leading blank before a word does not change the words. */
  lemma WordsBlank(j: string)
    requires j != "" && !IsSpace(j[0])
    ensures Words(" " + j) == Words(j)
  {
    var s := " " + j;
    assert LeadLen(s, IsSpace) == 1 by { assert s[1] == j[0]; }
    assert LeadLen(j, IsSpace) == 0;
    assert s[1..] == j && j[0..] == j;
  }

  /** Python's `re.sub(c + '+', c, s)`: every run of `c` becomes one `c`. */
  function CollapseRuns(s: string, c: char): (r: string)
    ensures |s| > 0 ==> |r| > 0 && r[0] == s[0]
    ensures |r| <= |s|
    ensures forall i :: 0 <= i < |r| - 1 ==> !(r[i] == c && r[i + 1] == c)
    ensures forall x :: x in r ==> x in s
    decreases |s|
  {
    if |s| == 0 then s
    else if |s| >= 2 && s[0] == c && s[1] == c then CollapseRuns(s[1..], c)
    else
      var rest := CollapseRuns(s[1..], c);
      assert forall x :: x in rest ==> x in s by {
        forall x | x in rest ensures x in s { assert x in s[1..]; }
      }
      [s[0]] + rest
  }

  lemma ConcatAssoc<T>(p: seq<T>, q: seq<T>, r: seq<T>)
    ensures p + (q + r) == (p + q) + r
  {
  }

  /** True when no element occurs twice. */
  predicate NoDup<T(==)>(xs: seq<T>)
  {
    forall i, j :: 0 <= i < j < |xs| ==> xs[i] != xs[j]
  }

  /** Index of the first occurrence of `x` in `xs` (`|xs|` when absent). */
  function FirstIndex<T(==)>(xs: seq<T>, x: T): (k: nat)
    ensures k <= |xs|
    ensures k < |xs| <==> x in xs
    ensures k < |xs| ==> xs[k] == x
    ensures forall i :: 0 <= i < k ==> xs[i] != x
  {
    if |xs| == 0 then 0 else if xs[0] == x then 0 else 1 + FirstIndex(xs[1..], x)
  }

  lemma FirstIndexPrefix<T>(xs: seq<T>, x: T, n: nat)
    requires n <= |xs| && x in xs[..n]
    ensures FirstIndex(xs, x) == FirstIndex(xs[..n], x)
  {
    var k := FirstIndex(xs[..n], x);
    var m := FirstIndex(xs, x);
    assert xs[k] == xs[..n][k] == x;
    assert m <= k;
    assert m < n && xs[..n][m] == x;
  }

  /**
   * Keeps the first occurrence of every element, in order: the
   * `seen`-set loop the extractors use.
   */
  function Dedup<T(==)>(xs: seq<T>): (r: seq<T>)
    ensures NoDup(r)
    ensures forall i :: 0 <= i < |r| ==> r[i] in xs
    ensures forall i :: 0 <= i < |xs| ==> xs[i] in r
    ensures forall i, j :: 0 <= i < j < |r| ==> FirstIndex(xs, r[i]) < FirstIndex(xs, r[j])
  {
    if |xs| == 0 then []
    else
      var n := |xs| - 1;
      var p := Dedup(xs[..n]);
      var x := xs[n];
      assert xs == xs[..n] + [x];
      if x in p then p
      else
        DedupExtend(xs, p, n);
        p + [x]
  }

  lemma DedupExtend<T>(xs: seq<T>, p: seq<T>, n: nat)
    requires n == |xs| - 1 && xs[n] !in p
    requires forall i :: 0 <= i < n ==> xs[i] in p
    requires forall i :: 0 <= i < |p| ==> p[i] in xs[..n]
    requires forall i, j :: 0 <= i < j < |p| ==> FirstIndex(xs[..n], p[i]) < FirstIndex(xs[..n], p[j])
    ensures forall i, j :: 0 <= i < j < |p| + 1 ==> FirstIndex(xs, (p + [xs[n]])[i]) < FirstIndex(xs, (p + [xs[n]])[j])
  {
    var r := p + [xs[n]];
    forall i | 0 <= i < |p|
      ensures FirstIndex(xs, p[i]) == FirstIndex(xs[..n], p[i]) < n
    {
      FirstIndexPrefix(xs, p[i], n);
    }
    assert forall i :: 0 <= i < n ==> xs[i] != xs[n];
    assert xs[n] !in xs[..n];
    assert FirstIndex(xs, xs[n]) == n;
    forall i, j | 0 <= i < j < |r|
      ensures FirstIndex(xs, r[i]) < FirstIndex(xs, r[j])
    {
      assert r[i] == p[i];
      if j < |p| { assert r[j] == p[j]; }
    }
  }

  /** Decimal text of a natural number, as Python's `str` writes it. */
  function NatToString(n: nat): (r: string)
    ensures |r| > 0
    ensures forall c :: c in r ==> '0' <= c <= '9'
  {
    var d := [(48 + n % 10) as char];
    if n < 10 then d else NatToString(n / 10) + d
  }
}
