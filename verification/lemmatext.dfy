/**
 * The text front end shared by both extractors: the normalisation of one
 * lemma, and the splitting of a model's free-text answer into a list of
 * distinct normalised lemmas.
 */
module LemmaText {
  import opened Text
  import opened Transliteration

  /**
   * Python's `\w` on the characters modelled: ASCII letters and digits,
   * `_`, and the Latin-1 letters, superscript digits and vulgar fractions.
   */
  predicate IsWordChar(c: char)
  {
    || 'a' <= c <= 'z' || 'A' <= c <= 'Z' || '0' <= c <= '9' || c == '_'
    || c == '\U{AA}' || c == '\U{B5}' || c == '\U{BA}'
    || c == '\U{B2}' || c == '\U{B3}' || c == '\U{B9}' || IsFraction(c)
    || ('\U{C0}' <= c <= '\U{FF}' && c != '\U{D7}' && c != '\U{F7}')
  }

  /** The vulgar fractions `¼`, `½` and `¾`, which transliterate to a slashed fraction. */
  predicate IsFraction(c: char)
  {
    '\U{BC}' <= c <= '\U{BE}'
  }

  /** The characters `re.sub(r'[^\w\s_-]', '', s)` keeps. */
  predicate Kept(c: char)
  {
    IsWordChar(c) || IsSpace(c) || c == '-'
  }

  /** `re.sub(r'[^\w\s_-]', '', s)`: drops every other character. */
  function KeepWordChars(s: string): (r: string)
    ensures |r| <= |s|
    ensures forall c :: c in r ==> Kept(c) && c in s
    ensures forall c :: c in s && Kept(c) ==> c in r
  {
    if |s| == 0 then ""
    else
      var rest := KeepWordChars(s[1..]);
      assert forall c :: c in s ==> c == s[0] || c in s[1..];
      if Kept(s[0]) then [s[0]] + rest else rest
  }

  /**
   * The filter works character by character and keeps the order: filtering
   * a concatenation concatenates the filtered parts, and one character is
   * kept exactly when it is a word character, a blank or a hyphen.
   */
  lemma {:induction false} KeepWordCharsAppend(a: string, b: string)
    ensures KeepWordChars(a + b) == KeepWordChars(a) + KeepWordChars(b)
    ensures |a| == 1 ==> KeepWordChars(a) == if Kept(a[0]) then a else ""
    decreases |a|
  {
    if |a| > 0 {
      var ab := a + b;
      assert ab[0] == a[0] && ab[1..] == a[1..] + b;
      KeepWordCharsAppend(a[1..], b);
      var head := if Kept(a[0]) then [a[0]] else "";
      assert KeepWordChars(ab) == head + KeepWordChars(ab[1..]);
      assert KeepWordChars(a) == head + KeepWordChars(a[1..]);
      ConcatAssoc(head, KeepWordChars(a[1..]), KeepWordChars(b));
      if |a| == 1 {
        assert a[1..] == "";
      }
    } else {
      assert a + b == b;
    }
  }

  /** No two `c` side by side. */
  predicate NoRun(s: string, c: char)
  {
    forall i :: 0 <= i < |s| - 1 ==> !(s[i] == c && s[i + 1] == c)
  }

  /** The shape of a normalised lemma: no blank, no hyphen, no `__`, no `_` at either end. */
  predicate NormalLemma(s: string)
  {
    && ' ' !in s && '-' !in s
    && NoRun(s, '_')
    && (s != "" ==> s[0] != '_' && s[|s| - 1] != '_')
  }

  /** Stripping characters off the ends keeps a string free of runs. */
  lemma {:induction false} StripKeepsNoRun(s: string, p: char -> bool, c: char)
    requires NoRun(s, c)
    ensures NoRun(StripBy(s, p), c)
    decreases |s|
  {
    if |s| > 0 && p(s[0]) {
      StripKeepsNoRun(s[1..], p, c);
    } else if |s| > 0 && p(s[|s| - 1]) {
      StripKeepsNoRun(s[..|s| - 1], p, c);
    }
  }

  /**
   * `_normalize_lemma`: drop the characters that are neither word
   * characters, blanks nor hyphens; lower-case; transliterate; turn blanks
   * and hyphens into `_`; collapse runs of `_`; strip `_` off both ends.
   */
  function NormalizeLemma(raw: string): (r: string)
    ensures NormalLemma(r)
    ensures |r| <= |Unidecode(Lower(KeepWordChars(raw)))|
  {
    var a := Unidecode(Lower(KeepWordChars(raw)));
    var b := ReplaceChar(ReplaceChar(a, ' ', '_'), '-', '_');
    var d := CollapseRuns(b, '_');
    var r := StripChar(d, '_');
    assert ' ' !in b && '-' !in b;
    StripKeepsNoRun(d, x => x == '_', '_');
    r
  }

  /** A character that every step of the normalisation leaves as it is. */
  predicate Stable(c: char)
  {
    Kept(c) && LowerChar(c) == c && TranslitChar(c) == [c]
  }

  predicate AllStable(s: string)
  {
    forall i :: 0 <= i < |s| ==> Stable(s[i])
  }

  /** Lower-casing a kept character other than a fraction and transliterating it gives stable characters only. */
  lemma LowerTranslitStable(k: char)
    requires Kept(k) && !IsFraction(k)
    ensures AllStable(TranslitChar(LowerChar(k)))
  {
    var m := LowerChar(k);
    var t := TranslitChar(m);
    assert Kept(m) && LowerChar(m) == m;
    TranslitOfLower(m);
    if t != [m] {
      assert forall i :: 0 <= i < |t| ==> Stable(t[i]);
    }
  }

  /**
   * A kept character without upper-case form, other than a fraction,
   * transliterates to itself or to lower-case letters, digits and blanks.
   */
  lemma TranslitOfLower(m: char)
    requires Kept(m) && !IsFraction(m)
    requires !('A' <= m <= 'Z') && !('\U{C0}' <= m <= '\U{DE}' && m != '\U{D7}')
    ensures var t := TranslitChar(m);
      t == [m] || forall i :: 0 <= i < |t| ==> ('a' <= t[i] <= 'z' || '0' <= t[i] <= '9' || t[i] == ' ')
  {
    if IsWordChar(m) {
      if m as int >= 128 {
        TranslitOfLatin1Lower(m);
      }
    } else {
      TranslitOfSpace(m);
    }
  }

  lemma TranslitOfLatin1Lower(m: char)
    requires '\U{80}' <= m <= '\U{FF}' && !IsFraction(m)
    requires !('\U{C0}' <= m <= '\U{DE}' && m != '\U{D7}')
    ensures var t := TranslitChar(m);
      t == [m] || forall i :: 0 <= i < |t| ==> ('a' <= t[i] <= 'z' || '0' <= t[i] <= '9' || t[i] == ' ')
  {
    if m < '\U{C0}' {
      TranslitOfLatin1Sign(m);
    } else {
      TranslitOfLatin1Letter(m);
    }
  }

  lemma TranslitOfLatin1Sign(m: char)
    requires '\U{80}' <= m < '\U{C0}' && !IsFraction(m)
    ensures var t := TranslitChar(m);
      t == [m] || forall i :: 0 <= i < |t| ==> ('a' <= t[i] <= 'z' || '0' <= t[i] <= '9' || t[i] == ' ')
  {
  }

  lemma TranslitOfLatin1Letter(m: char)
    requires '\U{DF}' <= m <= '\U{FF}' || m == '\U{D7}'
    ensures var t := TranslitChar(m);
      t == [m] || forall i :: 0 <= i < |t| ==> 'a' <= t[i] <= 'z'
  {
  }

  lemma TranslitOfSpace(m: char)
    requires IsSpace(m) || m == '-'
    ensures TranslitChar(m) == [m] || TranslitChar(m) == " "
  {
  }

  /** Transliterating the lower-cased kept characters, fractions aside, gives stable characters only. */
  lemma {:induction false} CaseFoldStable(s: string)
    requires forall c :: c in s ==> Kept(c) && !IsFraction(c)
    ensures AllStable(Unidecode(Lower(s)))
  {
    if |s| > 0 {
      CaseFoldStable(s[1..]);
      LowerTranslitStable(s[0]);
      var l := Lower(s);
      assert l[0] == LowerChar(s[0]);
      assert l[1..] == Lower(s[1..]);
      assert Unidecode(l) == TranslitChar(l[0]) + Unidecode(l[1..]);
    }
  }

  /** No vulgar fraction in the text. */
  predicate NoFraction(s: string)
  {
    forall i :: 0 <= i < |s| ==> !IsFraction(s[i])
  }

  /** Every character of a lemma normalised from a text without vulgar fractions is stable. */
  lemma NormalizeStable(raw: string)
    requires NoFraction(raw)
    ensures AllStable(NormalizeLemma(raw))
  {
    var a := Unidecode(Lower(KeepWordChars(raw)));
    CaseFoldStable(KeepWordChars(raw));
    var b := ReplaceChar(ReplaceChar(a, ' ', '_'), '-', '_');
    assert Stable('_');
    assert forall c :: c in b ==> Stable(c);
    var d := CollapseRuns(b, '_');
    var r := NormalizeLemma(raw);
    assert forall c :: c in r ==> c in d;
    assert forall i :: 0 <= i < |r| ==> r[i] in r;
  }

  lemma {:induction false} KeepAllKept(s: string)
    requires forall i :: 0 <= i < |s| ==> Kept(s[i])
    ensures KeepWordChars(s) == s
  {
    if |s| > 0 {
      KeepAllKept(s[1..]);
    }
  }

  lemma {:induction false} UnidecodeStable(s: string)
    requires AllStable(s)
    ensures Unidecode(s) == s
  {
    if |s| > 0 {
      UnidecodeStable(s[1..]);
      assert s == [s[0]] + s[1..];
    }
  }

  lemma {:induction false} CollapseNoRun(s: string, c: char)
    requires NoRun(s, c)
    ensures CollapseRuns(s, c) == s
  {
    if |s| > 0 {
      CollapseNoRun(s[1..], c);
      assert s == [s[0]] + s[1..];
    }
  }

  /** Normalising a lemma normalised from a text without vulgar fractions changes nothing. */
  lemma NormalizeIdempotent(raw: string)
    requires NoFraction(raw)
    ensures NormalizeLemma(NormalizeLemma(raw)) == NormalizeLemma(raw)
  {
    var r := NormalizeLemma(raw);
    NormalizeStable(raw);
    KeepAllKept(r);
    var l := Lower(r);
    assert l == r by {
      assert forall i :: 0 <= i < |r| ==> l[i] == r[i];
    }
    UnidecodeStable(r);
    var a := Unidecode(Lower(KeepWordChars(r)));
    assert a == r;
    var b := ReplaceChar(ReplaceChar(a, ' ', '_'), '-', '_');
    assert b == r;
    CollapseNoRun(r, '_');
    var d := CollapseRuns(b, '_');
    assert d == r;
    assert StripChar(d, '_') == r;
  }

  /**
   * Without the fraction requirement idempotence fails: `¼` normalises to
   * `1/4`, whose slash the filter then drops.
   */
  lemma FractionNotIdempotent()
    ensures NormalizeLemma("\U{BC}") == "1/4"
    ensures NormalizeLemma("1/4") == "14"
  {
    var q := "\U{BC}";
    FractionTransliterated();
    FractionSeparators();
    NormalizeVia(q, q, " 1/4", "1/4");
    SlashFiltered();
    AsciiLower("14");
    UnidecodeAscii("14");
    NormalizeVia("1/4", "14", "14", "14");
  }

  /** The normalisation, given the outcome of its filtering and transliteration steps and of its `_` handling. */
  lemma NormalizeVia(raw: string, k: string, a: string, r: string)
    requires KeepWordChars(raw) == k && Unidecode(Lower(k)) == a
    requires StripChar(CollapseRuns(ReplaceChar(ReplaceChar(a, ' ', '_'), '-', '_'), '_'), '_') == r
    ensures NormalizeLemma(raw) == r
  {
  }

  lemma FractionTransliterated()
    ensures KeepWordChars("\U{BC}") == "\U{BC}"
    ensures Unidecode(Lower("\U{BC}")) == " 1/4"
  {
    var q := "\U{BC}";
    assert Lower(q) == q by { assert Lower(q)[0] == LowerChar(q[0]); }
  }

  lemma FractionSeparators()
    ensures StripChar(CollapseRuns(ReplaceChar(ReplaceChar(" 1/4", ' ', '_'), '-', '_'), '_'), '_') == "1/4"
  {
    var b := ReplaceChar(ReplaceChar(" 1/4", ' ', '_'), '-', '_');
    assert b == "_1/4" by {
      assert ReplaceChar(" 1/4", ' ', '_')[0] == '_';
    }
    assert CollapseRuns(b, '_') == b;
    assert StripBy(b, x => x == '_') == StripBy(b[1..], x => x == '_');
    assert b[1..] == "1/4";
  }

  lemma SlashFiltered()
    ensures KeepWordChars("1/4") == "14"
    ensures StripChar(CollapseRuns(ReplaceChar(ReplaceChar("14", ' ', '_'), '-', '_'), '_'), '_') == "14"
  {
    var f := "1/4";
    assert KeepWordChars(f[2..]) == "4";
    assert KeepWordChars(f[1..]) == "4";
    assert CollapseRuns("14", '_') == "14";
  }

  /** Text without upper-case letters is its own lower-case form. */
  lemma AsciiLower(s: string)
    requires forall i :: 0 <= i < |s| ==> '0' <= s[i] <= '9'
    ensures Lower(s) == s
  {
    assert forall i :: 0 <= i < |s| ==> Lower(s)[i] == s[i];
  }

  /** The keywords that mark a comma-free line as an explanation rather than lemmas. */
  predicate HasKeyword(line: string)
  {
    || Contains(line, "exemple") || Contains(line, "règle") || Contains(line, "note")
    || Contains(line, "**") || Contains(line, "--")
  }

  /** Whether a stripped line contributes to the lemma text. */
  predicate KeepLine(line: string)
  {
    line != "" && (',' in line || !HasKeyword(Lower(line)))
  }

  /**
   * The lines `keep` accepts once stripped, each followed by a comma,
   * concatenated in order; the extractors keep the lines `KeepLine` accepts.
   */
  function LemmaLines(lines: seq<string>, keep: string -> bool): string
  {
    if |lines| == 0 then ""
    else
      var l := Strip(lines[0]);
      (if keep(l) then l + "," else "") + LemmaLines(lines[1..], keep)
  }

  /** The lemma text is empty exactly when no line is kept. */
  lemma {:induction false} LemmaLinesEmpty(lines: seq<string>, keep: string -> bool)
    ensures LemmaLines(lines, keep) == "" <==> forall i :: 0 <= i < |lines| ==> !keep(Strip(lines[i]))
  {
    if |lines| > 0 {
      LemmaLinesEmpty(lines[1..], keep);
      assert forall i :: 1 <= i < |lines| ==> lines[i] == lines[1..][i - 1];
    }
  }

  lemma {:induction false} LemmaLinesConcat(xs: seq<string>, ys: seq<string>, keep: string -> bool)
    ensures LemmaLines(xs + ys, keep) == LemmaLines(xs, keep) + LemmaLines(ys, keep)
  {
    if |xs| > 0 {
      LemmaLinesConcat(xs[1..], ys, keep);
      assert (xs + ys)[0] == xs[0];
      assert (xs + ys)[1..] == xs[1..] + ys;
    } else {
      assert xs + ys == ys;
    }
  }

  /** A line that is blank, or holds a keyword and no comma, contributes nothing. */
  lemma DroppedLine(xs: seq<string>, line: string, ys: seq<string>)
    requires !KeepLine(Strip(line))
    ensures LemmaLines(xs + [line] + ys, KeepLine) == LemmaLines(xs + ys, KeepLine)
  {
    LemmaLinesConcat(xs + [line], ys, KeepLine);
    LemmaLinesConcat(xs, [line], KeepLine);
    LemmaLinesConcat(xs, ys, KeepLine);
  }

  /** A line holding a comma always contributes its stripped text and a comma. */
  lemma CommaLineKept(xs: seq<string>, line: string, ys: seq<string>)
    requires ',' in Strip(line)
    ensures LemmaLines(xs + [line] + ys, KeepLine) == LemmaLines(xs, KeepLine) + Strip(line) + "," + LemmaLines(ys, KeepLine)
  {
    LemmaLinesConcat(xs + [line], ys, KeepLine);
    LemmaLinesConcat(xs, [line], KeepLine);
  }

  /** The part of an answer the lemmas are read from: the text after its last `:`, if it has one. */
  function Body(response: string): (b: string)
    ensures ':' !in b
  {
    var s := Strip(response);
    if ':' in s then
      var parts := Split(s, ':');
      Strip(parts[|parts| - 1])
    else s
  }

  /** The comma-separated text: the kept lines, or the whole body when no line is kept. */
  function LemmaSource(response: string): string
  {
    var b := Body(response);
    var t := LemmaLines(Split(b, '\n'), KeepLine);
    if Strip(t) == "" then b else t
  }

  /**
   * The lemma text is the kept lines when some line is kept, and the whole
   * body of the answer when none is.
   */
  lemma LemmaSourceFallback(response: string)
    ensures var lines := Split(Body(response), '\n');
      !AnyKept(lines) ==> LemmaSource(response) == Body(response)
    ensures var lines := Split(Body(response), '\n');
      AnyKept(lines) ==> LemmaSource(response) == LemmaLines(lines, KeepLine)
  {
    var b := Body(response);
    var lines := Split(b, '\n');
    var t := LemmaLines(lines, KeepLine);
    LemmaLinesEmpty(lines, KeepLine);
    if t != "" {
      LemmaLinesEdges(lines);
      assert AnyKept(lines);
      assert LemmaSource(response) == t;
    } else {
      assert Strip(t) == "";
      assert !AnyKept(lines);
      assert LemmaSource(response) == b;
    }
  }

  /** Some line, once stripped, is kept. */
  predicate AnyKept(lines: seq<string>)
  {
    exists i :: 0 <= i < |lines| && KeepLine(Strip(lines[i]))
  }

  /** Kept lines are stripped and non-empty, and each ends with a comma, so their text has no blank edge. */
  lemma {:induction false} LemmaLinesEdges(lines: seq<string>)
    ensures var t := LemmaLines(lines, KeepLine);
      t != "" ==> !IsSpace(t[0]) && t[|t| - 1] == ',' && Strip(t) == t
  {
    if |lines| > 0 {
      LemmaLinesEdges(lines[1..]);
    }
  }

  /** The comma-separated fields of the lemma text, stripped. */
  function Fields(response: string): (fs: seq<string>)
    ensures |fs| >= 1
  {
    var parts := Split(LemmaSource(response), ',');
    seq(|parts|, i requires 0 <= i < |parts| => Strip(parts[i]))
  }

  /** The fields whose image under `norm` is longer than one character, mapped through `norm`, in order. */
  function Candidates(fields: seq<string>, norm: string -> string): (r: seq<string>)
    ensures forall i :: 0 <= i < |r| ==> |r[i]| > 1
    ensures forall i :: 0 <= i < |r| ==> exists j :: 0 <= j < |fields| && r[i] == norm(fields[j])
    ensures forall j :: 0 <= j < |fields| && |norm(fields[j])| > 1 ==> norm(fields[j]) in r
  {
    if |fields| == 0 then []
    else
      var n := norm(fields[0]);
      var rest := Candidates(fields[1..], norm);
      var r := if |n| > 1 then [n] + rest else rest;
      CandidatesStep(fields, norm, rest, r);
      r
  }

  lemma CandidatesStep(fields: seq<string>, norm: string -> string, rest: seq<string>, r: seq<string>)
    requires |fields| > 0
    requires forall i :: 0 <= i < |rest| ==> exists j :: 0 <= j < |fields[1..]| && rest[i] == norm(fields[1..][j])
    requires forall j :: 0 <= j < |fields[1..]| && |norm(fields[1..][j])| > 1 ==> norm(fields[1..][j]) in rest
    requires r == if |norm(fields[0])| > 1 then [norm(fields[0])] + rest else rest
    ensures forall i :: 0 <= i < |r| ==> exists j :: 0 <= j < |fields| && r[i] == norm(fields[j])
    ensures forall j :: 0 <= j < |fields| && |norm(fields[j])| > 1 ==> norm(fields[j]) in r
  {
    forall i | 0 <= i < |rest|
      ensures exists j :: 0 <= j < |fields| && rest[i] == norm(fields[j])
    {
      var j :| 0 <= j < |fields[1..]| && rest[i] == norm(fields[1..][j]);
      assert fields[1..][j] == fields[j + 1];
    }
    forall j | 1 <= j < |fields| && |norm(fields[j])| > 1
      ensures norm(fields[j]) in rest
    {
      assert fields[j] == fields[1..][j - 1];
    }
  }

  /**
   * `_parse_llava_response` and `_extract_raw_lemmas`: the distinct
   * normalised lemmas of an answer, in the order they first appear.
   */
  function ExtractLemmas(response: string): (r: seq<string>)
    ensures response == "" ==> r == []
    ensures NoDup(r)
    ensures forall i :: 0 <= i < |r| ==> |r[i]| > 1 && NormalLemma(r[i])
  {
    if response == "" then []
    else
      NormalizedAreNormal();
      DistinctLemmas(Fields(response), NormalizeLemma)
  }

  /**
   * Every extracted lemma is the normalised form of a field, and every field
   * whose normalised form is longer than one character gives a lemma.
   */
  lemma ExtractLemmasFields(response: string)
    requires response != ""
    ensures var r := ExtractLemmas(response); var fields := Fields(response);
      && (forall i :: 0 <= i < |r| ==> exists j :: 0 <= j < |fields| && r[i] == NormalizeLemma(fields[j]))
      && (forall j :: 0 <= j < |fields| && |NormalizeLemma(fields[j])| > 1 ==> NormalizeLemma(fields[j]) in r)
  {
    NormalizedAreNormal();
  }

  /** The extracted lemmas come in the order of their first appearance among the candidates. */
  lemma ExtractLemmasOrder(response: string)
    requires response != ""
    ensures var r := ExtractLemmas(response); var c := Candidates(Fields(response), NormalizeLemma);
      forall i, j :: 0 <= i < j < |r| ==> FirstIndex(c, r[i]) < FirstIndex(c, r[j])
  {
    NormalizedAreNormal();
  }

  /** The distinct long enough images of some fields under a normalisation, in order of first appearance. */
  function DistinctLemmas(fields: seq<string>, norm: string -> string): (r: seq<string>)
    requires forall x :: NormalLemma(norm(x))
    ensures NoDup(r)
    ensures forall i :: 0 <= i < |r| ==> |r[i]| > 1 && NormalLemma(r[i])
    ensures forall i :: 0 <= i < |r| ==> exists j :: 0 <= j < |fields| && r[i] == norm(fields[j])
    ensures forall j :: (0 <= j < |fields| && |norm(fields[j])| > 1 ==> norm(fields[j]) in r)
    ensures forall i, j :: 0 <= i < j < |r| ==>
      FirstIndex(Candidates(fields, norm), r[i]) < FirstIndex(Candidates(fields, norm), r[j])
  {
    var r := Dedup(Candidates(fields, norm));
    DistinctCandidates(fields, norm, r);
    r
  }

  /** Every normalised lemma has the normal shape. */
  lemma NormalizedAreNormal()
    ensures forall x :: NormalLemma(NormalizeLemma(x))
  {
    forall x ensures NormalLemma(NormalizeLemma(x)) {
      var r := NormalizeLemma(x);
    }
  }

  /** The distinct candidates of some fields are normalised fields, and every long enough one is there. */
  lemma DistinctCandidates(fields: seq<string>, norm: string -> string, r: seq<string>)
    requires forall x :: NormalLemma(norm(x))
    requires r == Dedup(Candidates(fields, norm))
    ensures forall i :: 0 <= i < |r| ==> |r[i]| > 1 && NormalLemma(r[i])
    ensures forall i :: 0 <= i < |r| ==> exists j :: 0 <= j < |fields| && r[i] == norm(fields[j])
    ensures forall j :: (0 <= j < |fields| && |norm(fields[j])| > 1 ==> norm(fields[j]) in r)
  {
    forall i | 0 <= i < |r|
      ensures |r[i]| > 1 && NormalLemma(r[i])
      ensures exists j :: 0 <= j < |fields| && r[i] == norm(fields[j])
    {
      DistinctCandidate(fields, norm, r, i);
    }
    forall j | 0 <= j < |fields| && |norm(fields[j])| > 1
      ensures norm(fields[j]) in r
    {
      var c := Candidates(fields, norm);
      assert norm(fields[j]) in c;
    }
  }

  lemma DistinctCandidate(fields: seq<string>, norm: string -> string, r: seq<string>, i: nat)
    requires forall x :: NormalLemma(norm(x))
    requires r == Dedup(Candidates(fields, norm)) && i < |r|
    ensures |r[i]| > 1 && NormalLemma(r[i])
    ensures exists j :: 0 <= j < |fields| && r[i] == norm(fields[j])
  {
    var c := Candidates(fields, norm);
    assert r[i] in c;
    var k :| 0 <= k < |c| && c[k] == r[i];
    var j :| 0 <= j < |fields| && c[k] == norm(fields[j]);
  }

  /** Stripping a string whose last character survives only strips its front. */
  lemma {:induction false} StripFront(s: string, p: char -> bool)
    requires s != "" && !p(s[|s| - 1])
    ensures StripBy(s, p) == s[LeadLen(s, p)..]
    decreases |s|
  {
    if p(s[0]) {
      StripFront(s[1..], p);
      assert s[1..][LeadLen(s[1..], p)..] == s[1 + LeadLen(s[1..], p)..];
    }
  }

  /** The last part of a split is what follows the last separator. */
  lemma {:induction false} SplitLast(x: string, sep: char, b: string)
    requires sep !in b
    ensures var parts := Split(x + [sep] + b, sep); parts[|parts| - 1] == b
    decreases |x|
  {
    var s := x + [sep] + b;
    var k := IndexOf(s, sep);
    FirstSeparator(x, sep, b);
    SplitTail(s, sep, k);
    if k == |x| {
      SplitWithout(b, sep);
    } else {
      SplitLast(x[k + 1..], sep, b);
    }
    LastOfCons(s[..k], Split(s[k + 1..], sep));
  }

  /** Where the first separator of `x + [sep] + b` falls, and what follows it. */
  lemma FirstSeparator(x: string, sep: char, b: string)
    ensures var s, k := x + [sep] + b, IndexOf(x + [sep] + b, sep);
      && k <= |x|
      && (k == |x| ==> s[k + 1..] == b)
      && (k < |x| ==> s[k + 1..] == x[k + 1..] + [sep] + b)
  {
    var s := x + [sep] + b;
    assert s[|x|] == sep;
  }

  /** A split after a separator is the part before it followed by the split of what follows it. */
  lemma SplitTail(s: string, sep: char, k: nat)
    requires k == IndexOf(s, sep) < |s|
    ensures Split(s, sep) == [s[..k]] + Split(s[k + 1..], sep)
  {
  }

  /** The last element of a non-empty list is the last element of that list with an element in front. */
  lemma LastOfCons(x: string, xs: seq<string>)
    requires |xs| > 0
    ensures ([x] + xs)[|xs|] == xs[|xs| - 1]
  {
  }

  /** A text without the separator splits into itself. */
  lemma SplitWithout(b: string, sep: char)
    requires sep !in b
    ensures Split(b, sep) == [b]
  {
    assert IndexOf(b, sep) == |b|;
  }

  lemma BodyAfterColon(a: string, b: string)
    requires ':' !in b && b != "" && !IsSpace(b[0]) && !IsSpace(b[|b| - 1])
    ensures Body(a + ":" + b) == b
  {
    var k := StripBeforeColon(a, b);
    var s := Strip(a + ":" + b);
    SplitLast(a[k..], ':', b);
    assert ':' in s by { assert s[|a| - k] == ':'; }
    var parts := Split(s, ':');
    assert parts[|parts| - 1] == b;
    assert Strip(b) == b;
  }

  /** Stripping an answer whose tail after its last `:` is already stripped only trims its front. */
  lemma StripBeforeColon(a: string, b: string) returns (k: nat)
    requires b != "" && !IsSpace(b[|b| - 1])
    ensures k <= |a| && Strip(a + ":" + b) == a[k..] + ":" + b
  {
    var s0 := a + ":" + b;
    assert s0[|a|] == ':';
    StripFront(s0, IsSpace);
    k := LeadLen(s0, IsSpace);
    assert s0[k..] == a[k..] + ":" + b;
  }

  /** Only the text after the last `:` of an answer matters. */
  lemma OnlyAfterLastColon(a: string, b: string)
    requires ':' !in b && b != "" && !IsSpace(b[0]) && !IsSpace(b[|b| - 1])
    ensures ExtractLemmas(a + ":" + b) == ExtractLemmas(b)
  {
    BodyAfterColon(a, b);
    assert Body(b) == b;
    assert LemmaSource(a + ":" + b) == LemmaSource(b);
    assert Fields(a + ":" + b) == Fields(b);
  }
}
