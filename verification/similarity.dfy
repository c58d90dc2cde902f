/**
 * The similarity calculator: string normalisation, character n-grams, the
 * per-algorithm score, the batch path and best-match selection.
 */
module Similarity {
  import opened Wrappers
  import opened Text
  import opened Transliteration
  import opened Externals

  /** The algorithms a calculator can be built with. */
  datatype Algorithm = Lexical | Semantic | JaroWinklerOnly | NgramCosine | JaroCosine | Hybrid

  /** The name under which each algorithm is selected. */
  function AlgorithmName(a: Algorithm): string
  {
    match a
    case Lexical => "lexical"
    case Semantic => "semantic"
    case JaroWinklerOnly => "jaro_winkler"
    case NgramCosine => "cosine"
    case JaroCosine => "jaro_cosine"
    case Hybrid => "hybrid"
  }

  /**
   * The algorithm a name selects; every name that is not one of the five
   * specific ones falls through to the hybrid default.
   */
  function AlgorithmFromName(name: string): (a: Algorithm)
    ensures AlgorithmName(a) == name || a == Hybrid
    ensures a == Hybrid <==> forall b :: b != Hybrid ==> AlgorithmName(b) != name
  {
    if name == "lexical" then Lexical
    else if name == "semantic" then Semantic
    else if name == "jaro_winkler" then JaroWinklerOnly
    else if name == "cosine" then NgramCosine
    else if name == "jaro_cosine" then JaroCosine
    else Hybrid
  }

  /** Selecting an algorithm by its own name gives it back. */
  lemma AlgorithmNameRoundTrip(a: Algorithm)
    ensures AlgorithmFromName(AlgorithmName(a)) == a
  {
  }

  /**
   * `_normalize_cached`: lower-case, transliterate, turn `_` and `-` into
   * blanks, then collapse every run of blanks into one space.
   */
  function Normalize(s: string): (r: string)
    ensures '_' !in r && '-' !in r
    ensures SingleSpaced(r)
    ensures Words(r) == Words(ReplaceChar(ReplaceChar(Unidecode(Lower(s)), '_', ' '), '-', ' '))
  {
    var x := ReplaceChar(ReplaceChar(Unidecode(Lower(s)), '_', ' '), '-', ' ');
    var ws := Words(x);
    var j := Join(ws, " ");
    JoinWordsSingleSpaced(ws);
    WordsJoin(ws);
    assert Strip(j) == j;
    assert Avoids(x, '_') && Avoids(x, '-');
    WordsAvoid(x, '_');
    WordsAvoid(x, '-');
    JoinAvoids(ws, '_');
    JoinAvoids(ws, '-');
    Strip(j)
  }

  lemma {:induction false} JoinAvoids(ws: seq<string>, c: char)
    requires c != ' '
    requires forall i :: 0 <= i < |ws| ==> Avoids(ws[i], c)
    ensures c !in Join(ws, " ")
  {
    if |ws| > 1 {
      JoinAvoids(ws[1..], c);
      assert Join(ws, " ") == ws[0] + " " + Join(ws[1..], " ");
      assert c !in ws[0];
    } else if |ws| == 1 {
      assert c !in ws[0];
    }
  }

  /**
   * `_get_ngrams_cached(text, n)`: the windows of width `n` over `$text$`,
   * left to right.
   */
  function Ngrams(text: string, n: nat): (grams: seq<string>)
    ensures |grams| == if n <= |text| + 2 then |text| + 3 - n else 0
    ensures forall i :: 0 <= i < |grams| ==> |grams[i]| == n
    ensures forall i :: 0 <= i < |grams| ==> grams[i] == ("$" + text + "$")[i..i + n]
  {
    var padded := "$" + text + "$";
    if n <= |padded| then seq(|padded| - n + 1, i requires 0 <= i <= |padded| - n => padded[i..i + n])
    else []
  }

  /**
   * Neighbouring n-grams overlap in all but one character, the first starts
   * with the `$` marker and the last ends with it.
   */
  lemma NgramsOverlap(text: string, n: nat)
    requires 1 <= n <= |text| + 2
    ensures Ngrams(text, n)[0][0] == '$'
    ensures Ngrams(text, n)[|Ngrams(text, n)| - 1][n - 1] == '$'
    ensures forall i :: 0 <= i < |Ngrams(text, n)| - 1 ==> Ngrams(text, n)[i][1..] == Ngrams(text, n)[i + 1][..n - 1]
  {
    var padded := "$" + text + "$";
    var g := Ngrams(text, n);
    assert g[|g| - 1] == padded[|padded| - n..];
  }

  function Max(a: real, b: real): real
  {
    if a >= b then a else b
  }

  function Min(a: real, b: real): real
  {
    if a <= b then a else b
  }

  /**
   * `_lexical_similarity`: Jaro-Winkler raised by 10% when the two share a
   * three-letter prefix and by 15% when one contains the other, each time
   * clamped to 1.
   */
  function LexicalSimilarity(o: Oracles, s1: string, s2: string): (r: real)
    ensures s1 == "" || s2 == "" ==> r == 0.0
    ensures s1 != "" && s2 != "" ==> o.jaroWinkler(s1, s2) as real <= r <= 1.0
    ensures s1 != "" && s2 != "" && r != o.jaroWinkler(s1, s2) as real ==>
              (|s1| >= 3 && |s2| >= 3 && (IsPrefix(s2[..3], s1) || IsPrefix(s1[..3], s2)))
              || Contains(s2, s1) || Contains(s1, s2)
  {
    if s1 == "" || s2 == "" then 0.0
    else
      var jw := o.jaroWinkler(s1, s2) as real;
      var prefixed :=
        if |s1| >= 3 && |s2| >= 3 && (IsPrefix(s2[..3], s1) || IsPrefix(s1[..3], s2)) then Min(1.0, jw * 1.1)
        else jw;
      if Contains(s2, s1) || Contains(s1, s2) then Min(1.0, prefixed * 1.15) else prefixed
  }

  /** `_jaro_winkler_similarity`: Jaro-Winkler without bonuses, 0 on empty input. */
  function JaroWinklerSimilarity(o: Oracles, s1: string, s2: string): (r: real)
    ensures 0.0 <= r <= 1.0
    ensures s1 == "" || s2 == "" ==> r == 0.0
  {
    if s1 == "" || s2 == "" then 0.0 else o.jaroWinkler(s1, s2) as real
  }

  /** `_cosine_ngram_similarity`: the cosine of the two bigram bags, 0 on empty input. */
  function NgramCosineSimilarity(o: Oracles, s1: string, s2: string): (r: real)
    ensures 0.0 <= r <= 1.0
    ensures s1 == "" || s2 == "" ==> r == 0.0
  {
    if s1 == "" || s2 == "" then 0.0 else o.gramCosine(Ngrams(s1, 2), Ngrams(s2, 2)) as real
  }

  /** `_semantic_similarity`: the embedding cosine mapped from [-1, 1] onto [0, 1]. */
  function SemanticSimilarity(o: Oracles, s1: string, s2: string): (r: real)
    ensures 0.0 <= r <= 1.0
    ensures s1 == "" || s2 == "" ==> r == 0.0
    ensures s1 != "" && s2 != "" ==> 2.0 * r - 1.0 == o.embeddingCosine(s1, s2) as real
  {
    if s1 == "" || s2 == "" then 0.0 else (o.embeddingCosine(s1, s2) as real + 1.0) / 2.0
  }

  /**
   * `calculate_similarity`: 1 when the normalised strings agree, otherwise
   * the score of the selected algorithm; always within [0, 1].
   */
  function CalculateSimilarity(o: Oracles, alg: Algorithm, word: string, term: string): (r: real)
    ensures 0.0 <= r <= 1.0
    ensures Normalize(word) == Normalize(term) ==> r == 1.0
  {
    var a := Normalize(word);
    var b := Normalize(term);
    if a == b then 1.0
    else match alg
      case Lexical => LexicalSimilarity(o, a, b)
      case Semantic => SemanticSimilarity(o, word, term)
      case JaroWinklerOnly => JaroWinklerSimilarity(o, a, b)
      case NgramCosine => NgramCosineSimilarity(o, a, b)
      case JaroCosine => Max(JaroWinklerSimilarity(o, a, b), NgramCosineSimilarity(o, a, b))
      case Hybrid => Max(LexicalSimilarity(o, a, b), SemanticSimilarity(o, word, term))
  }

  /**
   * Which score each algorithm returns for strings that normalise apart:
   * the lexical, Jaro-Winkler and n-gram scores and their combination read
   * the normalised strings, the semantic score reads the raw ones, and the
   * hybrid score is the larger of the lexical and semantic scores.
   */
  lemma CalculateDispatch(o: Oracles, alg: Algorithm, word: string, term: string)
    requires Normalize(word) != Normalize(term)
    ensures var r, a, b := CalculateSimilarity(o, alg, word, term), Normalize(word), Normalize(term);
      && (alg == Lexical ==> r == LexicalSimilarity(o, a, b))
      && (alg == Semantic ==> r == SemanticSimilarity(o, word, term))
      && (alg == JaroWinklerOnly ==> r == JaroWinklerSimilarity(o, a, b))
      && (alg == NgramCosine ==> r == NgramCosineSimilarity(o, a, b))
      && (alg == JaroCosine ==> r == Max(JaroWinklerSimilarity(o, a, b), NgramCosineSimilarity(o, a, b)))
      && (alg == Hybrid ==> r == Max(LexicalSimilarity(o, a, b), SemanticSimilarity(o, word, term)))
  {
  }

  /** Every name that selects no specific algorithm scores exactly as the hybrid one. */
  lemma UnknownNameIsHybrid(o: Oracles, name: string, word: string, term: string)
    requires forall b :: b != Hybrid ==> AlgorithmName(b) != name
    ensures CalculateSimilarity(o, AlgorithmFromName(name), word, term) == CalculateSimilarity(o, Hybrid, word, term)
  {
  }

  /** The scores of `word` against every term, in list order. */
  function Scores(o: Oracles, alg: Algorithm, word: string, terms: seq<string>): (s: seq<real>)
    ensures |s| == |terms|
    ensures forall i :: 0 <= i < |terms| ==> s[i] == CalculateSimilarity(o, alg, word, terms[i])
  {
    seq(|terms|, i requires 0 <= i < |terms| => CalculateSimilarity(o, alg, word, terms[i]))
  }

  /**
   * CPU path of `batch_similarity`: a dictionary from each term to its
   * score, filled in list order.
   */
  method BatchSimilarity(o: Oracles, alg: Algorithm, word: string, terms: seq<string>)
    returns (m: map<string, real>)
    ensures m.Keys == set t | t in terms
    ensures forall t :: t in m ==> m[t] == CalculateSimilarity(o, alg, word, t)
  {
    m := map[];
    if |terms| == 0 {
      return;
    }
    var i := 0;
    while i < |terms|
      invariant 0 <= i <= |terms|
      invariant m.Keys == Elements(terms[..i])
      invariant forall t :: t in m ==> m[t] == CalculateSimilarity(o, alg, word, t)
    {
      PrefixElements(terms, i);
      m := m[terms[i] := CalculateSimilarity(o, alg, word, terms[i])];
      i := i + 1;
    }
    assert terms[..i] == terms;
  }

  function Elements(xs: seq<string>): set<string>
  {
    set t | t in xs
  }

  /** The elements of a one-longer prefix: those of the prefix and the next one. */
  lemma PrefixElements(terms: seq<string>, i: nat)
    requires i < |terms|
    ensures Elements(terms[..i + 1]) == Elements(terms[..i]) + {terms[i]}
  {
    assert terms[..i + 1] == terms[..i] + [terms[i]];
  }

  /** A score that can be selected: at least the threshold and above the initial best of 0. */
  predicate Qualifies(score: real, threshold: real)
  {
    score >= threshold && score > 0.0
  }

  /**
   * `k` is the first index with the greatest score among those at or above
   * the threshold, and that score qualifies.
   */
  ghost predicate IsBestIndex(scores: seq<real>, threshold: real, k: nat)
  {
    && k < |scores|
    && Qualifies(scores[k], threshold)
    && (forall j :: 0 <= j < |scores| && scores[j] >= threshold ==> scores[j] <= scores[k])
    && (forall j :: 0 <= j < k && scores[j] >= threshold ==> scores[j] < scores[k])
  }

  /** At most one index is the best one: ties go to the earliest. */
  lemma BestIndexUnique(scores: seq<real>, threshold: real, k1: nat, k2: nat)
    requires IsBestIndex(scores, threshold, k1) && IsBestIndex(scores, threshold, k2)
    ensures k1 == k2
  {
  }

  datatype Pick = Pick(index: Option<nat>, score: real)

  /**
   * The scan of `find_best_match` over a list of scores: a score replaces
   * the best so far when it is strictly greater and meets the threshold.
   */
  function PickBest(scores: seq<real>, threshold: real): (p: Pick)
    ensures p.index.None? <==> forall i :: 0 <= i < |scores| ==> !Qualifies(scores[i], threshold)
    ensures p.index.None? ==> p.score == 0.0
    ensures p.index.Some? ==> IsBestIndex(scores, threshold, p.index.value) && p.score == scores[p.index.value]
  {
    if |scores| == 0 then Pick(None, 0.0)
    else
      var n := |scores| - 1;
      var prev := PickBest(scores[..n], threshold);
      assert forall i :: 0 <= i < n ==> scores[..n][i] == scores[i];
      if scores[n] > prev.score && scores[n] >= threshold then Pick(Some(n), scores[n]) else prev
  }

  datatype Match = Match(term: Option<string>, score: real)

  /**
   * `find_best_match`: the first term with the greatest qualifying score,
   * or `(None, 0.0)` when the list is empty or no score qualifies.
   */
  function FindBestMatch(o: Oracles, alg: Algorithm, word: string, terms: seq<string>, threshold: real): (r: Match)
    ensures |terms| == 0 ==> r == Match(None, 0.0)
    ensures r.term.None? <==> forall i :: 0 <= i < |terms| ==> !Qualifies(CalculateSimilarity(o, alg, word, terms[i]), threshold)
    ensures r.term.None? ==> r.score == 0.0
    ensures r.term.Some? ==>
      && r.term.value in terms
      && r.score == CalculateSimilarity(o, alg, word, r.term.value)
      && Qualifies(r.score, threshold)
      && r.score <= 1.0
      && (forall t :: t in terms && CalculateSimilarity(o, alg, word, t) >= threshold ==> CalculateSimilarity(o, alg, word, t) <= r.score)
    ensures r.term.Some? ==> exists k: nat :: IsBestIndex(Scores(o, alg, word, terms), threshold, k) && terms[k] == r.term.value
  {
    if |terms| == 0 then Match(None, 0.0)
    else
      var scores := Scores(o, alg, word, terms);
      var p := PickBest(scores, threshold);
      if p.index.Some? then
        var k := p.index.value;
        assert IsBestIndex(scores, threshold, k);
        assert forall t :: t in terms && CalculateSimilarity(o, alg, word, t) >= threshold ==> CalculateSimilarity(o, alg, word, t) <= p.score by {
          forall t | t in terms && CalculateSimilarity(o, alg, word, t) >= threshold
            ensures CalculateSimilarity(o, alg, word, t) <= p.score
          {
            var j :| 0 <= j < |terms| && terms[j] == t;
            assert scores[j] >= threshold;
          }
        }
        Match(Some(terms[k]), p.score)
      else Match(None, p.score)
  }
}
