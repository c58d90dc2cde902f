/**
 * The two ways the structured extractor turns a model's answer into a plant
 * analysis: the `KEY: value` answer of the structured prompt, and the
 * comma-separated lemmas of the free prompt, whose missing link is inferred
 * from the Satellites found.
 */
module Analysis {
  import opened Wrappers
  import opened Text
  import opened Externals
  import opened Validator
  import opened LemmaText

  /** `StructuredPlantAnalysis`. */
  datatype PlantAnalysis = PlantAnalysis(
    plante: string,
    estMalade: bool,
    hub: string,
    link: string,
    satellites: seq<string>,
    typeProbleme: Option<string>,
    nomProbleme: Option<string>,
    symptomes: seq<string>,
    etatFeuille: string,
    couleurFeuille: string,
    lemmesBruts: seq<string>,
    lemmesValides: seq<string>,
    lemmesCorriges: Dict<string>,
    confidence: real,
    timestamp: string)

  /** The term lists of the ontology an analysis reads, named as in `SATELLITES`. */
  datatype Lists = Lists(
    categories: seq<Category>,
    symptoms: seq<string>,
    healthyLeaf: seq<string>,
    sickLeaf: seq<string>,
    leaf: seq<string>,
    healthyColour: seq<string>,
    sickColour: seq<string>,
    colour: seq<string>)

  /** The lists of the validator's ontology. */
  const Ontology: Lists :=
    Lists(Satellites, Symptoms, HealthyLeafStates, SickLeafStates, LeafStates, HealthyColours, SickColours, Colours)

  // Dictionaries with string keys, in insertion order

  type Dict<V> = seq<(string, V)>

  function Keys<V>(d: Dict<V>): seq<string>
  {
    seq(|d|, i requires 0 <= i < |d| => d[i].0)
  }

  function Get<V>(d: Dict<V>, k: string): (r: Option<V>)
    ensures r.Some? <==> k in Keys(d)
  {
    assert |d| > 0 ==> Keys(d) == [d[0].0] + Keys(d[1..]);
    if |d| == 0 then None
    else if d[0].0 == k then Some(d[0].1)
    else
      Get(d[1..], k)
  }

  /** `d[k] = v`: replaces the value of a present key in place, or appends a new entry. */
  function Put<V>(d: Dict<V>, k: string, v: V): (r: Dict<V>)
    ensures Get(r, k) == Some(v)
    ensures forall k' :: k' != k ==> Get(r, k') == Get(d, k')
    ensures k in Keys(d) ==> Keys(r) == Keys(d)
    ensures k !in Keys(d) ==> Keys(r) == Keys(d) + [k]
    ensures forall e :: e in r ==> e in d || e == (k, v)
  {
    if |d| == 0 then [(k, v)]
    else if d[0].0 == k then [(k, v)] + d[1..]
    else
      var rest := Put(d[1..], k, v);
      assert Keys(d) == [d[0].0] + Keys(d[1..]);
      assert k in Keys(d) <==> k in Keys(d[1..]);
      assert Keys([d[0]] + rest) == [d[0].0] + Keys(rest);
      [d[0]] + rest
  }

  /** The values of a dictionary, in key order. */
  function Values<V>(d: Dict<V>): seq<V>
  {
    seq(|d|, i requires 0 <= i < |d| => d[i].1)
  }

  /** The stored entry is present afterwards, and so is every entry with another key. */
  lemma {:induction false} PutKeepsEntries<V>(d: Dict<V>, k: string, v: V)
    ensures (k, v) in Put(d, k, v)
    ensures forall e :: e in d && e.0 != k ==> e in Put(d, k, v)
  {
    if |d| > 0 && d[0].0 != k {
      PutKeepsEntries(d[1..], k, v);
      assert forall e :: e in d ==> e == d[0] || e in d[1..];
    } else if |d| > 0 {
      assert forall e :: e in d ==> e == d[0] || e in d[1..];
    }
  }

  lemma PutKeepsKeysDistinct<V>(d: Dict<V>, k: string, v: V)
    requires NoDup(Keys(d))
    ensures NoDup(Keys(Put(d, k, v)))
  {
  }

  // The structured answer

  /** The values that stand for "no value". */
  const NoValue: seq<string> := ["aucun", "none", "n/a", "non_applicable", ""]

  /**
   * One line of the answer: when it holds a `:`, the upper-cased key before
   * the first `:` and the cleaned value after it (None for the "no value"
   * words).
   */
  function ParseLine(line: string): (r: Option<(string, Option<string>)>)
    ensures r.Some? <==> ':' in line
    ensures r.Some? && r.value.1.Some? ==> r.value.1.value !in NoValue
  {
    var k := IndexOf(line, ':');
    if k == |line| then None
    else
      var value := NormalizeTerm(Strip(line[k + 1..]));
      Some((Upper(Strip(line[..k])), if value in NoValue then None else Some(value)))
  }

  /** No entry holds one of the "no value" words. */
  predicate CleanValues(d: Dict<Option<string>>)
  {
    forall e :: e in d && e.1.Some? ==> e.1.value !in NoValue
  }

  /** The keys of the present entries, in order and with repeats. */
  function EntryKeys<V>(entries: seq<Option<(string, V)>>): (ks: seq<string>)
    ensures forall k :: k in ks <==> exists i :: 0 <= i < |entries| && entries[i].Some? && entries[i].value.0 == k
  {
    if |entries| == 0 then []
    else
      var n := |entries| - 1;
      assert forall i :: 0 <= i < n ==> entries[i] == entries[..n][i];
      EntryKeys(entries[..n]) + (if entries[n].Some? then [entries[n].value.0] else [])
  }

  /** Entry `i` is present and no later entry has its key. */
  predicate LastOfKey<V>(entries: seq<Option<(string, V)>>, i: int)
    requires 0 <= i < |entries|
  {
    entries[i].Some? && forall j :: i < j < |entries| && entries[j].Some? ==> entries[j].value.0 != entries[i].value.0
  }

  /**
   * The parsed lines' entries stored in order, a later entry overwriting an
   * earlier one with the same key: the keys come in order of first
   * appearance and each holds the value of the last entry with that key.
   */
  function Collect(entries: seq<Option<(string, Option<string>)>>): (d: Dict<Option<string>>)
    ensures NoDup(Keys(d))
    ensures forall e :: e in d ==> Some(e) in entries
    ensures Keys(d) == Dedup(EntryKeys(entries))
    ensures forall i :: 0 <= i < |entries| && LastOfKey(entries, i) ==> entries[i].value in d
  {
    if |entries| == 0 then []
    else
      var n := |entries| - 1;
      var d := Collect(entries[..n]);
      CollectKeysStep(entries, d);
      CollectValuesStep(entries, entries[..n], d);
      match entries[n]
      case None => d
      case Some((k, v)) => Put(d, k, v)
  }

  /** Storing the last entry keeps the keys in order of first appearance. */
  lemma CollectKeysStep(entries: seq<Option<(string, Option<string>)>>, d: Dict<Option<string>>)
    requires |entries| > 0
    requires Keys(d) == Dedup(EntryKeys(entries[..|entries| - 1]))
    ensures var n := |entries| - 1;
      var r := if entries[n].Some? then Put(d, entries[n].value.0, entries[n].value.1) else d;
      Keys(r) == Dedup(EntryKeys(entries))
  {
    var n := |entries| - 1;
    var ks := EntryKeys(entries);
    if entries[n].Some? {
      assert ks == EntryKeys(entries[..n]) + [entries[n].value.0];
      assert ks[..|ks| - 1] == EntryKeys(entries[..n]);
    } else {
      assert ks == EntryKeys(entries[..n]);
    }
  }

  /** Storing the last entry keeps the value of every key's last entry. */
  lemma CollectValuesStep(entries: seq<Option<(string, Option<string>)>>, pre: seq<Option<(string, Option<string>)>>, d: Dict<Option<string>>)
    requires |entries| > 0 && pre == entries[..|entries| - 1]
    requires forall i :: 0 <= i < |pre| && LastOfKey(pre, i) ==> pre[i].value in d
    ensures var n := |entries| - 1;
      var r := if entries[n].Some? then Put(d, entries[n].value.0, entries[n].value.1) else d;
      forall i :: 0 <= i < |entries| && LastOfKey(entries, i) ==> entries[i].value in r
  {
    var n := |entries| - 1;
    if entries[n].Some? {
      PutKeepsEntries(d, entries[n].value.0, entries[n].value.1);
    }
    forall i | 0 <= i < n && LastOfKey(entries, i)
      ensures LastOfKey(entries[..n], i) && entries[i].value in d
    {
      assert entries[..n][i] == entries[i];
      forall j | i < j < n && entries[..n][j].Some?
        ensures entries[..n][j].value.0 != entries[..n][i].value.0
      {
        assert entries[..n][j] == entries[j];
      }
    }
  }

  /** The parsed lines, one entry per line. */
  function Entries(lines: seq<string>): (entries: seq<Option<(string, Option<string>)>>)
    ensures |entries| == |lines|
    ensures forall i :: 0 <= i < |lines| ==> entries[i] == ParseLine(lines[i])
  {
    seq(|lines|, i requires 0 <= i < |lines| => ParseLine(lines[i]))
  }

  /**
   * The entries of the answer's lines: one key per line holding a `:`, in
   * order of first appearance, each with the value of its last line.
   */
  function ParseData(lines: seq<string>): (d: Dict<Option<string>>)
    ensures NoDup(Keys(d))
    ensures CleanValues(d)
    ensures forall i :: 0 <= i < |lines| && ':' in lines[i] ==> ParseLine(lines[i]).value.0 in Keys(d)
    ensures Keys(d) == Dedup(EntryKeys(Entries(lines)))
    ensures forall i :: 0 <= i < |lines| && LastOfKey(Entries(lines), i) ==> ParseLine(lines[i]).value in d
  {
    var entries := Entries(lines);
    var d := Collect(entries);
    assert forall i :: 0 <= i < |lines| && ':' in lines[i] ==> entries[i].value.0 in EntryKeys(entries);
    assert forall e :: e in d && e.1.Some? ==> e.1.value !in NoValue by {
      forall e | e in d && e.1.Some?
        ensures e.1.value !in NoValue
      {
        var i :| 0 <= i < |entries| && entries[i] == Some(e);
      }
    }
    d
  }

  /** `response.strip().split("\n")`, parsed into the answer's entries. */
  function StructuredData(response: string): Dict<Option<string>>
  {
    ParseData(Split(Strip(response), '\n'))
  }

  /** `data.get(key)`: None both for a missing key and for a "no value" entry. */
  function Value(data: Dict<Option<string>>, key: string): Option<string>
  {
    match Get(data, key)
    case None => None
    case Some(v) => v
  }

  /** `data.get(key, default)`: the default only for a missing key. */
  function ValueOr(data: Dict<Option<string>>, key: string, default: string): Option<string>
  {
    match Get(data, key)
    case None => Some(default)
    case Some(v) => v
  }

  /** `validate_term` on a value that may be None, which it rejects. */
  function ValidateOpt(o: Oracles, v: Option<string>, terms: seq<string>): (r: Option<string>)
    ensures o.Sound() && r.Some? ==> r.value in terms
  {
    if v.None? then None else ValidateTerm(o, v.value, terms, DefaultCutoff)
  }

  /** The satellites gathered so far, and the corrections made, keyed by the uncorrected value. */
  datatype Gathered = Gathered(satellites: seq<string>, corrections: Dict<string>)

  /** Every correction maps a raw value to a different term that is among the Satellites. */
  predicate CorrectionsAmong(corrections: Dict<string>, satellites: seq<string>)
  {
    forall e :: e in corrections ==> e.1 != e.0 && e.1 in satellites
  }

  /** Appends a validated term, recording a correction when it differs from the raw value. */
  function Accept(g: Gathered, raw: string, validated: string): (r: Gathered)
    ensures r.satellites == g.satellites + [validated]
    ensures CorrectionsAmong(g.corrections, g.satellites) ==> CorrectionsAmong(r.corrections, r.satellites)
    ensures validated != raw ==> Get(r.corrections, raw) == Some(validated)
    ensures validated == raw ==> r.corrections == g.corrections
    ensures forall k :: k != raw ==> Get(r.corrections, k) == Get(g.corrections, k)
  {
    Gathered(g.satellites + [validated], if validated != raw then Put(g.corrections, raw, validated) else g.corrections)
  }

  /**
   * The term a leaf entry settles on: the raw value as the list for the
   * plant's health validates it, else as the general list does, else the
   * fallback.
   */
  function Preferred(o: Oracles, raw: Option<string>, specific: seq<string>, general: seq<string>, fallback: string): string
  {
    var first := ValidateOpt(o, raw, specific);
    var second := ValidateOpt(o, raw, general);
    if Truthy(first) then first.value else if Truthy(second) then second.value else fallback
  }

  /**
   * The leaf state or colour: the raw value validated against the list for
   * the plant's health, then against the general list; the health-dependent
   * fallback when neither validates. Returns the chosen term.
   */
  function Observe(o: Oracles, g: Gathered, raw: Option<string>, specific: seq<string>, general: seq<string>, fallback: string)
    : (r: (Gathered, string))
    ensures r.0.satellites == g.satellites + [r.1]
    ensures Truthy(ValidateOpt(o, raw, specific)) ==> r.1 == ValidateOpt(o, raw, specific).value
    ensures !Truthy(ValidateOpt(o, raw, specific)) && Truthy(ValidateOpt(o, raw, general))
      ==> r.1 == ValidateOpt(o, raw, general).value
    ensures !Truthy(ValidateOpt(o, raw, specific)) && !Truthy(ValidateOpt(o, raw, general))
      ==> r.1 == fallback && r.0.corrections == g.corrections
    ensures Truthy(ValidateOpt(o, raw, specific)) || Truthy(ValidateOpt(o, raw, general))
      ==> raw.Some? && r.0 == Accept(g, raw.value, r.1)
    ensures o.Sound() ==> r.1 in specific || r.1 in general || r.1 == fallback
    ensures CorrectionsAmong(g.corrections, g.satellites) ==> CorrectionsAmong(r.0.corrections, r.0.satellites)
  {
    var first := ValidateOpt(o, raw, specific);
    var v := if Truthy(first) then first else ValidateOpt(o, raw, general);
    if Truthy(v) then (Accept(g, raw.value, v.value), v.value)
    else (Gathered(g.satellites + [fallback], g.corrections), fallback)
  }

  /** The link the structured answer's health entries call for. */
  function StructuredLink(sick: bool, problemType: Option<string>): string
  {
    if sick then (if problemType == Some("ravageur") then "has_infestation" else "has_disease")
    else "has_health_status"
  }

  /** The health Satellite that goes with the link. */
  function HealthTerm(sick: bool, problemType: Option<string>): string
  {
    if sick then (if problemType == Some("ravageur") then "infeste" else "malade") else "sain"
  }

  /** The problem name, unless it is absent or one of the "no value" words. */
  function Meaningful(v: Option<string>): bool
  {
    v.Some? && v.value !in ["aucun", "none", "n/a", ""]
  }

  /** The leaf state assumed when the answer has no `ETAT_FEUILLE` entry, and its fallback. */
  function LeafDefault(sick: bool): string
  {
    if sick then "malade" else "saine"
  }

  /** The leaf colour assumed when the answer has no `COULEUR_FEUILLE` entry, and its fallback. */
  function ColourDefault(sick: bool): string
  {
    if sick then "vert_jaunatre" else "vert_fonce"
  }

  /** The leaf state the entries settle on. */
  function LeafState(o: Oracles, ls: Lists, data: Dict<Option<string>>, sick: bool): string
  {
    Preferred(o, ValueOr(data, "ETAT_FEUILLE", LeafDefault(sick)),
              if sick then ls.sickLeaf else ls.healthyLeaf, ls.leaf, LeafDefault(sick))
  }

  /** The leaf colour the entries settle on. */
  function LeafColour(o: Oracles, ls: Lists, data: Dict<Option<string>>, sick: bool): string
  {
    Preferred(o, ValueOr(data, "COULEUR_FEUILLE", ColourDefault(sick)),
              if sick then ls.sickColour else ls.healthyColour, ls.colour, ColourDefault(sick))
  }

  /** The Satellite a problem name contributes: the term some category validates it as, if any. */
  function ProblemTerm(o: Oracles, ls: Lists, name: Option<string>): seq<string>
  {
    if Meaningful(name) && ClassifySatellite(o, name.value, ls.categories).Some?
    then [ClassifySatellite(o, name.value, ls.categories).value.0] else []
  }

  /** The Satellite a symptom contributes: the symptom term it validates as, if any. */
  function SymptomTerm(o: Oracles, ls: Lists, symptom: Option<string>): seq<string>
  {
    if Meaningful(symptom) && Truthy(ValidateTerm(o, symptom.value, ls.symptoms, DefaultCutoff))
    then [ValidateTerm(o, symptom.value, ls.symptoms, DefaultCutoff).value] else []
  }

  /** What the structured answer yields besides its plant and link. */
  datatype Observed = Observed(gathered: Gathered, symptoms: seq<string>, leaf: string, colour: string)

  /** `g` followed by more Satellites, with the same first Satellite. */
  predicate Extends(r: Gathered, g: Gathered)
  {
    |r.satellites| >= |g.satellites| && r.satellites[..|g.satellites|] == g.satellites
  }

  /** The problem name, when present and validated by some Satellite category. */
  function AddProblem(o: Oracles, ls: Lists, g: Gathered, name: Option<string>): (r: Gathered)
    ensures Extends(r, g) && |r.satellites| <= |g.satellites| + 1
    ensures Meaningful(name) && ClassifySatellite(o, name.value, ls.categories).Some?
      ==> r == Accept(g, name.value, ClassifySatellite(o, name.value, ls.categories).value.0)
    ensures !(Meaningful(name) && ClassifySatellite(o, name.value, ls.categories).Some?) ==> r == g
  {
    var named := if Meaningful(name) then ClassifySatellite(o, name.value, ls.categories) else None;
    if named.Some? then Accept(g, name.value, named.value.0) else g
  }

  /** The symptom, when present and validated by the symptom list; also returned on its own. */
  function AddSymptom(o: Oracles, ls: Lists, g: Gathered, symptom: Option<string>): (r: (Gathered, seq<string>))
    ensures Extends(r.0, g)
    ensures forall i :: 0 <= i < |r.1| ==> r.1[i] in r.0.satellites
    ensures Meaningful(symptom) && Truthy(ValidateTerm(o, symptom.value, ls.symptoms, DefaultCutoff))
      ==> r == (Accept(g, symptom.value, ValidateTerm(o, symptom.value, ls.symptoms, DefaultCutoff).value),
                [ValidateTerm(o, symptom.value, ls.symptoms, DefaultCutoff).value])
    ensures !(Meaningful(symptom) && Truthy(ValidateTerm(o, symptom.value, ls.symptoms, DefaultCutoff))) ==> r == (g, [])
  {
    var sv := if Meaningful(symptom) then ValidateTerm(o, symptom.value, ls.symptoms, DefaultCutoff) else None;
    if Truthy(sv) then (Accept(g, symptom.value, sv.value), [sv.value]) else (g, [])
  }

  /**
   * The Satellites of a structured answer, in order: the health state, the
   * problem name if some category validates it, the symptom if it
   * validates, the leaf state and the leaf colour.
   */
  function StructuredSatellites(o: Oracles, ls: Lists, data: Dict<Option<string>>, sick: bool, problemType: Option<string>)
    : (r: Observed)
    ensures r.leaf == LeafState(o, ls, data, sick)
    ensures r.colour == LeafColour(o, ls, data, sick)
    ensures r.symptoms == SymptomTerm(o, ls, Value(data, "SYMPTOME"))
    ensures r.gathered.satellites
      == [HealthTerm(sick, problemType)] + ProblemTerm(o, ls, Value(data, "NOM_PROBLEME")) + r.symptoms + [r.leaf, r.colour]
    ensures |r.gathered.satellites| >= 3
    ensures r.gathered.satellites[0] == HealthTerm(sick, problemType)
    ensures r.leaf == r.gathered.satellites[|r.gathered.satellites| - 2]
    ensures r.colour == r.gathered.satellites[|r.gathered.satellites| - 1]
    ensures forall i :: 0 <= i < |r.symptoms| ==> r.symptoms[i] in r.gathered.satellites
    ensures CorrectionsAmong(r.gathered.corrections, r.gathered.satellites)
  {
    var f := HealthFindings(o, ls, data, sick, problemType);
    var r := LeafFindings(o, ls, data, sick, f.0, f.1);
    assert r.gathered.satellites == f.0.satellites + [r.leaf, r.colour];
    assert forall i :: 0 <= i < |r.symptoms| ==> r.symptoms[i] == f.0.satellites[|f.0.satellites| - |f.1| + i];
    r
  }

  /** The health state, then the problem name and the symptom as far as they validate. */
  function HealthFindings(o: Oracles, ls: Lists, data: Dict<Option<string>>, sick: bool, problemType: Option<string>)
    : (r: (Gathered, seq<string>))
    ensures r.1 == SymptomTerm(o, ls, Value(data, "SYMPTOME"))
    ensures r.0.satellites == [HealthTerm(sick, problemType)] + ProblemTerm(o, ls, Value(data, "NOM_PROBLEME")) + r.1
    ensures CorrectionsAmong(r.0.corrections, r.0.satellites)
  {
    var g0 := Gathered([HealthTerm(sick, problemType)], []);
    var g1 := AddProblem(o, ls, g0, Value(data, "NOM_PROBLEME"));
    assert g1.satellites == g0.satellites + ProblemTerm(o, ls, Value(data, "NOM_PROBLEME"));
    AddSymptom(o, ls, g1, Value(data, "SYMPTOME"))
  }

  /** The leaf state and then the leaf colour, appended to the Satellites gathered so far. */
  function LeafFindings(o: Oracles, ls: Lists, data: Dict<Option<string>>, sick: bool, g: Gathered, symptoms: seq<string>)
    : (r: Observed)
    ensures r.leaf == LeafState(o, ls, data, sick) && r.colour == LeafColour(o, ls, data, sick)
    ensures r.gathered.satellites == g.satellites + [r.leaf, r.colour] && r.symptoms == symptoms
    ensures CorrectionsAmong(g.corrections, g.satellites) ==> CorrectionsAmong(r.gathered.corrections, r.gathered.satellites)
  {
    var leaf := Observe(o, g, ValueOr(data, "ETAT_FEUILLE", LeafDefault(sick)),
                        if sick then ls.sickLeaf else ls.healthyLeaf, ls.leaf, LeafDefault(sick));
    var colour := Observe(o, leaf.0, ValueOr(data, "COULEUR_FEUILLE", ColourDefault(sick)),
                          if sick then ls.sickColour else ls.healthyColour, ls.colour, ColourDefault(sick));
    Observed(colour.0, symptoms, leaf.1, colour.1)
  }

  /**
   * The fields of a structured analysis as the parsed entries determine
   * them: sickness and link from `EST_MALADE` and `TYPE_PROBLEME`, the
   * Satellites in their fixed order, the "no value" problem type and name
   * recorded as None, the raw lemmas, and the confidence as validated terms
   * (the Satellites and the Hub) over entries.
   */
  predicate FromEntries(o: Oracles, ls: Lists, data: Dict<Option<string>>, a: PlantAnalysis)
  {
    var sick := Value(data, "EST_MALADE") == Some("oui");
    var problemType := Value(data, "TYPE_PROBLEME");
    && a.estMalade == sick
    && a.link == StructuredLink(sick, problemType)
    && a.typeProbleme == (if problemType == Some("aucun") then None else problemType)
    && a.nomProbleme == (if Meaningful(Value(data, "NOM_PROBLEME")) then Value(data, "NOM_PROBLEME") else None)
    && a.symptomes == SymptomTerm(o, ls, Value(data, "SYMPTOME"))
    && a.etatFeuille == LeafState(o, ls, data, sick)
    && a.couleurFeuille == LeafColour(o, ls, data, sick)
    && a.satellites == [HealthTerm(sick, problemType)] + ProblemTerm(o, ls, Value(data, "NOM_PROBLEME"))
                       + a.symptomes + [a.etatFeuille, a.couleurFeuille]
    && a.lemmesValides == [a.plante, a.link] + a.satellites
    && a.lemmesBruts == PresentValues(Values(data))
    && a.confidence == Ratio(|a.satellites| + 1, Max1(|data|))
  }

  /**
   * What the entries fix about a structured analysis's shape: at least three
   * Satellites, the health state first and in agreement with the link, the
   * leaf state and colour last, and a confidence above one exactly when the
   * validated terms outnumber the entries.
   */
  lemma FromEntriesShape(o: Oracles, ls: Lists, data: Dict<Option<string>>, a: PlantAnalysis)
    requires FromEntries(o, ls, data, a)
    ensures |a.satellites| >= 3
    ensures a.satellites[0] == HealthTerm(a.estMalade, Value(data, "TYPE_PROBLEME"))
    ensures a.etatFeuille == a.satellites[|a.satellites| - 2]
    ensures a.couleurFeuille == a.satellites[|a.satellites| - 1]
    ensures a.confidence > 1.0 <==> |a.satellites| + 1 > |data|
  {
  }

  /**
   * `_parse_structured_response` on the parsed entries: None when the plant
   * is missing or not recognised (the source reaches that case for a
   * missing plant through an exception it catches); otherwise the plant as
   * Hub, the link its health calls for, and the Satellites gathered.
   */
  function AnalyzeStructured(o: Oracles, ls: Lists, data: Dict<Option<string>>, now: string): (r: Option<PlantAnalysis>)
    ensures r.None? <==> Value(data, "PLANTE").None? || !Truthy(IdentifyPlant(o, Value(data, "PLANTE").value))
    ensures r.Some? ==> r.value.hub == r.value.plante == IdentifyPlant(o, Value(data, "PLANTE").value).value
    ensures r.Some? ==> (r.value.estMalade <==> Value(data, "EST_MALADE") == Some("oui"))
    ensures r.Some? ==> r.value.link == StructuredLink(r.value.estMalade, Value(data, "TYPE_PROBLEME"))
    ensures r.Some? ==> |r.value.satellites| >= 3
    ensures r.Some? ==> r.value.satellites[0] == HealthTerm(r.value.estMalade, Value(data, "TYPE_PROBLEME"))
    ensures r.Some? ==> r.value.lemmesValides == [r.value.plante, r.value.link] + r.value.satellites
    ensures r.Some? ==> FromEntries(o, ls, data, r.value)
    ensures r.Some? ==> CorrectionsAmong(r.value.lemmesCorriges, r.value.satellites)
    ensures r.Some? ==> r.value.etatFeuille == r.value.satellites[|r.value.satellites| - 2]
    ensures r.Some? ==> r.value.couleurFeuille == r.value.satellites[|r.value.satellites| - 1]
    ensures r.Some? ==> (r.value.confidence > 1.0 <==> |r.value.satellites| + 1 > |data|)
  {
    var raw := Value(data, "PLANTE");
    if raw.None? then None
    else
      var plant := IdentifyPlant(o, raw.value);
      if !Truthy(plant) then None
      else
        var a := Recognised(o, ls, data, plant.value, now);
        FromEntriesShape(o, ls, data, a);
        Some(a)
  }

  /** The analysis `_parse_structured_response` builds once the plant is recognised. */
  function Recognised(o: Oracles, ls: Lists, data: Dict<Option<string>>, plant: string, now: string): (a: PlantAnalysis)
    ensures a.hub == a.plante == plant
    ensures FromEntries(o, ls, data, a)
    ensures CorrectionsAmong(a.lemmesCorriges, a.satellites)
  {
    var sick := Value(data, "EST_MALADE") == Some("oui");
    var problemType := Value(data, "TYPE_PROBLEME");
    var link := StructuredLink(sick, problemType);
    var name := Value(data, "NOM_PROBLEME");
    var obs := StructuredSatellites(o, ls, data, sick, problemType);
    RecordFromEntries(o, ls, data, plant, now, obs);
    Record(plant, sick, link, problemType, name, obs, data, now)
  }

  lemma RecordFromEntries(o: Oracles, ls: Lists, data: Dict<Option<string>>, plant: string, now: string, obs: Observed)
    requires obs == StructuredSatellites(o, ls, data, Value(data, "EST_MALADE") == Some("oui"), Value(data, "TYPE_PROBLEME"))
    ensures var sick := Value(data, "EST_MALADE") == Some("oui");
      var problemType := Value(data, "TYPE_PROBLEME");
      FromEntries(o, ls, data, Record(plant, sick, StructuredLink(sick, problemType), problemType,
                                      Value(data, "NOM_PROBLEME"), obs, data, now))
  {
  }

  /** The analysis record of a recognised plant and its gathered observations. */
  function Record(plant: string, sick: bool, link: string, problemType: Option<string>, name: Option<string>,
                  obs: Observed, data: Dict<Option<string>>, now: string): (r: PlantAnalysis)
    ensures r.hub == r.plante == plant && r.estMalade == sick && r.link == link
    ensures r.satellites == obs.gathered.satellites && r.lemmesValides == [plant, link] + r.satellites
    ensures r.etatFeuille == obs.leaf && r.couleurFeuille == obs.colour && r.symptomes == obs.symptoms
    ensures r.typeProbleme == (if problemType == Some("aucun") then None else problemType)
    ensures r.nomProbleme == (if Meaningful(name) then name else None)
    ensures r.lemmesBruts == PresentValues(Values(data)) && r.lemmesCorriges == obs.gathered.corrections
    ensures r.confidence == Ratio(|r.satellites| + 1, Max1(|data|))
    ensures |r.satellites| > 0 ==> (r.confidence > 1.0 <==> |r.satellites| + 1 > |data|)
  {
    var sats := obs.gathered.satellites;
    PlantAnalysis(
      plante := plant,
      estMalade := sick,
      hub := plant,
      link := link,
      satellites := sats,
      typeProbleme := if problemType == Some("aucun") then None else problemType,
      nomProbleme := if Meaningful(name) then name else None,
      symptomes := obs.symptoms,
      etatFeuille := obs.leaf,
      couleurFeuille := obs.colour,
      lemmesBruts := PresentValues(Values(data)),
      lemmesValides := [plant, link] + sats,
      lemmesCorriges := obs.gathered.corrections,
      confidence := Ratio(|sats| + 1, Max1(|data|)),
      timestamp := now)
  }

  /**
   * A leaf state the answer spells plainly, from the list for the plant's
   * health, is the state recorded, whatever the fuzzy matcher.
   */
  lemma StructuredLeafNamed(o: Oracles, ls: Lists, data: Dict<Option<string>>, plant: string, now: string, t: string)
    requires Get(data, "ETAT_FEUILLE") == Some(Some(t)) && t != "" && PlainTerm(t)
    requires t in (if Value(data, "EST_MALADE") == Some("oui") then ls.sickLeaf else ls.healthyLeaf)
    ensures Recognised(o, ls, data, plant, now).etatFeuille == t
  {
    var sick := Value(data, "EST_MALADE") == Some("oui");
    ValidateTermKnown(o, t, if sick then ls.sickLeaf else ls.healthyLeaf, DefaultCutoff);
  }

  /** The same for the leaf colour. */
  lemma StructuredColourNamed(o: Oracles, ls: Lists, data: Dict<Option<string>>, plant: string, now: string, t: string)
    requires Get(data, "COULEUR_FEUILLE") == Some(Some(t)) && t != "" && PlainTerm(t)
    requires t in (if Value(data, "EST_MALADE") == Some("oui") then ls.sickColour else ls.healthyColour)
    ensures Recognised(o, ls, data, plant, now).couleurFeuille == t
  {
    var sick := Value(data, "EST_MALADE") == Some("oui");
    ValidateTermKnown(o, t, if sick then ls.sickColour else ls.healthyColour, DefaultCutoff);
  }

  /**
   * A symptom the answer spells plainly from the symptom list is the one
   * symptom recorded, and it sits among the Satellites right before the
   * leaf state and colour.
   */
  lemma StructuredSymptomNamed(o: Oracles, ls: Lists, data: Dict<Option<string>>, plant: string, now: string, t: string)
    requires Get(data, "SYMPTOME") == Some(Some(t)) && PlainTerm(t) && t in ls.symptoms
    requires t !in ["aucun", "none", "n/a", ""]
    ensures Recognised(o, ls, data, plant, now).symptomes == [t]
    ensures var a := Recognised(o, ls, data, plant, now); a.satellites[|a.satellites| - 3] == t
  {
    ValidateTermKnown(o, t, ls.symptoms, DefaultCutoff);
  }

  /** `n / m` as a float. */
  function Ratio(n: nat, m: nat): (r: real)
    requires m >= 1
    ensures r >= 0.0
    ensures n > m ==> r > 1.0
    ensures n <= m ==> r <= 1.0
  {
    var r := n as real / m as real;
    assert r * m as real == n as real;
    assert n > m ==> r > 1.0 by {
      if n > m {
        assert (r - 1.0) * m as real == (n - m) as real;
      }
    }
    assert n <= m ==> r <= 1.0 by {
      if n <= m {
        assert (1.0 - r) * m as real == (m - n) as real;
      }
    }
    r
  }

  /** `max(n, 1)`. */
  function Max1(n: nat): (m: nat)
    ensures m >= 1 && m >= n
  {
    if n < 1 then 1 else n
  }

  /** `[v for v in values if v and v != "aucun"]`. */
  function PresentValues(vs: seq<Option<string>>): (r: seq<string>)
    ensures forall i :: 0 <= i < |r| ==> r[i] != "" && r[i] != "aucun" && Some(r[i]) in vs
    ensures forall i :: 0 <= i < |vs| && Present(vs[i]) ==> vs[i].value in r
    ensures |r| <= |vs|
  {
    if |vs| == 0 then []
    else
      var rest := PresentValues(vs[1..]);
      assert forall i :: 1 <= i < |vs| ==> vs[i] == vs[1..][i - 1];
      if Present(vs[0]) then [vs[0].value] + rest else rest
  }

  /** A value that is there, non-empty and not `aucun`. */
  predicate Present(v: Option<string>)
  {
    v.Some? && v.value != "" && v.value != "aucun"
  }

  /** The filter keeps the values' order: filtering a concatenation concatenates the filtered parts. */
  lemma {:induction false} PresentValuesAppend(a: seq<Option<string>>, b: seq<Option<string>>)
    ensures PresentValues(a + b) == PresentValues(a) + PresentValues(b)
    ensures |a| == 1 ==> PresentValues(a) == if Present(a[0]) then [a[0].value] else []
    decreases |a|
  {
    if |a| > 0 {
      assert (a + b)[1..] == a[1..] + b;
      PresentValuesAppend(a[1..], b);
      var ab := a + b;
      var head := if Present(a[0]) then [a[0].value] else [];
      assert PresentValues(ab) == head + PresentValues(ab[1..]);
      assert PresentValues(a) == head + PresentValues(a[1..]);
      ConcatAssoc(head, PresentValues(a[1..]), PresentValues(b));
      if |a| == 1 {
        assert PresentValues(a[1..]) == [];
      }
    } else {
      assert a + b == b;
    }
  }

  /** The first Satellite records the plant's health, in agreement with the link. */
  lemma StructuredHealthAgrees(o: Oracles, ls: Lists, data: Dict<Option<string>>, now: string)
    requires AnalyzeStructured(o, ls, data, now).Some?
    ensures var a := AnalyzeStructured(o, ls, data, now).value;
      && (a.satellites[0] == "sain" <==> a.link == "has_health_status")
      && (a.satellites[0] == "infeste" <==> a.link == "has_infestation")
      && (a.satellites[0] == "malade" <==> a.link == "has_disease")
  {
    var a := AnalyzeStructured(o, ls, data, now).value;
    HealthTermAgrees(a.estMalade, Value(data, "TYPE_PROBLEME"));
  }

  lemma HealthTermAgrees(sick: bool, problemType: Option<string>)
    ensures HealthTerm(sick, problemType) == "sain" <==> StructuredLink(sick, problemType) == "has_health_status"
    ensures HealthTerm(sick, problemType) == "infeste" <==> StructuredLink(sick, problemType) == "has_infestation"
    ensures HealthTerm(sick, problemType) == "malade" <==> StructuredLink(sick, problemType) == "has_disease"
  {
  }

  /** A structured answer naming only its plant gets a confidence above one. */
  lemma StructuredConfidenceCanExceedOne(o: Oracles, ls: Lists, now: string)
    ensures var r := AnalyzeStructured(o, ls, [("PLANTE", Some("corn"))], now);
      r.Some? && r.value.confidence > 1.0
  {
    var data: Dict<Option<string>> := [("PLANTE", Some("corn"))];
    assert Value(data, "PLANTE") == Some("corn");
    EnglishPlantIsItself(o, "corn");
  }

  // The free-lemma answer

  /** What is known while the lemmas are read in order. */
  datatype Scan = Scan(
    hub: Option<string>,
    link: Option<string>,
    satellites: seq<string>,
    valides: seq<string>,
    corrections: Dict<string>)

  const Start: Scan := Scan(None, None, [], [], [])

  /** The three classifiers a lemma goes through, in order. */
  datatype Readers = Readers(
    plant: string -> Option<string>,
    link: string -> Option<string>,
    satellite: string -> Option<(string, string)>)

  function ReadersOf(o: Oracles, ls: Lists): (rd: Readers)
    ensures forall x :: rd.plant(x) == IdentifyPlant(o, x)
    ensures forall x :: rd.link(x) == IdentifyLink(o, x)
    ensures forall x :: rd.satellite(x) == ClassifySatellite(o, x, ls.categories)
  {
    Readers(x => IdentifyPlant(o, x), x => IdentifyLink(o, x), x => ClassifySatellite(o, x, ls.categories))
  }

  predicate InCategories(x: string, cats: seq<Category>)
  {
    exists i :: 0 <= i < |cats| && x in cats[i].terms
  }

  /** Readers whose links are relations and whose Satellites are category terms. */
  ghost predicate SoundReaders(rd: Readers, cats: seq<Category>)
  {
    && (forall x :: rd.link(x).Some? ==> rd.link(x).value in Relations)
    && (forall x :: rd.satellite(x).Some? ==> InCategories(rd.satellite(x).value.0, cats))
  }

  /** With a sound fuzzy matcher, the ontology's readers are sound. */
  lemma ReadersSound(o: Oracles, ls: Lists)
    requires o.Sound()
    ensures SoundReaders(ReadersOf(o, ls), ls.categories)
  {
    var rd := ReadersOf(o, ls);
    forall x | rd.satellite(x).Some?
      ensures InCategories(rd.satellite(x).value.0, ls.categories)
    {
      var r := ClassifySatellite(o, x, ls.categories);
      var i :| 0 <= i < |ls.categories| && ls.categories[i].name == r.value.1 && r.value.0 in ls.categories[i].terms;
    }
  }

  /** Where a lemma goes in the analysis. */
  datatype Part = HubPart | LinkPart | SatellitePart

  /**
   * One lemma's place: the Hub while no plant is known, else the link while
   * no link is known, else a Satellite if some category validates it.
   */
  function Role(rd: Readers, s: Scan, lemme: string): (r: Option<(Part, string)>)
    ensures r.Some? ==> r.value.1 != ""
    ensures r.Some? && r.value.0 == HubPart ==> !Truthy(s.hub) && rd.plant(lemme) == Some(r.value.1)
    ensures r.Some? && r.value.0 == LinkPart ==> !Truthy(s.link) && rd.link(lemme) == Some(r.value.1)
    ensures r.Some? && r.value.0 == SatellitePart ==> rd.satellite(lemme).Some? && rd.satellite(lemme).value.0 == r.value.1
    ensures !Truthy(s.hub) && Truthy(rd.plant(lemme)) <==> r.Some? && r.value.0 == HubPart
  {
    var plant := if !Truthy(s.hub) then rd.plant(lemme) else None;
    if Truthy(plant) then Some((HubPart, plant.value))
    else
      var link := if !Truthy(s.link) then rd.link(lemme) else None;
      if Truthy(link) then Some((LinkPart, link.value))
      else
        match SatelliteValue(rd, lemme)
        case Some(v) => Some((SatellitePart, v))
        case None => None
  }

  /** The non-empty value some category validates the lemma as, if any. */
  function SatelliteValue(rd: Readers, lemme: string): Option<string>
  {
    match rd.satellite(lemme)
    case Some((v, _)) => if v != "" then Some(v) else None
    case None => None
  }

  /** The analysis with `v`, validated from `raw`, put in `part`. */
  function Place(s: Scan, part: Part, v: string, raw: string): (r: Scan)
    ensures r.valides == s.valides + [v]
    ensures part == HubPart ==> r.hub == Some(v) && r.link == s.link && r.satellites == s.satellites
    ensures part == LinkPart ==> r.hub == s.hub && r.link == Some(v) && r.satellites == s.satellites
    ensures part == SatellitePart ==> r.hub == s.hub && r.link == s.link && r.satellites == s.satellites + [v]
  {
    var corrections := if v != raw then Put(s.corrections, raw, v) else s.corrections;
    match part
    case HubPart => Scan(Some(v), s.link, s.satellites, s.valides + [v], corrections)
    case LinkPart => Scan(s.hub, Some(v), s.satellites, s.valides + [v], corrections)
    case SatellitePart => Scan(s.hub, s.link, s.satellites + [v], s.valides + [v], corrections)
  }

  function ScanStep(rd: Readers, s: Scan, lemme: string): Scan
  {
    match Role(rd, s, lemme)
    case Some((part, v)) => Place(s, part, v, lemme)
    case None => s
  }

  function ScanAll(rd: Readers, s: Scan, lemmas: seq<string>): Scan
    decreases |lemmas|
  {
    if |lemmas| == 0 then s else ScanAll(rd, ScanStep(rd, s, lemmas[0]), lemmas[1..])
  }

  /** The Hub and the link known so far. */
  function Known(s: Scan): multiset<string>
  {
    (if s.hub.Some? then multiset{s.hub.value} else multiset{}) + (if s.link.Some? then multiset{s.link.value} else multiset{})
  }

  /** The validated lemmas are the Hub, the link and the Satellites; a known Hub or link is non-empty. */
  ghost predicate Consistent(s: Scan)
  {
    && multiset(s.valides) == Known(s) + multiset(s.satellites)
    && (s.hub.Some? ==> s.hub.value != "")
    && (s.link.Some? ==> s.link.value != "")
  }

  /** The link is a relation and every Satellite a category term. */
  ghost predicate InVocabulary(s: Scan, cats: seq<Category>)
  {
    && (s.link.Some? ==> s.link.value in Relations)
    && (forall i :: 0 <= i < |s.satellites| ==> InCategories(s.satellites[i], cats))
  }

  lemma ScanStepConsistent(rd: Readers, s: Scan, lemme: string)
    requires Consistent(s)
    ensures Consistent(ScanStep(rd, s, lemme))
  {
    var role := Role(rd, s, lemme);
    if role.Some? {
      PlaceConsistent(s, role.value.0, role.value.1, lemme);
    }
  }

  lemma PlaceConsistent(s: Scan, part: Part, v: string, raw: string)
    requires Consistent(s) && v != ""
    requires part == HubPart ==> s.hub.None?
    requires part == LinkPart ==> s.link.None?
    ensures Consistent(Place(s, part, v, raw))
  {
    var r := Place(s, part, v, raw);
    assert multiset(r.valides) == multiset(s.valides) + multiset{v};
    if part == SatellitePart {
      assert multiset(r.satellites) == multiset(s.satellites) + multiset{v};
    }
  }

  lemma ScanStepVocabulary(rd: Readers, cats: seq<Category>, s: Scan, lemme: string)
    requires SoundReaders(rd, cats) && InVocabulary(s, cats)
    ensures InVocabulary(ScanStep(rd, s, lemme), cats)
  {
  }

  lemma {:induction false} ScanAllConsistent(rd: Readers, cats: seq<Category>, s: Scan, lemmas: seq<string>)
    requires Consistent(s)
    ensures Consistent(ScanAll(rd, s, lemmas))
    ensures SoundReaders(rd, cats) && InVocabulary(s, cats) ==> InVocabulary(ScanAll(rd, s, lemmas), cats)
    decreases |lemmas|
  {
    if |lemmas| > 0 {
      ScanStepConsistent(rd, s, lemmas[0]);
      if SoundReaders(rd, cats) && InVocabulary(s, cats) {
        ScanStepVocabulary(rd, cats, s, lemmas[0]);
      }
      ScanAllConsistent(rd, cats, ScanStep(rd, s, lemmas[0]), lemmas[1..]);
    }
  }

  /** Position of the first lemma that `plant` identifies (`|lemmas|` when none). */
  function FirstPlant(plant: string -> Option<string>, lemmas: seq<string>): (k: nat)
    ensures k <= |lemmas|
    ensures forall j :: 0 <= j < k ==> !Truthy(plant(lemmas[j]))
    ensures k < |lemmas| ==> Truthy(plant(lemmas[k]))
  {
    if |lemmas| == 0 then 0
    else if Truthy(plant(lemmas[0])) then 0
    else 1 + FirstPlant(plant, lemmas[1..])
  }

  /** The Hub is the plant of the first lemma that identifies one; a known Hub is never replaced. */
  lemma {:induction false} ScanHub(rd: Readers, s: Scan, lemmas: seq<string>)
    requires s.hub.Some? ==> s.hub.value != ""
    ensures var k := FirstPlant(rd.plant, lemmas);
      ScanAll(rd, s, lemmas).hub ==
        if Truthy(s.hub) || k == |lemmas| then s.hub else rd.plant(lemmas[k])
    decreases |lemmas|
  {
    if |lemmas| > 0 {
      var t := ScanStep(rd, s, lemmas[0]);
      assert t.hub.Some? ==> t.hub.value != "";
      ScanHub(rd, t, lemmas[1..]);
      var k := FirstPlant(rd.plant, lemmas);
      if !Truthy(s.hub) && 0 < k < |lemmas| {
        assert t.hub == s.hub;
        assert FirstPlant(rd.plant, lemmas[1..]) == k - 1;
        assert lemmas[1..][k - 1] == lemmas[k];
      }
    }
  }

  /**
   * Position of the first lemma, other than the one at `skip`, that `link`
   * identifies (`|lemmas|` when none).
   */
  function FirstLink(link: string -> Option<string>, lemmas: seq<string>, skip: int): (j: nat)
    ensures j <= |lemmas|
    ensures forall i :: 0 <= i < j && i != skip ==> !Truthy(link(lemmas[i]))
    ensures j < |lemmas| ==> j != skip && Truthy(link(lemmas[j]))
  {
    if |lemmas| == 0 then 0
    else if skip != 0 && Truthy(link(lemmas[0])) then 0
    else 1 + FirstLink(link, lemmas[1..], skip - 1)
  }

  /** A position outside the lemmas skips nothing. */
  lemma {:induction false} FirstLinkOutside(link: string -> Option<string>, lemmas: seq<string>, a: int, b: int)
    requires a < 0 || a >= |lemmas|
    requires b < 0 || b >= |lemmas|
    ensures FirstLink(link, lemmas, a) == FirstLink(link, lemmas, b)
    decreases |lemmas|
  {
    if |lemmas| > 0 {
      FirstLinkOutside(link, lemmas[1..], a - 1, b - 1);
    }
  }

  /**
   * The link is that of the first lemma the link classifier identifies,
   * passing over the lemma taken as the Hub (no lemma is passed over once a
   * Hub is known); a known link is never replaced.
   */
  lemma {:induction false} ScanLink(rd: Readers, s: Scan, lemmas: seq<string>)
    ensures var skip := if Truthy(s.hub) then |lemmas| else FirstPlant(rd.plant, lemmas);
      var j := FirstLink(rd.link, lemmas, skip);
      ScanAll(rd, s, lemmas).link == if Truthy(s.link) || j == |lemmas| then s.link else rd.link(lemmas[j])
    decreases |lemmas|
  {
    if |lemmas| > 0 {
      var t := ScanStep(rd, s, lemmas[0]);
      var rest := lemmas[1..];
      ScanLink(rd, t, rest);
      var skip := if Truthy(s.hub) then |lemmas| else FirstPlant(rd.plant, lemmas);
      var j := FirstLink(rd.link, lemmas, skip);
      if !Truthy(s.link) && j != 0 {
        assert t.link == s.link;
        var tskip := if Truthy(t.hub) then |rest| else FirstPlant(rd.plant, rest);
        if skip == 0 {
          FirstLinkOutside(rd.link, rest, -1, tskip);
        } else if Truthy(s.hub) {
          assert t.hub == s.hub;
        } else {
          assert t.hub == s.hub;
          assert FirstPlant(rd.plant, rest) == skip - 1;
        }
        assert FirstLink(rd.link, rest, tskip) == j - 1;
        if j < |lemmas| {
          assert rest[j - 1] == lemmas[j];
        }
      }
    }
  }

  /**
   * The Satellite values of the lemmas, in order, passing over the lemmas at
   * positions `h` and `l`: every other lemma a category validates yields one
   * Satellite.
   */
  function SatelliteTerms(rd: Readers, lemmas: seq<string>, h: int, l: int): seq<string>
    decreases |lemmas|
  {
    if |lemmas| == 0 then []
    else
      var here := SatelliteValue(rd, lemmas[0]);
      (if h != 0 && l != 0 && here.Some? then [here.value] else []) + SatelliteTerms(rd, lemmas[1..], h - 1, l - 1)
  }

  /** Positions outside the lemmas pass over nothing. */
  lemma {:induction false} SatelliteTermsOutside(rd: Readers, lemmas: seq<string>, h1: int, l1: int, h2: int, l2: int)
    requires h1 == h2 || ((h1 < 0 || h1 >= |lemmas|) && (h2 < 0 || h2 >= |lemmas|))
    requires l1 == l2 || ((l1 < 0 || l1 >= |lemmas|) && (l2 < 0 || l2 >= |lemmas|))
    ensures SatelliteTerms(rd, lemmas, h1, l1) == SatelliteTerms(rd, lemmas, h2, l2)
    decreases |lemmas|
  {
    if |lemmas| > 0 {
      SatelliteTermsOutside(rd, lemmas[1..], h1 - 1, l1 - 1, h2 - 1, l2 - 1);
    }
  }

  /** Where the scan from `s` will take the Hub (out of range when it has one). */
  function HubSkip(rd: Readers, s: Scan, lemmas: seq<string>): int
  {
    if Truthy(s.hub) then |lemmas| else FirstPlant(rd.plant, lemmas)
  }

  /** Where the scan from `s` will take the link (out of range when it has one). */
  function LinkSkip(rd: Readers, s: Scan, lemmas: seq<string>): int
  {
    if Truthy(s.link) then |lemmas| else FirstLink(rd.link, lemmas, HubSkip(rd, s, lemmas))
  }

  /**
   * The Satellites are the validated values of the lemmas, in order, passing
   * over the lemma taken as the Hub and the lemma taken as the link.
   */
  lemma {:induction false} ScanSatellites(rd: Readers, s: Scan, lemmas: seq<string>)
    ensures ScanAll(rd, s, lemmas).satellites ==
      s.satellites + SatelliteTerms(rd, lemmas, HubSkip(rd, s, lemmas), LinkSkip(rd, s, lemmas))
    decreases |lemmas|
  {
    if |lemmas| == 0 {
      assert s.satellites + [] == s.satellites;
    } else {
      var t := ScanStep(rd, s, lemmas[0]);
      var rest := lemmas[1..];
      ScanSatellites(rd, t, rest);
      var h := HubSkip(rd, s, lemmas);
      var l := LinkSkip(rd, s, lemmas);
      var here := SatelliteValue(rd, lemmas[0]);
      var head := if h != 0 && l != 0 && here.Some? then [here.value] else [];
      if h == 0 {
        HubStepSatellites(rd, s, lemmas);
      } else if l == 0 {
        LinkStepSatellites(rd, s, lemmas);
      } else {
        OtherStepSatellites(rd, s, lemmas);
      }
      SatelliteTermsOutside(rd, rest, h - 1, l - 1, HubSkip(rd, t, rest), LinkSkip(rd, t, rest));
      assert t.satellites == s.satellites + head;
      assert SatelliteTerms(rd, lemmas, h, l) == head + SatelliteTerms(rd, rest, h - 1, l - 1);
      ConcatAssoc(s.satellites, head, SatelliteTerms(rd, rest, h - 1, l - 1));
    }
  }

  /** The lemma taken as the Hub adds no Satellite, and no later lemma is taken as the Hub. */
  lemma HubStepSatellites(rd: Readers, s: Scan, lemmas: seq<string>)
    requires |lemmas| > 0 && HubSkip(rd, s, lemmas) == 0
    ensures var t := ScanStep(rd, s, lemmas[0]);
      && t.satellites == s.satellites
      && HubSkip(rd, t, lemmas[1..]) == |lemmas| - 1
      && LinkSkip(rd, t, lemmas[1..]) == LinkSkip(rd, s, lemmas) - 1
  {
    var rest := lemmas[1..];
    if !Truthy(s.link) {
      FirstLinkOutside(rd.link, rest, -1, |rest|);
    }
  }

  /** The lemma taken as the link adds no Satellite, and no later lemma is taken as the link. */
  lemma LinkStepSatellites(rd: Readers, s: Scan, lemmas: seq<string>)
    requires |lemmas| > 0 && HubSkip(rd, s, lemmas) != 0 && LinkSkip(rd, s, lemmas) == 0
    ensures var t := ScanStep(rd, s, lemmas[0]);
      && t.satellites == s.satellites
      && HubSkip(rd, t, lemmas[1..]) == HubSkip(rd, s, lemmas) - 1
      && LinkSkip(rd, t, lemmas[1..]) == |lemmas| - 1
  {
  }

  /** Any other lemma adds its validated value, if it has one. */
  lemma OtherStepSatellites(rd: Readers, s: Scan, lemmas: seq<string>)
    requires |lemmas| > 0 && HubSkip(rd, s, lemmas) != 0 && LinkSkip(rd, s, lemmas) != 0
    ensures var t := ScanStep(rd, s, lemmas[0]);
      && t.satellites == s.satellites + (if SatelliteValue(rd, lemmas[0]).Some? then [SatelliteValue(rd, lemmas[0]).value] else [])
      && HubSkip(rd, t, lemmas[1..]) == HubSkip(rd, s, lemmas) - 1
      && LinkSkip(rd, t, lemmas[1..]) == LinkSkip(rd, s, lemmas) - 1
  {
  }

  /** Where `_parse_lemma_response` finds the Hub, the link and the Satellites. */
  function HubAt(rd: Readers, bruts: seq<string>): nat
  {
    FirstPlant(rd.plant, bruts)
  }

  function LinkAt(rd: Readers, bruts: seq<string>): nat
  {
    FirstLink(rd.link, bruts, HubAt(rd, bruts))
  }

  function SatellitesOf(rd: Readers, bruts: seq<string>): seq<string>
  {
    SatelliteTerms(rd, bruts, HubAt(rd, bruts), LinkAt(rd, bruts))
  }

  /**
   * The link of the analysis: what the link classifier gives for the first
   * lemma it identifies other than the Hub's, else the inferred link.
   */
  function LinkChoice(rd: Readers, bruts: seq<string>, inferred: string): string
  {
    var j := LinkAt(rd, bruts);
    if j < |bruts| then rd.link(bruts[j]).value else inferred
  }

  /** The facts the link is inferred from when no lemma names one. */
  datatype Evidence = Evidence(disease: bool, pest: bool, healthy: bool, symptom: bool, sickColour: bool, sickLeaf: bool)

  const HealthyWords: seq<string> := ["sain", "saine", "turgescente", "dressee", "vigoureux"]

  /** Some Satellite validates against `terms`. */
  predicate AnyValidates(o: Oracles, sats: seq<string>, terms: seq<string>)
  {
    exists i :: 0 <= i < |sats| && Truthy(ValidateTerm(o, sats[i], terms, DefaultCutoff))
  }

  /** Some Satellite is one of `terms`. */
  predicate AnyIn(sats: seq<string>, terms: seq<string>)
  {
    exists i :: 0 <= i < |sats| && sats[i] in terms
  }

  /** The evidence the Satellites give, with the disease and pest lists of the Hub's plant. */
  function EvidenceOf(o: Oracles, ls: Lists, hub: string, sats: seq<string>): Evidence
  {
    Evidence(
      disease := AnyValidates(o, sats, CategoryTerms(ls.categories, "maladies_" + hub)),
      pest := AnyValidates(o, sats, CategoryTerms(ls.categories, "ravageurs_" + hub)),
      healthy := AnyIn(sats, HealthyWords),
      symptom := AnyValidates(o, sats, CategoryTerms(ls.categories, "symptomes")),
      sickColour := AnyIn(sats, CategoryTerms(ls.categories, "couleurs_feuille_malade")),
      sickLeaf := AnyIn(sats, CategoryTerms(ls.categories, "etats_feuille_malade")))
  }

  /**
   * The link inference ladder. The plant is declared healthy exactly when
   * there is no disease, no pest, no sick colour or leaf state, and any
   * symptom is outweighed by a healthy term; it is infested exactly when a
   * pest is the only sign; every other case is a disease.
   */
  function InferLink(e: Evidence): (link: string)
    ensures link == "has_disease" || link == "has_infestation" || link == "has_health_status"
    ensures e.disease ==> link == "has_disease"
    ensures link == "has_infestation" <==> !e.disease && !(e.symptom && !e.healthy) && e.pest
    ensures link == "has_health_status" <==>
      !e.disease && !(e.symptom && !e.healthy) && !e.pest && !e.sickColour && !e.sickLeaf
  {
    if e.disease || (e.symptom && !e.healthy) then "has_disease"
    else if e.pest then "has_infestation"
    else if e.healthy && !e.symptom && !e.sickColour && !e.sickLeaf then "has_health_status"
    else if e.sickColour || e.sickLeaf then "has_disease"
    else "has_health_status"
  }

  /** The first Satellite among `terms`, or `default`. */
  function FirstAmong(sats: seq<string>, terms: seq<string>, default: string): (r: string)
    ensures r == default || (r in sats && r in terms)
    ensures !AnyIn(sats, terms) ==> r == default
    ensures AnyIn(sats, terms) ==>
      exists i :: 0 <= i < |sats| && sats[i] == r && r in terms && forall j :: 0 <= j < i ==> sats[j] !in terms
  {
    assert |sats| > 0 ==> forall i :: 1 <= i < |sats| ==> sats[i] == sats[1..][i - 1];
    if |sats| == 0 then default
    else if sats[0] in terms then sats[0]
    else FirstAmong(sats[1..], terms, default)
  }

  /** The first Satellite among `terms`. */
  function FirstIn(sats: seq<string>, terms: seq<string>): (r: Option<string>)
    ensures r.Some? ==> r.value in sats && r.value in terms
    ensures r.None? <==> !AnyIn(sats, terms)
    ensures r.Some? ==>
      exists i :: 0 <= i < |sats| && sats[i] == r.value && forall j :: 0 <= j < i ==> sats[j] !in terms
  {
    if |sats| == 0 then None
    else if sats[0] in terms then Some(sats[0])
    else
      assert forall i :: 1 <= i < |sats| ==> sats[i] == sats[1..][i - 1];
      FirstIn(sats[1..], terms)
  }

  /** `[x for x in sats if x in terms]`. */
  function Among(sats: seq<string>, terms: seq<string>): (r: seq<string>)
    ensures forall i :: 0 <= i < |r| ==> r[i] in sats && r[i] in terms
    ensures forall i :: 0 <= i < |sats| && sats[i] in terms ==> sats[i] in r
  {
    if |sats| == 0 then []
    else
      var rest := Among(sats[1..], terms);
      assert forall i :: 1 <= i < |sats| ==> sats[i] == sats[1..][i - 1];
      if sats[0] in terms then [sats[0]] + rest else rest
  }

  /** The filter keeps the Satellites' order: filtering a concatenation concatenates the filtered parts. */
  lemma {:induction false} AmongAppend(a: seq<string>, b: seq<string>, terms: seq<string>)
    ensures Among(a + b, terms) == Among(a, terms) + Among(b, terms)
    ensures |a| == 1 ==> Among(a, terms) == if a[0] in terms then a else []
    decreases |a|
  {
    if |a| > 0 {
      assert (a + b)[1..] == a[1..] + b;
      AmongAppend(a[1..], b, terms);
      var ab := a + b;
      var head := if a[0] in terms then [a[0]] else [];
      assert Among(ab, terms) == head + Among(ab[1..], terms);
      assert Among(a, terms) == head + Among(a[1..], terms);
      ConcatAssoc(head, Among(a[1..], terms), Among(b, terms));
      if |a| == 1 {
        assert Among(a[1..], terms) == [];
      }
    } else {
      assert a + b == b;
    }
  }

  /** The lemmas read in order, with the facts the analysis relies on. */
  function ScanLemmas(rd: Readers, cats: seq<Category>, bruts: seq<string>): (s: Scan)
    ensures Consistent(s)
    ensures var k := FirstPlant(rd.plant, bruts);
      s.hub == if k == |bruts| then None else rd.plant(bruts[k])
    ensures SoundReaders(rd, cats) ==> InVocabulary(s, cats)
    ensures var j := FirstLink(rd.link, bruts, FirstPlant(rd.plant, bruts));
      s.link == if j == |bruts| then None else rd.link(bruts[j])
    ensures s.satellites == SatellitesOf(rd, bruts)
  {
    ScanAllConsistent(rd, cats, Start, bruts);
    ScanHub(rd, Start, bruts);
    ScanLink(rd, Start, bruts);
    ScanSatellites(rd, Start, bruts);
    ScanAll(rd, Start, bruts)
  }

  /**
   * The link and the validated lemmas: the link found, or the inferred one
   * inserted right after the Hub.
   */
  function Linked(s: Scan, inferred: string): (r: (string, seq<string>))
    requires Consistent(s) && s.hub.Some?
    ensures Truthy(s.link) ==> r == (s.link.value, s.valides)
    ensures !Truthy(s.link) ==> r.0 == inferred
    ensures multiset(r.1) == multiset{s.hub.value, r.0} + multiset(s.satellites)
  {
    if Truthy(s.link) then
      (s.link.value, s.valides)
    else
      LinkInserted(s, inferred);
      (inferred, s.valides[..1] + [inferred] + s.valides[1..])
  }

  lemma LinkInserted(s: Scan, link: string)
    requires Consistent(s) && s.hub.Some? && !Truthy(s.link)
    ensures |s.valides| >= 1
    ensures multiset(s.valides[..1] + [link] + s.valides[1..]) == multiset{s.hub.value, link} + multiset(s.satellites)
  {
    assert s.hub.value in multiset(s.valides);
    InsertSecond(s.valides, link);
  }

  /** Inserting an element second adds it to the multiset. */
  lemma InsertSecond(xs: seq<string>, x: string)
    requires |xs| >= 1
    ensures multiset(xs[..1] + [x] + xs[1..]) == multiset(xs) + multiset{x}
  {
    assert xs == xs[..1] + xs[1..];
  }

  /** The disease and pest terms of the Hub's plant. */
  function ProblemTerms(ls: Lists, hub: string): seq<string>
  {
    CategoryTerms(ls.categories, "maladies_" + hub) + CategoryTerms(ls.categories, "ravageurs_" + hub)
  }

  /**
   * The fields `_parse_lemma_response` derives from the link and the
   * Satellites: the problem type the link names, the first Satellite naming
   * a disease or pest of the plant when it is sick, the symptoms in order,
   * the first leaf state and colour (or their defaults), and the validated
   * share of the `n` raw lemmas.
   */
  predicate Derived(ls: Lists, a: PlantAnalysis, n: nat)
  {
    && a.typeProbleme == (if a.link == "has_disease" then Some("maladie")
                          else if a.link == "has_infestation" then Some("ravageur") else None)
    && a.nomProbleme == (if a.estMalade then FirstIn(a.satellites, ProblemTerms(ls, a.hub)) else None)
    && a.symptomes == Among(a.satellites, ls.symptoms)
    && a.etatFeuille == FirstAmong(a.satellites, ls.leaf, "saine")
    && a.couleurFeuille == FirstAmong(a.satellites, ls.colour, "vert_clair")
    && a.confidence == Ratio(2 + |a.satellites|, Max1(n))
  }

  /**
   * `_parse_lemma_response`: None without lemmas or without a lemma that
   * identifies a plant; otherwise the first plant found as Hub, the first
   * link found (or the inferred one, placed second among the validated
   * lemmas), and the validated Satellites.
   */
  function AnalyzeLemmas(o: Oracles, ls: Lists, response: string, now: string): (r: Option<PlantAnalysis>)
    ensures r.Some? ==> r.value.lemmesBruts == ExtractLemmas(response) && r.value.plante == r.value.hub
    ensures r.Some? ==> (r.value.estMalade <==> r.value.link == "has_disease" || r.value.link == "has_infestation")
    ensures r.Some? ==> multiset(r.value.lemmesValides) == multiset{r.value.hub, r.value.link} + multiset(r.value.satellites)
    ensures r.Some? && o.Sound() ==> r.value.link in Relations
    ensures r.Some? && o.Sound() ==> forall i :: 0 <= i < |r.value.satellites| ==>
      InCategories(r.value.satellites[i], ls.categories)
    ensures r.Some? ==> r.value.link == LinkChoice(ReadersOf(o, ls), ExtractLemmas(response),
      InferLink(EvidenceOf(o, ls, r.value.hub, r.value.satellites)))
    ensures r.Some? ==> r.value.satellites == SatellitesOf(ReadersOf(o, ls), ExtractLemmas(response))
    ensures r.Some? ==> Derived(ls, r.value, |ExtractLemmas(response)|)
  {
    var rd := ReadersOf(o, ls);
    assert o.Sound() ==> SoundReaders(rd, ls.categories) by {
      if o.Sound() {
        ReadersSound(o, ls);
      }
    }
    AnalyzeList(rd, o, ls, ExtractLemmas(response), now)
  }

  /**
   * The analysis exists exactly when some extracted lemma identifies a plant,
   * and its Hub is the plant of the first such lemma.
   */
  lemma AnalyzeLemmasHub(o: Oracles, ls: Lists, response: string, now: string)
    ensures var bruts := ExtractLemmas(response);
      var r := AnalyzeLemmas(o, ls, response, now);
      && (r.None? <==> forall i :: 0 <= i < |bruts| ==> !Truthy(IdentifyPlant(o, bruts[i])))
      && (r.Some? ==> exists k :: (0 <= k < |bruts| && Some(r.value.hub) == IdentifyPlant(o, bruts[k])
        && forall j :: 0 <= j < k ==> !Truthy(IdentifyPlant(o, bruts[j]))))
  {
    AnalyzeListHub(o, ls, ExtractLemmas(response), now);
  }

  lemma AnalyzeListHub(o: Oracles, ls: Lists, bruts: seq<string>, now: string)
    ensures var r := AnalyzeList(ReadersOf(o, ls), o, ls, bruts, now);
      && (r.None? <==> forall i :: 0 <= i < |bruts| ==> !Truthy(IdentifyPlant(o, bruts[i])))
      && (r.Some? ==> exists k :: (0 <= k < |bruts| && Some(r.value.hub) == IdentifyPlant(o, bruts[k])
        && forall j :: 0 <= j < k ==> !Truthy(IdentifyPlant(o, bruts[j]))))
  {
  }

  /** The analysis of the extracted lemmas, with `rd` as the classifiers. */
  function AnalyzeList(rd: Readers, o: Oracles, ls: Lists, bruts: seq<string>, now: string): (r: Option<PlantAnalysis>)
    ensures r.None? <==> forall i :: 0 <= i < |bruts| ==> !Truthy(rd.plant(bruts[i]))
    ensures r.Some? ==> exists k :: (0 <= k < |bruts| && Some(r.value.hub) == rd.plant(bruts[k])
        && forall j :: 0 <= j < k ==> !Truthy(rd.plant(bruts[j])))
    ensures r.Some? ==> (r.value.estMalade <==> r.value.link == "has_disease" || r.value.link == "has_infestation")
    ensures r.Some? ==> multiset(r.value.lemmesValides) == multiset{r.value.hub, r.value.link} + multiset(r.value.satellites)
    ensures r.Some? && SoundReaders(rd, ls.categories) ==> r.value.link in Relations
    ensures r.Some? && SoundReaders(rd, ls.categories) ==> forall i :: 0 <= i < |r.value.satellites| ==>
      InCategories(r.value.satellites[i], ls.categories)
    ensures r.Some? ==> r.value.lemmesBruts == bruts && r.value.plante == r.value.hub
    ensures r.Some? ==> r.value.link == LinkChoice(rd, bruts, InferLink(EvidenceOf(o, ls, r.value.hub, r.value.satellites)))
    ensures r.Some? ==> r.value.satellites == SatellitesOf(rd, bruts)
    ensures r.Some? ==> Derived(ls, r.value, |bruts|)
  {
    if |bruts| == 0 then None
    else
      var s := ScanLemmas(rd, ls.categories, bruts);
      if !Truthy(s.hub) then None
      else
        Some(Assembled(o, ls, bruts, s, now))
  }

  /** The analysis of a finished scan that found a Hub: the link found or inferred, and the fields derived. */
  function Assembled(o: Oracles, ls: Lists, bruts: seq<string>, s: Scan, now: string): (a: PlantAnalysis)
    requires Consistent(s) && Truthy(s.hub)
    ensures a.hub == a.plante == s.hub.value && a.satellites == s.satellites && a.lemmesBruts == bruts
    ensures Truthy(s.link) ==> a.link == s.link.value
    ensures !Truthy(s.link) ==> a.link == InferLink(EvidenceOf(o, ls, a.hub, a.satellites))
    ensures a.estMalade <==> a.link == "has_disease" || a.link == "has_infestation"
    ensures multiset(a.lemmesValides) == multiset{a.hub, a.link} + multiset(a.satellites)
    ensures Derived(ls, a, |bruts|)
  {
    var hub := s.hub.value;
    var lv := Linked(s, InferLink(EvidenceOf(o, ls, hub, s.satellites)));
    assert |lv.1| == 2 + |s.satellites| by {
      assert |multiset(lv.1)| == |multiset{hub, lv.0} + multiset(s.satellites)|;
    }
    Build(ls, hub, lv.0, s.satellites, lv.1, s.corrections, bruts, now)
  }

  /** The analysis record of the Hub, the link and the Satellites, with the fields derived from them. */
  function Build(ls: Lists, hub: string, link: string, sats: seq<string>, valides: seq<string>,
                 corrections: Dict<string>, bruts: seq<string>, now: string): (a: PlantAnalysis)
    requires |valides| == 2 + |sats|
    ensures a.hub == a.plante == hub && a.link == link && a.satellites == sats
    ensures a.lemmesValides == valides && a.lemmesBruts == bruts
    ensures a.estMalade <==> link == "has_disease" || link == "has_infestation"
    ensures Derived(ls, a, |bruts|)
  {
    var sick := link == "has_disease" || link == "has_infestation";
    PlantAnalysis(
      plante := hub,
      estMalade := sick,
      hub := hub,
      link := link,
      satellites := sats,
      typeProbleme := if link == "has_disease" then Some("maladie") else if link == "has_infestation" then Some("ravageur") else None,
      nomProbleme := if sick then FirstIn(sats, ProblemTerms(ls, hub)) else None,
      symptomes := Among(sats, ls.symptoms),
      etatFeuille := FirstAmong(sats, ls.leaf, "saine"),
      couleurFeuille := FirstAmong(sats, ls.colour, "vert_clair"),
      lemmesBruts := bruts,
      lemmesValides := valides,
      lemmesCorriges := corrections,
      confidence := Ratio(|valides|, Max1(|bruts|)),
      timestamp := now)
  }
}
