/**
 * The ontology validator the extractors check model answers against: a
 * fixed list of plants, a fixed list of relations and seventeen Satellite
 * categories in a fixed order, and a lookup of a term in a list that tries
 * an exact match, then a substring match, then a fuzzy match.
 */
module Validator {
  import opened Wrappers
  import opened Text
  import opened Transliteration
  import opened Externals

  const Plants: seq<string> := ["corn", "onion", "tomato", "mais", "oignon", "tomate"]

  const Relations: seq<string> :=
    ["has_disease", "has_infestation", "has_health_status", "a_maladie", "a_infestation", "a_etat_sante"]

  /** A named list of Satellite terms. */
  datatype Category = Category(name: string, terms: seq<string>)

  const HealthStates: seq<string> := ["sain", "saine", "malade", "stresse", "infeste", "vigoureux"]
  const CornDiseases: seq<string> :=
    ["fusariose", "helminthosporiose", "rouille", "curvulariose", "striure", "virose", "stress_abiotique"]
  const OnionDiseases: seq<string> :=
    ["alternariose", "mildiou", "pourriture_blanche", "fusariose", "bacteriose", "stress_abiotique"]
  const TomatoDiseases: seq<string> :=
    ["alternariose", "mildiou", "fusariose", "bacterial_wilt", "virus_tylcv", "fletrissement_bacterien", "stress_abiotique"]
  const CornPests: seq<string> := ["foreur_tige", "chenille_legionnaire", "puceron", "cicadelle"]
  const OnionPests: seq<string> := ["thrips", "mouche", "chenille", "nematode"]
  const TomatoPests: seq<string> := ["aleurode", "acarien", "mineuse", "noctuelle", "thrips", "puceron", "nematode"]
  const Symptoms: seq<string> :=
    ["chlorose", "necrose", "fletrissement", "lesion", "tache", "striure", "mosaique", "pourriture", "galle",
     "deformation", "nanisme", "toile", "galerie", "miellat", "morsure", "jaunissement", "perforation"]
  const HealthyLeafStates: seq<string> := ["saine", "turgescente", "dressee", "jeune", "mature"]
  const SickLeafStates: seq<string> :=
    ["malade", "fletrie", "seche", "cassante", "mourante", "morte", "chlorotique", "necrotique", "brulee",
     "decoloree", "rougie", "enroulee", "tordue", "froissee", "tombante", "aplatie", "ratatinee", "perforee",
     "dechiree", "tachetee", "striee", "marbree", "poudreuse", "collante", "fumagine", "entoilee", "minee",
     "senescente"]
  const LeafStates: seq<string> :=
    ["turgescente", "fletrie", "seche", "cassante", "saine", "malade", "mourante", "morte", "chlorotique",
     "necrotique", "brulee", "decoloree", "rougie", "enroulee", "tordue", "froissee", "tombante", "dressee",
     "aplatie", "ratatinee", "perforee", "dechiree", "tachetee", "striee", "marbree", "poudreuse", "collante",
     "fumagine", "entoilee", "minee", "jeune", "mature", "senescente"]
  const HealthyColours: seq<string> := ["vert_fonce", "vert_clair", "vert_bleuatre", "vert_moyen"]
  const SickColours: seq<string> := ["vert_jaunatre", "jaune", "brun", "vert_grisatre"]
  const Colours: seq<string> :=
    ["vert_fonce", "vert_clair", "jaune", "brun", "vert_bleuatre", "vert_grisatre", "vert_jaunatre", "vert_moyen"]
  const Shapes: seq<string> :=
    ["lineaire_lanceolee", "composee_imparipennee", "tubulaire_cylindrique", "simple", "composee", "simple_tubulaire"]
  const Textures: seq<string> :=
    ["lisse", "pubescente", "glanduleuse", "lisse_cireuse", "creuse", "legerement_rugueuse"]
  const Venations: seq<string> := ["nervation_parallele", "nervation_reticulee", "parallele", "reticulee"]

  /** The Satellite categories, in the order they are tried. */
  const Satellites: seq<Category> := [
    Category("etats_sante", HealthStates),
    Category("maladies_corn", CornDiseases),
    Category("maladies_onion", OnionDiseases),
    Category("maladies_tomato", TomatoDiseases),
    Category("ravageurs_corn", CornPests),
    Category("ravageurs_onion", OnionPests),
    Category("ravageurs_tomato", TomatoPests),
    Category("symptomes", Symptoms),
    Category("etats_feuille_sain", HealthyLeafStates),
    Category("etats_feuille_malade", SickLeafStates),
    Category("etats_feuille", LeafStates),
    Category("couleurs_feuille_sain", HealthyColours),
    Category("couleurs_feuille_malade", SickColours),
    Category("couleurs_feuille", Colours),
    Category("formes_feuille", Shapes),
    Category("textures", Textures),
    Category("nervation", Venations)]

  /** `SATELLITES.get(name, [])`. */
  function CategoryTerms(cats: seq<Category>, name: string): (terms: seq<string>)
    ensures terms != [] ==> exists i :: 0 <= i < |cats| && cats[i].name == name && cats[i].terms == terms
  {
    if |cats| == 0 then []
    else if cats[0].name == name then cats[0].terms
    else
      var t := CategoryTerms(cats[1..], name);
      assert t != [] ==> exists i :: 1 <= i < |cats| && cats[i].name == name && cats[i].terms == t by {
        if t != [] {
          var i :| 0 <= i < |cats[1..]| && cats[1..][i].name == name && cats[1..][i].terms == t;
          assert cats[i + 1] == cats[1..][i];
        }
      }
      t
  }

  /** The aliases of French plant names, looked up before validation. */
  const PlantAliases: seq<(string, string)> :=
    [("mais", "corn"), ("maïs", "corn"), ("oignon", "onion"), ("tomate", "tomato")]

  const DefaultCutoff: real := 0.6

  /** `aliases.get(key)`. */
  function AliasOf(table: seq<(string, string)>, key: string): (r: Option<string>)
    ensures r.Some? <==> exists i :: 0 <= i < |table| && table[i].0 == key
    ensures r.Some? ==> exists i :: 0 <= i < |table| && table[i] == (key, r.value)
  {
    if |table| == 0 then None
    else if table[0].0 == key then Some(table[0].1)
    else
      var r := AliasOf(table[1..], key);
      assert forall i :: 1 <= i < |table| ==> table[i] == table[1..][i - 1];
      r
  }

  /** The form a term is compared in: lower case, blanks and hyphens as `_`, then transliterated. */
  function NormalizeTerm(value: string): (r: string)
    ensures |r| >= |value|
  {
    Unidecode(ReplaceChar(ReplaceChar(Lower(value), ' ', '_'), '-', '_'))
  }

  /** Letters `a`-`z`, digits and `_` only: the spelling of every term of the ontology. */
  predicate PlainTerm(t: string)
  {
    forall i :: 0 <= i < |t| ==> 'a' <= t[i] <= 'z' || '0' <= t[i] <= '9' || t[i] == '_'
  }

  /** A term spelled in plain characters is its own normal form. */
  lemma NormalizePlain(t: string)
    requires PlainTerm(t)
    ensures NormalizeTerm(t) == t
  {
    assert Lower(t) == t by {
      assert forall i :: 0 <= i < |t| ==> Lower(t)[i] == t[i];
    }
    assert ' ' !in t && '-' !in t;
    UnidecodeAscii(t);
  }

  /** One term contains the other, in either direction. */
  predicate Overlaps(value: string, term: string)
  {
    Contains(value, term) || Contains(term, value)
  }

  /** Position of the first term overlapping `value` (`|terms|` when none does). */
  function FirstOverlap(value: string, terms: seq<string>): (k: nat)
    ensures k <= |terms|
    ensures forall i :: 0 <= i < k ==> !Overlaps(value, terms[i])
    ensures k < |terms| ==> Overlaps(value, terms[k])
  {
    if |terms| == 0 then 0
    else if Overlaps(value, terms[0]) then 0
    else 1 + FirstOverlap(value, terms[1..])
  }

  /**
   * `validate_term(value, terms, cutoff)`: the term `value` stands for, or
   * None. Empty input is rejected; an exact match of the normal form wins,
   * then the first overlapping term, then the fuzzy matcher.
   */
  function ValidateTerm(o: Oracles, value: string, terms: seq<string>, cutoff: real): (r: Option<string>)
    ensures value == "" ==> r == None
    ensures value != "" && NormalizeTerm(value) in terms ==> r == Some(NormalizeTerm(value))
    ensures o.Sound() && r.Some? ==> r.value in terms
  {
    if value == "" then None
    else
      var v := NormalizeTerm(value);
      if v in terms then Some(v)
      else
        var k := FirstOverlap(v, terms);
        if k < |terms| then Some(terms[k]) else o.closeMatch(v, terms, cutoff)
  }

  /** Without an exact match, the first term in list order that overlaps the normal form is chosen. */
  lemma ValidateTermSubstring(o: Oracles, value: string, terms: seq<string>, cutoff: real, i: nat)
    requires value != "" && NormalizeTerm(value) !in terms
    requires i < |terms| && Overlaps(NormalizeTerm(value), terms[i])
    requires forall j :: 0 <= j < i ==> !Overlaps(NormalizeTerm(value), terms[j])
    ensures ValidateTerm(o, value, terms, cutoff) == Some(terms[i])
  {
  }

  /** The fuzzy matcher is consulted only when no term overlaps the normal form. */
  lemma ValidateTermFuzzy(o: Oracles, value: string, terms: seq<string>, cutoff: real)
    requires value != ""
    requires forall j :: 0 <= j < |terms| ==> !Overlaps(NormalizeTerm(value), terms[j])
    ensures ValidateTerm(o, value, terms, cutoff) == o.closeMatch(NormalizeTerm(value), terms, cutoff)
  {
  }

  /** A term of the list, spelled plainly, validates to itself. */
  lemma ValidateTermKnown(o: Oracles, t: string, terms: seq<string>, cutoff: real)
    requires t in terms && t != "" && PlainTerm(t)
    ensures ValidateTerm(o, t, terms, cutoff) == Some(t)
  {
    NormalizePlain(t);
  }

  /**
   * `identify_plant`: the alias table is consulted on the lower-cased,
   * transliterated lemma before the lemma is validated against the plants.
   */
  function IdentifyPlant(o: Oracles, lemme: string): (r: Option<string>)
    ensures AliasOf(PlantAliases, Unidecode(Lower(lemme))).Some? ==> r == AliasOf(PlantAliases, Unidecode(Lower(lemme)))
    ensures AliasOf(PlantAliases, Unidecode(Lower(lemme))).None? ==> r == ValidateTerm(o, lemme, Plants, DefaultCutoff)
    ensures o.Sound() && r.Some? ==> r.value in Plants
  {
    var alias := AliasOf(PlantAliases, Unidecode(Lower(lemme)));
    if alias.Some? then alias else ValidateTerm(o, lemme, Plants, DefaultCutoff)
  }

  /** `identify_link`: validation against the relations. */
  function IdentifyLink(o: Oracles, lemme: string): (r: Option<string>)
    ensures lemme == "" ==> r == None
    ensures o.Sound() && r.Some? ==> r.value in Relations
  {
    ValidateTerm(o, lemme, Relations, DefaultCutoff)
  }

  /** The alias key every spelling of the French word for maize reaches. */
  lemma MaizeKey(s: string)
    requires s == "mais" || s == "maïs" || s == "MAÏS"
    ensures Unidecode(Lower(s)) == "mais"
  {
    MaizeLower(s);
    MaizeTranslit(Lower(s));
  }

  lemma MaizeLower(s: string)
    requires s == "mais" || s == "maïs" || s == "MAÏS"
    ensures Lower(s) == "mais" || Lower(s) == "maïs"
  {
    var l := Lower(s);
    assert l == [LowerChar(s[0]), LowerChar(s[1]), LowerChar(s[2]), LowerChar(s[3])];
  }

  lemma MaizeTranslit(l: string)
    requires l == "mais" || l == "maïs"
    ensures Unidecode(l) == "mais"
  {
    assert TranslitChar(l[2]) == "i";
    assert Unidecode(l[3..]) == "s" by {
      assert Unidecode(l[4..]) == "";
    }
    assert Unidecode(l[2..]) == TranslitChar(l[2]) + Unidecode(l[3..]);
    assert Unidecode(l[1..]) == TranslitChar(l[1]) + Unidecode(l[2..]);
    assert Unidecode(l) == TranslitChar(l[0]) + Unidecode(l[1..]);
  }

  /** Both spellings of the French word for maize, in any case, identify corn. */
  lemma MaizeIsCorn(o: Oracles, s: string)
    requires s == "mais" || s == "maïs" || s == "MAÏS"
    ensures IdentifyPlant(o, s) == Some("corn")
  {
    MaizeKey(s);
    assert PlantAliases[0] == ("mais", "corn");
  }

  /** The English plant names are no alias keys and identify themselves. */
  lemma EnglishPlantIsItself(o: Oracles, t: string)
    requires t == "corn" || t == "onion" || t == "tomato"
    ensures IdentifyPlant(o, t) == Some(t)
  {
    EnglishPlantKey(t);
    EnglishNoAlias(t);
    EnglishInPlants(t);
    EnglishPlain(t);
    NormalizePlain(t);
  }

  lemma EnglishInPlants(t: string)
    requires t == "corn" || t == "onion" || t == "tomato"
    ensures t in Plants
  {
    assert t == Plants[0] || t == Plants[1] || t == Plants[2];
  }

  lemma EnglishPlain(t: string)
    requires t == "corn" || t == "onion" || t == "tomato"
    ensures PlainTerm(t)
  {
  }

  lemma EnglishNoAlias(t: string)
    requires t == "corn" || t == "onion" || t == "tomato"
    ensures AliasOf(PlantAliases, t) == None
  {
    assert forall i :: 0 <= i < |PlantAliases| ==> PlantAliases[i].0 != t;
  }

  lemma EnglishPlantKey(t: string)
    requires t == "corn" || t == "onion" || t == "tomato"
    ensures Unidecode(Lower(t)) == t
  {
    EnglishPlain(t);
    assert Lower(t) == t by {
      assert forall i :: 0 <= i < |t| ==> Lower(t)[i] == t[i];
    }
    UnidecodeAscii(t);
  }

  /** Transliteration never produces an i with diaeresis. */
  lemma {:induction false} NoDiaeresisAfterUnidecode(s: string)
    ensures 'ï' !in Unidecode(s)
  {
    if |s| > 0 {
      NoDiaeresisAfterUnidecode(s[1..]);
      var t := TranslitChar(s[0]);
      assert 'ï' !in t by {
        if t != [s[0]] {
          assert forall i :: 0 <= i < |t| ==> t[i] as int < 128;
        }
      }
      assert Unidecode(s) == t + Unidecode(s[1..]);
    }
  }

  /**
   * The accented alias key is never looked up: the key is transliterated
   * first, so only the unaccented entry can match.
   */
  lemma AccentedAliasNeverConsulted(lemme: string)
    ensures Unidecode(Lower(lemme)) != "maïs"
  {
    NoDiaeresisAfterUnidecode(Lower(lemme));
    assert "maïs"[2] == 'ï';
  }

  /** Position of the first category whose terms validate `lemme` to a non-empty term. */
  function FirstCategory(o: Oracles, lemme: string, cats: seq<Category>): (k: nat)
    ensures k <= |cats|
    ensures forall j :: 0 <= j < k ==> !Truthy(ValidateTerm(o, lemme, cats[j].terms, DefaultCutoff))
    ensures k < |cats| ==> Truthy(ValidateTerm(o, lemme, cats[k].terms, DefaultCutoff))
  {
    if |cats| == 0 then 0
    else if Truthy(ValidateTerm(o, lemme, cats[0].terms, DefaultCutoff)) then 0
    else 1 + FirstCategory(o, lemme, cats[1..])
  }

  /**
   * `classify_satellite`: the validated term and the name of the first
   * category, in order, that validates the lemma; None (the pair of Nones)
   * when no category does.
   */
  function ClassifySatellite(o: Oracles, lemme: string, cats: seq<Category>): (r: Option<(string, string)>)
    ensures r.None? <==> forall i :: 0 <= i < |cats| ==> !Truthy(ValidateTerm(o, lemme, cats[i].terms, DefaultCutoff))
    ensures r.Some? ==> exists i :: (0 <= i < |cats| && cats[i].name == r.value.1
      && ValidateTerm(o, lemme, cats[i].terms, DefaultCutoff) == Some(r.value.0) && r.value.0 != ""
      && forall j :: 0 <= j < i ==> !Truthy(ValidateTerm(o, lemme, cats[j].terms, DefaultCutoff)))
    ensures o.Sound() && r.Some? ==> exists i :: 0 <= i < |cats| && cats[i].name == r.value.1 && r.value.0 in cats[i].terms
  {
    var k := FirstCategory(o, lemme, cats);
    if k < |cats| then Some((ValidateTerm(o, lemme, cats[k].terms, DefaultCutoff).value, cats[k].name)) else None
  }

  /** The empty lemma is no Satellite. */
  lemma ClassifyEmpty(o: Oracles, cats: seq<Category>)
    ensures ClassifySatellite(o, "", cats) == None
  {
  }
}
