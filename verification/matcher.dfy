/**
 * Ontology-guided classification of extracted lemmas into Hubs, Links and
 * Satellites: a fixed controlled vocabulary decides directly, similarity
 * matching rescues unrecognised lemmas, and three passes assemble the
 * records.
 */
module Matcher {
  import opened Wrappers
  import opened Text
  import opened Externals
  import opened Similarity
  import opened Entities
  import Generator

  // ----- controlled vocabulary ------------------------------------------

  /**
   * The matcher's controlled vocabulary, group by group. The classifier
   * is stated for any vocabulary; `Standard` is the one the matcher ships.
   */
  datatype Vocabulary = Vocabulary(
    plants: set<string>, diseases: set<string>, pests: set<string>, relations: set<string>,
    symptoms: set<string>, leafStates: set<string>, colours: set<string>,
    shapes: set<string>, textures: set<string>, venations: set<string>)
  {
    /** Plants, diseases and pests. */
    function HubWords(): set<string>
    {
      plants + diseases + pests
    }

    /** Symptoms, leaf states and the four morphology groups. */
    function SatelliteWords(): set<string>
    {
      symptoms + leafStates + colours + shapes + textures + venations
    }

    /**
     * The attribute type of each Satellite word, built group by group with
     * later groups overwriting earlier ones.
     */
    function TypeMap(): map<string, string>
    {
      (map w | w in symptoms :: "symptome")
      + (map w | w in leafStates :: "etat_foliaire")
      + (map w | w in colours :: "couleur")
      + (map w | w in shapes :: "forme")
      + (map w | w in textures :: "texture")
      + (map w | w in venations :: "nervation")
    }

    /** `satellite_type_map.get(w, 'attribut')`. */
    function TypeOr(w: string): string
    {
      if w in TypeMap() then TypeMap()[w] else "attribut"
    }

    /** The entity type of a Hub word: plant, then disease, then pest. */
    function EntityTypeOf(w: string): string
    {
      if w in plants then "plante" else if w in diseases then "maladie" else "ravageur"
    }

    /** No word belongs to two Satellite groups. */
    predicate SatelliteGroupsDisjoint()
    {
      && symptoms !! leafStates && symptoms !! colours && symptoms !! shapes && symptoms !! textures && symptoms !! venations
      && leafStates !! colours && leafStates !! shapes && leafStates !! textures && leafStates !! venations
      && colours !! shapes && colours !! textures && colours !! venations
      && shapes !! textures && shapes !! venations
      && textures !! venations
    }
  }

  const Plants: set<string> := {"corn", "onion", "tomato", "mais", "oignon", "tomate"}

  const Diseases: set<string> := {
    "helminthosporiose", "rouille", "fusariose", "curvulariose", "striure", "virose",
    "alternariose", "mildiou", "pourriture_blanche", "bacteriose", "bacterial_wilt",
    "virus_tylcv", "stress_abiotique"}

  const Pests: set<string> := {
    "foreur_tige", "chenille_legionnaire", "puceron", "cicadelle",
    "thrips", "mouche_oignon", "chenille", "nematode",
    "aleurode", "acarien", "mineuse", "noctuelle"}

  const Relations: set<string> := {"has_disease", "has_infestation", "has_health_status"}

  const Symptoms: set<string> := {
    "chlorose", "necrose", "fletrissement", "tache", "lesion", "pourriture",
    "deformation", "mosaique", "galerie", "perforation", "miellat", "striure",
    "galle", "nanisme", "toile", "morsure"}

  const LeafStates: set<string> := {
    "saine", "malade", "fletrie", "seche", "tachetee", "chlorotique", "necrotique",
    "perforee", "enroulee", "turgescente", "cassante", "mourante", "morte",
    "brulee", "decoloree", "rougie", "tordue", "froissee", "tombante", "dressee",
    "aplatie", "ratatinee", "dechiree", "striee", "marbree", "poudreuse",
    "collante", "fumagine", "entoilee", "minee", "jeune", "mature", "senescente"}

  const Colours: set<string> := {
    "vert_fonce", "vert_clair", "vert_jaunatre", "jaune", "brun", "vert_bleuatre",
    "vert_grisatre", "vert", "rouge", "orange", "noir", "blanc"}

  const Shapes: set<string> := {
    "lineaire_lanceolee", "tubulaire_cylindrique", "composee_imparipennee",
    "simple", "composee", "simple_tubulaire", "ovale", "lanceolee"}

  const Textures: set<string> := {
    "lisse", "rugueuse", "cireuse", "creuse", "pubescente", "glanduleuse",
    "lisse_cireuse", "legerement_rugueuse"}

  const Venations: set<string> := {"nervation_parallele", "nervation_reticulee", "parallele", "reticulee"}

  const Standard: Vocabulary :=
    Vocabulary(Plants, Diseases, Pests, Relations, Symptoms, LeafStates, Colours, Shapes, Textures, Venations)

  // Each pair of the shipped Satellite groups is checked on its own.
  lemma DisjointSymptomsLeafStates() ensures Symptoms !! LeafStates {}
  lemma DisjointSymptomsColours() ensures Symptoms !! Colours {}
  lemma DisjointSymptomsShapes() ensures Symptoms !! Shapes {}
  lemma DisjointSymptomsTextures() ensures Symptoms !! Textures {}
  lemma DisjointSymptomsVenations() ensures Symptoms !! Venations {}
  lemma DisjointLeafStatesColours() ensures LeafStates !! Colours {}
  lemma DisjointLeafStatesShapes() ensures LeafStates !! Shapes {}
  lemma DisjointLeafStatesTextures() ensures LeafStates !! Textures {}
  lemma DisjointLeafStatesVenations() ensures LeafStates !! Venations {}
  lemma DisjointColoursShapes() ensures Colours !! Shapes {}
  lemma DisjointColoursTextures() ensures Colours !! Textures {}
  lemma DisjointColoursVenations() ensures Colours !! Venations {}
  lemma DisjointShapesTextures() ensures Shapes !! Textures {}
  lemma DisjointShapesVenations() ensures Shapes !! Venations {}
  lemma DisjointTexturesVenations() ensures Textures !! Venations {}

  /** The shipped Satellite groups share no word, so the order the type map is built in does not matter. */
  lemma StandardGroupsDisjoint()
    ensures Standard.SatelliteGroupsDisjoint()
  {
    DisjointSymptomsLeafStates(); DisjointSymptomsColours(); DisjointSymptomsShapes(); DisjointSymptomsTextures(); DisjointSymptomsVenations(); DisjointLeafStatesColours(); DisjointLeafStatesShapes(); DisjointLeafStatesTextures(); DisjointLeafStatesVenations(); DisjointColoursShapes(); DisjointColoursTextures(); DisjointColoursVenations(); DisjointShapesTextures(); DisjointShapesVenations(); DisjointTexturesVenations();
  }

  /** The type map has an entry for exactly the Satellite words. */
  lemma TypeMapKeys(v: Vocabulary, w: string)
    ensures w in v.TypeMap() <==> w in v.SatelliteWords()
  {
  }

  /**
   * With disjoint groups, the type map names the group of each Satellite
   * word, and every other word gets `attribut`.
   */
  lemma TypeMapGroups(v: Vocabulary, w: string)
    ensures v.SatelliteGroupsDisjoint() ==>
      && (w in v.symptoms ==> v.TypeOr(w) == "symptome")
      && (w in v.leafStates ==> v.TypeOr(w) == "etat_foliaire")
      && (w in v.colours ==> v.TypeOr(w) == "couleur")
      && (w in v.shapes ==> v.TypeOr(w) == "forme")
      && (w in v.textures ==> v.TypeOr(w) == "texture")
      && (w in v.venations ==> v.TypeOr(w) == "nervation")
    ensures w !in v.SatelliteWords() ==> v.TypeOr(w) == "attribut"
  {
  }

  /** A relation of the ontology, with the annotations the vocabulary uses. */
  datatype OntologyRelation = OntologyRelation(annotatedLemma: string, labelNormalized: string)

  /** The word a relation contributes: its lowered lemma, or its normalised label when it has none. */
  function RelationWord(r: OntologyRelation): string
  {
    if r.annotatedLemma != "" then Lower(r.annotatedLemma) else r.labelNormalized
  }

  /** The Link vocabulary: the fixed relations plus every ontology relation word containing `has_`. */
  function LinkVocabulary(v: Vocabulary, relations: seq<OntologyRelation>): (lv: set<string>)
    ensures v.relations <= lv
    ensures forall r :: r in relations && Contains(RelationWord(r), "has_") ==> RelationWord(r) in lv
    ensures forall w :: w in lv ==> w in v.relations || Contains(w, "has_")
  {
    v.relations + (set r | r in relations && Contains(RelationWord(r), "has_") :: RelationWord(r))
  }

  // ----- direct classification ------------------------------------------

  /** The outcome of `_classify_lemma`. */
  datatype Class = HubClass(entityType: string) | LinkClass | SatelliteClass(attributeName: string) | UnknownClass

  /** The form of a lemma that the vocabulary is compared against. */
  function Key(word: string): string
  {
    Strip(Lower(word))
  }

  /**
   * `_classify_lemma`: the first vocabulary group, in priority order, that
   * holds the lowered and stripped lemma.
   */
  function ClassifyLemma(v: Vocabulary, linkVocabulary: set<string>, word: string): (k: Class)
    ensures k.HubClass? <==> Key(word) in v.HubWords()
    ensures k.HubClass? ==> k.entityType == v.EntityTypeOf(Key(word))
    ensures k.LinkClass? <==> Key(word) !in v.HubWords() && Key(word) in v.relations + linkVocabulary
    ensures k.SatelliteClass? <==> Key(word) !in v.HubWords() + v.relations + linkVocabulary && Key(word) in v.SatelliteWords()
    ensures k.SatelliteClass? && v.SatelliteGroupsDisjoint() ==> k.attributeName == v.TypeOr(Key(word))
    ensures k.UnknownClass? <==> Key(word) !in v.HubWords() + v.relations + linkVocabulary + v.SatelliteWords()
  {
    var w := Key(word);
    TypeMapGroups(v, w);
    if w in v.plants then HubClass("plante")
    else if w in v.diseases then HubClass("maladie")
    else if w in v.pests then HubClass("ravageur")
    else if w in v.relations || w in linkVocabulary then LinkClass
    else if w in v.symptoms then SatelliteClass("symptome")
    else if w in v.leafStates then SatelliteClass("etat_foliaire")
    else if w in v.colours then SatelliteClass("couleur")
    else if w in v.shapes then SatelliteClass("forme")
    else if w in v.textures then SatelliteClass("texture")
    else if w in v.venations then SatelliteClass("nervation")
    else UnknownClass
  }

  /** `striure` is both a disease and a symptom; the disease check comes first. */
  lemma StriureIsDisease(linkVocabulary: set<string>)
    ensures "striure" in Diseases && "striure" in Symptoms
    ensures ClassifyLemma(Standard, linkVocabulary, "striure") == HubClass("maladie")
  {
    KeyOfPlainWord("striure");
  }

  /** A word of lower-case ASCII letters and underscores is its own comparison key. */
  lemma KeyOfPlainWord(word: string)
    requires forall i :: 0 <= i < |word| ==> 'a' <= word[i] <= 'z' || word[i] == '_'
    ensures Lower(word) == word && Key(word) == word
  {
    forall i | 0 <= i < |word| ensures Lower(word)[i] == word[i] {
      PlainCharLower(word[i]);
    }
    assert Lower(word) == word;
    if |word| > 0 {
      PlainCharNotSpace(word[0]);
      PlainCharNotSpace(word[|word| - 1]);
    }
  }

  lemma PlainCharLower(ch: char)
    requires 'a' <= ch <= 'z' || ch == '_'
    ensures LowerChar(ch) == ch
  {
  }

  lemma PlainCharNotSpace(ch: char)
    requires 'a' <= ch <= 'z' || ch == '_'
    ensures !IsSpace(ch)
  {
  }

  // ----- configuration ---------------------------------------------------

  /**
   * The matcher's collaborators: the similarity oracles and algorithm, the
   * threshold table, the ontology relations, and the order in which the
   * Hub and Satellite vocabulary sets are enumerated when handed to the
   * best-match search.
   */
  datatype Config = Config(
    oracles: Oracles,
    algorithm: Algorithm,
    vocabulary: Vocabulary,
    linkVocabulary: set<string>,
    thresholds: map<string, real>,
    hubOrder: seq<string>,
    satelliteOrder: seq<string>)

  /** The matcher's constructor: the Link vocabulary is built once from the ontology relations. */
  function NewConfig(oracles: Oracles, algorithm: Algorithm, vocabulary: Vocabulary, relations: seq<OntologyRelation>,
                     thresholds: map<string, real>, hubOrder: seq<string>, satelliteOrder: seq<string>): (c: Config)
    requires Enumerates(hubOrder, vocabulary.HubWords()) && Enumerates(satelliteOrder, vocabulary.SatelliteWords())
    ensures c.linkVocabulary == LinkVocabulary(vocabulary, relations)
    ensures c.vocabulary == vocabulary && c.thresholds == thresholds
    ensures OrdersEnumerate(c)
  {
    Config(oracles, algorithm, vocabulary, LinkVocabulary(vocabulary, relations), thresholds, hubOrder, satelliteOrder)
  }

  /** `list(s)` for a set `s`: each element exactly once. */
  predicate Enumerates(order: seq<string>, s: set<string>)
  {
    NoDup(order) && (forall w :: w in order ==> w in s) && (forall w :: w in s ==> w in order)
  }

  /** The orders are enumerations of the two vocabulary sets. */
  predicate OrdersEnumerate(c: Config)
  {
    Enumerates(c.hubOrder, c.vocabulary.HubWords()) && Enumerates(c.satelliteOrder, c.vocabulary.SatelliteWords())
  }

  /** `thresholds.get(name, default)`. */
  function Threshold(c: Config, name: string, default: real): real
  {
    if name in c.thresholds then c.thresholds[name] else default
  }

  function ThetaC(c: Config): real { Threshold(c, "entities", 0.75) }
  function ThetaA(c: Config): real { Threshold(c, "attributes", 0.65) }

  /** `_find_best_match` against the Hub vocabulary. */
  function HubMatch(c: Config, word: string): Match
  {
    FindBestMatch(c.oracles, c.algorithm, Lower(word), c.hubOrder, ThetaC(c))
  }

  /** `_find_best_match` against the Satellite vocabulary. */
  function SatelliteMatch(c: Config, word: string): Match
  {
    FindBestMatch(c.oracles, c.algorithm, Lower(word), c.satelliteOrder, ThetaA(c))
  }

  function OntologyUri(name: string): string
  {
    "http://example.org/ontology#" + name
  }

  // ----- records ---------------------------------------------------------

  /** A Satellite candidate of the first pass: the raw lemma and its attribute type. */
  datatype Candidate = Candidate(word: string, attributeName: string)

  /** The Hub created for a directly classified lemma. */
  function DirectHub(c: Config, word: string, entityType: string, source: string, now: Instant): (h: Hub)
    ensures h.businessKey == Lower(word) && h.entityType == entityType && h.confidence == 1.0
    ensures h.hubKey == c.oracles.md5(HubKeyText(Lower(word), entityType))
  {
    NewHub(c.oracles, Lower(word), entityType, source, OntologyUri(word), 1.0, now, None)
  }

  /** What `_classify_unknown_lemma` contributes for one lemma. */
  datatype Rescue = RescuedHub(hub: Hub) | RescuedCandidate(candidate: Candidate) | NotRescued

  /**
   * `_classify_unknown_lemma`: a Hub when the Hub vocabulary matches at
   * theta-c, else a Satellite candidate typed by the Satellite vocabulary
   * match at theta-a, else a `description` candidate for lemmas longer
   * than two characters, else nothing.
   */
  function RescueLemma(c: Config, word: string, source: string, now: Instant): (r: Rescue)
    ensures r.RescuedHub? <==> Truthy(HubMatch(c, word).term)
    ensures r.RescuedHub? ==>
      && r.hub.businessKey == Lower(word)
      && r.hub.entityType == c.vocabulary.EntityTypeOf(HubMatch(c, word).term.value)
      && r.hub.ontologyUri == OntologyUri(HubMatch(c, word).term.value)
      && HubMatch(c, word).term.value in c.hubOrder
      && 0.0 < r.hub.confidence <= 1.0
      && r.hub.confidence >= ThetaC(c)
    ensures r.RescuedCandidate? <==> !Truthy(HubMatch(c, word).term) && (Truthy(SatelliteMatch(c, word).term) || |word| > 2)
    ensures r.RescuedCandidate? ==> r.candidate.word == word
    ensures r.RescuedCandidate? && Truthy(SatelliteMatch(c, word).term) ==>
      r.candidate.attributeName == c.vocabulary.TypeOr(SatelliteMatch(c, word).term.value) && SatelliteMatch(c, word).term.value in c.satelliteOrder
    ensures OrdersEnumerate(c) && r.RescuedHub? ==> HubMatch(c, word).term.value in c.vocabulary.HubWords()
    ensures OrdersEnumerate(c) && r.RescuedCandidate? && Truthy(SatelliteMatch(c, word).term) ==>
      SatelliteMatch(c, word).term.value in c.vocabulary.SatelliteWords()
    ensures r.RescuedCandidate? && !Truthy(SatelliteMatch(c, word).term) ==> r.candidate.attributeName == "description"
  {
    var hm := HubMatch(c, word);
    if Truthy(hm.term) then
      var best := hm.term.value;
      RescuedHub(NewHub(c.oracles, Lower(word), c.vocabulary.EntityTypeOf(best), source, OntologyUri(best), hm.score, now, None))
    else
      var sm := SatelliteMatch(c, word);
      if Truthy(sm.term) then RescuedCandidate(Candidate(word, c.vocabulary.TypeOr(sm.term.value)))
      else if |word| > 2 then RescuedCandidate(Candidate(word, "description"))
      else NotRescued
  }

  // ----- pass 1 ----------------------------------------------------------

  /** The state of the first pass: Hubs so far, the two slots, the relation seen, the candidates. */
  datatype State = State(
    hubs: seq<Hub>,
    plant: Option<Hub>,
    problem: Option<Hub>,
    relation: Option<string>,
    candidates: seq<Candidate>)

  function ClassOf(c: Config, word: string): Class
  {
    ClassifyLemma(c.vocabulary, c.linkVocabulary, word)
  }

  predicate IsPlant(c: Config, word: string) { ClassOf(c, word) == HubClass("plante") }
  predicate IsProblem(c: Config, word: string) { ClassOf(c, word).HubClass? && ClassOf(c, word).entityType != "plante" }
  predicate IsRelation(c: Config, word: string) { ClassOf(c, word).LinkClass? }

  /** One iteration of the first pass over `word`. */
  function Step(c: Config, st: State, word: string, source: string, now: Instant): State
  {
    match ClassOf(c, word)
    case HubClass(t) =>
      var h := DirectHub(c, word, t, source, now);
      if t == "plante" then st.(hubs := st.hubs + [h], plant := Some(h))
      else st.(hubs := st.hubs + [h], problem := Some(h))
    case LinkClass => st.(relation := Some(Lower(word)))
    case SatelliteClass(a) => st.(candidates := st.candidates + [Candidate(word, a)])
    case UnknownClass =>
      match RescueLemma(c, word, source, now)
      case RescuedHub(h) => st.(hubs := st.hubs + [h])
      case RescuedCandidate(k) => st.(candidates := st.candidates + [k])
      case NotRescued => st
  }

  /** The Hubs one lemma contributes, independently of the others. */
  function HubsOf(c: Config, word: string, source: string, now: Instant): seq<Hub>
  {
    match ClassOf(c, word)
    case HubClass(t) => [DirectHub(c, word, t, source, now)]
    case UnknownClass => (match RescueLemma(c, word, source, now) case RescuedHub(h) => [h] case _ => [])
    case _ => []
  }

  /** The Satellite candidates one lemma contributes, independently of the others. */
  function CandidatesOf(c: Config, word: string, source: string, now: Instant): seq<Candidate>
  {
    match ClassOf(c, word)
    case SatelliteClass(a) => [Candidate(word, a)]
    case UnknownClass => (match RescueLemma(c, word, source, now) case RescuedCandidate(k) => [k] case _ => [])
    case _ => []
  }

  /** Concatenation of per-lemma contributions. */
  function AllHubsOf(c: Config, lemmas: seq<string>, source: string, now: Instant): seq<Hub>
  {
    if |lemmas| == 0 then [] else AllHubsOf(c, lemmas[..|lemmas| - 1], source, now) + HubsOf(c, lemmas[|lemmas| - 1], source, now)
  }

  function AllCandidatesOf(c: Config, lemmas: seq<string>, source: string, now: Instant): seq<Candidate>
  {
    if |lemmas| == 0 then [] else AllCandidatesOf(c, lemmas[..|lemmas| - 1], source, now) + CandidatesOf(c, lemmas[|lemmas| - 1], source, now)
  }

  /**
   * The first pass of `classify_lemmas`: Hubs and candidates are the
   * concatenation of what each lemma contributes, and the two slots only
   * ever hold Hubs of the list.
   */
  lemma StepEffect(c: Config, st: State, word: string, source: string, now: Instant)
    ensures Step(c, st, word, source, now).hubs == st.hubs + HubsOf(c, word, source, now)
    ensures Step(c, st, word, source, now).candidates == st.candidates + CandidatesOf(c, word, source, now)
  {
  }

  /** How one step moves the plant, problem and relation slots. */
  lemma StepPlant(c: Config, st: State, word: string, source: string, now: Instant)
    ensures Step(c, st, word, source, now).plant == if IsPlant(c, word) then Some(DirectHub(c, word, "plante", source, now)) else st.plant
  {
  }

  lemma StepProblem(c: Config, st: State, word: string, source: string, now: Instant)
    ensures Step(c, st, word, source, now).problem == if IsProblem(c, word) then Some(DirectHub(c, word, ClassOf(c, word).entityType, source, now)) else st.problem
  {
  }

  lemma StepRelation(c: Config, st: State, word: string, source: string, now: Instant)
    ensures Step(c, st, word, source, now).relation == if IsRelation(c, word) then Some(Lower(word)) else st.relation
  {
  }

  /** The slots only ever hold Hubs of the list, of the right kinds. */
  predicate SlotsInHubs(st: State)
  {
    && (st.plant.Some? ==> st.plant.value in st.hubs && st.plant.value.entityType == "plante")
    && (st.problem.Some? ==> st.problem.value in st.hubs && st.problem.value.entityType in {"maladie", "ravageur"})
  }

  lemma StepKeepsSlots(c: Config, st: State, word: string, source: string, now: Instant)
    requires SlotsInHubs(st)
    ensures SlotsInHubs(Step(c, st, word, source, now))
  {
  }

  /** Every Hub of the first pass carries a positive score of at most one. */
  predicate HubScoresPositive(st: State)
  {
    forall h :: h in st.hubs ==> 0.0 < h.confidence <= 1.0
  }

  lemma StepKeepsScores(c: Config, st: State, word: string, source: string, now: Instant)
    requires HubScoresPositive(st)
    ensures HubScoresPositive(Step(c, st, word, source, now))
  {
  }

  function FirstPass(c: Config, lemmas: seq<string>, source: string, now: Instant): (st: State)
    ensures SlotsInHubs(st)
    ensures HubScoresPositive(st)
  {
    if |lemmas| == 0 then State([], None, None, None, [])
    else
      var n := |lemmas| - 1;
      var prev := FirstPass(c, lemmas[..n], source, now);
      StepKeepsSlots(c, prev, lemmas[n], source, now);
      StepKeepsScores(c, prev, lemmas[n], source, now);
      Step(c, prev, lemmas[n], source, now)
  }

  /** The Hubs and candidates of the first pass are the concatenation of what each lemma contributes. */
  lemma {:induction false} FirstPassContributions(c: Config, lemmas: seq<string>, source: string, now: Instant)
    ensures FirstPass(c, lemmas, source, now).hubs == AllHubsOf(c, lemmas, source, now)
    ensures FirstPass(c, lemmas, source, now).candidates == AllCandidatesOf(c, lemmas, source, now)
  {
    if |lemmas| > 0 {
      var n := |lemmas| - 1;
      FirstPassContributions(c, lemmas[..n], source, now);
      StepEffect(c, FirstPass(c, lemmas[..n], source, now), lemmas[n], source, now);
    }
  }

  /** Unfolds the first pass by its last lemma. */
  lemma FirstPassLast(c: Config, lemmas: seq<string>, source: string, now: Instant)
    requires |lemmas| > 0
    ensures FirstPass(c, lemmas, source, now) == Step(c, FirstPass(c, lemmas[..|lemmas| - 1], source, now), lemmas[|lemmas| - 1], source, now)
  {
  }

  /** The three slots of the first pass and the lemmas that fill them. */
  datatype Slot = PlantSlot | ProblemSlot | RelationSlot

  predicate Fills(c: Config, k: Slot, word: string)
  {
    match k
    case PlantSlot => IsPlant(c, word)
    case ProblemSlot => IsProblem(c, word)
    case RelationSlot => IsRelation(c, word)
  }

  /** `lemmas[i]` fills slot `k` and no later lemma does. */
  predicate LastAt(c: Config, k: Slot, lemmas: seq<string>, i: int)
  {
    0 <= i < |lemmas| && Fills(c, k, lemmas[i]) && forall j :: i < j < |lemmas| ==> !Fills(c, k, lemmas[j])
  }

  predicate NoneFills(c: Config, k: Slot, lemmas: seq<string>)
  {
    forall i :: 0 <= i < |lemmas| ==> !Fills(c, k, lemmas[i])
  }

  lemma NoneFillsLast(c: Config, k: Slot, lemmas: seq<string>)
    requires |lemmas| > 0
    ensures NoneFills(c, k, lemmas) <==> NoneFills(c, k, lemmas[..|lemmas| - 1]) && !Fills(c, k, lemmas[|lemmas| - 1])
  {
    if NoneFills(c, k, lemmas[..|lemmas| - 1]) && !Fills(c, k, lemmas[|lemmas| - 1]) {
      NoneFillsExtend(c, k, lemmas);
    }
    if NoneFills(c, k, lemmas) {
      NoneFillsShrink(c, k, lemmas);
    }
  }

  lemma NoneFillsExtend(c: Config, k: Slot, lemmas: seq<string>)
    requires |lemmas| > 0
    requires NoneFills(c, k, lemmas[..|lemmas| - 1]) && !Fills(c, k, lemmas[|lemmas| - 1])
    ensures NoneFills(c, k, lemmas)
  {
    var n := |lemmas| - 1;
    forall i | 0 <= i < n ensures !Fills(c, k, lemmas[i]) {
      assert lemmas[i] == lemmas[..n][i];
    }
  }

  lemma NoneFillsShrink(c: Config, k: Slot, lemmas: seq<string>)
    requires |lemmas| > 0 && NoneFills(c, k, lemmas)
    ensures NoneFills(c, k, lemmas[..|lemmas| - 1])
  {
    var n := |lemmas| - 1;
    forall i | 0 <= i < n ensures !Fills(c, k, lemmas[..n][i]) {
      assert lemmas[i] == lemmas[..n][i];
    }
  }

  lemma LastAtLast(c: Config, k: Slot, lemmas: seq<string>, i: int)
    requires |lemmas| > 0
    ensures Fills(c, k, lemmas[|lemmas| - 1]) ==> LastAt(c, k, lemmas, |lemmas| - 1)
    ensures LastAt(c, k, lemmas[..|lemmas| - 1], i) && !Fills(c, k, lemmas[|lemmas| - 1]) ==> LastAt(c, k, lemmas, i)
  {
    if LastAt(c, k, lemmas[..|lemmas| - 1], i) && !Fills(c, k, lemmas[|lemmas| - 1]) {
      LastAtExtend(c, k, lemmas, i);
    }
  }

  lemma LastAtExtend(c: Config, k: Slot, lemmas: seq<string>, i: int)
    requires |lemmas| > 0
    requires LastAt(c, k, lemmas[..|lemmas| - 1], i) && !Fills(c, k, lemmas[|lemmas| - 1])
    ensures LastAt(c, k, lemmas, i)
  {
    LastUnmarked(w => Fills(c, k, w), lemmas[..|lemmas| - 1], lemmas[|lemmas| - 1], lemmas, i);
  }

  /** If `pre[i]` is the last marked element of `pre`, it stays the last one after an unmarked `x`. */
  lemma LastUnmarked(p: string -> bool, pre: seq<string>, x: string, xs: seq<string>, i: int)
    requires xs == pre + [x] && !p(x)
    requires 0 <= i < |pre| && p(pre[i]) && forall j :: i < j < |pre| ==> !p(pre[j])
    ensures p(xs[i]) && forall j :: i < j < |xs| ==> !p(xs[j])
  {
    assert xs[i] == pre[i];
    forall j | i < j < |xs| ensures !p(xs[j]) {
      if j < |pre| { assert xs[j] == pre[j]; }
    }
  }

  /** A slot that the last lemma fills takes its value, and otherwise keeps the value it had. */
  lemma SlotStep<T>(c: Config, k: Slot, lemmas: seq<string>, pre: seq<string>, val: string -> T, prev: Option<T>, cur: Option<T>)
    requires |lemmas| > 0 && pre == lemmas[..|lemmas| - 1]
    requires cur == if Fills(c, k, lemmas[|pre|]) then Some(val(lemmas[|pre|])) else prev
    requires prev.None? <==> NoneFills(c, k, pre)
    requires prev.Some? ==> exists i :: LastAt(c, k, pre, i) && prev == Some(val(pre[i]))
    ensures cur.None? <==> NoneFills(c, k, lemmas)
    ensures cur.Some? ==> exists i :: LastAt(c, k, lemmas, i) && cur == Some(val(lemmas[i]))
  {
    var n := |pre|;
    NoneFillsLast(c, k, lemmas);
    if Fills(c, k, lemmas[n]) {
      LastAtLast(c, k, lemmas, n);
    } else if prev.Some? {
      var i :| LastAt(c, k, pre, i) && prev == Some(val(pre[i]));
      LastAtLast(c, k, lemmas, i);
      assert pre[i] == lemmas[i];
    }
  }

  /**
   * The plant slot is empty exactly when no lemma is a plant lemma, and
   * otherwise holds the Hub of the last one.
   */
  lemma {:induction false} PlantSlotLastWins(c: Config, lemmas: seq<string>, source: string, now: Instant)
    ensures FirstPass(c, lemmas, source, now).plant.None? <==> NoneFills(c, PlantSlot, lemmas)
    ensures FirstPass(c, lemmas, source, now).plant.Some? ==>
      exists i :: LastAt(c, PlantSlot, lemmas, i) && FirstPass(c, lemmas, source, now).plant == Some(DirectHub(c, lemmas[i], "plante", source, now))
  {
    if |lemmas| > 0 {
      var n := |lemmas| - 1;
      var prev := FirstPass(c, lemmas[..n], source, now);
      PlantSlotLastWins(c, lemmas[..n], source, now);
      FirstPassLast(c, lemmas, source, now);
      StepPlant(c, prev, lemmas[n], source, now);
      SlotStep(c, PlantSlot, lemmas, lemmas[..n], w => DirectHub(c, w, "plante", source, now),
        prev.plant, FirstPass(c, lemmas, source, now).plant);
    }
  }

  /**
   * The problem slot is empty exactly when no lemma is a disease or pest
   * lemma, and otherwise holds the Hub of the last one.
   */
  lemma {:induction false} ProblemSlotLastWins(c: Config, lemmas: seq<string>, source: string, now: Instant)
    ensures FirstPass(c, lemmas, source, now).problem.None? <==> NoneFills(c, ProblemSlot, lemmas)
    ensures FirstPass(c, lemmas, source, now).problem.Some? ==>
      exists i :: LastAt(c, ProblemSlot, lemmas, i)
        && FirstPass(c, lemmas, source, now).problem == Some(DirectHub(c, lemmas[i], ClassOf(c, lemmas[i]).entityType, source, now))
  {
    if |lemmas| > 0 {
      var n := |lemmas| - 1;
      var prev := FirstPass(c, lemmas[..n], source, now);
      ProblemSlotLastWins(c, lemmas[..n], source, now);
      FirstPassLast(c, lemmas, source, now);
      StepProblem(c, prev, lemmas[n], source, now);
      NoneFillsLast(c, ProblemSlot, lemmas);
      if IsProblem(c, lemmas[n]) {
        LastAtLast(c, ProblemSlot, lemmas, n);
      } else if prev.problem.Some? {
        var i :| LastAt(c, ProblemSlot, lemmas[..n], i)
          && prev.problem == Some(DirectHub(c, lemmas[..n][i], ClassOf(c, lemmas[..n][i]).entityType, source, now));
        LastAtLast(c, ProblemSlot, lemmas, i);
        assert lemmas[..n][i] == lemmas[i];
      }
    }
  }

  /**
   * The relation slot is empty exactly when no lemma is a relation lemma,
   * and otherwise holds the last one, lowered.
   */
  lemma {:induction false} RelationSlotLastWins(c: Config, lemmas: seq<string>, source: string, now: Instant)
    ensures FirstPass(c, lemmas, source, now).relation.None? <==> NoneFills(c, RelationSlot, lemmas)
    ensures FirstPass(c, lemmas, source, now).relation.Some? ==>
      exists i :: LastAt(c, RelationSlot, lemmas, i) && FirstPass(c, lemmas, source, now).relation == Some(Lower(lemmas[i]))
  {
    if |lemmas| > 0 {
      var n := |lemmas| - 1;
      var prev := FirstPass(c, lemmas[..n], source, now);
      RelationSlotLastWins(c, lemmas[..n], source, now);
      FirstPassLast(c, lemmas, source, now);
      StepRelation(c, prev, lemmas[n], source, now);
      NoneFillsLast(c, RelationSlot, lemmas);
      if IsRelation(c, lemmas[n]) {
        LastAtLast(c, RelationSlot, lemmas, n);
      } else if prev.relation.Some? {
        var i :| LastAt(c, RelationSlot, lemmas[..n], i) && prev.relation == Some(Lower(lemmas[..n][i]));
        LastAtLast(c, RelationSlot, lemmas, i);
        assert lemmas[..n][i] == lemmas[i];
      }
    }
  }

  // ----- pass 2 ----------------------------------------------------------

  /** The type of the plant-to-problem Link: the relation seen if any, else one implied by the problem. */
  function RelationType(relation: Option<string>, problemType: string): string
  {
    if Truthy(relation) then relation.value
    else if problemType == "maladie" then "has_disease"
    else if problemType == "ravageur" then "has_infestation"
    else "has_health_status"
  }

  /** The second pass: one Link from the plant Hub to the problem Hub when both slots are filled. */
  function SecondPass(c: Config, st: State, source: string, now: Instant): (links: seq<Link>)
    ensures |links| <= 1
    ensures |links| == 1 <==> st.plant.Some? && st.problem.Some?
    ensures |links| == 1 ==>
      && links[0].sourceKey == st.plant.value.hubKey
      && links[0].targetKey == st.problem.value.hubKey
      && links[0].relationType == RelationType(st.relation, st.problem.value.entityType)
      && links[0].confidence == 1.0
  {
    if st.plant.Some? && st.problem.Some? then
      [NewLink(c.oracles, st.plant.value.hubKey, st.problem.value.hubKey,
               RelationType(st.relation, st.problem.value.entityType), source, 1.0, now, None)]
    else []
  }

  // ----- pass 3 ----------------------------------------------------------

  /**
   * The Hub a candidate is attached to: symptoms go to the problem Hub,
   * everything else (and symptoms without one) to the plant Hub, failing
   * that to the first Hub; with no Hub at all the candidate is dropped.
   */
  function Parent(st: State, k: Candidate): (p: Option<Hub>)
    ensures SlotsInHubs(st) ==> (p.None? <==> |st.hubs| == 0)
    ensures SlotsInHubs(st) && p.Some? ==> p.value in st.hubs
    ensures k.attributeName == "symptome" && st.problem.Some? ==> p == st.problem
    ensures !(k.attributeName == "symptome" && st.problem.Some?) && st.plant.Some? ==> p == st.plant
    ensures !(k.attributeName == "symptome" && st.problem.Some?) && st.plant.None? && |st.hubs| > 0 ==> p == Some(st.hubs[0])
  {
    if k.attributeName == "symptome" && st.problem.Some? then st.problem
    else if st.plant.Some? then st.plant
    else if |st.hubs| > 0 then Some(st.hubs[0])
    else None
  }

  /** The Satellite of one candidate, when it has a parent. */
  function Attach(c: Config, st: State, k: Candidate, source: string, now: Instant): seq<Satellite>
  {
    match Parent(st, k)
    case Some(p) => [NewSatellite(c.oracles, p.hubKey, k.attributeName, Lower(k.word), source, 0.95, now, None, None)]
    case None => []
  }

  /** The third pass: candidates become Satellites of their parent Hubs, in order. */
  function ThirdPass(c: Config, st: State, candidates: seq<Candidate>, source: string, now: Instant): (sats: seq<Satellite>)
    ensures forall t :: t in sats ==> t.confidence == 0.95 && t.recordSource == source
    ensures SlotsInHubs(st) ==> forall t :: t in sats ==> exists h :: h in st.hubs && h.hubKey == t.hubKey
    ensures SlotsInHubs(st) && |st.hubs| == 0 ==> sats == []
    ensures SlotsInHubs(st) && |st.hubs| > 0 ==>
      && |sats| == |candidates|
      && forall i :: 0 <= i < |sats| ==>
        && sats[i].attributeName == candidates[i].attributeName
        && sats[i].attributeValue == Lower(candidates[i].word)
        && sats[i].hubKey == Parent(st, candidates[i]).value.hubKey
  {
    if candidates == [] then []
    else Attach(c, st, candidates[0], source, now) + ThirdPass(c, st, candidates[1..], source, now)
  }

  // ----- classify_lemmas -------------------------------------------------

  /** The three lists `classify_lemmas` returns. */
  datatype Classification = Classification(hubs: seq<Hub>, links: seq<Link>, satellites: seq<Satellite>)

  /**
   * `classify_lemmas`: at most one Link, present exactly when some lemma is
   * a plant and some lemma a disease or pest; every Satellite hangs off a
   * Hub of the result.
   */
  function ClassifyLemmas(c: Config, lemmas: seq<string>, source: string, now: Instant): (r: Classification)
    ensures |r.links| <= 1
    ensures |r.links| == 1 <==> !NoneFills(c, PlantSlot, lemmas) && !NoneFills(c, ProblemSlot, lemmas)
    ensures forall l :: l in r.links ==> l.confidence == 1.0
    ensures forall t :: t in r.satellites ==> t.confidence == 0.95
    ensures |r.hubs| == 0 ==> r.satellites == []
  {
    var st := FirstPass(c, lemmas, source, now);
    PlantSlotLastWins(c, lemmas, source, now);
    ProblemSlotLastWins(c, lemmas, source, now);
    Classification(st.hubs, SecondPass(c, st, source, now), ThirdPass(c, st, st.candidates, source, now))
  }

  /** A lemma fills a slot at no more than one position as the last one. */
  lemma LastAtUnique(c: Config, k: Slot, lemmas: seq<string>, i: int, j: int)
    requires LastAt(c, k, lemmas, i) && LastAt(c, k, lemmas, j)
    ensures i == j
  {
  }

  /** The result's Hubs and the Satellites' count follow from the per-lemma contributions. */
  lemma ClassifyContributions(c: Config, lemmas: seq<string>, source: string, now: Instant)
    ensures ClassifyLemmas(c, lemmas, source, now).hubs == AllHubsOf(c, lemmas, source, now)
    ensures |AllHubsOf(c, lemmas, source, now)| > 0 ==>
      |ClassifyLemmas(c, lemmas, source, now).satellites| == |AllCandidatesOf(c, lemmas, source, now)|
  {
    FirstPassContributions(c, lemmas, source, now);
  }

  /** The Link runs from the Hub of the last plant lemma to the Hub of the last disease or pest lemma. */
  lemma ClassifyLinkEnds(c: Config, lemmas: seq<string>, source: string, now: Instant)
    ensures var r := ClassifyLemmas(c, lemmas, source, now);
      |r.links| == 1 ==>
        exists i, j :: LastAt(c, PlantSlot, lemmas, i) && LastAt(c, ProblemSlot, lemmas, j)
          && r.links[0].sourceKey == DirectHub(c, lemmas[i], "plante", source, now).hubKey
          && r.links[0].targetKey == DirectHub(c, lemmas[j], ClassOf(c, lemmas[j]).entityType, source, now).hubKey
  {
    PlantSlotLastWins(c, lemmas, source, now);
    ProblemSlotLastWins(c, lemmas, source, now);
  }

  /**
   * The Link's type is the last relation lemma, lowered, unless there is
   * none (or it is empty); then `has_disease` for a disease and
   * `has_infestation` for a pest.
   */
  lemma ClassifyRelationType(c: Config, lemmas: seq<string>, source: string, now: Instant)
    ensures var r := ClassifyLemmas(c, lemmas, source, now);
      |r.links| == 1 ==>
        && (forall k :: LastAt(c, RelationSlot, lemmas, k) && lemmas[k] != "" ==> r.links[0].relationType == Lower(lemmas[k]))
        && ((forall k :: LastAt(c, RelationSlot, lemmas, k) ==> lemmas[k] == "") ==>
              exists j :: LastAt(c, ProblemSlot, lemmas, j)
                && r.links[0].relationType == (if ClassOf(c, lemmas[j]).entityType == "maladie" then "has_disease" else "has_infestation"))
  {
    var st := FirstPass(c, lemmas, source, now);
    RelationSlotLastWins(c, lemmas, source, now);
    ProblemSlotLastWins(c, lemmas, source, now);
    forall k | LastAt(c, RelationSlot, lemmas, k)
      ensures st.relation == Some(Lower(lemmas[k]))
    {
      var k' :| LastAt(c, RelationSlot, lemmas, k') && st.relation == Some(Lower(lemmas[k']));
      LastAtUnique(c, RelationSlot, lemmas, k, k');
    }
  }

  lemma KeyInHubKeys(hubs: seq<Hub>, h: Hub)
    requires h in hubs
    ensures h.hubKey in Generator.SetOf(Generator.HubKeys(hubs))
  {
    var i :| 0 <= i < |hubs| && hubs[i] == h;
    assert Generator.HubKeys(hubs)[i] == h.hubKey;
  }

  lemma TwoDistinct<T>(xs: seq<T>, a: T, b: T)
    requires a in xs && b in xs && a != b
    ensures |xs| >= 2
  {
  }

  /** The classification as a schema without metadata. */
  function AsSchema(r: Classification): Generator.Schema
  {
    Generator.Schema(r.hubs, r.links, r.satellites, Generator.NoMetadata)
  }

  /** Every Link and Satellite of the classification refers to one of its Hubs. */
  lemma ClassifyReferentiallyClosed(c: Config, lemmas: seq<string>, source: string, now: Instant)
    ensures Generator.CheckReferentialIntegrity(AsSchema(ClassifyLemmas(c, lemmas, source, now))) == []
  {
    var st := FirstPass(c, lemmas, source, now);
    var s := AsSchema(ClassifyLemmas(c, lemmas, source, now));
    assert s.hubs == st.hubs && s.links == SecondPass(c, st, source, now)
      && s.satellites == ThirdPass(c, st, st.candidates, source, now);
    LinksReferToHubs(c, st, source, now);
    SatellitesReferToHubs(c, st, source, now);
  }

  lemma LinksReferToHubs(c: Config, st: State, source: string, now: Instant)
    requires SlotsInHubs(st)
    ensures var keys := Generator.SetOf(Generator.HubKeys(st.hubs));
      forall l :: l in SecondPass(c, st, source, now) ==> l.sourceKey in keys && l.targetKey in keys
  {
    if st.plant.Some? && st.problem.Some? {
      KeyInHubKeys(st.hubs, st.plant.value);
      KeyInHubKeys(st.hubs, st.problem.value);
    }
  }

  lemma SatellitesReferToHubs(c: Config, st: State, source: string, now: Instant)
    requires SlotsInHubs(st)
    ensures var keys := Generator.SetOf(Generator.HubKeys(st.hubs));
      forall t :: t in ThirdPass(c, st, st.candidates, source, now) ==> t.hubKey in keys
  {
    forall t | t in ThirdPass(c, st, st.candidates, source, now)
      ensures t.hubKey in Generator.SetOf(Generator.HubKeys(st.hubs))
    {
      var h :| h in st.hubs && h.hubKey == t.hubKey;
      KeyInHubKeys(st.hubs, h);
    }
  }

  /** Every score of the classification lies in [0, 1]. */
  lemma ClassifyScoresInRange(c: Config, lemmas: seq<string>, source: string, now: Instant)
    ensures Generator.CheckConfidenceScores(AsSchema(ClassifyLemmas(c, lemmas, source, now))) == []
  {
    var s := AsSchema(ClassifyLemmas(c, lemmas, source, now));
    assert s.hubs == FirstPass(c, lemmas, source, now).hubs;
    assert Generator.AllScoresInRange(s);
  }

  /**
   * The structural check passes exactly when the classification has a Hub:
   * a Link always joins two different Hubs, and there is at most one.
   */
  lemma ClassifyStructure(c: Config, lemmas: seq<string>, source: string, now: Instant)
    ensures Generator.CheckStructuralConstraints(AsSchema(ClassifyLemmas(c, lemmas, source, now))) == []
      <==> |ClassifyLemmas(c, lemmas, source, now).hubs| >= 1
  {
    var st := FirstPass(c, lemmas, source, now);
    var s := AsSchema(ClassifyLemmas(c, lemmas, source, now));
    assert s.hubs == st.hubs;
    if |s.links| > 0 {
      TwoDistinct(st.hubs, st.plant.value, st.problem.value);
    }
  }

  /**
   * Two occurrences of the same plant lemma give two Hubs with the same key,
   * which the key uniqueness check then reports.
   */
  lemma RepeatedPlantRepeatsHubKey(c: Config, w: string, source: string, now: Instant)
    requires IsPlant(c, w)
    ensures var r := ClassifyLemmas(c, [w, w], source, now);
      |r.hubs| == 2 && r.hubs[0].hubKey == r.hubs[1].hubKey
      && Generator.DuplicateHubKeys in Generator.CheckKeyUniqueness(AsSchema(r))
  {
    var lemmas := [w, w];
    FirstPassContributions(c, lemmas, source, now);
    assert lemmas[..1] == [w];
    assert [w][..0] == [];
    var h := DirectHub(c, w, "plante", source, now);
    assert HubsOf(c, w, source, now) == [h];
    assert AllHubsOf(c, [w], source, now) == [h];
    var hubs := AllHubsOf(c, lemmas, source, now);
    assert hubs == AllHubsOf(c, [w], source, now) + [h];
    assert hubs == [DirectHub(c, w, "plante", source, now), DirectHub(c, w, "plante", source, now)];
    assert Generator.HubKeys(hubs)[0] == Generator.HubKeys(hubs)[1];
  }

  // ----- a worked example ------------------------------------------------

  /** A matcher with the shipped vocabulary whose Link vocabulary was built as the constructor builds it. */
  predicate StandardConfig(c: Config)
  {
    c.vocabulary == Standard && forall w :: w in c.linkVocabulary ==> w in Relations || Contains(w, "has_")
  }

  lemma NewConfigIsStandard(o: Oracles, alg: Algorithm, relations: seq<OntologyRelation>,
                            thresholds: map<string, real>, hubOrder: seq<string>, satelliteOrder: seq<string>)
    requires Enumerates(hubOrder, Standard.HubWords()) && Enumerates(satelliteOrder, Standard.SatelliteWords())
    ensures StandardConfig(NewConfig(o, alg, Standard, relations, thresholds, hubOrder, satelliteOrder))
  {
  }

  /** A word without an `h` never contains `has_`. */
  lemma NoHasWithoutH(w: string)
    requires 'h' !in w
    ensures !Contains(w, "has_")
  {
    if |w| >= 4 {
      assert w[..4] != "has_" by { assert w[..4][0] != 'h'; }
    }
    if |w| > 0 {
      NoHasWithoutH(w[1..]);
    }
  }

  /** Under the shipped vocabulary, a word outside the fixed relations without `has_` is no Link word. */
  lemma NotLinkWord(c: Config, w: string)
    requires StandardConfig(c) && w !in Relations && !Contains(w, "has_")
    ensures w !in Standard.relations + c.linkVocabulary
  {
  }

  lemma ClassOfCorn(c: Config)
    requires StandardConfig(c)
    ensures ClassOf(c, "corn") == HubClass("plante")
  {
    KeyOfPlainWord("corn");
  }

  lemma HelminthosporioseNotPlant()
    ensures "helminthosporiose" !in Plants && "helminthosporiose" in Diseases
  {
  }

  lemma ClassOfHelminthosporiose(c: Config)
    requires StandardConfig(c)
    ensures ClassOf(c, "helminthosporiose") == HubClass("maladie")
  {
    KeyOfPlainWord("helminthosporiose");
    HelminthosporioseNotPlant();
  }

  lemma NecroseNotHub()
    ensures "necrose" !in Plants + Diseases + Pests + Relations
  {
    assert "necrose" !in Plants;
    assert "necrose" !in Diseases;
  }

  lemma NecroseOnlySymptom()
    ensures "necrose" !in Plants + Diseases + Pests + Relations
    ensures !Contains("necrose", "has_") && "necrose" in Symptoms
  {
    NecroseNotHub();
    NoHasWithoutH("necrose");
  }

  lemma ClassOfNecrose(c: Config)
    requires StandardConfig(c)
    ensures ClassOf(c, "necrose") == SatelliteClass("symptome")
  {
    KeyOfPlainWord("necrose");
    NecroseOnlySymptom();
    NotLinkWord(c, "necrose");
  }

  lemma ColourWord(v: Vocabulary, lv: set<string>, word: string)
    requires Key(word) !in v.HubWords() + v.relations + lv + v.symptoms + v.leafStates
    requires Key(word) in v.colours
    ensures ClassifyLemma(v, lv, word) == SatelliteClass("couleur")
  {
  }

  lemma VertFonceNotHub()
    ensures "vert_fonce" !in Plants + Diseases + Pests + Relations
  {
    assert "vert_fonce" !in Plants;
    assert "vert_fonce" !in Diseases;
  }

  lemma VertFonceNotEarlierGroup()
    ensures "vert_fonce" !in Symptoms + LeafStates && "vert_fonce" in Colours
  {
    assert "vert_fonce" !in Symptoms;
  }

  lemma VertFonceFacts()
    ensures "vert_fonce" !in Standard.HubWords() + Standard.relations + Standard.symptoms + Standard.leafStates
    ensures "vert_fonce" in Standard.colours && !Contains("vert_fonce", "has_")
  {
    VertFonceNotHub();
    VertFonceNotEarlierGroup();
    NoHasWithoutH("vert_fonce");
  }

  lemma ClassOfVertFonce(c: Config)
    requires StandardConfig(c)
    ensures ClassOf(c, "vert_fonce") == SatelliteClass("couleur")
  {
    KeyOfPlainWord("vert_fonce");
    VertFonceFacts();
    NotLinkWord(c, "vert_fonce");
    ColourWord(Standard, c.linkVocabulary, "vert_fonce");
  }

  lemma HasDiseaseNotHub()
    ensures "has_disease" !in Plants + Diseases + Pests
  {
    assert "has_disease" !in Plants;
    assert "has_disease" !in Diseases;
  }

  lemma ClassOfHasDisease(c: Config)
    requires StandardConfig(c)
    ensures ClassOf(c, "has_disease") == LinkClass
  {
    KeyOfPlainWord("has_disease");
    HasDiseaseNotHub();
  }

  /** One step over a word of known class. */
  lemma StepOfClass(c: Config, st: State, word: string, k: Class, source: string, now: Instant)
    requires ClassOf(c, word) == k && !k.UnknownClass?
    ensures k.HubClass? && k.entityType == "plante" ==>
      Step(c, st, word, source, now) == st.(hubs := st.hubs + [DirectHub(c, word, "plante", source, now)], plant := Some(DirectHub(c, word, "plante", source, now)))
    ensures k.HubClass? && k.entityType != "plante" ==>
      Step(c, st, word, source, now) == st.(hubs := st.hubs + [DirectHub(c, word, k.entityType, source, now)], problem := Some(DirectHub(c, word, k.entityType, source, now)))
    ensures k.LinkClass? ==> Step(c, st, word, source, now) == st.(relation := Some(Lower(word)))
    ensures k.SatelliteClass? ==> Step(c, st, word, source, now) == st.(candidates := st.candidates + [Candidate(word, k.attributeName)])
  {
  }

  /** The first pass over `lemmas + [word]` for a word of known class. */
  lemma FirstPassSnoc(c: Config, lemmas: seq<string>, word: string, k: Class, source: string, now: Instant)
    requires ClassOf(c, word) == k && !k.UnknownClass?
    ensures FirstPass(c, lemmas + [word], source, now) == Step(c, FirstPass(c, lemmas, source, now), word, source, now)
  {
    FirstPassLast(c, lemmas + [word], source, now);
    assert (lemmas + [word])[..|lemmas|] == lemmas;
  }

  /** The first pass over one more word of a known class. */
  lemma FirstPassThen(c: Config, lemmas: seq<string>, st: State, word: string, k: Class, source: string, now: Instant)
    requires ClassOf(c, word) == k && !k.UnknownClass? && FirstPass(c, lemmas, source, now) == st
    ensures FirstPass(c, lemmas + [word], source, now) == Step(c, st, word, source, now)
  {
    FirstPassSnoc(c, lemmas, word, k, source, now);
  }

  /** The first pass over a plant word, a relation word and a disease word, in that order. */
  lemma FirstPassOfTriple(c: Config, p: string, rel: string, d: string, source: string, now: Instant)
    requires ClassOf(c, p) == HubClass("plante") && ClassOf(c, rel) == LinkClass && ClassOf(c, d) == HubClass("maladie")
    ensures var hp := DirectHub(c, p, "plante", source, now);
      var hd := DirectHub(c, d, "maladie", source, now);
      FirstPass(c, [p, rel, d], source, now) == State([hp, hd], Some(hp), Some(hd), Some(Lower(rel)), [])
  {
    var hp := DirectHub(c, p, "plante", source, now);
    var st1 := State([hp], Some(hp), None, None, []);
    FirstPassOfPair(c, p, rel, source, now);
    FirstPassThen(c, [p, rel], st1.(relation := Some(Lower(rel))), d, HubClass("maladie"), source, now);
    StepOfClass(c, st1.(relation := Some(Lower(rel))), d, HubClass("maladie"), source, now);
    assert [p, rel] + [d] == [p, rel, d];
  }

  lemma FirstPassOfPair(c: Config, p: string, rel: string, source: string, now: Instant)
    requires ClassOf(c, p) == HubClass("plante") && ClassOf(c, rel) == LinkClass
    ensures var hp := DirectHub(c, p, "plante", source, now);
      FirstPass(c, [p, rel], source, now) == State([hp], Some(hp), None, Some(Lower(rel)), [])
  {
    var hp := DirectHub(c, p, "plante", source, now);
    var st1 := State([hp], Some(hp), None, None, []);
    FirstPassOfPlant(c, p, source, now);
    FirstPassThen(c, [p], st1, rel, LinkClass, source, now);
    StepOfClass(c, st1, rel, LinkClass, source, now);
    assert [p] + [rel] == [p, rel];
  }

  lemma FirstPassOfPlant(c: Config, p: string, source: string, now: Instant)
    requires ClassOf(c, p) == HubClass("plante")
    ensures var hp := DirectHub(c, p, "plante", source, now);
      FirstPass(c, [p], source, now) == State([hp], Some(hp), None, None, [])
  {
    FirstPassThen(c, [], State([], None, None, None, []), p, HubClass("plante"), source, now);
    StepOfClass(c, State([], None, None, None, []), p, HubClass("plante"), source, now);
    assert [] + [p] == [p];
  }

  /** The same three words followed by two Satellite words. */
  lemma FirstPassOfPattern(c: Config, p: string, rel: string, d: string, s1: string, s2: string,
                           a1: string, a2: string, source: string, now: Instant)
    requires ClassOf(c, p) == HubClass("plante") && ClassOf(c, rel) == LinkClass && ClassOf(c, d) == HubClass("maladie")
    requires ClassOf(c, s1) == SatelliteClass(a1) && ClassOf(c, s2) == SatelliteClass(a2)
    ensures var hp := DirectHub(c, p, "plante", source, now);
      var hd := DirectHub(c, d, "maladie", source, now);
      FirstPass(c, [p, rel, d, s1, s2], source, now)
        == State([hp, hd], Some(hp), Some(hd), Some(Lower(rel)), [Candidate(s1, a1), Candidate(s2, a2)])
  {
    var hp := DirectHub(c, p, "plante", source, now);
    var hd := DirectHub(c, d, "maladie", source, now);
    var st3 := State([hp, hd], Some(hp), Some(hd), Some(Lower(rel)), []);
    FirstPassOfFour(c, p, rel, d, s1, a1, source, now);
    FirstPassThen(c, [p, rel, d, s1], st3.(candidates := [Candidate(s1, a1)]), s2, SatelliteClass(a2), source, now);
    StepOfClass(c, st3.(candidates := [Candidate(s1, a1)]), s2, SatelliteClass(a2), source, now);
    assert [p, rel, d, s1] + [s2] == [p, rel, d, s1, s2];
  }

  lemma FirstPassOfFour(c: Config, p: string, rel: string, d: string, s1: string, a1: string, source: string, now: Instant)
    requires ClassOf(c, p) == HubClass("plante") && ClassOf(c, rel) == LinkClass && ClassOf(c, d) == HubClass("maladie")
    requires ClassOf(c, s1) == SatelliteClass(a1)
    ensures var hp := DirectHub(c, p, "plante", source, now);
      var hd := DirectHub(c, d, "maladie", source, now);
      FirstPass(c, [p, rel, d, s1], source, now) == State([hp, hd], Some(hp), Some(hd), Some(Lower(rel)), [Candidate(s1, a1)])
  {
    var hp := DirectHub(c, p, "plante", source, now);
    var hd := DirectHub(c, d, "maladie", source, now);
    var st3 := State([hp, hd], Some(hp), Some(hd), Some(Lower(rel)), []);
    FirstPassOfTriple(c, p, rel, d, source, now);
    FirstPassThen(c, [p, rel, d], st3, s1, SatelliteClass(a1), source, now);
    StepOfClass(c, st3, s1, SatelliteClass(a1), source, now);
    assert [p, rel, d] + [s1] == [p, rel, d, s1];
  }

  /**
   * A plant, a relation, a disease, a symptom and another attribute give
   * the two Hubs, one Link of the relation's type from plant to disease,
   * the symptom on the disease Hub and the other attribute on the plant
   * Hub.
   */
  lemma ClassifyPattern(c: Config, p: string, rel: string, d: string, s1: string, s2: string, a2: string,
                        source: string, now: Instant)
    requires ClassOf(c, p) == HubClass("plante") && ClassOf(c, rel) == LinkClass && ClassOf(c, d) == HubClass("maladie")
    requires ClassOf(c, s1) == SatelliteClass("symptome") && ClassOf(c, s2) == SatelliteClass(a2) && a2 != "symptome"
    requires rel != ""
    ensures var hp := DirectHub(c, p, "plante", source, now);
      var hd := DirectHub(c, d, "maladie", source, now);
      var r := ClassifyLemmas(c, [p, rel, d, s1, s2], source, now);
      && r.hubs == [hp, hd]
      && r.links == [NewLink(c.oracles, hp.hubKey, hd.hubKey, Lower(rel), source, 1.0, now, None)]
      && r.satellites == [
           NewSatellite(c.oracles, hd.hubKey, "symptome", Lower(s1), source, 0.95, now, None, None),
           NewSatellite(c.oracles, hp.hubKey, a2, Lower(s2), source, 0.95, now, None, None)]
  {
    var hp := DirectHub(c, p, "plante", source, now);
    var hd := DirectHub(c, d, "maladie", source, now);
    FirstPassOfPattern(c, p, rel, d, s1, s2, "symptome", a2, source, now);
    var st := FirstPass(c, [p, rel, d, s1, s2], source, now);
    var k1, k2 := Candidate(s1, "symptome"), Candidate(s2, a2);
    assert st.candidates == [k1, k2];
    assert Lower(rel) != "";
    assert SecondPass(c, st, source, now) == [NewLink(c.oracles, hp.hubKey, hd.hubKey, Lower(rel), source, 1.0, now, None)];
    assert Parent(st, k1) == Some(hd) && Parent(st, k2) == Some(hp);
    assert [k1, k2][1..] == [k2];
    assert ThirdPass(c, st, [k2], source, now) == Attach(c, st, k2, source, now);
    assert ThirdPass(c, st, [k1, k2], source, now) == Attach(c, st, k1, source, now) + Attach(c, st, k2, source, now);
  }

  /** With the shipped vocabulary, the lemmas of a diseased maize leaf follow that pattern. */
  lemma ExampleFollowsPattern(c: Config)
    requires StandardConfig(c)
    ensures ClassOf(c, "corn") == HubClass("plante") && ClassOf(c, "has_disease") == LinkClass
    ensures ClassOf(c, "helminthosporiose") == HubClass("maladie")
    ensures ClassOf(c, "necrose") == SatelliteClass("symptome") && ClassOf(c, "vert_fonce") == SatelliteClass("couleur")
  {
    ClassOfCorn(c);
    ClassOfHasDisease(c);
    ClassOfHelminthosporiose(c);
    ClassOfNecrose(c);
    ClassOfVertFonce(c);
  }
}
