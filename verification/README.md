# LemmesExtraction core in Dafny

This project models the deterministic core of LemmesExtraction. The pipeline takes the lemma strings a
vision-language model reads off a photo of a maize, onion or tomato leaf. It classifies them into a
Data Vault schema of Hubs (plant, disease, pest), at most one Link (plant to problem) and
Satellites (symptoms, leaf state, colour, shape, texture, venation). It then validates, merges,
summarises and exports that schema as SQL.

The modules follow the program's structure:

| module | file | models |
|---|---|---|
| `Wrappers`, `Text`, `Transliteration` | wrappers.dfy, text.dfy, transliteration.dfy | `Option`, Python string helpers (`lower`, `strip`, `split`, `join`), the `unidecode` table |
| `Externals` | externals.dfy | the library functions the core calls, as an `Oracles` record of function values with range axioms |
| `Similarity` | similarity.dfy | `SimilarityCalculator`: normalisation, bigrams, the algorithm dispatch, the lexical bonuses, `batch_similarity` and `find_best_match` |
| `Entities` | entities.dfy | `Hub`, `Link` and `Satellite`: content-derived keys and `to_dict` |
| `Generator` | generator.dfy | `DataVaultGenerator`: schema assembly, the four diagnostics, merging and statistics |
| `Matcher` | matcher.dfy | `OntologyMatcher`: the vocabulary, the lemma classifier, the rescue ladder and the three passes of `classify_lemmas` |
| `LemmaText` | lemmatext.dfy | `_normalize_lemma` and the response splitter, shared by both extractors |
| `Validator` | validator.dfy | `OntologyValidator`: exact, substring and fuzzy term validation; plant, link and Satellite identification |
| `Analysis` | analysis.dfy | the structured `KEY: value` parser and the lemma-mode analysis with its link-inference ladder |
| `SqlExport` | sqlexport.dfy | `SQLExporter`: escaping, INSERT statements and the order of sections |

Library code the core calls is modelled by the `Oracles` datatype. Each function is a field whose
type states its range:

- Jaro-Winkler and the n-gram cosine return a `Score` in [0, 1].
- The embedding cosine returns a `Cosine` in [-1, 1].
- MD5 and the float formatters are plain functions of their input.
- `difflib.get_close_matches` returns an optional string. The ghost predicate `Oracles.Sound()` states that this string is always an element of the list passed in.

The clock is an `Instant` input. Python sets that the source iterates become sequence parameters, so
tie-breaking order is explicit. This includes the vocabulary order that `_find_best_match` scans.

## Model

| member | source | states |
|---|---|---|
| Similarity.AlgorithmFromName | src/similarity_calculator.py:46-65 | a known name selects its algorithm; every other name selects the hybrid algorithm, and only then |
| Similarity.AlgorithmNameRoundTrip | src/similarity_calculator.py:46-65 | selecting by an algorithm's own name gives that algorithm back |
| Similarity.Normalize | src/similarity_calculator.py:25-31 | the normalised text has no `_` or `-` and no leading, trailing or doubled blank, and it splits into exactly the words of the lower-cased, transliterated text with `_` and `-` read as blanks |
| Text.WordsJoin | src/similarity_calculator.py:31 | words without blanks, joined by single spaces, split back into the same words |
| Similarity.Ngrams | src/similarity_calculator.py:34-37 | the text padded as `$text$` yields `len(text)+3-n` grams, each of length n, the i-th being the padded slice at i |
| Similarity.NgramsOverlap | src/similarity_calculator.py:34-37 | the first gram starts and the last gram ends with the `$` pad, and consecutive grams overlap in n-1 characters |
| Similarity.LexicalSimilarity | src/similarity_calculator.py:146-172 | 0 on an empty input; otherwise between the Jaro-Winkler score and 1; it exceeds Jaro-Winkler only when a 3-character prefix or a substring relation gives a bonus |
| Similarity.JaroWinklerSimilarity | src/similarity_calculator.py:174-188 | a score in [0, 1], and 0 on an empty input |
| Similarity.NgramCosineSimilarity | src/similarity_calculator.py:190-221 | a score in [0, 1], and 0 on an empty input |
| Similarity.SemanticSimilarity | src/similarity_calculator.py:223-245 | a score in [0, 1] that rescales the embedding cosine from [-1, 1]: twice the score minus one is the cosine; 0 on an empty input |
| Similarity.CalculateSimilarity | src/similarity_calculator.py:98-144 | every algorithm returns a score in [0, 1], and 1 whenever both strings normalise to the same text |
| Similarity.CalculateDispatch | src/similarity_calculator.py:118-144 | for strings that normalise apart, the selected algorithm decides the score: lexical, Jaro-Winkler, n-gram cosine and the larger of the last two read the normalised strings; semantic reads the raw strings; hybrid is the larger of the lexical and semantic scores |
| Similarity.UnknownNameIsHybrid | src/similarity_calculator.py:134-144 | an unrecognised algorithm name scores exactly as the hybrid algorithm does |
| Similarity.BatchSimilarity | src/similarity_calculator.py:342-365 | the sequential batch maps exactly the given terms, each to its own similarity with the word |
| Similarity.BestIndexUnique | src/similarity_calculator.py:442-454 | at most one index is the first strict maximum among qualifying scores |
| Similarity.PickBest | src/similarity_calculator.py:442-454 | the scan finds nothing, with score 0, exactly when no score qualifies; otherwise it finds the first index that holds the maximum qualifying score |
| Similarity.FindBestMatch | src/similarity_calculator.py:430-454 | `(None, 0.0)` on an empty list or when no term reaches the threshold with a positive score; otherwise a qualifying term of the list, no worse than any other qualifying term, at its first best position |
| Entities.NewHub | src/models/hub.py:35-48 | every field is kept as given; a supplied key is kept; a missing key becomes the digest of `business_key + "_" + entity_type` |
| Entities.HubKeyDeterminedByBusinessKey | src/models/hub.py:47-48 | two generated Hub keys agree whenever business key and entity type agree, whatever the source, URI, score or date |
| Entities.HubKeyTextNotInjective | src/models/hub.py:47 | `("a_b", "c")` and `("a", "b_c")` produce the same key text, hence the same Hub key |
| Entities.HubToDict | src/models/hub.py:50-65 | exactly seven named fields, in order, with the confidence rounded to 4 places and the keys carried over |
| Entities.NewLink | src/models/link.py:35-48 | every field is kept as given; a supplied key is kept; a missing key becomes the digest of source key, relation type and target key |
| Entities.LinkKeyDeterminedByEndpoints | src/models/link.py:47-48 | confidence, record source and load date never change a generated Link key |
| Entities.LinkKeyTextDirected | src/models/link.py:47-48 | swapping two distinct endpoint keys of equal length changes the key text, so a Link has a direction |
| Entities.LinkKeyTextSwapCollision | src/models/link.py:47 | with endpoints of different lengths, swapping them can leave the key text unchanged (`"a"`, `"a_a"`) |
| Entities.LinkToDict | src/models/link.py:50-65 | exactly seven named fields, in order, with the confidence rounded to 4 places and both endpoint keys carried over |
| Entities.NewSatellite | src/models/satellite.py:37-62 | every field is kept as given; the Satellite key and the hash diff are each generated only when absent, from Hub key, name and load time, and from name, value and confidence respectively |
| Entities.SatelliteKeyCollision | src/models/satellite.py:44-52 | two Satellites with the same Hub, attribute name and load time share their key, whatever their values |
| Entities.HashDiffIgnoresOwner | src/models/satellite.py:54-62 | the hash diff depends neither on the Hub key nor on the load date nor on the record source |
| Entities.SatelliteToDict | src/models/satellite.py:64-80 | exactly eight named fields, in order, with the confidence rounded to 4 places |
| Entities.LookupAt | src/models/hub.py:57-65 | in a record with distinct field names, looking a field up by name gives its value |
| Generator.GenerateSchema | src/datavault_generator.py:95-136 | the lists are stored unchanged, with the lemmas, their count, the source image and the generation time in the metadata |
| Generator.CountBy | src/datavault_generator.py:51-83 | one counter per distinct value in first-seen order, each holding that value's number of occurrences, summing to the list length |
| Generator.IncrementGet | src/datavault_generator.py:52-64 | counting a value adds one to that value's count and leaves every other count alone |
| Generator.IncrementTotal | src/datavault_generator.py:52-64 | counting a value adds one to the sum of all counts |
| Generator.IncrementKeys | src/datavault_generator.py:52-64 | counting a new value appends it to the keys; counting a known value keeps the keys |
| Generator.AverageBounds | src/datavault_generator.py:66-69 | the average of a non-empty list lies between any lower and upper bound of its elements |
| Generator.GetStatistics | src/datavault_generator.py:44-83 | totals are the list lengths; the per-type counters count entity types, relation types and attribute names; averages are 0 on an empty list and rounded to 3 places |
| Generator.StatisticsAveragesInRange | src/datavault_generator.py:66-82 | when every score lies in [0, 1], so do the three averages |
| Generator.Abbrev | src/datavault_generator.py:202-213 | the printed key is its first eight characters, or the whole key when shorter |
| Generator.RenderTagged | src/datavault_generator.py:178-273 | a message starts with `ERREUR: ` exactly for errors and with `WARNING: ` exactly for warnings |
| Generator.SetOfCardinality | src/datavault_generator.py:176-188 | a list has as many distinct elements as entries exactly when it has no duplicate |
| Generator.CheckKeyUniqueness | src/datavault_generator.py:171-190 | at most three errors, one for each of the Hub, Link and Satellite lists that repeats a key, and none otherwise |
| Generator.DanglingLinks | src/datavault_generator.py:199-207 | every Link source and every Link target outside the Hub keys has its warning, every warning names such an endpoint, and the list is empty exactly when every endpoint resolves |
| Generator.DanglingLinksAppend | src/datavault_generator.py:199-207 | Links are checked one by one in input order: the warnings for a concatenation are those of its parts, and a single Link gives a source warning, then a target warning, for each end outside the Hub keys |
| Generator.DanglingSatellites | src/datavault_generator.py:209-213 | every Satellite whose Hub key is unknown has its warning, every warning names such a Satellite, and the list is empty exactly when every Satellite resolves |
| Generator.DanglingSatellitesAppend | src/datavault_generator.py:209-213 | Satellites are checked one by one in input order, one warning for each Satellite whose Hub key is unknown |
| Generator.CheckReferentialIntegrity | src/datavault_generator.py:192-215 | only warnings, and none exactly when every Link endpoint and every Satellite owner is a Hub key |
| Generator.HubScoreIssues | src/datavault_generator.py:221-225 | every Hub whose score is outside [0, 1] has its warning, with that score, and every warning names such a Hub |
| Generator.HubScoreIssuesAppend | src/datavault_generator.py:221-225 | Hubs are checked one by one in input order, one warning for each score outside [0, 1] |
| Generator.LinkScoreIssues | src/datavault_generator.py:227-231 | every Link whose score is outside [0, 1] has its warning, with that score, and every warning names such a Link |
| Generator.LinkScoreIssuesAppend | src/datavault_generator.py:227-231 | Links are checked one by one in input order, one warning for each score outside [0, 1] |
| Generator.SatelliteScoreIssues | src/datavault_generator.py:233-237 | every Satellite whose score is outside [0, 1] has its warning, with that score, and every warning names such a Satellite |
| Generator.SatelliteScoreIssuesAppend | src/datavault_generator.py:233-237 | Satellites are checked one by one in input order, one warning for each score outside [0, 1] |
| Generator.CheckConfidenceScores | src/datavault_generator.py:217-239 | only warnings, and none exactly when every score lies in [0, 1] |
| Generator.RepeatsAfterIffDup | src/datavault_generator.py:268-275 | the scan that stops at the first repeated pair finds one exactly when the pairs are not all distinct |
| Generator.CheckStructuralConstraints | src/datavault_generator.py:241-277 | a warning for zero Hubs, one for Links with fewer than two Hubs, one for a repeated endpoint pair, and nothing else; each at most once, the zero-Hub warning first and the repeated-pair warning last |
| Generator.ValidateSchema | src/datavault_generator.py:138-169 | the messages of the uniqueness, referential, confidence and structural checks, concatenated in that order |
| Generator.ValidateEmptyIffWellFormed | src/datavault_generator.py:138-169 | validation is silent exactly when keys are distinct, references resolve, scores lie in [0, 1] and the structure is sound |
| Generator.DistinctKeysOnlyWarnings | src/datavault_generator.py:171-190 | with distinct keys in all three lists, no message is an error |
| Generator.MergeSchemas | src/datavault_generator.py:279-335 | the first Hub per key and the first Link per key in input order, all Satellites concatenated, `merged_from` the schema count and the source images in order |
| Generator.MergeKeepsFirst | src/datavault_generator.py:298-309 | every merged Hub and Link is the earliest input entity with its key |
| Generator.MergedKeysUnique | src/datavault_generator.py:298-309 | a merged schema never fails the Hub or Link key uniqueness check |
| Generator.MergeSingle | src/datavault_generator.py:279-335 | merging one schema with distinct keys keeps its Hubs, Links and Satellites |
| Generator.KeepFirstKeys | src/datavault_generator.py:298-309 | the keys of the deduplicated list are the distinct input keys in first-seen order |
| Generator.KeepFirstEarliest | src/datavault_generator.py:298-309 | each kept element is the first input element with its key |
| Generator.KeepFirstDistinct | src/datavault_generator.py:298-309 | a list whose keys are already distinct is kept whole |
| Matcher.StandardGroupsDisjoint | src/ontology_matcher.py:47-78 | the shipped Satellite word groups share no word |
| Matcher.TypeMapKeys | src/ontology_matcher.py:137-150 | the type map is defined exactly on the Satellite words |
| Matcher.TypeMapGroups | src/ontology_matcher.py:137-150 | with disjoint groups each Satellite word maps to its own group's attribute name, and any other word defaults to `attribut` |
| Matcher.LinkVocabulary | src/ontology_matcher.py:152-158 | the Link vocabulary holds the built-in relations and every ontology relation word containing `has_`, and nothing else |
| Matcher.ClassifyLemma | src/ontology_matcher.py:160-213 | on the lower-cased, stripped lemma: a Hub if it is a plant, disease or pest word; else a Link if it is a relation; else a Satellite of its group; else unknown; each case exactly when the earlier ones fail |
| Matcher.StriureIsDisease | src/ontology_matcher.py:33-51 | `striure` is both a disease and a symptom, and is classified as a disease Hub |
| Matcher.NewConfig | src/ontology_matcher.py:110-158 | the matcher keeps its vocabulary and thresholds, builds the Link vocabulary from the ontology relations, and searches the Hub and Satellite vocabularies in orders that list each of their words once |
| Matcher.DirectHub | src/ontology_matcher.py:274-297 | a directly classified lemma becomes a Hub keyed by its lower-cased text and type, with confidence 1.0 |
| Matcher.RescueLemma | src/ontology_matcher.py:372-418 | a Hub when the Hub vocabulary matches at theta-c, keyed by the lower-cased lemma, typed by the matched Hub word, with a confidence of at least theta-c; else a Satellite candidate typed by the Satellite match at theta-a; else `description` for lemmas longer than two characters; else nothing; a matched word is a word of the Hub (Satellite) vocabulary |
| Matcher.StepEffect | src/ontology_matcher.py:270-310 | one step of the first pass appends exactly the Hubs and candidates that lemma contributes |
| Matcher.StepPlant | src/ontology_matcher.py:274-285 | a plant lemma overwrites the plant slot; any other lemma leaves it |
| Matcher.StepProblem | src/ontology_matcher.py:287-297 | a disease or pest lemma overwrites the problem slot; any other lemma leaves it |
| Matcher.StepRelation | src/ontology_matcher.py:299-300 | a relation lemma overwrites the relation slot with its lower-cased text; any other lemma leaves it |
| Matcher.StepKeepsSlots | src/ontology_matcher.py:270-310 | the Hubs in the plant and problem slots are always Hubs of the list |
| Matcher.StepKeepsScores | src/ontology_matcher.py:270-310 | every Hub of the list keeps a confidence in (0, 1] |
| Matcher.FirstPass | src/ontology_matcher.py:270-310 | after the first pass the slots hold Hubs of the list and every Hub score lies in (0, 1] |
| Matcher.FirstPassContributions | src/ontology_matcher.py:270-310 | the Hubs and candidates of the first pass are those of each lemma, concatenated in lemma order |
| Matcher.PlantSlotLastWins | src/ontology_matcher.py:271-285 | the plant slot is empty exactly when no lemma is a plant, and otherwise holds the Hub of the last plant lemma |
| Matcher.ProblemSlotLastWins | src/ontology_matcher.py:271-297 | the problem slot is empty exactly when no lemma is a disease or pest, and otherwise holds the Hub of the last such lemma |
| Matcher.RelationSlotLastWins | src/ontology_matcher.py:271-300 | the relation slot is empty exactly when no lemma is a relation, and otherwise holds the last relation lemma, lower-cased |
| Matcher.SecondPass | src/ontology_matcher.py:312-336 | at most one Link; it exists exactly when both slots are set, and runs from the plant Hub to the problem Hub with the relation seen or the one implied by the problem type |
| Matcher.Parent | src/ontology_matcher.py:342-357 | a symptom goes to the problem Hub when there is one; any other candidate (or a symptom without one) to the plant Hub, failing that to the first Hub; with no Hub, no parent |
| Matcher.ThirdPass | src/ontology_matcher.py:338-366 | every Satellite has confidence 0.95 and a Hub of the list as owner; with any Hub there is one Satellite per candidate, in order, with the lower-cased lemma as value; with none there is no Satellite |
| Matcher.ClassifyLemmas | src/ontology_matcher.py:238-370 | at most one Link, present exactly when some lemma is a plant and some lemma a disease or pest; Link confidence 1.0, Satellite confidence 0.95; no Hub means no Satellite |
| Matcher.LastAtUnique | src/ontology_matcher.py:274-300 | each slot has at most one last filling lemma |
| Matcher.ClassifyContributions | src/ontology_matcher.py:238-370 | the Hubs are each lemma's Hubs in lemma order; with any Hub, the Satellite count equals the candidate count |
| Matcher.ClassifyLinkEnds | src/ontology_matcher.py:313-331 | the Link runs from the Hub of the last plant lemma to the Hub of the last disease or pest lemma |
| Matcher.ClassifyRelationType | src/ontology_matcher.py:314-322 | the Link's type is the last relation lemma; with none, `has_disease` for a disease and `has_infestation` for a pest |
| Matcher.ClassifyReferentiallyClosed | src/ontology_matcher.py:238-370 | a classification always passes the referential integrity check |
| Matcher.ClassifyScoresInRange | src/ontology_matcher.py:238-370 | a classification always passes the confidence check |
| Matcher.ClassifyStructure | src/ontology_matcher.py:238-370 | a classification passes the structural check exactly when it has a Hub |
| Matcher.RepeatedPlantRepeatsHubKey | src/ontology_matcher.py:274-285 | a plant lemma given twice produces two Hubs with the same key, which the uniqueness check reports |
| Matcher.ClassifyPattern | src/ontology_matcher.py:238-370 | plant, relation, disease, symptom, other attribute give two Hubs, the Link plant to disease with the given relation, the symptom on the disease Hub and the other attribute on the plant Hub |
| Matcher.ExampleFollowsPattern | src/ontology_matcher.py:31-78 | `corn`, `has_disease`, `helminthosporiose`, `necrose`, `vert_fonce` classify as plant, relation, disease, symptom and colour |
| Matcher.ClassOfCorn | src/ontology_matcher.py:31 | `corn` classifies as a plant Hub |
| Matcher.ClassOfHelminthosporiose | src/ontology_matcher.py:34 | `helminthosporiose` classifies as a disease Hub |
| Matcher.ClassOfNecrose | src/ontology_matcher.py:48 | `necrose` classifies as a symptom Satellite |
| Matcher.ClassOfVertFonce | src/ontology_matcher.py:62 | `vert_fonce` classifies as a colour Satellite |
| Matcher.ClassOfHasDisease | src/ontology_matcher.py:45 | `has_disease` classifies as a Link |
| LemmaText.KeepWordChars | src/enhanced_llm_extractor.py:784 | the filter keeps every word character, blank and hyphen of the input and nothing else |
| LemmaText.KeepWordCharsAppend | src/enhanced_llm_extractor.py:784 | the filter works character by character and keeps the order of the characters it keeps |
| LemmaText.NormalizeLemma | src/enhanced_llm_extractor.py:782-790 | the result has no blank, no hyphen, no `__` and no `_` at either end |
| LemmaText.NormalizeStable | src/llm_extractor.py:288-317 | for text without vulgar fractions, every character of the normalised lemma is one that filtering, lower-casing and transliteration leave as it is |
| LemmaText.NormalizeIdempotent | src/llm_extractor.py:288-317 | for text without vulgar fractions, normalising a normalised lemma changes nothing |
| LemmaText.FractionNotIdempotent | src/enhanced_llm_extractor.py:782-790 | `¼` normalises to `1/4`, and `1/4` to `14`: with a vulgar fraction a second normalisation changes the lemma |
| LemmaText.LemmaLinesEmpty | src/llm_extractor.py:252-265 | the kept text is empty exactly when no stripped line is kept |
| LemmaText.LemmaSourceFallback | src/llm_extractor.py:252-265 | when no line is kept the whole body is the lemma text; otherwise the kept lines are |
| LemmaText.LemmaLinesConcat | src/llm_extractor.py:252-261 | lines are filtered independently: the text of two blocks is the concatenation of their texts |
| LemmaText.DroppedLine | src/llm_extractor.py:253-261 | a line without a comma that holds a keyword contributes nothing |
| LemmaText.CommaLineKept | src/llm_extractor.py:253-258 | a line with a comma is always kept, followed by a comma |
| LemmaText.Body | src/llm_extractor.py:240-245 | the text used holds no `:` |
| LemmaText.ExtractLemmas | src/enhanced_llm_extractor.py:738-779 | an empty response gives no lemma; the result is duplicate-free, and every lemma is normalised and longer than one character |
| LemmaText.ExtractLemmasFields | src/llm_extractor.py:226-285 | every lemma is the normalisation of some comma-separated field, and every field whose normalisation is longer than one character is present |
| LemmaText.ExtractLemmasOrder | src/enhanced_llm_extractor.py:770-777 | lemmas appear in the order of their first occurrence |
| LemmaText.BodyAfterColon | src/llm_extractor.py:243-245 | when the response ends with `:` and a colon-free, trimmed text, that text is what is split |
| LemmaText.OnlyAfterLastColon | src/llm_extractor.py:243-245 | whatever precedes the last `:` has no effect on the lemmas |
| Validator.CategoryTerms | src/enhanced_llm_extractor.py:642-653 | a non-empty lookup returns the terms of a category of that name |
| Validator.AliasOf | src/enhanced_llm_extractor.py:210-211 | an alias is found exactly when the table has the key, and it is that key's entry |
| Validator.ValidateTerm | src/enhanced_llm_extractor.py:168-201 | None on empty input; the normalised value itself when it is a term; with a sound fuzzy matcher, only ever a term of the list |
| Validator.ValidateTermSubstring | src/enhanced_llm_extractor.py:187-194 | without an exact match, the first term in list order that contains or is contained in the value wins |
| Validator.ValidateTermFuzzy | src/enhanced_llm_extractor.py:195-199 | when no term overlaps the value, the answer is the fuzzy matcher's |
| Validator.ValidateTermKnown | src/enhanced_llm_extractor.py:183-189 | a plain term of the list validates as itself |
| Validator.IdentifyPlant | src/enhanced_llm_extractor.py:204-214 | the alias of the transliterated, lower-cased lemma when there is one; else the plant-list validation; with a sound matcher, always a plant |
| Validator.IdentifyLink | src/enhanced_llm_extractor.py:217-219 | None on empty input; with a sound matcher, always a relation of the list |
| Validator.MaizeIsCorn | src/enhanced_llm_extractor.py:150-214 | `mais`, `maïs` and `MAÏS` all identify as `corn` |
| Validator.EnglishPlantIsItself | src/enhanced_llm_extractor.py:204-214 | `corn`, `onion` and `tomato` identify as themselves |
| Validator.NoDiaeresisAfterUnidecode | src/enhanced_llm_extractor.py:207 | a transliterated string never holds `ï` |
| Validator.AccentedAliasNeverConsulted | src/enhanced_llm_extractor.py:150-211 | the alias key `maïs` can never be looked up, since the lookup key is transliterated first |
| Validator.FirstCategory | src/enhanced_llm_extractor.py:234-239 | the index found is the first category that validates the term |
| Validator.ClassifySatellite | src/enhanced_llm_extractor.py:222-239 | `(None, None)` exactly when no category validates; otherwise the validated term of the first category that does, with that category's name |
| Validator.ClassifyEmpty | src/enhanced_llm_extractor.py:222-239 | an empty term is never classified |
| Analysis.Get | src/enhanced_llm_extractor.py:454-466 | a key has a value exactly when it was stored |
| Analysis.Put | src/enhanced_llm_extractor.py:449 | storing sets the key, leaves every other key alone, and appends the key only when it is new |
| Analysis.PutKeepsEntries | src/enhanced_llm_extractor.py:449 | the stored entry is present afterwards, and every entry with another key survives |
| Analysis.PutKeepsKeysDistinct | src/enhanced_llm_extractor.py:449 | storing keeps the keys distinct |
| Analysis.ParseLine | src/enhanced_llm_extractor.py:439-447 | a line gives an entry exactly when it has a `:`, and a kept value is never one of the no-value words |
| Analysis.Collect | src/enhanced_llm_extractor.py:437-449 | one key per parsed line, in order of first appearance, each holding the value of its last line; every entry comes from some line |
| Analysis.ParseData | src/enhanced_llm_extractor.py:437-449 | a key for every line with a `:`, in order of first appearance, each holding the value of its last line; no no-value word as value |
| Analysis.Observe | src/enhanced_llm_extractor.py:512-548 | one Satellite is recorded: the raw value as the list for the plant's health validates it; failing that, as the general list validates it, with the correction recorded when the term differs from the raw value; failing both, the fallback, with no correction. With a sound matcher it is a term of one of the two lists or the fallback |
| Analysis.Accept | src/enhanced_llm_extractor.py:494-498 | the validated term is appended; a correction from the raw value to it is recorded exactly when they differ, and no other correction changes, so corrections keep pointing at different terms among the Satellites |
| Analysis.AddProblem | src/enhanced_llm_extractor.py:490-499 | a problem name other than the "no value" words that some category validates adds that category's term, recording a correction when it differs; otherwise nothing changes |
| Analysis.AddSymptom | src/enhanced_llm_extractor.py:501-510 | a symptom other than the "no value" words that the symptom list validates adds the validated term and is the one symptom returned; otherwise nothing changes and no symptom is returned |
| Analysis.StructuredSatellites | src/enhanced_llm_extractor.py:476-548 | the Satellites are, in order: the health state, the problem term if the name validates, the symptom if it validates, the leaf state and the leaf colour. Leaf state and colour are the first of specific list, general list and health-dependent fallback to yield a term, read from the entry or, when it is missing, its health-dependent default |
| Analysis.AnalyzeStructured | src/enhanced_llm_extractor.py:425-579 | None exactly when the plant is missing or unrecognised. Otherwise: the plant is the Hub; sickness is `EST_MALADE == oui`; the link follows sickness and problem type; `lemmes_valides` is plant, link, then Satellites; every other field is the one the entries determine (Analysis.FromEntries); and confidence exceeds 1 exactly when Satellites plus one outnumber the entries |
| Analysis.Recognised | src/enhanced_llm_extractor.py:461-575 | for a recognised plant, the plant is the Hub and every field is the one the entries determine: the Satellites in their fixed order, problem type and name with the "no value" words as None, the validated symptom, leaf state and colour, `lemmes_bruts` as the present entry values, and confidence as Satellites plus one over the entry count, at least 1. Every correction maps a raw value to a different term among the Satellites |
| Analysis.FromEntriesShape | src/enhanced_llm_extractor.py:476-557 | an analysis the entries determine has at least three Satellites, the health state first, leaf state and colour last, and a confidence above 1 exactly when Satellites plus one outnumber the entries |
| Analysis.StructuredLeafNamed | src/enhanced_llm_extractor.py:512-529 | a leaf state spelled plainly from the list for the plant's health is the state recorded, whatever the fuzzy matcher |
| Analysis.StructuredColourNamed | src/enhanced_llm_extractor.py:531-548 | a leaf colour spelled plainly from the list for the plant's health is the colour recorded, whatever the fuzzy matcher |
| Analysis.StructuredSymptomNamed | src/enhanced_llm_extractor.py:501-510 | a symptom spelled plainly from the symptom list is the one symptom recorded, third from last among the Satellites |
| Analysis.Ratio | src/enhanced_llm_extractor.py:550-553 | the ratio is non-negative, and exceeds 1 exactly when the numerator exceeds the denominator |
| Analysis.PresentValues | src/enhanced_llm_extractor.py:555-557 | every kept value is a present value of the data, and every value that is there, non-empty and not `aucun` is kept |
| Analysis.PresentValuesAppend | src/enhanced_llm_extractor.py:555-557 | the raw lemmas keep the order of the data values: filtering a concatenation concatenates the filtered parts |
| Analysis.StructuredHealthAgrees | src/enhanced_llm_extractor.py:462-488 | the health Satellite is `sain`, `infeste` or `malade` exactly when the link is health status, infestation or disease |
| Analysis.StructuredConfidenceCanExceedOne | src/enhanced_llm_extractor.py:550-553 | an answer naming only its plant gets a confidence above 1 |
| Analysis.ScanAllConsistent | src/enhanced_llm_extractor.py:605-632 | the scan keeps the validated lemmas equal, as a bag, to the Hub, the link and the Satellites found; with sound readers every Satellite is a category term |
| Analysis.ScanHub | src/enhanced_llm_extractor.py:605-615 | the Hub is the plant of the first lemma that identifies a plant |
| Analysis.ScanLink | src/enhanced_llm_extractor.py:605-624 | the link is the one the link classifier gives for the first lemma it identifies, passing over the lemma taken as the Hub; a link once found is never replaced |
| Analysis.ScanSatellites | src/enhanced_llm_extractor.py:605-632 | the scan's Satellites are the values the categories validate for the lemmas in order, passing over the lemma taken as the Hub and the lemma taken as the link |
| Analysis.InferLink | src/enhanced_llm_extractor.py:640-690 | disease evidence, or symptoms without a healthy state, gives `has_disease`; else pests give `has_infestation`; health status only when no sign of sickness remains |
| Analysis.Linked | src/enhanced_llm_extractor.py:640-690 | a link found is kept; otherwise the inferred link is inserted, and the validated lemmas are still Hub, link and Satellites as a bag |
| Analysis.FirstIn | src/enhanced_llm_extractor.py:697-704 | the first Satellite among the problem terms, and none exactly when no Satellite is one |
| Analysis.Among | src/enhanced_llm_extractor.py:707-708 | exactly the Satellites among the symptom terms |
| Analysis.AmongAppend | src/enhanced_llm_extractor.py:707-708 | the symptoms keep the order of the Satellites |
| Analysis.FirstAmong | src/enhanced_llm_extractor.py:711-715 | the first Satellite among the leaf-state (leaf-colour) terms, or the default when none is |
| Analysis.AnalyzeLemmas | src/enhanced_llm_extractor.py:581-736 | the Satellites are the validated values of the extracted lemmas in order, leaving out the Hub's and the link's; the link is that of the first lemma `identify_link` recognises other than the Hub's, else the inferred one; problem type, problem name, symptoms, leaf state, leaf colour and confidence follow from link and Satellites; sickness holds exactly when the link is `has_disease` or `has_infestation`; the validated lemmas are Hub, link and Satellites; with a sound matcher the link is a relation and every Satellite a category term |
| Analysis.AnalyzeLemmasHub | src/enhanced_llm_extractor.py:605-637 | no analysis exactly when no extracted lemma identifies a plant; otherwise the Hub is the first such plant |
| Analysis.AnalyzeList | src/enhanced_llm_extractor.py:605-736 | for any readers: the first plant as Hub, the Satellites as the validated values of the other lemmas in order, the link of the first other linked lemma or the inferred one, and the problem type, problem name, symptoms, leaf state, leaf colour and confidence that follow from them |
| Analysis.Assembled | src/enhanced_llm_extractor.py:639-736 | once a Hub is found: the link found during the scan, or else the one the ladder infers from the Satellites; sickness holds exactly for a disease or infestation link; the validated lemmas are Hub, link and Satellites; problem type, problem name, symptoms, leaf state, leaf colour and confidence follow from link and Satellites |
| Analysis.AnalyzeListHub | src/enhanced_llm_extractor.py:605-637 | with the validator's readers, the Hub is the first lemma that identifies a plant |
| SqlExport.EscapeSql | src/exporters/sql_exporter.py:207-210 | the output is longer by the number of quotes, and unchanged when the input has none |
| SqlExport.ReadEscaped | src/exporters/sql_exporter.py:207-210 | reading an escaped value up to its closing quote gives the original value back |
| SqlExport.EscapeInjective | src/exporters/sql_exporter.py:207-210 | distinct values never escape to the same text |
| SqlExport.ReadTuple | src/exporters/sql_exporter.py:121-124 | reading back a rendered VALUES tuple gives its values in order |
| SqlExport.HubRoundTrip | src/exporters/sql_exporter.py:110-127 | reading back a Hub INSERT gives key, business key, type, URI, formatted score, date and source, the escaped fields unescaped |
| SqlExport.LinkRoundTrip | src/exporters/sql_exporter.py:129-146 | reading back a Link INSERT gives key, source and target keys, relation, formatted score, date and source |
| SqlExport.SatelliteRoundTrip | src/exporters/sql_exporter.py:148-166 | reading back a Satellite INSERT gives key, Hub key, name, value, formatted score, date, source and hash diff |
| SqlExport.Section | src/exporters/sql_exporter.py:110-166 | an empty list gives exactly its `-- No ... to insert` comment, and only an empty list does |
| SqlExport.SectionHolds | src/exporters/sql_exporter.py:115-127 | every statement of a non-empty list appears in its section |
| SqlExport.SectionAppend | src/exporters/sql_exporter.py:115-127 | the statements follow the banner one per line in input order |
| SqlExport.HubInserts | src/exporters/sql_exporter.py:120-127 | one INSERT per Hub, in order |
| SqlExport.LinkInserts | src/exporters/sql_exporter.py:139-146 | one INSERT per Link, in order |
| SqlExport.SatelliteInserts | src/exporters/sql_exporter.py:158-166 | one INSERT per Satellite, in order |
| SqlExport.Header | src/exporters/sql_exporter.py:56-67 | the header opens with the title line |
| SqlExport.AssembleHolds | src/exporters/sql_exporter.py:28-49 | the six sections joined by blank lines open with the header, close with the indexes and hold every statement |
| SqlExport.Script | src/exporters/sql_exporter.py:28-49 | the script opens with the title, closes with the index definitions, and holds the INSERT of every Hub, Link and Satellite of the schema |

## Left out

- The Ollama HTTP calls, image encoding, retries and the GPU batch path (`analyze_plant`, `extract_lemmas`, `extract_lemmas_validated`, `batch_analyze`, `check_model_availability`, the CuPy branch of `batch_similarity`): network, I/O and GPU work outside the deterministic core.
- Embedding fetch and cache, and the `lru_cache` helpers (`clear_cache`, `get_cache_size`): caching does not change a result. Embeddings reach the model only as the cosine oracle.
- Jaro-Winkler, the n-gram cosine, MD5, `difflib.get_close_matches` and the float formatting (`round`, `:.4f`, `str(float)`): library code, modelled as oracle functions with the range axioms above.
- `str.lower`, `\w` and `unidecode`: only single characters are mapped. Case mapping covers ASCII and Latin-1. `\w` covers ASCII letters and digits and the Latin-1 letters, superscript digits and vulgar fractions. The `unidecode` table covers the Latin-1 word characters, the no-break space, `œ` and `Œ`. The other Latin-1 signs (`«`, `°`, `×`, `÷` and the like), the C1 controls and every character beyond Latin-1 are left as they are, where `unidecode` spells them out in ASCII or drops them.
- `datetime.now`: an `Instant` input. `classify_lemmas` reads it once per call rather than once per record.
- The file write in `SQLExporter.export` and every `print`: output only.
- The ontology loader, the RDF and JSON exporters, the UI, the configuration and the demo script are not part of this model.
- `_parse_structured_response`: the exception handler is modelled as `None`. The only exception the model can reach is a missing `PLANTE` line.
- LemmaText.NormalizeIdempotent, LemmaText.NormalizeStable: stated only for text without `¼`, `½` or `¾`. `unidecode` turns these into a blank and a slashed fraction, and a second pass drops the slash (LemmaText.FractionNotIdempotent).
- Python floats are modelled as exact reals. Scores, averages, ratios and the `(cos + 1) / 2` rescale are never NaN or infinite and never rounded. The oracles' ranges rule out NaN, so a NaN score, which `not 0 <= c <= 1` would flag, cannot be represented.
- Analysis.AnalyzeList, Analysis.AnalyzeLemmas, Analysis.Assembled: `lemmes_corriges` is built but no contract states its content.
- Analysis.Recognised, Analysis.AnalyzeStructured: `lemmes_corriges` is stated only as corrections that point at a different term among the Satellites (Analysis.Accept states each step). Its keys are not stated. For a leaf entry that is missing, the key is the health-dependent default.
- Validator.ClassifySatellite: the unused `plant_type` parameter is not modelled.
- Analysis.Linked, Analysis.Assembled, Analysis.AnalyzeList, Analysis.AnalyzeLemmas: the inferred link is inserted at position 1 of `lemmes_valides`. The contract states the content as a bag, not that exact position.
- Analysis.AnalyzeLemmas: `identify_link` may return the French relations (`a_maladie`, `a_infestation`). Sickness is decided on the English names only, so a French `a_maladie` link gives a healthy analysis.
- Matcher.TypeMapGroups: the attribute name is stated only for vocabularies whose Satellite groups are disjoint. With overlapping groups the last group written into the map wins. The shipped groups are disjoint (Matcher.StandardGroupsDisjoint).
- SqlExport.HubRoundTrip, SqlExport.LinkRoundTrip, SqlExport.SatelliteRoundTrip: stated only for unescaped fields (keys, types, URIs, dates, hash diffs) that hold no quote, and for a formatted score that is a plain number.
- SqlExport.Script: states the order of the first and last sections and the presence of every statement. The middle sections are fixed by the definition of `Assemble`, not by a separate ensures.
- Analysis.AnalyzeStructured: the confidence is not clamped. Analysis.StructuredConfidenceCanExceedOne shows a value above 1, as the source computes it.
- Validator.AccentedAliasNeverConsulted: the `maïs` entry of the alias table can never be reached. `maïs` still becomes `corn` through the `mais` entry.
