/**
 * Assembly, statistics, validation and merging of Data Vault schemas.
 */
module Generator {
  import opened Wrappers
  import opened Text
  import opened Externals
  import opened Entities

  /** The generator's version tag, written into every metadata block. */
  const Version: string := "1.0.0"

  /** The metadata dictionary of a schema, by the code path that produced it. */
  datatype Metadata =
    | Generated(generatedAt: string, sourceImage: string, originalLemmas: seq<string>, lemmasCount: nat, generatorVersion: string)
    | Merged(generatedAt: string, mergedFrom: nat, sourceImages: seq<string>, generatorVersion: string)
    | NoMetadata

  /** `metadata.get("source_image", default)`. */
  function SourceImageOr(m: Metadata, default: string): string
  {
    if m.Generated? then m.sourceImage else default
  }

  datatype Schema = Schema(hubs: seq<Hub>, links: seq<Link>, satellites: seq<Satellite>, metadata: Metadata)

  /** The schema `generate_schema` assembles, stamped with the clock reading `now`. */
  function GenerateSchema(hubs: seq<Hub>, links: seq<Link>, satellites: seq<Satellite>,
                          sourceImage: string, lemmas: seq<string>, now: Instant): (s: Schema)
    ensures s.hubs == hubs && s.links == links && s.satellites == satellites
    ensures s.metadata.Generated? && s.metadata.lemmasCount == |lemmas| && s.metadata.originalLemmas == lemmas
    ensures SourceImageOr(s.metadata, "unknown") == sourceImage
    ensures s.metadata.generatorVersion == Version && s.metadata.generatedAt == now.iso
  {
    Schema(hubs, links, satellites, Generated(now.iso, sourceImage, lemmas, |lemmas|, Version))
  }

  // ----- key projections -------------------------------------------------

  function HubKeys(hubs: seq<Hub>): (r: seq<string>)
    ensures |r| == |hubs| && forall i :: 0 <= i < |hubs| ==> r[i] == hubs[i].hubKey
  {
    seq(|hubs|, i requires 0 <= i < |hubs| => hubs[i].hubKey)
  }

  function LinkKeys(links: seq<Link>): (r: seq<string>)
    ensures |r| == |links| && forall i :: 0 <= i < |links| ==> r[i] == links[i].linkKey
  {
    seq(|links|, i requires 0 <= i < |links| => links[i].linkKey)
  }

  function SatelliteKeys(sats: seq<Satellite>): (r: seq<string>)
    ensures |r| == |sats| && forall i :: 0 <= i < |sats| ==> r[i] == sats[i].satelliteKey
  {
    seq(|sats|, i requires 0 <= i < |sats| => sats[i].satelliteKey)
  }

  /** The (source, target) pair of every Link, in order. */
  function LinkPairs(links: seq<Link>): (r: seq<(string, string)>)
    ensures |r| == |links| && forall i :: 0 <= i < |links| ==> r[i] == (links[i].sourceKey, links[i].targetKey)
  {
    seq(|links|, i requires 0 <= i < |links| => (links[i].sourceKey, links[i].targetKey))
  }

  // ----- statistics ------------------------------------------------------

  /** A counting dictionary: keys in insertion order with their counts. */
  type Counter = seq<(string, nat)>

  function CounterKeys(c: Counter): (r: seq<string>)
    ensures |r| == |c| && forall i :: 0 <= i < |c| ==> r[i] == c[i].0
  {
    seq(|c|, i requires 0 <= i < |c| => c[i].0)
  }

  /** `counter.get(k, 0)`. */
  function Get(c: Counter, k: string): nat
  {
    if |c| == 0 then 0 else if c[0].0 == k then c[0].1 else Get(c[1..], k)
  }

  /** The sum of all counts. */
  function Total(c: Counter): nat
  {
    if |c| == 0 then 0 else c[0].1 + Total(c[1..])
  }

  /** `counter[k] = counter.get(k, 0) + 1`: a new key goes at the end. */
  function Increment(c: Counter, k: string): Counter
  {
    if |c| == 0 then [(k, 1)]
    else if c[0].0 == k then [(k, c[0].1 + 1)] + c[1..]
    else [c[0]] + Increment(c[1..], k)
  }

  /** Incrementing keeps the key order and appends a key seen for the first time. */
  lemma {:induction false} IncrementKeys(c: Counter, k: string)
    ensures CounterKeys(Increment(c, k)) == if k in CounterKeys(c) then CounterKeys(c) else CounterKeys(c) + [k]
  {
    if |c| > 0 {
      var t := c[1..];
      assert c == [c[0]] + t;
      CounterKeysCons(c[0], t);
      if c[0].0 != k {
        IncrementKeys(t, k);
        CounterKeysCons(c[0], Increment(t, k));
        assert k in CounterKeys(c) <==> k in CounterKeys(t);
      } else {
        CounterKeysCons((k, c[0].1 + 1), t);
      }
    }
  }

  lemma CounterKeysCons(a: (string, nat), t: Counter)
    ensures CounterKeys([a] + t) == [a.0] + CounterKeys(t)
  {
  }

  /** Incrementing adds one to the count of `k` and leaves every other count alone. */
  lemma {:induction false} IncrementGet(c: Counter, k: string, x: string)
    ensures Get(Increment(c, k), x) == Get(c, x) + (if x == k then 1 else 0)
  {
    if |c| > 0 && c[0].0 != k {
      IncrementGet(c[1..], k, x);
      assert Increment(c, k)[1..] == Increment(c[1..], k);
    }
  }

  /** Incrementing adds one to the total. */
  lemma {:induction false} IncrementTotal(c: Counter, k: string)
    ensures Total(Increment(c, k)) == Total(c) + 1
  {
    if |c| > 0 {
      if c[0].0 != k {
        IncrementTotal(c[1..], k);
        assert Increment(c, k)[1..] == Increment(c[1..], k);
      } else {
        assert Increment(c, k)[1..] == c[1..];
      }
    }
  }

  /** Number of occurrences of `x` in `xs`. */
  function Occurrences(xs: seq<string>, x: string): nat
  {
    multiset(xs)[x]
  }

  /**
   * The counting loop of `get_statistics`: one entry per distinct value, in
   * order of first appearance, holding its number of occurrences.
   */
  function CountBy(xs: seq<string>): (c: Counter)
    ensures NoDup(CounterKeys(c))
    ensures CounterKeys(c) == Dedup(xs)
    ensures forall x :: Get(c, x) == Occurrences(xs, x)
    ensures Total(c) == |xs|
  {
    if |xs| == 0 then []
    else
      var n := |xs| - 1;
      assert xs == xs[..n] + [xs[n]];
      var p := CountBy(xs[..n]);
      var c := Increment(p, xs[n]);
      IncrementKeys(p, xs[n]);
      IncrementTotal(p, xs[n]);
      forall x ensures Get(c, x) == Get(p, x) + (if x == xs[n] then 1 else 0) { IncrementGet(p, xs[n], x); }
      OccurrencesLast(xs);
      c
  }

  /** The occurrences in a sequence are those in all but its last element, plus that one. */
  lemma OccurrencesLast(xs: seq<string>)
    requires |xs| > 0
    ensures forall x :: Occurrences(xs, x) == Occurrences(xs[..|xs| - 1], x) + (if x == xs[|xs| - 1] then 1 else 0)
  {
    var n := |xs| - 1;
    assert xs == xs[..n] + [xs[n]];
    assert multiset(xs) == multiset(xs[..n]) + multiset{xs[n]};
  }

  function Sum(xs: seq<real>): real
  {
    if |xs| == 0 then 0.0 else xs[0] + Sum(xs[1..])
  }

  lemma {:induction false} SumBounds(xs: seq<real>, lo: real, hi: real)
    requires forall i :: 0 <= i < |xs| ==> lo <= xs[i] <= hi
    ensures lo * |xs| as real <= Sum(xs) <= hi * |xs| as real
  {
    if |xs| > 0 {
      SumBounds(xs[1..], lo, hi);
    }
  }

  /** `sum(xs) / len(xs) if xs else 0`. */
  function Average(xs: seq<real>): (r: real)
    ensures |xs| == 0 ==> r == 0.0
    ensures |xs| > 0 ==> r * |xs| as real == Sum(xs)
  {
    if |xs| == 0 then 0.0 else Sum(xs) / |xs| as real
  }

  /** Every element lies in [lo, hi], so the mean does too. */
  lemma AverageBounds(xs: seq<real>, lo: real, hi: real)
    requires |xs| > 0
    requires forall i :: 0 <= i < |xs| ==> lo <= xs[i] <= hi
    ensures lo <= Average(xs) <= hi
  {
    SumBounds(xs, lo, hi);
    var n := |xs| as real;
    var a := Average(xs);
    assert a * n == Sum(xs);
  }

  function HubScores(hubs: seq<Hub>): (r: seq<real>)
    ensures |r| == |hubs| && forall i :: 0 <= i < |hubs| ==> r[i] == hubs[i].confidence
  {
    seq(|hubs|, i requires 0 <= i < |hubs| => hubs[i].confidence)
  }

  function LinkScores(links: seq<Link>): (r: seq<real>)
    ensures |r| == |links| && forall i :: 0 <= i < |links| ==> r[i] == links[i].confidence
  {
    seq(|links|, i requires 0 <= i < |links| => links[i].confidence)
  }

  function SatelliteScores(sats: seq<Satellite>): (r: seq<real>)
    ensures |r| == |sats| && forall i :: 0 <= i < |sats| ==> r[i] == sats[i].confidence
  {
    seq(|sats|, i requires 0 <= i < |sats| => sats[i].confidence)
  }

  /** The dictionary `get_statistics` returns; the averages are rounded to three places. */
  datatype Statistics = Statistics(
    totalHubs: nat, totalLinks: nat, totalSatellites: nat,
    entityTypes: Counter, relationTypes: Counter, attributeNames: Counter,
    averageHubs: Field, averageLinks: Field, averageSatellites: Field)

  function EntityTypes(hubs: seq<Hub>): (r: seq<string>)
    ensures |r| == |hubs| && forall i :: 0 <= i < |hubs| ==> r[i] == hubs[i].entityType
  {
    seq(|hubs|, i requires 0 <= i < |hubs| => hubs[i].entityType)
  }

  function RelationTypes(links: seq<Link>): (r: seq<string>)
    ensures |r| == |links| && forall i :: 0 <= i < |links| ==> r[i] == links[i].relationType
  {
    seq(|links|, i requires 0 <= i < |links| => links[i].relationType)
  }

  function AttributeNames(sats: seq<Satellite>): (r: seq<string>)
    ensures |r| == |sats| && forall i :: 0 <= i < |sats| ==> r[i] == sats[i].attributeName
  {
    seq(|sats|, i requires 0 <= i < |sats| => sats[i].attributeName)
  }

  /** `DataVaultSchema.get_statistics`. */
  function GetStatistics(s: Schema): (st: Statistics)
    ensures st.totalHubs == |s.hubs| && st.totalLinks == |s.links| && st.totalSatellites == |s.satellites|
    ensures st.entityTypes == CountBy(EntityTypes(s.hubs))
    ensures st.relationTypes == CountBy(RelationTypes(s.links))
    ensures st.attributeNames == CountBy(AttributeNames(s.satellites))
    ensures st.averageHubs == Rounded(Average(HubScores(s.hubs)), 3)
    ensures st.averageLinks == Rounded(Average(LinkScores(s.links)), 3)
    ensures st.averageSatellites == Rounded(Average(SatelliteScores(s.satellites)), 3)
  {
    Statistics(|s.hubs|, |s.links|, |s.satellites|,
               CountBy(EntityTypes(s.hubs)), CountBy(RelationTypes(s.links)), CountBy(AttributeNames(s.satellites)),
               Rounded(Average(HubScores(s.hubs)), 3),
               Rounded(Average(LinkScores(s.links)), 3),
               Rounded(Average(SatelliteScores(s.satellites)), 3))
  }

  /** A schema whose scores all lie in [0, 1] reports averages (before rounding) in [0, 1]. */
  lemma StatisticsAveragesInRange(s: Schema)
    requires AllScoresInRange(s)
    ensures 0.0 <= GetStatistics(s).averageHubs.number <= 1.0
    ensures 0.0 <= GetStatistics(s).averageLinks.number <= 1.0
    ensures 0.0 <= GetStatistics(s).averageSatellites.number <= 1.0
  {
    if |s.hubs| > 0 { AverageBounds(HubScores(s.hubs), 0.0, 1.0); }
    if |s.links| > 0 { AverageBounds(LinkScores(s.links), 0.0, 1.0); }
    if |s.satellites| > 0 { AverageBounds(SatelliteScores(s.satellites), 0.0, 1.0); }
  }

  // ----- validation ------------------------------------------------------

  datatype Severity = Error | Warning

  /** One finding of `validate_schema`, before it is rendered as a message. */
  datatype Issue =
    | DuplicateHubKeys
    | DuplicateLinkKeys
    | DuplicateSatelliteKeys
    | DanglingLinkSource(linkKey: string)
    | DanglingLinkTarget(linkKey: string)
    | DanglingSatellite(satelliteKey: string)
    | HubScoreOutOfRange(businessKey: string, score: real)
    | LinkScoreOutOfRange(linkKey: string, score: real)
    | SatelliteScoreOutOfRange(attributeName: string, score: real)
    | NoHubs
    | LinksWithoutTwoHubs(links: nat, hubs: nat)
    | DuplicateLinkPair
  {
    function Severity(): Severity
    {
      if DuplicateHubKeys? || DuplicateLinkKeys? || DuplicateSatelliteKeys? then Error else Warning
    }
  }

  function SeverityTag(v: Severity): string
  {
    match v
    case Error => "ERREUR: "
    case Warning => "WARNING: "
  }

  /** `key[:8]`. */
  function Abbrev(key: string): (r: string)
    ensures |r| == if |key| < 8 then |key| else 8
    ensures IsPrefix(r, key)
  {
    if |key| < 8 then key else key[..8]
  }

  /** The text after the severity tag. */
  function Body(o: Oracles, i: Issue): string
  {
    match i
    case DuplicateHubKeys => "Clés Hub en double détectées"
    case DuplicateLinkKeys => "Clés Link en double détectées"
    case DuplicateSatelliteKeys => "Clés Satellite en double détectées"
    case DanglingLinkSource(k) => "Link " + Abbrev(k) + "... référence un Hub source invalide"
    case DanglingLinkTarget(k) => "Link " + Abbrev(k) + "... référence un Hub target invalide"
    case DanglingSatellite(k) => "Satellite " + Abbrev(k) + "... référence un Hub invalide"
    case HubScoreOutOfRange(bk, c) => "Hub " + bk + " a un score invalide: " + o.floatRepr(c)
    case LinkScoreOutOfRange(k, c) => "Link " + Abbrev(k) + "... a un score invalide: " + o.floatRepr(c)
    case SatelliteScoreOutOfRange(n, c) => "Satellite " + n + " a un score invalide: " + o.floatRepr(c)
    case NoHubs => "Aucun Hub détecté. Au moins une plante devrait être identifiée."
    case LinksWithoutTwoHubs(l, h) =>
      NatToString(l) + " Link(s) détecté(s) mais seulement " + NatToString(h) + " Hub(s). Un Link nécessite 2 Hubs."
    case DuplicateLinkPair => "Links en double détectés entre les mêmes Hubs."
  }

  /** The message text of an issue, as `validate_schema` returns it. */
  function Render(o: Oracles, i: Issue): string
  {
    SeverityTag(i.Severity()) + Body(o, i)
  }

  /**
   * "ERREUR:" marks exactly the key-uniqueness errors and "WARNING:"
   * everything else.
   */
  lemma RenderTagged(o: Oracles, i: Issue)
    ensures IsPrefix("ERREUR: ", Render(o, i)) <==> i.Severity() == Error
    ensures IsPrefix("WARNING: ", Render(o, i)) <==> i.Severity() == Warning
  {
    var m := Render(o, i);
    if i.Severity() == Error {
      assert m[..8] == "ERREUR: ";
      assert m[0] == 'E';
    } else {
      assert m[..9] == "WARNING: ";
      assert m[0] == 'W';
    }
  }

  /** The elements of a sequence, as Python's `set(xs)`. */
  function SetOf(xs: seq<string>): set<string>
  {
    set x | x in xs
  }

  /** Python's `len(xs) != len(set(xs))` holds exactly when some value repeats. */
  lemma {:induction false} SetOfCardinality(xs: seq<string>)
    ensures |SetOf(xs)| <= |xs|
    ensures |SetOf(xs)| == |xs| <==> NoDup(xs)
  {
    if |xs| > 0 {
      var n := |xs| - 1;
      var p := xs[..n];
      SetOfCardinality(p);
      assert xs == p + [xs[n]];
      assert SetOf(xs) == SetOf(p) + {xs[n]};
      if xs[n] in p {
        assert SetOf(xs) == SetOf(p);
        var k :| 0 <= k < n && p[k] == xs[n];
        assert xs[k] == xs[n];
      } else {
        assert xs[n] !in SetOf(p);
        assert |SetOf(xs)| == |SetOf(p)| + 1;
        if NoDup(p) {
          forall i, j | 0 <= i < j < |xs| ensures xs[i] != xs[j] {
            if j == n { assert xs[i] == p[i]; } else { assert xs[i] == p[i] && xs[j] == p[j]; }
          }
        } else {
          var i, j :| 0 <= i < j < n && p[i] == p[j];
          assert xs[i] == xs[j];
        }
      }
    }
  }

  /** `len(xs) != len(set(xs))`. */
  predicate HasDuplicates(xs: seq<string>)
  {
    |SetOf(xs)| != |xs|
  }

  /** `_check_key_uniqueness`: one error per kind of record whose keys repeat. */
  function CheckKeyUniqueness(s: Schema): (r: seq<Issue>)
    ensures |r| <= 3
    ensures DuplicateHubKeys in r <==> !NoDup(HubKeys(s.hubs))
    ensures DuplicateLinkKeys in r <==> !NoDup(LinkKeys(s.links))
    ensures DuplicateSatelliteKeys in r <==> !NoDup(SatelliteKeys(s.satellites))
    ensures forall i :: i in r ==> i.Severity() == Error
    ensures r == [] <==> NoDup(HubKeys(s.hubs)) && NoDup(LinkKeys(s.links)) && NoDup(SatelliteKeys(s.satellites))
  {
    SetOfCardinality(HubKeys(s.hubs));
    SetOfCardinality(LinkKeys(s.links));
    SetOfCardinality(SatelliteKeys(s.satellites));
    (if HasDuplicates(HubKeys(s.hubs)) then [DuplicateHubKeys] else [])
    + (if HasDuplicates(LinkKeys(s.links)) then [DuplicateLinkKeys] else [])
    + (if HasDuplicates(SatelliteKeys(s.satellites)) then [DuplicateSatelliteKeys] else [])
  }

  /** The Link issues of `_check_referential_integrity`, source before target, Link by Link. */
  function DanglingLinks(links: seq<Link>, valid: set<string>): (r: seq<Issue>)
    ensures forall i :: i in r ==> (i.DanglingLinkSource? || i.DanglingLinkTarget?)
    ensures forall i :: i in r && i.DanglingLinkSource? ==> exists l :: l in links && l.linkKey == i.linkKey && l.sourceKey !in valid
    ensures forall i :: i in r && i.DanglingLinkTarget? ==> exists l :: l in links && l.linkKey == i.linkKey && l.targetKey !in valid
    ensures forall l :: l in links && l.sourceKey !in valid ==> DanglingLinkSource(l.linkKey) in r
    ensures forall l :: l in links && l.targetKey !in valid ==> DanglingLinkTarget(l.linkKey) in r
    ensures r == [] <==> forall l :: l in links ==> l.sourceKey in valid && l.targetKey in valid
  {
    if |links| == 0 then []
    else
      var l := links[0];
      var rest := DanglingLinks(links[1..], valid);
      var head := (if l.sourceKey !in valid then [DanglingLinkSource(l.linkKey)] else [])
        + (if l.targetKey !in valid then [DanglingLinkTarget(l.linkKey)] else []);
      DanglingLinksStep(links, valid, head, rest);
      head + rest
  }

  /** The issues of a Link followed by those of the Links after it. */
  lemma DanglingLinksStep(links: seq<Link>, valid: set<string>, head: seq<Issue>, rest: seq<Issue>)
    requires |links| > 0
    requires var l := links[0];
      head == (if l.sourceKey !in valid then [DanglingLinkSource(l.linkKey)] else [])
        + (if l.targetKey !in valid then [DanglingLinkTarget(l.linkKey)] else [])
    requires forall i :: i in rest ==> (i.DanglingLinkSource? || i.DanglingLinkTarget?)
    requires forall i :: i in rest && i.DanglingLinkSource? ==> exists l :: l in links[1..] && l.linkKey == i.linkKey && l.sourceKey !in valid
    requires forall i :: i in rest && i.DanglingLinkTarget? ==> exists l :: l in links[1..] && l.linkKey == i.linkKey && l.targetKey !in valid
    requires forall l :: l in links[1..] && l.sourceKey !in valid ==> DanglingLinkSource(l.linkKey) in rest
    requires forall l :: l in links[1..] && l.targetKey !in valid ==> DanglingLinkTarget(l.linkKey) in rest
    requires rest == [] <==> forall l :: l in links[1..] ==> l.sourceKey in valid && l.targetKey in valid
    ensures var r := head + rest;
      && (forall i :: i in r ==> (i.DanglingLinkSource? || i.DanglingLinkTarget?))
      && (forall i :: i in r && i.DanglingLinkSource? ==> exists l :: l in links && l.linkKey == i.linkKey && l.sourceKey !in valid)
      && (forall i :: i in r && i.DanglingLinkTarget? ==> exists l :: l in links && l.linkKey == i.linkKey && l.targetKey !in valid)
      && (forall l :: l in links && l.sourceKey !in valid ==> DanglingLinkSource(l.linkKey) in r)
      && (forall l :: l in links && l.targetKey !in valid ==> DanglingLinkTarget(l.linkKey) in r)
      && (r == [] <==> forall l :: l in links ==> l.sourceKey in valid && l.targetKey in valid)
  {
    assert links == [links[0]] + links[1..];
    assert forall x :: x in links <==> x == links[0] || x in links[1..];
  }

  /** The Satellite issues of `_check_referential_integrity`. */
  function DanglingSatellites(sats: seq<Satellite>, valid: set<string>): (r: seq<Issue>)
    ensures forall i :: i in r ==> i.DanglingSatellite? && exists s :: s in sats && s.satelliteKey == i.satelliteKey && s.hubKey !in valid
    ensures forall s :: s in sats && s.hubKey !in valid ==> DanglingSatellite(s.satelliteKey) in r
    ensures r == [] <==> forall s :: s in sats ==> s.hubKey in valid
  {
    if |sats| == 0 then []
    else
      var s := sats[0];
      var rest := DanglingSatellites(sats[1..], valid);
      assert forall x :: x in sats[1..] ==> x in sats;
      (if s.hubKey !in valid then [DanglingSatellite(s.satelliteKey)] else []) + rest
  }

  /**
   * Links are checked one by one, in order: the issues of a concatenation
   * are those of its parts, and one Link yields a source issue, then a
   * target issue, for each end that names no Hub.
   */
  lemma {:induction false} DanglingLinksAppend(a: seq<Link>, b: seq<Link>, valid: set<string>)
    ensures DanglingLinks(a + b, valid) == DanglingLinks(a, valid) + DanglingLinks(b, valid)
    ensures |a| == 1 ==>
      DanglingLinks(a, valid) == (if a[0].sourceKey !in valid then [DanglingLinkSource(a[0].linkKey)] else [])
        + (if a[0].targetKey !in valid then [DanglingLinkTarget(a[0].linkKey)] else [])
    decreases |a|
  {
    if |a| > 0 {
      var ab := a + b;
      assert ab[0] == a[0] && ab[1..] == a[1..] + b;
      DanglingLinksAppend(a[1..], b, valid);
      DanglingLinksUnfold(ab, valid);
      DanglingLinksUnfold(a, valid);
      var head := (if a[0].sourceKey !in valid then [DanglingLinkSource(a[0].linkKey)] else [])
        + (if a[0].targetKey !in valid then [DanglingLinkTarget(a[0].linkKey)] else []);
      ConcatAssoc(head, DanglingLinks(a[1..], valid), DanglingLinks(b, valid));
    } else {
      assert a + b == b;
    }
  }

  lemma DanglingLinksUnfold(xs: seq<Link>, valid: set<string>)
    requires |xs| > 0
    ensures DanglingLinks(xs, valid) == (if xs[0].sourceKey !in valid then [DanglingLinkSource(xs[0].linkKey)] else [])
        + (if xs[0].targetKey !in valid then [DanglingLinkTarget(xs[0].linkKey)] else []) + DanglingLinks(xs[1..], valid)
  {
  }

  /** Satellites are checked one by one, in order, one issue for each Satellite whose Hub is missing. */
  lemma {:induction false} DanglingSatellitesAppend(a: seq<Satellite>, b: seq<Satellite>, valid: set<string>)
    ensures DanglingSatellites(a + b, valid) == DanglingSatellites(a, valid) + DanglingSatellites(b, valid)
    ensures |a| == 1 ==>
      DanglingSatellites(a, valid) == (if a[0].hubKey !in valid then [DanglingSatellite(a[0].satelliteKey)] else [])
    decreases |a|
  {
    if |a| > 0 {
      var ab := a + b;
      assert ab[0] == a[0] && ab[1..] == a[1..] + b;
      DanglingSatellitesAppend(a[1..], b, valid);
      DanglingSatellitesUnfold(ab, valid);
      DanglingSatellitesUnfold(a, valid);
      var head := (if a[0].hubKey !in valid then [DanglingSatellite(a[0].satelliteKey)] else []);
      ConcatAssoc(head, DanglingSatellites(a[1..], valid), DanglingSatellites(b, valid));
    } else {
      assert a + b == b;
    }
  }

  lemma DanglingSatellitesUnfold(xs: seq<Satellite>, valid: set<string>)
    requires |xs| > 0
    ensures DanglingSatellites(xs, valid) == (if xs[0].hubKey !in valid then [DanglingSatellite(xs[0].satelliteKey)] else []) + DanglingSatellites(xs[1..], valid)
  {
  }

  /** Every Link end and every Satellite names a Hub of the schema. */
  predicate ReferentiallyClosed(s: Schema)
  {
    (forall l :: l in s.links ==> l.sourceKey in SetOf(HubKeys(s.hubs)) && l.targetKey in SetOf(HubKeys(s.hubs)))
    && (forall t :: t in s.satellites ==> t.hubKey in SetOf(HubKeys(s.hubs)))
  }

  /** `_check_referential_integrity`. */
  function CheckReferentialIntegrity(s: Schema): (r: seq<Issue>)
    ensures r == [] <==> ReferentiallyClosed(s)
    ensures forall i :: i in r ==> i.Severity() == Warning
  {
    var valid := SetOf(HubKeys(s.hubs));
    var a := DanglingLinks(s.links, valid);
    var b := DanglingSatellites(s.satellites, valid);
    DanglingWarnings(a, b);
    a + b
  }

  /** Dangling-reference issues are all warnings, and none arise from either part exactly when none arise. */
  lemma DanglingWarnings(a: seq<Issue>, b: seq<Issue>)
    requires forall i :: i in a ==> (i.DanglingLinkSource? || i.DanglingLinkTarget?)
    requires forall i :: i in b ==> i.DanglingSatellite?
    ensures a + b == [] <==> a == [] && b == []
    ensures forall i :: i in a + b ==> i.Severity() == Warning
  {
    assert forall i :: i in a + b ==> i in a || i in b;
  }

  predicate InUnitRange(c: real)
  {
    0.0 <= c <= 1.0
  }

  predicate AllScoresInRange(s: Schema)
  {
    (forall h :: h in s.hubs ==> InUnitRange(h.confidence))
    && (forall l :: l in s.links ==> InUnitRange(l.confidence))
    && (forall t :: t in s.satellites ==> InUnitRange(t.confidence))
  }

  function HubScoreIssues(hubs: seq<Hub>): (r: seq<Issue>)
    ensures forall i :: i in r ==> i.HubScoreOutOfRange? && exists h :: h in hubs && h.businessKey == i.businessKey && h.confidence == i.score && !InUnitRange(h.confidence)
    ensures forall h :: h in hubs && !InUnitRange(h.confidence) ==> HubScoreOutOfRange(h.businessKey, h.confidence) in r
    ensures r == [] <==> forall h :: h in hubs ==> InUnitRange(h.confidence)
  {
    if |hubs| == 0 then []
    else
      var h := hubs[0];
      assert forall x :: x in hubs[1..] ==> x in hubs;
      (if !InUnitRange(h.confidence) then [HubScoreOutOfRange(h.businessKey, h.confidence)] else []) + HubScoreIssues(hubs[1..])
  }

  function LinkScoreIssues(links: seq<Link>): (r: seq<Issue>)
    ensures forall i :: i in r ==> i.LinkScoreOutOfRange? && exists l :: l in links && l.linkKey == i.linkKey && l.confidence == i.score && !InUnitRange(l.confidence)
    ensures forall l :: l in links && !InUnitRange(l.confidence) ==> LinkScoreOutOfRange(l.linkKey, l.confidence) in r
    ensures r == [] <==> forall l :: l in links ==> InUnitRange(l.confidence)
  {
    if |links| == 0 then []
    else
      var l := links[0];
      assert forall x :: x in links[1..] ==> x in links;
      (if !InUnitRange(l.confidence) then [LinkScoreOutOfRange(l.linkKey, l.confidence)] else []) + LinkScoreIssues(links[1..])
  }

  function SatelliteScoreIssues(sats: seq<Satellite>): (r: seq<Issue>)
    ensures forall i :: i in r ==> i.SatelliteScoreOutOfRange? && exists t :: t in sats && t.attributeName == i.attributeName && t.confidence == i.score && !InUnitRange(t.confidence)
    ensures forall t :: t in sats && !InUnitRange(t.confidence) ==> SatelliteScoreOutOfRange(t.attributeName, t.confidence) in r
    ensures r == [] <==> forall t :: t in sats ==> InUnitRange(t.confidence)
  {
    if |sats| == 0 then []
    else
      var t := sats[0];
      assert forall x :: x in sats[1..] ==> x in sats;
      (if !InUnitRange(t.confidence) then [SatelliteScoreOutOfRange(t.attributeName, t.confidence)] else []) + SatelliteScoreIssues(sats[1..])
  }

  /** Hubs are checked one by one, in order, one issue for each score outside [0, 1]. */
  lemma {:induction false} HubScoreIssuesAppend(a: seq<Hub>, b: seq<Hub>)
    ensures HubScoreIssues(a + b) == HubScoreIssues(a) + HubScoreIssues(b)
    ensures |a| == 1 ==>
      HubScoreIssues(a) == (if !InUnitRange(a[0].confidence) then [HubScoreOutOfRange(a[0].businessKey, a[0].confidence)] else [])
    decreases |a|
  {
    if |a| > 0 {
      var ab := a + b;
      assert ab[0] == a[0] && ab[1..] == a[1..] + b;
      HubScoreIssuesAppend(a[1..], b);
      HubScoreIssuesUnfold(ab);
      HubScoreIssuesUnfold(a);
      var head := (if !InUnitRange(a[0].confidence) then [HubScoreOutOfRange(a[0].businessKey, a[0].confidence)] else []);
      ConcatAssoc(head, HubScoreIssues(a[1..]), HubScoreIssues(b));
    } else {
      assert a + b == b;
    }
  }

  lemma HubScoreIssuesUnfold(xs: seq<Hub>)
    requires |xs| > 0
    ensures HubScoreIssues(xs) == (if !InUnitRange(xs[0].confidence) then [HubScoreOutOfRange(xs[0].businessKey, xs[0].confidence)] else []) + HubScoreIssues(xs[1..])
  {
  }

  /** Links are checked one by one, in order, one issue for each score outside [0, 1]. */
  lemma {:induction false} LinkScoreIssuesAppend(a: seq<Link>, b: seq<Link>)
    ensures LinkScoreIssues(a + b) == LinkScoreIssues(a) + LinkScoreIssues(b)
    ensures |a| == 1 ==>
      LinkScoreIssues(a) == (if !InUnitRange(a[0].confidence) then [LinkScoreOutOfRange(a[0].linkKey, a[0].confidence)] else [])
    decreases |a|
  {
    if |a| > 0 {
      var ab := a + b;
      assert ab[0] == a[0] && ab[1..] == a[1..] + b;
      LinkScoreIssuesAppend(a[1..], b);
      LinkScoreIssuesUnfold(ab);
      LinkScoreIssuesUnfold(a);
      var head := (if !InUnitRange(a[0].confidence) then [LinkScoreOutOfRange(a[0].linkKey, a[0].confidence)] else []);
      ConcatAssoc(head, LinkScoreIssues(a[1..]), LinkScoreIssues(b));
    } else {
      assert a + b == b;
    }
  }

  lemma LinkScoreIssuesUnfold(xs: seq<Link>)
    requires |xs| > 0
    ensures LinkScoreIssues(xs) == (if !InUnitRange(xs[0].confidence) then [LinkScoreOutOfRange(xs[0].linkKey, xs[0].confidence)] else []) + LinkScoreIssues(xs[1..])
  {
  }

  /** Satellites are checked one by one, in order, one issue for each score outside [0, 1]. */
  lemma {:induction false} SatelliteScoreIssuesAppend(a: seq<Satellite>, b: seq<Satellite>)
    ensures SatelliteScoreIssues(a + b) == SatelliteScoreIssues(a) + SatelliteScoreIssues(b)
    ensures |a| == 1 ==>
      SatelliteScoreIssues(a) == (if !InUnitRange(a[0].confidence) then [SatelliteScoreOutOfRange(a[0].attributeName, a[0].confidence)] else [])
    decreases |a|
  {
    if |a| > 0 {
      var ab := a + b;
      assert ab[0] == a[0] && ab[1..] == a[1..] + b;
      SatelliteScoreIssuesAppend(a[1..], b);
      SatelliteScoreIssuesUnfold(ab);
      SatelliteScoreIssuesUnfold(a);
      var head := (if !InUnitRange(a[0].confidence) then [SatelliteScoreOutOfRange(a[0].attributeName, a[0].confidence)] else []);
      ConcatAssoc(head, SatelliteScoreIssues(a[1..]), SatelliteScoreIssues(b));
    } else {
      assert a + b == b;
    }
  }

  lemma SatelliteScoreIssuesUnfold(xs: seq<Satellite>)
    requires |xs| > 0
    ensures SatelliteScoreIssues(xs) == (if !InUnitRange(xs[0].confidence) then [SatelliteScoreOutOfRange(xs[0].attributeName, xs[0].confidence)] else []) + SatelliteScoreIssues(xs[1..])
  {
  }

  /** `_check_confidence_scores`: one warning per record whose score leaves [0, 1]. */
  function CheckConfidenceScores(s: Schema): (r: seq<Issue>)
    ensures r == [] <==> AllScoresInRange(s)
    ensures forall i :: i in r ==> i.Severity() == Warning
  {
    var a := HubScoreIssues(s.hubs);
    var b := LinkScoreIssues(s.links);
    var c := SatelliteScoreIssues(s.satellites);
    assert forall i :: i in a + b + c ==> i in a || i in b || i in c;
    a + b + c
  }

  /**
   * The `seen`-set loop over Link pairs: true when some element equals one
   * already seen (or one in `seen` to begin with).
   */
  function RepeatsAfter<T(==)>(xs: seq<T>, seen: set<T>): bool
  {
    if |xs| == 0 then false
    else if xs[0] in seen then true
    else RepeatsAfter(xs[1..], seen + {xs[0]})
  }

  /** The `seen`-set scan finds a repeat exactly when the sequence is not duplicate-free. */
  lemma {:induction false} RepeatsAfterIffDup<T>(xs: seq<T>, seen: set<T>)
    ensures RepeatsAfter(xs, seen) <==> (exists i :: 0 <= i < |xs| && xs[i] in seen) || !NoDup(xs)
  {
    if |xs| > 0 {
      var tail := xs[1..];
      RepeatsAfterIffDup(tail, seen + {xs[0]});
      if xs[0] !in seen {
        if RepeatsAfter(tail, seen + {xs[0]}) {
          if exists i :: 0 <= i < |tail| && tail[i] in seen + {xs[0]} {
            var i :| 0 <= i < |tail| && tail[i] in seen + {xs[0]};
            if tail[i] == xs[0] { assert xs[0] == xs[i + 1]; } else { assert xs[i + 1] in seen; }
          } else {
            var i, j :| 0 <= i < j < |tail| && tail[i] == tail[j];
            assert xs[i + 1] == xs[j + 1];
          }
        } else {
          assert forall i :: 0 <= i < |xs| ==> xs[i] !in seen by {
            forall i | 0 <= i < |xs| ensures xs[i] !in seen { if i > 0 { assert xs[i] == tail[i - 1]; } }
          }
          forall i, j | 0 <= i < j < |xs| ensures xs[i] != xs[j] {
            assert xs[j] == tail[j - 1];
            if i > 0 { assert xs[i] == tail[i - 1]; }
          }
        }
      }
    }
  }

  /** `_check_structural_constraints`. */
  function CheckStructuralConstraints(s: Schema): (r: seq<Issue>)
    ensures NoHubs in r <==> |s.hubs| == 0
    ensures forall i :: i in r && i.LinksWithoutTwoHubs? ==> i == LinksWithoutTwoHubs(|s.links|, |s.hubs|)
    ensures LinksWithoutTwoHubs(|s.links|, |s.hubs|) in r <==> |s.links| > 0 && |s.hubs| < 2
    ensures DuplicateLinkPair in r <==> !NoDup(LinkPairs(s.links))
    ensures |r| <= 3
    ensures forall i :: i in r ==> i.Severity() == Warning
    ensures r == [] <==> |s.hubs| >= 1 && (|s.links| == 0 || |s.hubs| >= 2) && NoDup(LinkPairs(s.links))
    ensures forall i :: i in r ==> i == NoHubs || i.LinksWithoutTwoHubs? || i == DuplicateLinkPair
    ensures NoDup(r)
    ensures NoHubs in r ==> r[0] == NoHubs
    ensures DuplicateLinkPair in r ==> r[|r| - 1] == DuplicateLinkPair
  {
    var pairs := LinkPairs(s.links);
    RepeatsAfterIffDup(pairs, {});
    assert |s.links| <= 1 ==> NoDup(pairs);
    var a := if |s.hubs| == 0 then [NoHubs] else [];
    var b := if |s.links| > 0 && |s.hubs| < 2 then [LinksWithoutTwoHubs(|s.links|, |s.hubs|)] else [];
    var c := if |s.links| > 1 && RepeatsAfter(pairs, {}) then [DuplicateLinkPair] else [];
    StructuralShape(a, b, c);
    a + b + c
  }

  /** The three structural checks each contribute at most one issue of their own kind, in check order. */
  lemma StructuralShape(a: seq<Issue>, b: seq<Issue>, c: seq<Issue>)
    requires a == [] || a == [NoHubs]
    requires b == [] || (|b| == 1 && b[0].LinksWithoutTwoHubs?)
    requires c == [] || c == [DuplicateLinkPair]
    ensures var r := a + b + c;
      && (forall i :: i in r <==> i in a || i in b || i in c)
      && NoDup(r)
      && (NoHubs in r ==> r[0] == NoHubs)
      && (DuplicateLinkPair in r ==> r[|r| - 1] == DuplicateLinkPair)
  {
    var r := a + b + c;
    assert forall i :: i in r <==> i in a || i in b || i in c;
    assert forall p :: 0 <= p < |r| ==> r[p] == NoHubs ==> p == 0;
    assert forall p :: 0 <= p < |r| ==> r[p].LinksWithoutTwoHubs? ==> p == |a|;
    assert forall p :: 0 <= p < |r| ==> r[p] == DuplicateLinkPair ==> p == |r| - 1;
  }

  /** The findings of `validate_schema`, in the order of its four checks. */
  function Issues(s: Schema): seq<Issue>
  {
    CheckKeyUniqueness(s) + CheckReferentialIntegrity(s) + CheckConfidenceScores(s) + CheckStructuralConstraints(s)
  }

  /** `validate_schema`: the rendered findings. */
  function ValidateSchema(o: Oracles, s: Schema): (r: seq<string>)
    ensures |r| == |Issues(s)|
    ensures forall k :: 0 <= k < |r| ==> r[k] == Render(o, Issues(s)[k])
  {
    var issues := Issues(s);
    seq(|issues|, k requires 0 <= k < |issues| => Render(o, issues[k]))
  }

  /** Everything the four checks demand of a schema. */
  predicate WellFormed(s: Schema)
  {
    NoDup(HubKeys(s.hubs)) && NoDup(LinkKeys(s.links)) && NoDup(SatelliteKeys(s.satellites))
    && ReferentiallyClosed(s)
    && AllScoresInRange(s)
    && |s.hubs| >= 1
    && (|s.links| == 0 || |s.hubs| >= 2)
    && NoDup(LinkPairs(s.links))
  }

  /** `validate_schema` returns no message exactly when the schema is well formed. */
  lemma ValidateEmptyIffWellFormed(o: Oracles, s: Schema)
    ensures ValidateSchema(o, s) == [] <==> WellFormed(s)
  {
    var u, f, c, t := CheckKeyUniqueness(s), CheckReferentialIntegrity(s), CheckConfidenceScores(s), CheckStructuralConstraints(s);
    assert Issues(s) == u + f + c + t;
    assert |Issues(s)| == |u| + |f| + |c| + |t|;
  }

  /** Only key repeats are errors: a schema whose keys are distinct gets warnings at most. */
  lemma DistinctKeysOnlyWarnings(o: Oracles, s: Schema)
    requires NoDup(HubKeys(s.hubs)) && NoDup(LinkKeys(s.links)) && NoDup(SatelliteKeys(s.satellites))
    ensures forall k :: 0 <= k < |ValidateSchema(o, s)| ==> !IsPrefix("ERREUR: ", ValidateSchema(o, s)[k])
  {
    DistinctKeysIssues(s);
    var issues := Issues(s);
    forall k | 0 <= k < |issues| ensures !IsPrefix("ERREUR: ", Render(o, issues[k])) {
      assert issues[k] in issues;
      RenderTagged(o, issues[k]);
    }
  }

  /** With distinct keys, every issue found is a warning. */
  lemma DistinctKeysIssues(s: Schema)
    requires NoDup(HubKeys(s.hubs)) && NoDup(LinkKeys(s.links)) && NoDup(SatelliteKeys(s.satellites))
    ensures forall i :: i in Issues(s) ==> i.Severity() == Warning
  {
    assert CheckKeyUniqueness(s) == [];
    var f, c, t := CheckReferentialIntegrity(s), CheckConfidenceScores(s), CheckStructuralConstraints(s);
    assert Issues(s) == [] + f + c + t;
    assert forall i :: i in Issues(s) ==> i in f || i in c || i in t;
  }

  // ----- merging ---------------------------------------------------------

  function Keys<T>(xs: seq<T>, key: T -> string): (r: seq<string>)
    ensures |r| == |xs| && forall i :: 0 <= i < |xs| ==> r[i] == key(xs[i])
  {
    seq(|xs|, i requires 0 <= i < |xs| => key(xs[i]))
  }

  /**
   * The `seen_keys` loop of `merge_schemas`: the first record with each key
   * is kept, later ones with the same key are dropped.
   */
  function KeepFirst<T(==)>(xs: seq<T>, key: T -> string): seq<T>
  {
    if |xs| == 0 then []
    else
      var p := KeepFirst(xs[..|xs| - 1], key);
      if key(xs[|xs| - 1]) in Keys(p, key) then p else p + [xs[|xs| - 1]]
  }

  /** The kept records carry each key once, in order of first appearance. */
  lemma {:induction false} KeepFirstKeys<T>(xs: seq<T>, key: T -> string)
    ensures Keys(KeepFirst(xs, key), key) == Dedup(Keys(xs, key))
  {
    if |xs| > 0 {
      var n := |xs| - 1;
      var p := KeepFirst(xs[..n], key);
      KeepFirstKeys(xs[..n], key);
      var ks := Keys(xs, key);
      assert Keys(xs[..n], key) == ks[..n];
      if key(xs[n]) !in Keys(p, key) {
        assert Keys(p + [xs[n]], key) == Keys(p, key) + [key(xs[n])];
      }
    }
  }

  /** Each kept record is the first record of the input with its key. */
  lemma {:induction false} KeepFirstEarliest<T>(xs: seq<T>, key: T -> string)
    ensures forall j :: 0 <= j < |KeepFirst(xs, key)| ==>
      key(KeepFirst(xs, key)[j]) in Keys(xs, key) && KeepFirst(xs, key)[j] == xs[FirstIndex(Keys(xs, key), key(KeepFirst(xs, key)[j]))]
  {
    if |xs| > 0 {
      var n := |xs| - 1;
      var p := KeepFirst(xs[..n], key);
      var r := KeepFirst(xs, key);
      KeepFirstEarliest(xs[..n], key);
      var ks := Keys(xs, key);
      var kp := Keys(xs[..n], key);
      assert kp == ks[..n];
      forall j | 0 <= j < |p| ensures key(p[j]) in ks && p[j] == xs[FirstIndex(ks, key(p[j]))] {
        var k := key(p[j]);
        assert k in kp;
        FirstIndexPrefix(ks, k, n);
        assert p[j] == xs[..n][FirstIndex(kp, k)];
      }
      if key(xs[n]) !in Keys(p, key) {
        assert r == p + [xs[n]];
        forall j | 0 <= j < |r| ensures key(r[j]) in ks && r[j] == xs[FirstIndex(ks, key(r[j]))] {
          if j == |p| {
            KeepFirstKeys(xs[..n], key);
            assert key(xs[n]) !in kp;
            assert ks[n] == key(xs[n]);
            assert FirstIndex(ks, key(xs[n])) == n;
          } else {
            assert r[j] == p[j];
          }
        }
      }
    }
  }

  function AllHubs(schemas: seq<Schema>): seq<Hub>
  {
    if |schemas| == 0 then [] else AllHubs(schemas[..|schemas| - 1]) + schemas[|schemas| - 1].hubs
  }

  function AllLinks(schemas: seq<Schema>): seq<Link>
  {
    if |schemas| == 0 then [] else AllLinks(schemas[..|schemas| - 1]) + schemas[|schemas| - 1].links
  }

  function AllSatellites(schemas: seq<Schema>): seq<Satellite>
  {
    if |schemas| == 0 then [] else AllSatellites(schemas[..|schemas| - 1]) + schemas[|schemas| - 1].satellites
  }

  function HubKeyOf(h: Hub): string { h.hubKey }
  function LinkKeyOf(l: Link): string { l.linkKey }

  /**
   * `merge_schemas`: Hubs and Links deduplicated by key across all schemas
   * (first occurrence wins), every Satellite kept for history.
   */
  function MergeSchemas(schemas: seq<Schema>, now: Instant): (m: Schema)
    ensures HubKeys(m.hubs) == Dedup(HubKeys(AllHubs(schemas)))
    ensures LinkKeys(m.links) == Dedup(LinkKeys(AllLinks(schemas)))
    ensures forall h :: h in m.hubs ==> h in AllHubs(schemas)
    ensures forall l :: l in m.links ==> l in AllLinks(schemas)
    ensures m.hubs == KeepFirst(AllHubs(schemas), HubKeyOf) && m.links == KeepFirst(AllLinks(schemas), LinkKeyOf)
    ensures m.satellites == AllSatellites(schemas)
    ensures m.metadata.Merged? && m.metadata.mergedFrom == |schemas| && m.metadata.generatorVersion == Version
    ensures |m.metadata.sourceImages| == |schemas|
    ensures forall i :: 0 <= i < |schemas| ==> m.metadata.sourceImages[i] == SourceImageOr(schemas[i].metadata, "unknown")
  {
    var hubs := KeepFirst(AllHubs(schemas), HubKeyOf);
    var links := KeepFirst(AllLinks(schemas), LinkKeyOf);
    KeepFirstHubs(AllHubs(schemas));
    KeepFirstLinks(AllLinks(schemas));
    var images := seq(|schemas|, i requires 0 <= i < |schemas| => SourceImageOr(schemas[i].metadata, "unknown"));
    Schema(hubs, links, AllSatellites(schemas), Merged(now.iso, |schemas|, images, Version))
  }

  /** Keeping the first Hub of every key keeps the distinct keys in order, and only given Hubs. */
  lemma KeepFirstHubs(hubs: seq<Hub>)
    ensures HubKeys(KeepFirst(hubs, HubKeyOf)) == Dedup(HubKeys(hubs))
    ensures forall h :: h in KeepFirst(hubs, HubKeyOf) ==> h in hubs
  {
    KeepFirstKeys(hubs, HubKeyOf);
    KeepFirstFrom(hubs, HubKeyOf);
    assert HubKeys(KeepFirst(hubs, HubKeyOf)) == Keys(KeepFirst(hubs, HubKeyOf), HubKeyOf);
    assert HubKeys(hubs) == Keys(hubs, HubKeyOf);
  }

  /** Keeping the first Link of every key keeps the distinct keys in order, and only given Links. */
  lemma KeepFirstLinks(links: seq<Link>)
    ensures LinkKeys(KeepFirst(links, LinkKeyOf)) == Dedup(LinkKeys(links))
    ensures forall l :: l in KeepFirst(links, LinkKeyOf) ==> l in links
  {
    KeepFirstKeys(links, LinkKeyOf);
    KeepFirstFrom(links, LinkKeyOf);
    assert LinkKeys(KeepFirst(links, LinkKeyOf)) == Keys(KeepFirst(links, LinkKeyOf), LinkKeyOf);
    assert LinkKeys(links) == Keys(links, LinkKeyOf);
  }

  /** Of several Hubs (or Links) sharing a key, the merge keeps the first one met. */
  lemma MergeKeepsFirst(schemas: seq<Schema>, now: Instant)
    ensures var m := MergeSchemas(schemas, now); var hubs := AllHubs(schemas);
      forall j :: 0 <= j < |m.hubs| ==>
        m.hubs[j].hubKey in HubKeys(hubs) && m.hubs[j] == hubs[FirstIndex(HubKeys(hubs), m.hubs[j].hubKey)]
    ensures var m := MergeSchemas(schemas, now); var links := AllLinks(schemas);
      forall j :: 0 <= j < |m.links| ==>
        m.links[j].linkKey in LinkKeys(links) && m.links[j] == links[FirstIndex(LinkKeys(links), m.links[j].linkKey)]
  {
    var m := MergeSchemas(schemas, now);
    assert m.hubs == KeepFirst(AllHubs(schemas), HubKeyOf);
    assert m.links == KeepFirst(AllLinks(schemas), LinkKeyOf);
    var hubs := AllHubs(schemas);
    EarliestHubs(hubs);
    forall j | 0 <= j < |m.hubs|
      ensures m.hubs[j].hubKey in HubKeys(hubs) && m.hubs[j] == hubs[FirstIndex(HubKeys(hubs), m.hubs[j].hubKey)]
    {
      assert m.hubs[j] == KeepFirst(hubs, HubKeyOf)[j];
    }
    var links := AllLinks(schemas);
    EarliestLinks(links);
    forall j | 0 <= j < |m.links|
      ensures m.links[j].linkKey in LinkKeys(links) && m.links[j] == links[FirstIndex(LinkKeys(links), m.links[j].linkKey)]
    {
      assert m.links[j] == KeepFirst(links, LinkKeyOf)[j];
    }
  }

  lemma EarliestHubs(hubs: seq<Hub>)
    ensures var r := KeepFirst(hubs, HubKeyOf);
      forall j :: 0 <= j < |r| ==> r[j].hubKey in HubKeys(hubs) && r[j] == hubs[FirstIndex(HubKeys(hubs), r[j].hubKey)]
  {
    KeepFirstEarliest(hubs, HubKeyOf);
    assert HubKeys(hubs) == Keys(hubs, HubKeyOf);
  }

  lemma EarliestLinks(links: seq<Link>)
    ensures var r := KeepFirst(links, LinkKeyOf);
      forall j :: 0 <= j < |r| ==> r[j].linkKey in LinkKeys(links) && r[j] == links[FirstIndex(LinkKeys(links), r[j].linkKey)]
  {
    KeepFirstEarliest(links, LinkKeyOf);
    assert LinkKeys(links) == Keys(links, LinkKeyOf);
  }

  /** A merged schema never fails the Hub or Link key-uniqueness check. */
  lemma MergedKeysUnique(schemas: seq<Schema>, now: Instant)
    ensures DuplicateHubKeys !in CheckKeyUniqueness(MergeSchemas(schemas, now))
    ensures DuplicateLinkKeys !in CheckKeyUniqueness(MergeSchemas(schemas, now))
  {
  }

  /** Merging one schema whose Hub and Link keys are distinct keeps its records as they are. */
  lemma MergeSingle(s: Schema, now: Instant)
    requires NoDup(HubKeys(s.hubs)) && NoDup(LinkKeys(s.links))
    ensures MergeSchemas([s], now).hubs == s.hubs
    ensures MergeSchemas([s], now).links == s.links
    ensures MergeSchemas([s], now).satellites == s.satellites
  {
    assert [s][..0] == [];
    assert AllHubs([s]) == AllHubs([]) + s.hubs == s.hubs;
    assert AllLinks([s]) == AllLinks([]) + s.links == s.links;
    assert AllSatellites([s]) == AllSatellites([]) + s.satellites == s.satellites;
    assert HubKeys(s.hubs) == Keys(s.hubs, HubKeyOf);
    assert LinkKeys(s.links) == Keys(s.links, LinkKeyOf);
    KeepFirstDistinct(s.hubs, HubKeyOf);
    KeepFirstDistinct(s.links, LinkKeyOf);
  }

  /** Every kept record comes from the input. */
  lemma {:induction false} KeepFirstFrom<T>(xs: seq<T>, key: T -> string)
    ensures forall y :: y in KeepFirst(xs, key) ==> y in xs
  {
    if |xs| > 0 {
      var n := |xs| - 1;
      KeepFirstFrom(xs[..n], key);
      assert xs == xs[..n] + [xs[n]];
    }
  }

  /** Records whose keys are already distinct pass through the deduplication unchanged. */
  lemma {:induction false} KeepFirstDistinct<T>(xs: seq<T>, key: T -> string)
    requires NoDup(Keys(xs, key))
    ensures KeepFirst(xs, key) == xs
  {
    if |xs| > 0 {
      var n := |xs| - 1;
      var p := xs[..n];
      DistinctKeysLast(xs, key);
      KeepFirstDistinct(p, key);
      assert KeepFirst(xs, key) == KeepFirst(p, key) + [xs[n]];
      assert xs == p + [xs[n]];
    }
  }

  /** With distinct keys, all but the last record have distinct keys, none of them the last one's. */
  lemma DistinctKeysLast<T>(xs: seq<T>, key: T -> string)
    requires |xs| > 0 && NoDup(Keys(xs, key))
    ensures NoDup(Keys(xs[..|xs| - 1], key))
    ensures key(xs[|xs| - 1]) !in Keys(xs[..|xs| - 1], key)
  {
    var n := |xs| - 1;
    var ks := Keys(xs, key);
    var kp := Keys(xs[..n], key);
    assert kp == ks[..n];
    forall i | 0 <= i < n ensures kp[i] != key(xs[n]) {
      assert ks[i] != ks[n];
    }
  }
}
