/**
 * The Data Vault records: Hubs (business entities), Links (relations
 * between two Hubs) and Satellites (attributes of one Hub), each with a
 * content-derived key.
 */
module Entities {
  import opened Wrappers
  import opened Text
  import opened Externals

  /** A reading of the clock: its `isoformat()` text and its `timestamp()` value. */
  datatype Instant = Instant(iso: string, epoch: real)

  /** A value of an exported record dictionary: text, or a number rounded to some decimal places. */
  datatype Field = Text(text: string) | Rounded(number: real, places: nat)

  /** An exported record: field names with their values, in insertion order. */
  type Record = seq<(string, Field)>

  function FieldNames(d: Record): seq<string>
  {
    seq(|d|, i requires 0 <= i < |d| => d[i].0)
  }

  /** `d.get(name)`: the value stored under `name`. */
  function Lookup(d: Record, name: string): Option<Field>
  {
    if |d| == 0 then None else if d[0].0 == name then Some(d[0].1) else Lookup(d[1..], name)
  }

  /** With distinct field names, looking up the name at position `i` yields the value at `i`. */
  lemma {:induction false} LookupAt(d: Record, i: nat)
    requires i < |d|
    requires NoDup(FieldNames(d))
    ensures Lookup(d, d[i].0) == Some(d[i].1)
    decreases i
  {
    if i > 0 {
      assert FieldNames(d)[0] == d[0].0 && FieldNames(d)[i] == d[i].0;
      assert FieldNames(d[1..]) == FieldNames(d)[1..];
      LookupAt(d[1..], i - 1);
    }
  }

  datatype Hub = Hub(
    businessKey: string,
    entityType: string,
    recordSource: string,
    ontologyUri: string,
    confidence: real,
    loadDate: Instant,
    hubKey: string)

  /** The text whose MD5 digest is a generated Hub key. */
  function HubKeyText(businessKey: string, entityType: string): string
  {
    businessKey + "_" + entityType
  }

  /**
   * `Hub(...)` followed by `__post_init__`: a supplied key is kept, an
   * absent one is the digest of the business key and entity type.
   */
  function NewHub(o: Oracles, businessKey: string, entityType: string, recordSource: string,
                  ontologyUri: string, confidence: real, loadDate: Instant, hubKey: Option<string>): (h: Hub)
    ensures h.businessKey == businessKey && h.entityType == entityType && h.recordSource == recordSource
    ensures h.ontologyUri == ontologyUri && h.confidence == confidence && h.loadDate == loadDate
    ensures hubKey.Some? ==> h.hubKey == hubKey.value
    ensures hubKey.None? ==> h.hubKey == o.md5(HubKeyText(businessKey, entityType))
  {
    var key := if hubKey.Some? then hubKey.value else o.md5(HubKeyText(businessKey, entityType));
    Hub(businessKey, entityType, recordSource, ontologyUri, confidence, loadDate, key)
  }

  /**
   * A generated Hub key depends on the business key and entity type only:
   * source, URI, score and load date never change it.
   */
  lemma HubKeyDeterminedByBusinessKey(o: Oracles, bk: string, et: string,
                                      src1: string, uri1: string, c1: real, d1: Instant,
                                      src2: string, uri2: string, c2: real, d2: Instant)
    ensures NewHub(o, bk, et, src1, uri1, c1, d1, None).hubKey == NewHub(o, bk, et, src2, uri2, c2, d2, None).hubKey
  {
  }

  /**
   * The `_` separator makes the key text ambiguous: ("a_b", "c") and
   * ("a", "b_c") are two different pairs with one key.
   */
  lemma HubKeyTextNotInjective(o: Oracles, src: string, uri: string, c: real, d: Instant)
    ensures HubKeyText("a_b", "c") == HubKeyText("a", "b_c")
    ensures NewHub(o, "a_b", "c", src, uri, c, d, None).hubKey == NewHub(o, "a", "b_c", src, uri, c, d, None).hubKey
  {
    assert HubKeyText("a_b", "c") == "a_b_c" == HubKeyText("a", "b_c");
  }

  /** `Hub.to_dict`: seven fields, the score rounded to four places. */
  function HubToDict(h: Hub): (d: Record)
    ensures FieldNames(d) == ["hub_key", "business_key", "entity_type", "ontology_uri", "confidence_score", "load_date", "record_source"]
    ensures Lookup(d, "confidence_score") == Some(Rounded(h.confidence, 4))
    ensures Lookup(d, "hub_key") == Some(Text(h.hubKey))
    ensures Lookup(d, "business_key") == Some(Text(h.businessKey))
  {
    var d: Record :=
      [("hub_key", Text(h.hubKey)),
       ("business_key", Text(h.businessKey)),
       ("entity_type", Text(h.entityType)),
       ("ontology_uri", Text(h.ontologyUri)),
       ("confidence_score", Rounded(h.confidence, 4)),
       ("load_date", Text(h.loadDate.iso)),
       ("record_source", Text(h.recordSource))];
    LookupAt(d, 0);
    LookupAt(d, 1);
    LookupAt(d, 4);
    d
  }

  datatype Link = Link(
    sourceKey: string,
    targetKey: string,
    relationType: string,
    recordSource: string,
    confidence: real,
    loadDate: Instant,
    linkKey: string)

  /** The text whose MD5 digest is a generated Link key. */
  function LinkKeyText(sourceKey: string, relationType: string, targetKey: string): string
  {
    sourceKey + "_" + relationType + "_" + targetKey
  }

  /** `Link(...)` followed by `__post_init__`. */
  function NewLink(o: Oracles, sourceKey: string, targetKey: string, relationType: string,
                   recordSource: string, confidence: real, loadDate: Instant, linkKey: Option<string>): (l: Link)
    ensures l.sourceKey == sourceKey && l.targetKey == targetKey && l.relationType == relationType
    ensures l.recordSource == recordSource && l.confidence == confidence && l.loadDate == loadDate
    ensures linkKey.Some? ==> l.linkKey == linkKey.value
    ensures linkKey.None? ==> l.linkKey == o.md5(LinkKeyText(sourceKey, relationType, targetKey))
  {
    var key := if linkKey.Some? then linkKey.value else o.md5(LinkKeyText(sourceKey, relationType, targetKey));
    Link(sourceKey, targetKey, relationType, recordSource, confidence, loadDate, key)
  }

  /** Score, record source and load date never affect a generated Link key. */
  lemma LinkKeyDeterminedByEndpoints(o: Oracles, s: string, t: string, rel: string,
                                     src1: string, c1: real, d1: Instant, src2: string, c2: real, d2: Instant)
    ensures NewLink(o, s, t, rel, src1, c1, d1, None).linkKey == NewLink(o, s, t, rel, src2, c2, d2, None).linkKey
  {
  }

  /**
   * Between endpoint keys of equal length (generated keys are all 32 hex
   * digits), swapping source and target changes the key text.
   */
  lemma LinkKeyTextDirected(s: string, t: string, rel: string)
    requires |s| == |t| && s != t
    ensures LinkKeyText(s, rel, t) != LinkKeyText(t, rel, s)
  {
    var k1 := LinkKeyText(s, rel, t);
    var k2 := LinkKeyText(t, rel, s);
    assert k1[..|s|] == s;
    assert k2[..|t|] == t;
  }

  /** Between endpoint keys of different lengths, the swapped key text can coincide. */
  lemma LinkKeyTextSwapCollision()
    ensures LinkKeyText("a", "a", "a_a") == LinkKeyText("a_a", "a", "a")
  {
    assert LinkKeyText("a", "a", "a_a") == "a_a_a_a" == LinkKeyText("a_a", "a", "a");
  }

  /** `Link.to_dict`: seven fields, the score rounded to four places. */
  function LinkToDict(l: Link): (d: Record)
    ensures FieldNames(d) == ["link_key", "hub_source_key", "hub_target_key", "relation_type", "confidence_score", "load_date", "record_source"]
    ensures Lookup(d, "confidence_score") == Some(Rounded(l.confidence, 4))
    ensures Lookup(d, "hub_source_key") == Some(Text(l.sourceKey))
    ensures Lookup(d, "hub_target_key") == Some(Text(l.targetKey))
  {
    var d: Record :=
      [("link_key", Text(l.linkKey)),
       ("hub_source_key", Text(l.sourceKey)),
       ("hub_target_key", Text(l.targetKey)),
       ("relation_type", Text(l.relationType)),
       ("confidence_score", Rounded(l.confidence, 4)),
       ("load_date", Text(l.loadDate.iso)),
       ("record_source", Text(l.recordSource))];
    LookupAt(d, 1);
    LookupAt(d, 2);
    LookupAt(d, 4);
    d
  }

  datatype Satellite = Satellite(
    hubKey: string,
    attributeName: string,
    attributeValue: string,
    recordSource: string,
    confidence: real,
    loadDate: Instant,
    satelliteKey: string,
    hashDiff: string)

  /** The text whose digest is a generated Satellite key: Hub key, attribute name and load time. */
  function SatelliteKeyText(o: Oracles, hubKey: string, attributeName: string, loadDate: Instant): string
  {
    hubKey + "_" + attributeName + "_" + o.floatRepr(loadDate.epoch)
  }

  /** The text whose digest is a generated change hash: attribute name, value and score. */
  function HashDiffText(o: Oracles, attributeName: string, attributeValue: string, confidence: real): string
  {
    attributeName + "_" + attributeValue + "_" + o.floatRepr(confidence)
  }

  /** `Satellite(...)` followed by `__post_init__`: each key is generated only when absent. */
  function NewSatellite(o: Oracles, hubKey: string, attributeName: string, attributeValue: string,
                        recordSource: string, confidence: real, loadDate: Instant,
                        satelliteKey: Option<string>, hashDiff: Option<string>): (s: Satellite)
    ensures s.hubKey == hubKey && s.attributeName == attributeName && s.attributeValue == attributeValue
    ensures s.recordSource == recordSource && s.confidence == confidence && s.loadDate == loadDate
    ensures satelliteKey.Some? ==> s.satelliteKey == satelliteKey.value
    ensures satelliteKey.None? ==> s.satelliteKey == o.md5(SatelliteKeyText(o, hubKey, attributeName, loadDate))
    ensures hashDiff.Some? ==> s.hashDiff == hashDiff.value
    ensures hashDiff.None? ==> s.hashDiff == o.md5(HashDiffText(o, attributeName, attributeValue, confidence))
  {
    var key := if satelliteKey.Some? then satelliteKey.value else o.md5(SatelliteKeyText(o, hubKey, attributeName, loadDate));
    var diff := if hashDiff.Some? then hashDiff.value else o.md5(HashDiffText(o, attributeName, attributeValue, confidence));
    Satellite(hubKey, attributeName, attributeValue, recordSource, confidence, loadDate, key, diff)
  }

  /**
   * The Satellite key ignores the attribute value: two observations of one
   * Hub attribute at the same instant get the same key, whatever their values.
   */
  lemma SatelliteKeyCollision(o: Oracles, hubKey: string, name: string, v1: string, v2: string,
                              src1: string, src2: string, c1: real, c2: real, d: Instant)
    ensures NewSatellite(o, hubKey, name, v1, src1, c1, d, None, None).satelliteKey
         == NewSatellite(o, hubKey, name, v2, src2, c2, d, None, None).satelliteKey
  {
  }

  /** The change hash ignores the owning Hub, the source and the load date. */
  lemma HashDiffIgnoresOwner(o: Oracles, name: string, value: string, c: real,
                             hub1: string, hub2: string, src1: string, src2: string, d1: Instant, d2: Instant)
    ensures NewSatellite(o, hub1, name, value, src1, c, d1, None, None).hashDiff
         == NewSatellite(o, hub2, name, value, src2, c, d2, None, None).hashDiff
  {
  }

  /** `Satellite.to_dict`: eight fields, the score rounded to four places. */
  function SatelliteToDict(s: Satellite): (d: Record)
    ensures FieldNames(d) == ["satellite_key", "hub_key", "attribute_name", "attribute_value", "confidence_score", "load_date", "record_source", "hash_diff"]
    ensures Lookup(d, "confidence_score") == Some(Rounded(s.confidence, 4))
    ensures Lookup(d, "hub_key") == Some(Text(s.hubKey))
  {
    var d: Record :=
      [("satellite_key", Text(s.satelliteKey)),
       ("hub_key", Text(s.hubKey)),
       ("attribute_name", Text(s.attributeName)),
       ("attribute_value", Text(s.attributeValue)),
       ("confidence_score", Rounded(s.confidence, 4)),
       ("load_date", Text(s.loadDate.iso)),
       ("record_source", Text(s.recordSource)),
       ("hash_diff", Text(s.hashDiff))];
    LookupAt(d, 1);
    LookupAt(d, 4);
    d
  }
}
