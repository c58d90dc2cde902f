/**
 * The SQL script of a Data Vault schema for PostgreSQL: a header, the table
 * definitions, one INSERT per Hub, Link and Satellite in schema order, and
 * the indexes. Text written between single quotes is escaped by doubling
 * its quotes, so that an SQL reader gives back exactly the stored text.
 */
module SqlExport {
  import opened Wrappers
  import opened Text
  import opened Externals
  import opened Entities
  import opened Generator

  const Quote: char := '\''

  /** Number of occurrences of `c` in `s`. */
  function Count(s: string, c: char): nat
  {
    if |s| == 0 then 0 else (if s[0] == c then 1 else 0) + Count(s[1..], c)
  }

  /** `_escape_sql`: every single quote is doubled. */
  function EscapeSql(v: string): (r: string)
    ensures |r| == |v| + Count(v, Quote)
    ensures Quote !in v ==> r == v
  {
    if |v| == 0 then ""
    else (if v[0] == Quote then [Quote, Quote] else [v[0]]) + EscapeSql(v[1..])
  }

  // Reading SQL back

  /** The blanks SQL skips between the values of a tuple. */
  predicate SqlSpace(c: char)
  {
    c == ' ' || c == '\t' || c == '\n' || c == '\r'
  }

  /**
   * The text of a quoted literal whose opening quote has been read: a
   * doubled quote stands for one quote, a single quote closes the literal.
   * The result is the text and what follows the closing quote.
   */
  function ReadBody(s: string): (r: Option<(string, string)>)
    ensures r.Some? ==> |r.value.1| < |s|
  {
    if |s| == 0 then None
    else if s[0] == Quote then
      if |s| >= 2 && s[1] == Quote then
        match ReadBody(s[2..])
        case None => None
        case Some((v, rest)) => Some(([Quote] + v, rest))
      else Some(("", s[1..]))
    else
      match ReadBody(s[1..])
      case None => None
      case Some((v, rest)) => Some(([s[0]] + v, rest))
  }

  /** An unquoted value: everything up to the next comma or closing parenthesis. */
  function ReadBare(s: string): (r: (string, string))
    ensures r.0 + r.1 == s
    ensures ',' !in r.0 && ')' !in r.0
    ensures r.1 != [] ==> r.1[0] == ',' || r.1[0] == ')'
  {
    if |s| == 0 || s[0] == ',' || s[0] == ')' then ("", s)
    else
      var (v, rest) := ReadBare(s[1..]);
      ([s[0]] + v, rest)
  }

  /**
   * The values of an SQL `VALUES (...)` tuple whose opening parenthesis has
   * been read, up to the closing one: blanks before a value are skipped,
   * quoted literals are unescaped, bare values are kept as written.
   */
  function ReadValues(s: string): (r: Option<seq<string>>)
    decreases |s|
  {
    var t := s[LeadLen(s, SqlSpace)..];
    if |t| == 0 then None
    else
      var item := if t[0] == Quote then ReadBody(t[1..]) else Some(ReadBare(t));
      match item
      case None => None
      case Some((v, rest)) =>
        if |rest| == 0 then None
        else if rest[0] == ')' then Some([v])
        else if rest[0] == ',' then
          match ReadValues(rest[1..])
          case None => None
          case Some(vs) => Some([v] + vs)
        else None
  }

  /** Reading an escaped literal gives back the text, whatever quotes it holds. */
  lemma {:induction false} ReadEscaped(v: string, rest: string)
    requires rest == [] || rest[0] != Quote
    ensures ReadBody(EscapeSql(v) + [Quote] + rest) == Some((v, rest))
    decreases |v|
  {
    if |v| > 0 {
      ReadEscaped(v[1..], rest);
      ReadEscapedStep(v, rest);
    }
  }

  /** One character of the literal: a quote is read back from its double, any other as itself. */
  lemma ReadEscapedStep(v: string, rest: string)
    requires |v| > 0
    requires ReadBody(EscapeSql(v[1..]) + [Quote] + rest) == Some((v[1..], rest))
    ensures ReadBody(EscapeSql(v) + [Quote] + rest) == Some((v, rest))
  {
    var tail := EscapeSql(v[1..]) + [Quote] + rest;
    var head := if v[0] == Quote then [Quote, Quote] else [v[0]];
    EscapeHead(v, head, EscapeSql(v[1..]), [Quote] + rest);
    AppendAssoc(EscapeSql(v), [Quote], rest);
    AppendAssoc(EscapeSql(v[1..]), [Quote], rest);
    assert EscapeSql(v) + [Quote] + rest == head + tail;
    assert v == [v[0]] + v[1..];
    if v[0] == Quote {
      ReadDoubled(tail, v[1..], rest);
    } else {
      ReadPlain(v[0], tail, v[1..], rest);
    }
  }

  lemma EscapeHead(v: string, head: string, e: string, after: string)
    requires |v| > 0 && head == (if v[0] == Quote then [Quote, Quote] else [v[0]]) && e == EscapeSql(v[1..])
    ensures EscapeSql(v) + after == head + (e + after)
  {
    assert EscapeSql(v) == head + e;
    AppendAssoc(head, e, after);
  }

  lemma AppendAssoc(a: string, b: string, c: string)
    ensures (a + b) + c == a + (b + c)
  {
  }

  /** A doubled quote is read as one quote. */
  lemma ReadDoubled(tail: string, x: string, rest: string)
    requires ReadBody(tail) == Some((x, rest))
    ensures ReadBody([Quote, Quote] + tail) == Some(([Quote] + x, rest))
  {
    assert ([Quote, Quote] + tail)[2..] == tail;
  }

  /** Any other character is read as itself. */
  lemma ReadPlain(c: char, tail: string, x: string, rest: string)
    requires c != Quote && ReadBody(tail) == Some((x, rest))
    ensures ReadBody([c] + tail) == Some(([c] + x, rest))
  {
    assert ([c] + tail)[1..] == tail;
  }

  /** Escaping is injective: distinct texts are written differently. */
  lemma EscapeInjective(a: string, b: string)
    requires EscapeSql(a) == EscapeSql(b)
    ensures a == b
  {
    ReadEscaped(a, "");
    ReadEscaped(b, "");
  }

  // Tuples

  /** How a value is written: quoted and escaped, quoted as is, or bare. */
  datatype Value = Escaped(text: string) | Quoted(text: string) | Bare(text: string)

  function Render(v: Value): string
  {
    match v
    case Escaped(t) => [Quote] + EscapeSql(t) + [Quote]
    case Quoted(t) => [Quote] + t + [Quote]
    case Bare(t) => t
  }

  /** A tuple's values, each preceded by its blanks, separated by commas and closed by `);`. */
  function TupleText(items: seq<(string, Value)>): string
  {
    if |items| == 0 then ");"
    else items[0].0 + Render(items[0].1) + (if |items| == 1 then ");" else "," + TupleText(items[1..]))
  }

  function Texts(items: seq<(string, Value)>): (r: seq<string>)
    ensures |r| == |items|
    ensures forall i :: 0 <= i < |items| ==> r[i] == items[i].1.text
  {
    if |items| == 0 then [] else [items[0].1.text] + Texts(items[1..])
  }

  /**
   * A value an SQL reader gives back unchanged: an unescaped quoted text
   * holds no quote, and a bare text is non-empty, starts with no blank or
   * quote and holds no comma or parenthesis.
   */
  predicate Readable(v: Value)
  {
    match v
    case Escaped(_) => true
    case Quoted(t) => Quote !in t
    case Bare(t) => t != [] && !SqlSpace(t[0]) && t[0] != Quote && ',' !in t && ')' !in t
  }

  /** Every value of a tuple is readable, after blanks only. */
  predicate AllReadable(items: seq<(string, Value)>)
  {
    forall i :: 0 <= i < |items| ==> Blank(items[i].0) && Readable(items[i].1)
  }

  predicate Blank(ws: string)
  {
    forall i :: 0 <= i < |ws| ==> SqlSpace(ws[i])
  }

  /** The separators the INSERT statements put before their values are blanks. */
  lemma SeparatorBlank(ws: string)
    requires ws == "" || ws == " " || ws == "\n        "
    ensures Blank(ws)
  {
  }

  /** One value after its blanks: the reader returns its text and continues after the next character. */
  lemma ReadItem(ws: string, v: Value, next: char, rest: string)
    requires Blank(ws) && Readable(v) && (next == ',' || next == ')')
    ensures var s := ws + Render(v) + [next] + rest;
      var t := s[LeadLen(s, SqlSpace)..];
      && t == Render(v) + [next] + rest
      && |t| > 0
      && (if t[0] == Quote then ReadBody(t[1..]) else Some(ReadBare(t))) == Some((v.text, [next] + rest))
  {
    var body := Render(v) + [next] + rest;
    ReadRendered(v, next, rest);
    SkipBlanks(ws, body);
    assert ws + Render(v) + [next] + rest == ws + body;
  }

  /** The reader skips exactly the blanks in front of a value. */
  lemma SkipBlanks(ws: string, body: string)
    requires Blank(ws) && body != [] && !SqlSpace(body[0])
    ensures var s := ws + body; s[LeadLen(s, SqlSpace)..] == body
  {
    BlankPrefix(ws, body);
    assert (ws + body)[|ws|..] == body;
  }

  /** The rendered value is read back, whether quoted or bare. */
  lemma ReadRendered(v: Value, next: char, rest: string)
    requires Readable(v) && (next == ',' || next == ')')
    ensures var t := Render(v) + [next] + rest;
      && |t| > 0 && !SqlSpace(t[0])
      && (if t[0] == Quote then ReadBody(t[1..]) else Some(ReadBare(t))) == Some((v.text, [next] + rest))
  {
    match v
    case Escaped(x) => ReadQuoted(x, EscapeSql(x), next, rest);
    case Quoted(x) => ReadQuoted(x, x, next, rest);
    case Bare(x) =>
      var t := x + [next] + rest;
      assert t[0] == x[0];
      BareRead(x, next, rest);
  }

  lemma ReadQuoted(x: string, e: string, next: char, rest: string)
    requires e == EscapeSql(x) && (next == ',' || next == ')')
    ensures var t := [Quote] + e + [Quote] + [next] + rest;
      t[0] == Quote && ReadBody(t[1..]) == Some((x, [next] + rest))
  {
    var t := [Quote] + e + [Quote] + [next] + rest;
    assert t[1..] == e + [Quote] + ([next] + rest);
    ReadEscaped(x, [next] + rest);
  }

  lemma {:induction false} BlankPrefix(ws: string, body: string)
    requires Blank(ws) && body != [] && !SqlSpace(body[0])
    ensures LeadLen(ws + body, SqlSpace) == |ws|
    decreases |ws|
  {
    if |ws| == 0 {
      assert (ws + body)[0] == body[0];
    } else {
      assert (ws + body)[1..] == ws[1..] + body;
      BlankPrefix(ws[1..], body);
    }
  }

  lemma {:induction false} BareRead(x: string, next: char, rest: string)
    requires ',' !in x && ')' !in x && (next == ',' || next == ')')
    ensures ReadBare(x + [next] + rest) == (x, [next] + rest)
    decreases |x|
  {
    if |x| > 0 {
      assert (x + [next] + rest)[1..] == x[1..] + [next] + rest;
      BareRead(x[1..], next, rest);
      assert x == [x[0]] + x[1..];
    } else {
      assert x + [next] + rest == [next] + rest;
    }
  }

  /** The values of a tuple of readable values are read back in order. */
  lemma {:induction false} ReadTuple(items: seq<(string, Value)>)
    requires |items| >= 1
    requires AllReadable(items)
    ensures ReadValues(TupleText(items)) == Some(Texts(items))
    decreases |items|
  {
    var (ws, v) := items[0];
    if |items| == 1 {
      ReadLast(ws, v);
      assert TupleText(items) == ws + Render(v) + ");";
      assert Texts(items) == [v.text];
    } else {
      var tail := TupleText(items[1..]);
      ReadTuple(items[1..]);
      ReadNext(ws, v, tail);
      assert TupleText(items) == ws + Render(v) + [','] + tail;
      assert Texts(items) == [v.text] + Texts(items[1..]);
    }
  }

  lemma ReadLast(ws: string, v: Value)
    requires Blank(ws) && Readable(v)
    ensures ReadValues(ws + Render(v) + ");") == Some([v.text])
  {
    var s := ws + Render(v) + [')'] + ";";
    assert s == ws + Render(v) + ");";
    ReadItem(ws, v, ')', ";");
    ReadValuesStep(s, v.text, ')', ";");
  }

  lemma ReadNext(ws: string, v: Value, tail: string)
    requires Blank(ws) && Readable(v)
    ensures ReadValues(ws + Render(v) + [','] + tail) ==
      match ReadValues(tail) case None => None case Some(vs) => Some([v.text] + vs)
  {
    ReadItem(ws, v, ',', tail);
    ReadValuesStep(ws + Render(v) + [','] + tail, v.text, ',', tail);
  }

  /** One reading step of `ReadValues`, once the first value is known. */
  lemma ReadValuesStep(s: string, v: string, next: char, rest: string)
    requires var t := s[LeadLen(s, SqlSpace)..];
      |t| > 0 && (if t[0] == Quote then ReadBody(t[1..]) else Some(ReadBare(t))) == Some((v, [next] + rest))
    ensures next == ')' ==> ReadValues(s) == Some([v])
    ensures next == ',' ==> ReadValues(s) == match ReadValues(rest) case None => None case Some(vs) => Some([v] + vs)
  {
    assert ([next] + rest)[1..] == rest;
  }

  // INSERT statements

  /** The values of a Hub's INSERT, in column order, with the blanks the statement puts before them. */
  function HubValues(o: Oracles, h: Hub): seq<(string, Value)>
  {
    [("", Quoted(h.hubKey)), (" ", Escaped(h.businessKey)), (" ", Quoted(h.entityType)),
     ("\n        ", Quoted(h.ontologyUri)), (" ", Bare(o.fixed4(h.confidence))),
     ("\n        ", Quoted(h.loadDate.iso)), (" ", Escaped(h.recordSource))]
  }

  const HubColumns: string :=
    "INSERT INTO dv_hubs (hub_key, business_key, entity_type, ontology_uri, confidence_score, load_date, record_source)\nVALUES ("

  function HubInsert(o: Oracles, h: Hub): string
  {
    HubColumns + TupleText(HubValues(o, h))
  }

  function LinkValues(o: Oracles, l: Link): seq<(string, Value)>
  {
    [("", Quoted(l.linkKey)), (" ", Quoted(l.sourceKey)), (" ", Quoted(l.targetKey)),
     ("\n        ", Escaped(l.relationType)), (" ", Bare(o.fixed4(l.confidence))),
     ("\n        ", Quoted(l.loadDate.iso)), (" ", Escaped(l.recordSource))]
  }

  const LinkColumns: string :=
    "INSERT INTO dv_links (link_key, hub_source_key, hub_target_key, relation_type, confidence_score, load_date, record_source)\nVALUES ("

  function LinkInsert(o: Oracles, l: Link): string
  {
    LinkColumns + TupleText(LinkValues(o, l))
  }

  function SatelliteValues(o: Oracles, s: Satellite): seq<(string, Value)>
  {
    [("", Quoted(s.satelliteKey)), (" ", Quoted(s.hubKey)),
     ("\n        ", Escaped(s.attributeName)), (" ", Escaped(s.attributeValue)),
     ("\n        ", Bare(o.fixed4(s.confidence))), (" ", Quoted(s.loadDate.iso)),
     ("\n        ", Escaped(s.recordSource)), (" ", Quoted(s.hashDiff))]
  }

  const SatelliteColumns: string :=
    "INSERT INTO dv_satellites (satellite_key, hub_key, attribute_name, attribute_value, confidence_score, load_date, record_source, hash_diff)\nVALUES ("

  function SatelliteInsert(o: Oracles, s: Satellite): string
  {
    SatelliteColumns + TupleText(SatelliteValues(o, s))
  }

  /** `f"{x:.4f}"` text an SQL reader takes as one bare number. */
  predicate NumberText(t: string)
  {
    t != [] && !SqlSpace(t[0]) && t[0] != Quote && ',' !in t && ')' !in t
  }

  /**
   * The tuple of a Hub's INSERT reads back as the Hub's fields, whatever
   * quotes its business key and record source hold; the fields written
   * without escaping must hold none.
   */
  lemma HubRoundTrip(o: Oracles, h: Hub)
    requires Quote !in h.hubKey && Quote !in h.entityType && Quote !in h.ontologyUri && Quote !in h.loadDate.iso
    requires NumberText(o.fixed4(h.confidence))
    ensures ReadValues(TupleText(HubValues(o, h))) ==
      Some([h.hubKey, h.businessKey, h.entityType, h.ontologyUri, o.fixed4(h.confidence), h.loadDate.iso, h.recordSource])
  {
    HubReadable(o, h);
    HubTexts(o, h);
    ReadTuple(HubValues(o, h));
  }

  lemma HubReadable(o: Oracles, h: Hub)
    requires Quote !in h.hubKey && Quote !in h.entityType && Quote !in h.ontologyUri && Quote !in h.loadDate.iso
    requires NumberText(o.fixed4(h.confidence))
    ensures AllReadable(HubValues(o, h))
  {
    var items := HubValues(o, h);
    forall i | 0 <= i < |items|
      ensures Blank(items[i].0) && Readable(items[i].1)
    {
      SeparatorBlank(items[i].0);
    }
  }

  lemma HubTexts(o: Oracles, h: Hub)
    ensures Texts(HubValues(o, h)) ==
      [h.hubKey, h.businessKey, h.entityType, h.ontologyUri, o.fixed4(h.confidence), h.loadDate.iso, h.recordSource]
  {
  }

  /** The tuple of a Link's INSERT reads back as the Link's fields. */
  lemma LinkRoundTrip(o: Oracles, l: Link)
    requires Quote !in l.linkKey && Quote !in l.sourceKey && Quote !in l.targetKey && Quote !in l.loadDate.iso
    requires NumberText(o.fixed4(l.confidence))
    ensures ReadValues(TupleText(LinkValues(o, l))) ==
      Some([l.linkKey, l.sourceKey, l.targetKey, l.relationType, o.fixed4(l.confidence), l.loadDate.iso, l.recordSource])
  {
    LinkReadable(o, l);
    LinkTexts(o, l);
    ReadTuple(LinkValues(o, l));
  }

  lemma LinkReadable(o: Oracles, l: Link)
    requires Quote !in l.linkKey && Quote !in l.sourceKey && Quote !in l.targetKey && Quote !in l.loadDate.iso
    requires NumberText(o.fixed4(l.confidence))
    ensures AllReadable(LinkValues(o, l))
  {
    var items := LinkValues(o, l);
    forall i | 0 <= i < |items|
      ensures Blank(items[i].0) && Readable(items[i].1)
    {
      SeparatorBlank(items[i].0);
    }
  }

  lemma LinkTexts(o: Oracles, l: Link)
    ensures Texts(LinkValues(o, l)) ==
      [l.linkKey, l.sourceKey, l.targetKey, l.relationType, o.fixed4(l.confidence), l.loadDate.iso, l.recordSource]
  {
  }

  /** The tuple of a Satellite's INSERT reads back as the Satellite's fields. */
  lemma SatelliteRoundTrip(o: Oracles, s: Satellite)
    requires Quote !in s.satelliteKey && Quote !in s.hubKey && Quote !in s.loadDate.iso && Quote !in s.hashDiff
    requires NumberText(o.fixed4(s.confidence))
    ensures ReadValues(TupleText(SatelliteValues(o, s))) ==
      Some([s.satelliteKey, s.hubKey, s.attributeName, s.attributeValue, o.fixed4(s.confidence),
            s.loadDate.iso, s.recordSource, s.hashDiff])
  {
    SatelliteReadable(o, s);
    SatelliteTexts(o, s);
    ReadTuple(SatelliteValues(o, s));
  }

  lemma SatelliteReadable(o: Oracles, s: Satellite)
    requires Quote !in s.satelliteKey && Quote !in s.hubKey && Quote !in s.loadDate.iso && Quote !in s.hashDiff
    requires NumberText(o.fixed4(s.confidence))
    ensures AllReadable(SatelliteValues(o, s))
  {
    var items := SatelliteValues(o, s);
    forall i | 0 <= i < |items|
      ensures Blank(items[i].0) && Readable(items[i].1)
    {
      SeparatorBlank(items[i].0);
    }
  }

  lemma SatelliteTexts(o: Oracles, s: Satellite)
    ensures Texts(SatelliteValues(o, s)) ==
      [s.satelliteKey, s.hubKey, s.attributeName, s.attributeValue, o.fixed4(s.confidence),
            s.loadDate.iso, s.recordSource, s.hashDiff]
  {
  }

  // Sections

  const Rule: string := "-- =" + "==========================================================="

  /**
   * The INSERT section of one kind of record: a comment when there is none,
   * else a banner and the statements in record order, one per line.
   */
  function Section(kind: string, title: string, stmts: seq<string>): (r: string)
    ensures |stmts| == 0 <==> r == "-- No " + kind + " to insert"
  {
    if |stmts| == 0 then "-- No " + kind + " to insert"
    else
      var r := Join(Banner(title) + stmts, "\n");
      assert r[..|Rule|] == Rule by {
        JoinFirst(Banner(title) + stmts, "\n");
      }
      assert ("-- No " + kind + " to insert")[3] == 'N';
      assert Rule[3] == '=';
      r
  }

  /** The lines that open a non-empty section. */
  function Banner(title: string): seq<string>
  {
    [Rule, "-- INSERT " + title, Rule, ""]
  }

  lemma JoinFirst(parts: seq<string>, sep: string)
    requires |parts| >= 1
    ensures IsPrefix(parts[0], Join(parts, sep))
  {
    if |parts| > 1 {
      assert Join(parts, sep) == parts[0] + (sep + Join(parts[1..], sep));
    }
  }

  /** `sep.join` of a concatenation. */
  lemma {:induction false} JoinAppend(a: seq<string>, b: seq<string>, sep: string)
    requires |a| >= 1 && |b| >= 1
    ensures Join(a + b, sep) == Join(a, sep) + sep + Join(b, sep)
    decreases |a|
  {
    if |a| == 1 {
      assert (a + b)[1..] == b;
    } else {
      JoinAppend(a[1..], b, sep);
      assert (a + b)[1..] == a[1..] + b;
    }
  }

  /** The section of two lists of statements is the first one's, continued by the second's lines. */
  lemma SectionAppend(kind: string, title: string, a: seq<string>, b: seq<string>)
    requires |a| >= 1 && |b| >= 1
    ensures Section(kind, title, a + b) == Section(kind, title, a) + "\n" + Join(b, "\n")
  {
    BannerAppend(Banner(title), a, b);
  }

  lemma BannerAppend(banner: seq<string>, a: seq<string>, b: seq<string>)
    requires |a| >= 1 && |b| >= 1
    ensures Join(banner + (a + b), "\n") == Join(banner + a, "\n") + "\n" + Join(b, "\n")
  {
    assert banner + (a + b) == (banner + a) + b;
    JoinAppend(banner + a, b, "\n");
  }

  /** `s` occurs in `t`. */
  ghost predicate Infix(s: string, t: string)
  {
    exists p, q :: t == p + s + q
  }

  lemma {:induction false} JoinInfix(parts: seq<string>, sep: string, i: nat)
    requires i < |parts|
    ensures Infix(parts[i], Join(parts, sep))
    decreases i
  {
    if |parts| == 1 {
      assert Join(parts, sep) == "" + parts[0] + "";
    } else if i == 0 {
      assert Join(parts, sep) == "" + parts[0] + (sep + Join(parts[1..], sep));
    } else {
      JoinInfix(parts[1..], sep, i - 1);
      var p, q :| Join(parts[1..], sep) == p + parts[1..][i - 1] + q;
      assert Join(parts, sep) == (parts[0] + sep + p) + parts[i] + q;
    }
  }

  /** Every statement of a non-empty section is in it. */
  lemma SectionHolds(kind: string, title: string, stmts: seq<string>, i: nat)
    requires i < |stmts|
    ensures Infix(stmts[i], Section(kind, title, stmts))
  {
    var parts := Banner(title) + stmts;
    assert parts[i + 4] == stmts[i];
    JoinInfix(parts, "\n", i + 4);
  }

  function HubInserts(o: Oracles, hubs: seq<Hub>): (r: seq<string>)
    ensures |r| == |hubs|
    ensures forall i :: 0 <= i < |hubs| ==> r[i] == HubInsert(o, hubs[i])
  {
    seq(|hubs|, i requires 0 <= i < |hubs| => HubInsert(o, hubs[i]))
  }

  function LinkInserts(o: Oracles, links: seq<Link>): (r: seq<string>)
    ensures |r| == |links|
    ensures forall i :: 0 <= i < |links| ==> r[i] == LinkInsert(o, links[i])
  {
    seq(|links|, i requires 0 <= i < |links| => LinkInsert(o, links[i]))
  }

  function SatelliteInserts(o: Oracles, sats: seq<Satellite>): (r: seq<string>)
    ensures |r| == |sats|
    ensures forall i :: 0 <= i < |sats| ==> r[i] == SatelliteInsert(o, sats[i])
  {
    seq(|sats|, i requires 0 <= i < |sats| => SatelliteInsert(o, sats[i]))
  }

  // The script

  const Title: string := "-- Data Vault Schema Export"

  const DropComments: string :=
    "\n-- Database: PostgreSQL\n\n-- Drop existing tables if needed"
    + "\n-- DROP TABLE IF EXISTS dv_satellites CASCADE;"
    + "\n-- DROP TABLE IF EXISTS dv_links CASCADE;"
    + "\n-- DROP TABLE IF EXISTS dv_hubs CASCADE;"

  const GeneratedAt: string := "\n-- Generated at: "
  const SourceLine: string := "\n-- Source: "
  const StatisticsLine: string := "\n-- Statistics: "

  function Header(s: Schema, now: Instant): (r: string)
    ensures IsPrefix(Title, r)
  {
    Title + GeneratedAt + now.iso
      + SourceLine + SourceImageOr(s.metadata, "unknown")
      + StatisticsLine + NatToString(|s.hubs|) + " Hubs, " + NatToString(|s.links|) + " Links, "
      + NatToString(|s.satellites|) + " Satellites"
      + DropComments
  }

  /** The table definitions, line by line. */
  function CreateTableLines(): seq<string>
  {
    [Rule,
     "-- CREATE TABLES",
     Rule,
     "",
     "-- Table Hubs (Entités)",
     "CREATE TABLE IF NOT EXISTS dv_hubs (",
     "    hub_key VARCHAR(32) PRIMARY KEY,",
     "    business_key VARCHAR(255) NOT NULL,",
     "    entity_type VARCHAR(100) NOT NULL,",
     "    ontology_uri TEXT,",
     "    confidence_score NUMERIC(5, 4) CHECK (confidence_score >= 0 AND confidence_score <= 1),",
     "    load_date TIMESTAMP NOT NULL,",
     "    record_source VARCHAR(255) NOT NULL,",
     "    UNIQUE(business_key, entity_type)",
     ");",
     "",
     "-- Table Links (Relations)",
     "CREATE TABLE IF NOT EXISTS dv_links (",
     "    link_key VARCHAR(32) PRIMARY KEY,",
     "    hub_source_key VARCHAR(32) NOT NULL REFERENCES dv_hubs(hub_key),",
     "    hub_target_key VARCHAR(32) NOT NULL REFERENCES dv_hubs(hub_key),",
     "    relation_type VARCHAR(255) NOT NULL,",
     "    confidence_score NUMERIC(5, 4) CHECK (confidence_score >= 0 AND confidence_score <= 1),",
     "    load_date TIMESTAMP NOT NULL,",
     "    record_source VARCHAR(255) NOT NULL",
     ");",
     "",
     "-- Table Satellites (Attributs)",
     "CREATE TABLE IF NOT EXISTS dv_satellites (",
     "    satellite_key VARCHAR(32) PRIMARY KEY,",
     "    hub_key VARCHAR(32) NOT NULL REFERENCES dv_hubs(hub_key),",
     "    attribute_name VARCHAR(255) NOT NULL,",
     "    attribute_value TEXT NOT NULL,",
     "    confidence_score NUMERIC(5, 4) CHECK (confidence_score >= 0 AND confidence_score <= 1),",
     "    load_date TIMESTAMP NOT NULL,",
     "    record_source VARCHAR(255) NOT NULL,",
     "    hash_diff VARCHAR(32) NOT NULL",
     ");"]
  }

  function CreateTables(): string
  {
    Join(CreateTableLines(), "\n")
  }

  /** The index definitions and the commented example queries, line by line. */
  function IndexLines(): seq<string>
  {
    [Rule,
     "-- CREATE INDEXES",
     Rule,
     "",
     "-- Indexes pour Hubs",
     "CREATE INDEX IF NOT EXISTS idx_hubs_business_key ON dv_hubs(business_key);",
     "CREATE INDEX IF NOT EXISTS idx_hubs_entity_type ON dv_hubs(entity_type);",
     "CREATE INDEX IF NOT EXISTS idx_hubs_load_date ON dv_hubs(load_date);",
     "",
     "-- Indexes pour Links",
     "CREATE INDEX IF NOT EXISTS idx_links_source ON dv_links(hub_source_key);",
     "CREATE INDEX IF NOT EXISTS idx_links_target ON dv_links(hub_target_key);",
     "CREATE INDEX IF NOT EXISTS idx_links_relation ON dv_links(relation_type);",
     "CREATE INDEX IF NOT EXISTS idx_links_load_date ON dv_links(load_date);",
     "",
     "-- Indexes pour Satellites",
     "CREATE INDEX IF NOT EXISTS idx_satellites_hub ON dv_satellites(hub_key);",
     "CREATE INDEX IF NOT EXISTS idx_satellites_attribute ON dv_satellites(attribute_name);",
     "CREATE INDEX IF NOT EXISTS idx_satellites_load_date ON dv_satellites(load_date);",
     "CREATE INDEX IF NOT EXISTS idx_satellites_hash_diff ON dv_satellites(hash_diff);",
     "",
     Rule,
     "-- QUERIES EXAMPLES",
     Rule,
     "",
     "-- Voir tous les Hubs avec leurs Satellites",
     "-- SELECT h.business_key, h.entity_type, s.attribute_name, s.attribute_value",
     "-- FROM dv_hubs h",
     "-- LEFT JOIN dv_satellites s ON h.hub_key = s.hub_key",
     "-- ORDER BY h.business_key, s.attribute_name;",
     "",
     "-- Voir toutes les relations",
     "-- SELECT h1.business_key as source, l.relation_type, h2.business_key as target",
     "-- FROM dv_links l",
     "-- JOIN dv_hubs h1 ON l.hub_source_key = h1.hub_key",
     "-- JOIN dv_hubs h2 ON l.hub_target_key = h2.hub_key;"]
  }

  function Indexes(): string
  {
    Join(IndexLines(), "\n")
  }

  /**
   * The script around its variable parts: the header, the table
   * definitions, the three INSERT sections and the indexes, joined by blank
   * lines.
   */
  function Assemble(header: string, tables: string, hubs: seq<string>, links: seq<string>, sats: seq<string>,
                    indexes: string): string
  {
    Join([header, tables,
          Section("Hubs", "HUBS", hubs), Section("Links", "LINKS", links), Section("Satellites", "SATELLITES", sats),
          indexes], "\n\n")
  }

  /** The script opens with its header, closes with the indexes and holds every statement. */
  lemma AssembleHolds(header: string, tables: string, hubs: seq<string>, links: seq<string>, sats: seq<string>,
                       indexes: string)
    ensures var r := Assemble(header, tables, hubs, links, sats, indexes);
      && IsPrefix(header, r)
      && (exists p :: r == p + indexes)
      && (forall i :: 0 <= i < |hubs| ==> Infix(hubs[i], r))
      && (forall i :: 0 <= i < |links| ==> Infix(links[i], r))
      && (forall i :: 0 <= i < |sats| ==> Infix(sats[i], r))
  {
    var parts := [header, tables,
          Section("Hubs", "HUBS", hubs), Section("Links", "LINKS", links), Section("Satellites", "SATELLITES", sats),
          indexes];
    ExportShape(parts, Join(parts, "\n\n"));
    forall i | 0 <= i < |hubs|
      ensures Infix(hubs[i], Join(parts, "\n\n"))
    {
      SectionInScript(parts, 2, "Hubs", "HUBS", hubs, i);
    }
    forall i | 0 <= i < |links|
      ensures Infix(links[i], Join(parts, "\n\n"))
    {
      SectionInScript(parts, 3, "Links", "LINKS", links, i);
    }
    forall i | 0 <= i < |sats|
      ensures Infix(sats[i], Join(parts, "\n\n"))
    {
      SectionInScript(parts, 4, "Satellites", "SATELLITES", sats, i);
    }
  }

  /**
   * `SQLExporter.export`, without the file write: the sections joined by
   * blank lines, with the fixed table and index definitions.
   */
  function Export(o: Oracles, s: Schema, now: Instant): string
  {
    Script(o, s, now, CreateTables(), Indexes())
  }

  /**
   * The script of a schema around given table and index definitions. It
   * opens with its title line, closes with the indexes, and holds the
   * INSERT of every Hub, Link and Satellite.
   */
  function Script(o: Oracles, s: Schema, now: Instant, tables: string, indexes: string): (r: string)
    ensures IsPrefix(Title, r)
    ensures exists p :: r == p + indexes
    ensures forall i :: 0 <= i < |s.hubs| ==> Infix(HubInsert(o, s.hubs[i]), r)
    ensures forall i :: 0 <= i < |s.links| ==> Infix(LinkInsert(o, s.links[i]), r)
    ensures forall i :: 0 <= i < |s.satellites| ==> Infix(SatelliteInsert(o, s.satellites[i]), r)
  {
    var header := Header(s, now);
    var r := Assemble(header, tables, HubInserts(o, s.hubs), LinkInserts(o, s.links),
                      SatelliteInserts(o, s.satellites), indexes);
    AssembleHolds(header, tables, HubInserts(o, s.hubs), LinkInserts(o, s.links),
                  SatelliteInserts(o, s.satellites), indexes);
    PrefixTrans(Title, header, r);
    r
  }

  lemma PrefixTrans(a: string, b: string, c: string)
    requires IsPrefix(a, b) && IsPrefix(b, c)
    ensures IsPrefix(a, c)
  {
    assert c[..|a|] == b[..|a|];
  }

  /** A statement of one of the sections is in the script. */
  lemma SectionInScript(parts: seq<string>, k: nat, kind: string, title: string, stmts: seq<string>, i: nat)
    requires k < |parts| && parts[k] == Section(kind, title, stmts) && i < |stmts|
    ensures Infix(stmts[i], Join(parts, "\n\n"))
  {
    SectionHolds(kind, title, stmts, i);
    JoinInfix(parts, "\n\n", k);
    InfixTrans(stmts[i], parts[k], Join(parts, "\n\n"));
  }

  lemma InfixTrans(a: string, b: string, c: string)
    requires Infix(a, b) && Infix(b, c)
    ensures Infix(a, c)
  {
    var p, q :| b == p + a + q;
    var p', q' :| c == p' + b + q';
    assert c == (p' + p) + a + (q + q');
  }

  /** The joined sections begin with the first and end with the last. */
  lemma ExportShape(parts: seq<string>, r: string)
    requires |parts| == 6 && r == Join(parts, "\n\n")
    ensures IsPrefix(parts[0], r)
    ensures exists p :: r == p + parts[5]
  {
    JoinFirst(parts, "\n\n");
    JoinAppend(parts[..5], [parts[5]], "\n\n");
    assert parts[..5] + [parts[5]] == parts;
  }
}
