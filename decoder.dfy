/** A reader for the KML text the renderers produce, used to state what a
    rendered document contains: each decoder consumes one element from the
    front of a string and returns what it read together with the rest.
    The round-trip lemmas show that every renderer's output reads back as
    exactly the (cleaned) values it was given, so nothing the renderers
    write can be mistaken for structure. */
module Decoder {
  import opened Text
  import opened Rows
  import opened Sanitizer
  import opened Renderer

  /** What a placemark shows: its name, the description's `name: value`
      lines, its style reference, its extended-data entries and its two
      coordinates. */
  datatype Marker = Marker(name: string, description: seq<Entry>, style: string,
                           data: seq<Entry>, longitude: string, latitude: string)

  /** What a folder shows: its name and its placemarks, in order. */
  datatype FolderView = FolderView(name: string, markers: seq<Marker>)

  /** Reads a value up to the first stop character, then `close`. */
  function Field(stops: set<char>, close: string, s: string): (r: Option<(string, string)>)
    requires close != []
    ensures r.Some? ==> |r.value.1| < |s|
  {
    var v := Until(stops, s);
    var u :- Expect(close, s[|v|..]);
    Some((v, u))
  }

  lemma FieldRoundTrip(stops: set<char>, v: string, close: string, rest: string)
    requires forall i :: 0 <= i < |v| ==> v[i] !in stops
    requires close != [] && close[0] in stops
    ensures Field(stops, close, v + close + rest) == Some((v, rest))
  {
    assert v + close + rest == v + (close + rest);
    UntilStops(stops, v, close + rest);
    assert (v + (close + rest))[|v|..] == close + rest;
    ExpectLiteral(close, rest);
  }

  /** Reads `open`, then a value up to the first stop character, then `close`. */
  function Between(open: string, stops: set<char>, close: string, s: string): (r: Option<(string, string)>)
    requires close != []
    ensures r.Some? ==> |r.value.1| < |s|
  {
    var t :- Expect(open, s);
    Field(stops, close, t)
  }

  lemma BetweenRoundTrip(open: string, stops: set<char>, v: string, close: string, rest: string)
    requires forall i :: 0 <= i < |v| ==> v[i] !in stops
    requires close != [] && close[0] in stops
    ensures Between(open, stops, close, open + v + close + rest) == Some((v, rest))
  {
    Regroup3(open, v, close, rest);
    ExpectLiteral(open, v + close + rest);
    FieldRoundTrip(stops, v, close, rest);
  }

  lemma NoStops(s: string, c: char)
    requires c !in s
    ensures forall i :: 0 <= i < |s| ==> s[i] !in {c}
  {
  }

  function DecodeName(s: string): (r: Option<(string, string)>)
    ensures r.Some? ==> |r.value.1| < |s|
  {
    Between("<name>", {'<'}, "</name>", s)
  }

  /** `Name` reads back as the cleaned text. */
  lemma NameRoundTrip(text: string, rest: string)
    ensures DecodeName(NameTag(text) + rest) == Some((Clean(text), rest))
  {
    CleanHasNoMarkup(text);
    NoStops(Clean(text), '<');
    BetweenRoundTrip("<name>", {'<'}, Clean(text), "</name>", rest);
  }

  function DecodeStyle(s: string): (r: Option<(string, string)>)
    ensures r.Some? ==> |r.value.1| < |s|
  {
    Between("<styleUrl>", {'<'}, "</styleUrl>", s)
  }

  /** `styleUrl` reads back as the style reference, which is written
      unescaped and so must not contain `<`. */
  lemma StyleRoundTrip(url: string, rest: string)
    requires '<' !in url
    ensures DecodeStyle(StyleUrl(url) + rest) == Some((url, rest))
  {
    NoStops(url, '<');
    BetweenRoundTrip("<styleUrl>", {'<'}, url, "</styleUrl>", rest);
  }

  function DecodeData(s: string): (r: Option<(Entry, string)>)
    ensures r.Some? ==> |r.value.1| < |s|
  {
    var n :- Between("<Data name=\"", {'"'}, "\"><value>", s);
    var v :- Field({'<'}, "</value></Data>", n.1);
    Some(((n.0, v.0), v.1))
  }

  /** `Data` reads back as the cleaned name and the cleaned value. */
  lemma DataRoundTrip(name: string, value: string, rest: string)
    ensures DecodeData(DataTag(name, value) + rest) == Some(((Clean(name), Clean(value)), rest))
  {
    var n, v := Clean(name), Clean(value);
    CleanHasNoMarkup(name);
    CleanHasNoMarkup(value);
    NoStops(n, '"');
    NoStops(v, '<');
    var t := v + "</value></Data>" + rest;
    Regroup5("<Data name=\"", n, "\"><value>", v, "</value></Data>", rest);
    BetweenRoundTrip("<Data name=\"", {'"'}, n, "\"><value>", t);
    FieldRoundTrip({'<'}, v, "</value></Data>", rest);
  }

  /** An entry as the renderers write it out: name and value cleaned. */
  function CleanEntry(e: Entry): Entry
  {
    (Clean(e.0), Clean(e.1))
  }

  const DataOpen: string := "<Data name=\""

  /** Zero or more `Data` elements, one after the other. */
  function DecodeDataList(s: string): (r: Option<(seq<Entry>, string)>)
    ensures r.Some? ==> |r.value.1| <= |s|
    decreases |s|
  {
    if !(DataOpen <= s) then Some(([], s))
    else
      var e :- DecodeData(s);
      var es :- DecodeDataList(e.1);
      Some(([e.0] + es.0, es.1))
  }

  lemma {:induction false} DataListRoundTrip(es: seq<Entry>, rest: string)
    requires !(DataOpen <= rest)
    ensures DecodeDataList(Join("", Map(DataOf, es)) + rest) == Some((Map(CleanEntry, es), rest))
    decreases |es|
  {
    var tags := Map(DataOf, es);
    if es == [] {
      assert Join("", tags) + rest == rest;
    } else {
      JoinNoSeparator(tags);
      MapCons(DataOf, es);
      MapCons(CleanEntry, es);
      var j := Join("", Map(DataOf, es[1..]));
      Regroup(tags[0], j, rest);
      DataRoundTrip(es[0].0, es[0].1, j + rest);
      assert DataOpen <= tags[0] + (j + rest);
      DataListRoundTrip(es[1..], rest);
    }
  }

  function DecodeExtendedData(s: string): (r: Option<(seq<Entry>, string)>)
    ensures r.Some? ==> |r.value.1| < |s|
  {
    var t :- Expect("<ExtendedData>", s);
    var es :- DecodeDataList(t);
    var u :- Expect("</ExtendedData>", es.1);
    Some((es.0, u))
  }

  lemma ExtendedDataFrame(j: string, es: seq<Entry>, rest: string)
    requires DecodeDataList(j + ("</ExtendedData>" + rest)) == Some((es, "</ExtendedData>" + rest))
    ensures DecodeExtendedData("<ExtendedData>" + j + "</ExtendedData>" + rest) == Some((es, rest))
  {
    var close := "</ExtendedData>" + rest;
    Regroup3("<ExtendedData>", j, "</ExtendedData>", rest);
    Regroup(j, "</ExtendedData>", rest);
    ExpectLiteral("<ExtendedData>", j + close);
    ExpectLiteral("</ExtendedData>", rest);
  }

  /** `ExtendedData` reads back as the cleaned entries of the listed fields
      present in the row, in list order. */
  lemma ExtendedDataRoundTrip(row: Row, fields: seq<string>, rest: string)
    ensures DecodeExtendedData(ExtendedData(row, fields) + rest) == Some((Map(CleanEntry, Entries(row, fields)), rest))
  {
    var close := "</ExtendedData>" + rest;
    assert close[1] == '/';
    DataListRoundTrip(Entries(row, fields), close);
    ExtendedDataFrame(Join("", Map(DataOf, Entries(row, fields))), Map(CleanEntry, Entries(row, fields)), rest);
  }

  /** One `name: value` line of a description; the value runs up to the
      next `<br>` or the closing `]]>`. */
  function DecodePart(s: string): (r: Option<(Entry, string)>)
    ensures r.Some? ==> |r.value.1| < |s|
  {
    var n :- Field({':'}, ": ", s);
    var v := Until({'<', ']'}, n.1);
    Some(((n.0, v), n.1[|v|..]))
  }

  lemma PartRoundTrip(e: Entry, rest: string)
    requires rest == [] || rest[0] in {'<', ']'}
    ensures DecodePart(DescriptionPartOf(e) + rest) == Some((CleanEntry(e), rest))
  {
    var n, v := Clean(e.0), Clean(e.1);
    CleanHasNoMarkup(e.0);
    CleanHasNoMarkup(e.1);
    NoStops(n, ':');
    Regroup(n + ": ", v, rest);
    FieldRoundTrip({':'}, n, ": ", v + rest);
    UntilStops({'<', ']'}, v, rest);
    assert (v + rest)[|v|..] == rest;
  }

  /** A description line is never empty and never starts with `]`, so an
      empty description is told apart from a non-empty one. */
  lemma PartStart(e: Entry)
    ensures DescriptionPartOf(e) != [] && DescriptionPartOf(e)[0] != ']'
  {
    CleanHasNoMarkup(e.0);
    var n := Clean(e.0);
    if n != [] {
      assert n[0] in n;
      assert DescriptionPartOf(e)[0] == n[0];
    } else {
      assert DescriptionPartOf(e)[0] == ':';
    }
  }

  /** One or more description lines separated by `<br>`. */
  function DecodeParts(s: string): (r: Option<(seq<Entry>, string)>)
    ensures r.Some? ==> |r.value.1| < |s|
    decreases |s|
  {
    var p :- DecodePart(s);
    match Expect("<br>", p.1)
    case None => Some(([p.0], p.1))
    case Some(t) =>
      var ps :- DecodeParts(t);
      Some(([p.0] + ps.0, ps.1))
  }

  lemma PartsLast(p: string, e: Entry, rest: string)
    requires DecodePart(p + rest) == Some((e, rest))
    requires rest != [] && rest[0] == ']'
    ensures DecodeParts(p + rest) == Some(([e], rest))
  {
  }

  lemma PartsStep(p: string, j: string, e: Entry, es: seq<Entry>, rest: string)
    requires DecodePart(p + ("<br>" + (j + rest))) == Some((e, "<br>" + (j + rest)))
    requires DecodeParts(j + rest) == Some((es, rest))
    ensures DecodeParts(p + "<br>" + j + rest) == Some(([e] + es, rest))
  {
    JoinStep(p, "<br>", j, rest);
    ExpectLiteral("<br>", j + rest);
  }

  lemma {:induction false} PartsRoundTrip(es: seq<Entry>, rest: string)
    requires es != [] && rest != [] && rest[0] == ']'
    ensures DecodeParts(Join("<br>", Map(DescriptionPartOf, es)) + rest) == Some((Map(CleanEntry, es), rest))
    decreases |es|
  {
    var parts := Map(DescriptionPartOf, es);
    MapCons(DescriptionPartOf, es);
    MapCons(CleanEntry, es);
    if |es| == 1 {
      assert Join("<br>", parts) == parts[0];
      PartRoundTrip(es[0], rest);
      PartsLast(parts[0], CleanEntry(es[0]), rest);
      assert Map(CleanEntry, es) == [CleanEntry(es[0])];
    } else {
      var j := Join("<br>", Map(DescriptionPartOf, es[1..]));
      assert Join("<br>", parts) == parts[0] + "<br>" + j;
      PartRoundTrip(es[0], "<br>" + (j + rest));
      PartsRoundTrip(es[1..], rest);
      PartsStep(parts[0], j, CleanEntry(es[0]), Map(CleanEntry, es[1..]), rest);
      assert Join("<br>", parts) + rest == parts[0] + "<br>" + j + rest;
    }
  }

  function DecodeDescription(s: string): (r: Option<(seq<Entry>, string)>)
    ensures r.Some? ==> |r.value.1| < |s|
  {
    var t :- Expect("<description><![CDATA[", s);
    var ps :- if "]]>" <= t then Some(([], t)) else DecodeParts(t);
    var u :- Expect("]]></description>", ps.1);
    Some((ps.0, u))
  }

  lemma DescriptionFrame(j: string, es: seq<Entry>, rest: string)
    requires (j == [] && es == []) ||
             (!("]]>" <= j + ("]]></description>" + rest)) &&
              DecodeParts(j + ("]]></description>" + rest)) == Some((es, "]]></description>" + rest)))
    ensures DecodeDescription("<description><![CDATA[" + j + "]]></description>" + rest) == Some((es, rest))
  {
    var close := "]]></description>" + rest;
    Regroup3("<description><![CDATA[", j, "]]></description>", rest);
    Regroup(j, "]]></description>", rest);
    ExpectLiteral("<description><![CDATA[", j + close);
    if j == [] {
      assert j + close == close;
      assert "]]>" <= close;
    }
    ExpectLiteral("]]></description>", rest);
  }

  /** `Description` reads back as the cleaned entries of the listed fields
      present in the row, in list order. */
  lemma DescriptionRoundTrip(row: Row, fields: seq<string>, rest: string)
    ensures DecodeDescription(Description(row, fields) + rest) == Some((Map(CleanEntry, Entries(row, fields)), rest))
  {
    var es := Entries(row, fields);
    var parts := Map(DescriptionPartOf, es);
    var j := Join("<br>", parts);
    var close := "]]></description>" + rest;
    if es != [] {
      PartsRoundTrip(es, close);
      PartStart(es[0]);
      JoinPrefix("<br>", parts, [parts[0][0]], close);
    }
    DescriptionFrame(j, Map(CleanEntry, es), rest);
  }

  function DecodePoint(s: string): (r: Option<((string, string), string)>)
    ensures r.Some? ==> |r.value.1| < |s|
  {
    var lon :- Between("<Point><coordinates>", {','}, ",", s);
    var lat :- Field({','}, ",0</coordinates></Point>", lon.1);
    Some(((lon.0, lat.0), lat.1))
  }

  /** `Point` reads back as its two coordinates, which are written as they
      are and so must not contain the separating comma. */
  lemma PointRoundTrip(longitude: string, latitude: string, rest: string)
    requires ',' !in longitude && ',' !in latitude
    ensures DecodePoint(Point(longitude, latitude) + rest) == Some(((longitude, latitude), rest))
  {
    NoStops(longitude, ',');
    NoStops(latitude, ',');
    Regroup5("<Point><coordinates>", longitude, ",", latitude, ",0</coordinates></Point>", rest);
    BetweenRoundTrip("<Point><coordinates>", {','}, longitude, ",", latitude + ",0</coordinates></Point>" + rest);
    FieldRoundTrip({','}, latitude, ",0</coordinates></Point>", rest);
  }

  /** Without that condition the coordinates cannot be recovered: two
      different points render to the same text. */
  lemma PointAmbiguous()
    ensures Point("1,2", "3") == Point("1", "2,3")
  {
  }

  function DecodePlacemark(s: string): (r: Option<(Marker, string)>)
    ensures r.Some? ==> |r.value.1| < |s|
  {
    var t0 :- Expect("<Placemark>\n", s);
    var n :- DecodeName(t0);
    var t1 :- Expect("\n", n.1);
    var d :- DecodeDescription(t1);
    var t2 :- Expect("\n", d.1);
    var st :- DecodeStyle(t2);
    var t3 :- Expect("\n", st.1);
    var e :- DecodeExtendedData(t3);
    var t4 :- Expect("\n", e.1);
    var p :- DecodePoint(t4);
    var t5 :- Expect("\n</Placemark>", p.1);
    Some((Marker(n.0, d.0, st.0, e.0, p.0.0, p.0.1), t5))
  }

  lemma PlacemarkSteps(n: string, d: string, st: string, e: string, p: string, rest: string, m: Marker)
    requires DecodeName(n + ("\n" + (d + ("\n" + (st + ("\n" + (e + ("\n" + (p + ("\n</Placemark>" + rest)))))))))) ==
             Some((m.name, "\n" + (d + ("\n" + (st + ("\n" + (e + ("\n" + (p + ("\n</Placemark>" + rest))))))))))
    requires DecodeDescription(d + ("\n" + (st + ("\n" + (e + ("\n" + (p + ("\n</Placemark>" + rest)))))))) ==
             Some((m.description, "\n" + (st + ("\n" + (e + ("\n" + (p + ("\n</Placemark>" + rest))))))))
    requires DecodeStyle(st + ("\n" + (e + ("\n" + (p + ("\n</Placemark>" + rest)))))) ==
             Some((m.style, "\n" + (e + ("\n" + (p + ("\n</Placemark>" + rest))))))
    requires DecodeExtendedData(e + ("\n" + (p + ("\n</Placemark>" + rest)))) ==
             Some((m.data, "\n" + (p + ("\n</Placemark>" + rest))))
    requires DecodePoint(p + ("\n</Placemark>" + rest)) == Some(((m.longitude, m.latitude), "\n</Placemark>" + rest))
    ensures DecodePlacemark("<Placemark>\n" + (n + ("\n" + (d + ("\n" + (st + ("\n" + (e + ("\n" + (p + ("\n</Placemark>" + rest))))))))))) ==
            Some((m, rest))
  {
    var t := "\n</Placemark>" + rest;
    var r4 := p + t;
    var r3 := e + ("\n" + r4);
    var r2 := st + ("\n" + r3);
    var r1 := d + ("\n" + r2);
    var r0 := n + ("\n" + r1);
    ExpectLiteral("<Placemark>\n", r0);
    ExpectLiteral("\n", r1);
    ExpectLiteral("\n", r2);
    ExpectLiteral("\n", r3);
    ExpectLiteral("\n", r4);
    ExpectLiteral("\n</Placemark>", rest);
  }

  /** The value a row with the three keys gets for `key`. */
  function Get(row: Row, key: string): string
  {
    if key in row then row[key] else ""
  }

  /** The marker a row is rendered as: cleaned name, the cleaned entries of
      the display fields it has (in the description and again in the
      extended data), the folder's style and the raw coordinates. */
  function MarkerOf(fields: seq<string>, icon: string, row: Row): Marker
  {
    var es := Map(CleanEntry, Entries(row, fields));
    Marker(Clean(Get(row, NameKey)), es, icon, es, Get(row, LongitudeKey), Get(row, LatitudeKey))
  }

  /** A row whose coordinates carry no comma, so that they read back. */
  predicate Readable(row: Row)
  {
    HasPlacemarkKeys(row) && ',' !in row[LongitudeKey] && ',' !in row[LatitudeKey]
  }

  /** A placemark reads back as the row's marker: its five elements in
      order, each holding what the row gave it. */
  lemma PlacemarkRoundTrip(row: Row, fields: seq<string>, icon: string, rest: string)
    requires Readable(row) && '<' !in icon
    ensures Placemark(row, fields, icon).Ok?
    ensures DecodePlacemark(Placemark(row, fields, icon).value + rest) == Some((MarkerOf(fields, icon, row), rest))
  {
    var n, d, st, e, p := NameTag(row[NameKey]), Description(row, fields), StyleUrl(icon),
                          ExtendedData(row, fields), Point(row[LongitudeKey], row[LatitudeKey]);
    var m := MarkerOf(fields, icon, row);
    var t := "\n</Placemark>" + rest;
    var r4 := p + t;
    var r3 := e + ("\n" + r4);
    var r2 := st + ("\n" + r3);
    var r1 := d + ("\n" + r2);
    NameRoundTrip(row[NameKey], "\n" + r1);
    DescriptionRoundTrip(row, fields, "\n" + r2);
    StyleRoundTrip(icon, "\n" + r3);
    ExtendedDataRoundTrip(row, fields, "\n" + r4);
    PointRoundTrip(row[LongitudeKey], row[LatitudeKey], t);
    PlacemarkSteps(n, d, st, e, p, rest, m);
    PlacemarkTextThen(n, d, st, e, p, rest);
  }

  /** Every placemark opens with its tag and a line break. */
  lemma PlacemarkOpens(row: Row, fields: seq<string>, icon: string)
    requires HasPlacemarkKeys(row)
    ensures "<Placemark>\n" <= Placemark(row, fields, icon).value
    ensures Placemark(row, fields, icon).value != [] && Placemark(row, fields, icon).value[0] == '<'
  {
    var j := Join("\n", [NameTag(row[NameKey]), Description(row, fields), StyleUrl(icon),
                         ExtendedData(row, fields), Point(row[LongitudeKey], row[LatitudeKey])]);
    var open := "<Placemark>\n";
    var tail := j + "\n</Placemark>";
    assert Placemark(row, fields, icon).value == open + tail;
    ConcatKeepsPrefix(open, open, tail);
    PrefixChar(open, tail, 0);
  }

  /** One or more placemarks separated by an empty line. */
  function DecodePlacemarks(s: string): (r: Option<(seq<Marker>, string)>)
    ensures r.Some? ==> |r.value.1| < |s|
    decreases |s|
  {
    var m :- DecodePlacemark(s);
    match Expect("\n\n", m.1)
    case None => Some(([m.0], m.1))
    case Some(t) =>
      var ms :- DecodePlacemarks(t);
      Some(([m.0] + ms.0, ms.1))
  }

  lemma PlacemarksLast(p: string, m: Marker, rest: string)
    requires DecodePlacemark(p + rest) == Some((m, rest))
    requires Expect("\n\n", rest).None?
    ensures DecodePlacemarks(p + rest) == Some(([m], rest))
  {
  }

  lemma PlacemarksStep(p: string, j: string, m: Marker, ms: seq<Marker>, rest: string)
    requires DecodePlacemark(p + ("\n\n" + (j + rest))) == Some((m, "\n\n" + (j + rest)))
    requires DecodePlacemarks(j + rest) == Some((ms, rest))
    ensures DecodePlacemarks(p + "\n\n" + j + rest) == Some(([m] + ms, rest))
  {
    JoinStep(p, "\n\n", j, rest);
    ExpectLiteral("\n\n", j + rest);
  }

  /** The markers of a folder's rows, in row order. */
  function Markers(fields: seq<string>, style: string, rows: seq<Row>): seq<Marker>
  {
    Map((row: Row) => MarkerOf(fields, style, row), rows)
  }

  predicate AllReadable(rows: seq<Row>)
  {
    forall i :: 0 <= i < |rows| ==> Readable(rows[i])
  }

  lemma PlacemarksCons(rows: seq<Row>, fields: seq<string>, style: string, ps: seq<string>)
    requires rows != [] && Placemarks(rows, fields, style) == Ok(ps)
    ensures ps != [] && Placemark(rows[0], fields, style) == Ok(ps[0])
    ensures Placemarks(rows[1..], fields, style) == Ok(ps[1..])
  {
    CollectCons(rows, (row: Row) => Placemark(row, fields, style), ps);
  }

  lemma MarkersCons(fields: seq<string>, style: string, rows: seq<Row>)
    requires rows != []
    ensures Markers(fields, style, rows) == [MarkerOf(fields, style, rows[0])] + Markers(fields, style, rows[1..])
  {
    MapCons((row: Row) => MarkerOf(fields, style, row), rows);
  }

  lemma AllReadableTail(rows: seq<Row>)
    requires rows != [] && AllReadable(rows)
    ensures Readable(rows[0]) && AllReadable(rows[1..])
  {
    assert forall i :: 0 <= i < |rows| - 1 ==> rows[1..][i] == rows[i + 1];
  }

  lemma {:induction false} PlacemarksRoundTrip(rows: seq<Row>, fields: seq<string>, style: string, ps: seq<string>, rest: string)
    requires rows != [] && AllReadable(rows) && '<' !in style
    requires Placemarks(rows, fields, style) == Ok(ps)
    requires Expect("\n\n", rest).None?
    ensures DecodePlacemarks(Join("\n\n", ps) + rest) == Some((Markers(fields, style, rows), rest))
    decreases |rows|
  {
    PlacemarksCons(rows, fields, style, ps);
    MarkersCons(fields, style, rows);
    AllReadableTail(rows);
    var m := MarkerOf(fields, style, rows[0]);
    if |rows| == 1 {
      assert Join("\n\n", ps) == ps[0];
      PlacemarkRoundTrip(rows[0], fields, style, rest);
      PlacemarksLast(ps[0], m, rest);
      assert Markers(fields, style, rows[1..]) == [];
      assert Markers(fields, style, rows) == [m];
      assert Join("\n\n", ps) + rest == ps[0] + rest;
    } else {
      var j := Join("\n\n", ps[1..]);
      assert Join("\n\n", ps) == ps[0] + "\n\n" + j;
      PlacemarkRoundTrip(rows[0], fields, style, "\n\n" + (j + rest));
      PlacemarksRoundTrip(rows[1..], fields, style, ps[1..], rest);
      PlacemarksStep(ps[0], j, m, Markers(fields, style, rows[1..]), rest);
      assert Join("\n\n", ps) + rest == ps[0] + "\n\n" + j + rest;
      assert DecodePlacemarks(Join("\n\n", ps) + rest) == Some(([m] + Markers(fields, style, rows[1..]), rest));
    }
  }

  function DecodeFolder(s: string): (r: Option<(FolderView, string)>)
    ensures r.Some? ==> |r.value.1| < |s|
  {
    var n :- Between("\n<Folder>\n<name>", {'<'}, "</name>\n", s);
    var ms :- if n.1 != [] && n.1[0] == '<' then DecodePlacemarks(n.1) else Some(([], n.1));
    var u :- Expect("\n</Folder>", ms.1);
    Some((FolderView(n.0, ms.0), u))
  }

  lemma FolderFrame(name: string, j: string, ms: seq<Marker>, rest: string)
    requires '<' !in name
    requires (j == [] && ms == []) ||
             (j != [] && j[0] == '<' &&
              DecodePlacemarks(j + ("\n</Folder>" + rest)) == Some((ms, "\n</Folder>" + rest)))
    ensures DecodeFolder("\n<Folder>\n<name>" + name + "</name>\n" + j + "\n</Folder>" + rest) == Some((FolderView(name, ms), rest))
  {
    var head := "\n<Folder>\n<name>" + name + "</name>\n";
    var close := "\n</Folder>" + rest;
    NoStops(name, '<');
    Regroup3(head, j, "\n</Folder>", rest);
    BetweenRoundTrip("\n<Folder>\n<name>", {'<'}, name, "</name>\n", j + "\n</Folder>" + rest);
    Regroup(j, "\n</Folder>", rest);
    if j == [] {
      assert j + close == close;
      assert close[0] == '\n';
    }
    ExpectLiteral("\n</Folder>", rest);
  }

  /** The placemarks of a folder read back as the markers of its rows; a
      folder without rows has no placemark text at all. */
  lemma FolderBody(rows: seq<Row>, fields: seq<string>, style: string, close: string)
    requires '<' !in style && AllReadable(rows)
    requires close != [] && close[0] == '\n' && Expect("\n\n", close).None?
    ensures Placemarks(rows, fields, style).Ok?
    ensures var j := Join("\n\n", Placemarks(rows, fields, style).value);
            (j == [] && Markers(fields, style, rows) == []) ||
            (j != [] && j[0] == '<' &&
             DecodePlacemarks(j + close) == Some((Markers(fields, style, rows), close)))
  {
    assert AllHavePlacemarkKeys(rows);
    var ps := Placemarks(rows, fields, style).value;
    var j := Join("\n\n", ps);
    if rows != [] {
      PlacemarksRoundTrip(rows, fields, style, ps, close);
      PlacemarksCons(rows, fields, style, ps);
      PlacemarkOpens(rows[0], fields, style);
      JoinHead("\n\n", ps, [], 0);
      assert j + [] == j;
    } else {
      assert Markers(fields, style, rows) == [];
      assert j == [];
    }
  }

  /** A folder reads back as its name and the markers of its rows, in row
      order; a folder without rows reads back with no marker. */
  lemma FolderRoundTrip(name: string, rows: seq<Row>, fields: seq<string>, style: string, rest: string)
    requires '<' !in name && '<' !in style && AllReadable(rows)
    ensures Folder(name, rows, fields, style).Ok?
    ensures DecodeFolder(Folder(name, rows, fields, style).value + rest) ==
            Some((FolderView(name, Markers(fields, style, rows)), rest))
  {
    var close := "\n</Folder>" + rest;
    assert close[1] == '<';
    FolderBody(rows, fields, style, close);
    var j := Join("\n\n", Placemarks(rows, fields, style).value);
    assert Folder(name, rows, fields, style).value == "\n<Folder>\n<name>" + name + "</name>\n" + j + "\n</Folder>";
    FolderFrame(name, j, Markers(fields, style, rows), rest);
  }

  /** One or more folders separated by the template's indentation. */
  function DecodeFolders(s: string): (r: Option<(seq<FolderView>, string)>)
    ensures r.Some? ==> |r.value.1| < |s|
    decreases |s|
  {
    var v :- DecodeFolder(s);
    match Expect("\n    ", v.1)
    case None => Some(([v.0], v.1))
    case Some(t) =>
      var vs :- DecodeFolders(t);
      Some(([v.0] + vs.0, vs.1))
  }

  lemma FoldersLast(p: string, v: FolderView, rest: string)
    requires DecodeFolder(p + rest) == Some((v, rest))
    requires Expect("\n    ", rest).None?
    ensures DecodeFolders(p + rest) == Some(([v], rest))
  {
  }

  /** The closing tags cannot be mistaken for another folder or for the
      separator before one. */
  lemma FooterStops()
    ensures Expect("\n    ", Footer).None?
    ensures Footer[1] == ' '
    ensures Expect(Footer, Footer) == Some([])
  {
    assert Footer[3] == '<';
    assert Footer[1] == ' ';
    ExpectLiteral(Footer, []);
    assert Footer + [] == Footer;
  }

  lemma FoldersStep(p: string, j: string, v: FolderView, vs: seq<FolderView>, rest: string)
    requires DecodeFolder(p + ("\n    " + (j + rest))) == Some((v, "\n    " + (j + rest)))
    requires DecodeFolders(j + rest) == Some((vs, rest))
    ensures DecodeFolders(p + "\n    " + j + rest) == Some(([v] + vs, rest))
  {
    JoinStep(p, "\n    ", j, rest);
    ExpectLiteral("\n    ", j + rest);
  }

  /** A folder call whose name and style carry no `<` and whose rows all
      read back. */
  predicate Presentable(call: FolderCall)
  {
    '<' !in call.0 && '<' !in call.3 && AllReadable(call.1)
  }

  /** What a folder call is shown as. */
  function ViewOf(call: FolderCall): FolderView
  {
    FolderView(call.0, Markers(call.2, call.3, call.1))
  }

  predicate AllPresentable(calls: seq<FolderCall>)
  {
    forall i :: 0 <= i < |calls| ==> Presentable(calls[i])
  }

  lemma AllPresentableTail(calls: seq<FolderCall>)
    requires calls != [] && AllPresentable(calls)
    ensures Presentable(calls[0]) && AllPresentable(calls[1..])
  {
    assert forall i :: 0 <= i < |calls| - 1 ==> calls[1..][i] == calls[i + 1];
  }

  lemma {:induction false} FoldersRoundTrip(calls: seq<FolderCall>, fs: seq<string>)
    requires calls != [] && AllPresentable(calls) && Collect(calls, FolderOf) == Ok(fs)
    ensures DecodeFolders(Join("\n    ", fs) + Footer) == Some((Map(ViewOf, calls), Footer))
    decreases |calls|
  {
    CollectCons(calls, FolderOf, fs);
    MapCons(ViewOf, calls);
    AllPresentableTail(calls);
    var c := calls[0];
    var v := ViewOf(c);
    if |calls| == 1 {
      assert Join("\n    ", fs) == fs[0];
      FolderRoundTrip(c.0, c.1, c.2, c.3, Footer);
      FooterStops();
      FoldersLast(fs[0], v, Footer);
      assert Map(ViewOf, calls[1..]) == [];
      assert Map(ViewOf, calls) == [v];
      assert Join("\n    ", fs) + Footer == fs[0] + Footer;
    } else {
      var j := Join("\n    ", fs[1..]);
      assert Join("\n    ", fs) == fs[0] + "\n    " + j;
      FolderRoundTrip(c.0, c.1, c.2, c.3, "\n    " + (j + Footer));
      FoldersRoundTrip(calls[1..], fs[1..]);
      FoldersStep(fs[0], j, v, Map(ViewOf, calls[1..]), Footer);
      assert Join("\n    ", fs) + Footer == fs[0] + "\n    " + j + Footer;
      assert DecodeFolders(Join("\n    ", fs) + Footer) == Some(([v] + Map(ViewOf, calls[1..]), Footer));
    }
  }

  /** Reads a whole document: the header `prelude`, then its body. */
  function DecodeDocument(prelude: string, s: string): (r: Option<seq<FolderView>>)
  {
    var t :- Expect(prelude, s);
    DecodeBody(t)
  }

  /** Reads the part after the header: the folders, if the text goes on
      with a tag rather than with the indentation of the closing tags, then
      the closing tags, with nothing after them. */
  function DecodeBody(t: string): (r: Option<seq<FolderView>>)
  {
    var vs :- if |t| > 1 && t[1] == '<' then DecodeFolders(t) else Some(([], t));
    var u :- Expect(Footer, vs.1);
    if u == [] then Some(vs.0) else None
  }

  lemma BodyWithoutFolders()
    ensures DecodeBody(Footer) == Some([])
  {
    FooterStops();
  }

  lemma BodyWithFolders(j: string, vs: seq<FolderView>)
    requires |j| > 1 && j[1] == '<' && DecodeFolders(j + Footer) == Some((vs, Footer))
    ensures DecodeBody(j + Footer) == Some(vs)
  {
    FooterStops();
  }

  lemma DocumentFrame(prelude: string, j: string, vs: seq<FolderView>)
    requires DecodeBody(j + Footer) == Some(vs)
    ensures DecodeDocument(prelude, prelude + j + Footer) == Some(vs)
  {
    Regroup(prelude, j, Footer);
    ExpectLiteral(prelude, j + Footer);
  }

  /** A document reads back as its folders, in template order, each holding
      the markers of its rows in row order. */
  lemma DocumentRoundTrip(prelude: string, calls: seq<FolderCall>)
    requires AllPresentable(calls)
    ensures Document(prelude, calls).Ok?
    ensures DecodeDocument(prelude, Document(prelude, calls).value) == Some(Map(ViewOf, calls))
  {
    forall i | 0 <= i < |calls|
      ensures AllHavePlacemarkKeys(calls[i].1)
    {
      assert AllReadable(calls[i].1);
    }
    CollectOk(calls, FolderOf);
    var fs := Collect(calls, FolderOf).value;
    var j := Join("\n    ", fs);
    if calls != [] {
      FoldersRoundTrip(calls, fs);
      CollectCons(calls, FolderOf, fs);
      FolderOpens(calls[0]);
      JoinHead("\n    ", fs, [], 1);
      assert j + [] == j;
      BodyWithFolders(j, Map(ViewOf, calls));
    } else {
      assert Map(ViewOf, calls) == [];
      assert j + Footer == Footer;
      BodyWithoutFolders();
    }
    DocumentFrame(prelude, j, Map(ViewOf, calls));
  }
}
