/** The KML renderers of run.py (lines 28-64) and the assembly of the seven
    layer folders into the document (lines 213-221). Every renderer builds
    its text by string formatting; the three lookups `row['Name']`,
    `row["Longitude"]` and `row["Latitude"]` are the only ways a renderer
    can fail, and a failure stops the whole document. */
module Renderer {
  import opened Text
  import opened Rows
  import opened Sanitizer
  import opened DisplayFields

  const NameKey: string := "Name"
  const LongitudeKey: string := "Longitude"
  const LatitudeKey: string := "Latitude"

  /** The keys `Placemark` looks up, in the order it looks them up. */
  const PlacemarkKeys: seq<string> := [NameKey, LongitudeKey, LatitudeKey]

  /** `Name` (run.py:28-29). */
  function NameTag(text: string): string
  {
    "<name>" + Clean(text) + "</name>"
  }

  /** `Data` (run.py:31-34): both the name and the value are cleaned. */
  function DataTag(name: string, value: string): string
  {
    "<Data name=\"" + Clean(name) + "\"><value>" + Clean(value) + "</value></Data>"
  }

  /** The `(f, row[f]) for f in fields if f in row` pairs that `ExtendedData`
      and `Description` both iterate over. */
  function Entries(row: Row, fields: seq<string>): seq<Entry>
  {
    if fields == [] then []
    else (if fields[0] in row then [(fields[0], row[fields[0]])] else []) + Entries(row, fields[1..])
  }

  /** The names of a list of pairs, in order. */
  function Keys(es: seq<Entry>): (r: seq<string>)
    ensures |r| == |es|
    ensures forall i :: 0 <= i < |es| ==> r[i] == es[i].0
  {
    seq(|es|, i requires 0 <= i < |es| => es[i].0)
  }

  /** The entries are the listed fields present in the row, in list order,
      each with the row's value for it. */
  lemma {:induction false} EntriesSpec(row: Row, fields: seq<string>)
    ensures Keys(Entries(row, fields)) == SelectFields(fields, row.Keys)
    ensures forall i :: 0 <= i < |Entries(row, fields)| ==>
              Entries(row, fields)[i].0 in row && Entries(row, fields)[i].1 == row[Entries(row, fields)[i].0]
  {
    if fields != [] {
      EntriesSpec(row, fields[1..]);
      var rest := Entries(row, fields[1..]);
      if fields[0] in row {
        var es := [(fields[0], row[fields[0]])] + rest;
        assert Entries(row, fields) == es;
        assert Keys(es) == [fields[0]] + Keys(rest);
      } else {
        assert Entries(row, fields) == rest;
      }
    }
  }

  /** A field gets an entry exactly when it is listed and present in the row;
      the entries follow the list's order and repeat no field the list does
      not repeat. */
  lemma EntriesCover(row: Row, fields: seq<string>)
    ensures forall f :: f in Keys(Entries(row, fields)) <==> f in fields && f in row
    ensures IsSubsequence(Keys(Entries(row, fields)), fields)
    ensures Distinct(fields) ==> Distinct(Keys(Entries(row, fields)))
  {
    EntriesSpec(row, fields);
    SelectFieldsSpec(fields, row.Keys);
  }

  function DataOf(e: Entry): string
  {
    DataTag(e.0, e.1)
  }

  /** `ExtendedData` (run.py:36-37). */
  function ExtendedData(row: Row, fields: seq<string>): string
  {
    "<ExtendedData>" + Join("", Map(DataOf, Entries(row, fields))) + "</ExtendedData>"
  }

  /** `DescriptionPart` (run.py:39-42). */
  function DescriptionPart(name: string, value: string): string
  {
    Clean(name) + ": " + Clean(value)
  }

  function DescriptionPartOf(e: Entry): string
  {
    DescriptionPart(e.0, e.1)
  }

  /** `Description` (run.py:44-45). */
  function Description(row: Row, fields: seq<string>): string
  {
    "<description><![CDATA[" + Join("<br>", Map(DescriptionPartOf, Entries(row, fields))) + "]]></description>"
  }

  /** `styleUrl` (run.py:47-48): the style reference goes in unchanged. */
  function StyleUrl(url: string): string
  {
    "<styleUrl>" + url + "</styleUrl>"
  }

  /** `Point` (run.py:50-51): the coordinates go in unchanged. */
  function Point(longitude: string, latitude: string): string
  {
    "<Point><coordinates>" + longitude + "," + latitude + ",0</coordinates></Point>"
  }

  predicate HasPlacemarkKeys(row: Row)
  {
    NameKey in row && LongitudeKey in row && LatitudeKey in row
  }

  /** The first key `Placemark` looks up that the row lacks: the element
      list is evaluated in order, so a missing `Name` is reported before a
      missing `Longitude`, and that before a missing `Latitude`. */
  function MissingKey(row: Row): (r: Option<string>)
    ensures r.None? <==> HasPlacemarkKeys(row)
    ensures r.Some? ==>
              exists j :: 0 <= j < |PlacemarkKeys| && r.value == PlacemarkKeys[j] && r.value !in row &&
                          forall k :: 0 <= k < j ==> PlacemarkKeys[k] in row
  {
    if NameKey !in row then
      assert PlacemarkKeys[0] == NameKey;
      Some(NameKey)
    else if LongitudeKey !in row then
      assert PlacemarkKeys[1] == LongitudeKey;
      Some(LongitudeKey)
    else if LatitudeKey !in row then
      assert PlacemarkKeys[2] == LatitudeKey;
      Some(LatitudeKey)
    else None
  }

  /** The text `Placemark` builds from its five elements, one per line. */
  function PlacemarkText(name: string, description: string, style: string, data: string, point: string): string
  {
    "<Placemark>\n" + Join("\n", [name, description, style, data, point]) + "\n</Placemark>"
  }

  /** A placemark's text followed by `rest`, read from the front. */
  lemma PlacemarkTextThen(n: string, d: string, st: string, e: string, p: string, rest: string)
    ensures PlacemarkText(n, d, st, e, p) + rest ==
            "<Placemark>\n" + (n + ("\n" + (d + ("\n" + (st + ("\n" + (e + ("\n" + (p + ("\n</Placemark>" + rest))))))))))
  {
    var t := "\n</Placemark>" + rest;
    JoinFiveThen("\n", n, d, st, e, p, t);
    Regroup3("<Placemark>\n", Join("\n", [n, d, st, e, p]), "\n</Placemark>", rest);
  }

  /** `Placemark` (run.py:53-60). */
  function Placemark(row: Row, fields: seq<string>, icon: string): (r: Outcome<string>)
    ensures r.Ok? <==> HasPlacemarkKeys(row)
    ensures r.KeyError? ==> MissingKey(row) == Some(r.key)
  {
    match MissingKey(row)
    case Some(k) => KeyError(k)
    case None =>
      Ok(PlacemarkText(NameTag(row[NameKey]), Description(row, fields), StyleUrl(icon),
                       ExtendedData(row, fields), Point(row[LongitudeKey], row[LatitudeKey])))
  }

  predicate AllHavePlacemarkKeys(rows: seq<Row>)
  {
    forall i :: 0 <= i < |rows| ==> HasPlacemarkKeys(rows[i])
  }

  /** `Folder` (run.py:62-64): the placemark list comprehension stops at the
      first row that lacks a key. */
  function Folder(name: string, rows: seq<Row>, fields: seq<string>, style: string): (r: Outcome<string>)
    ensures r.Ok? <==> AllHavePlacemarkKeys(rows)
  {
    var ps :- Placemarks(rows, fields, style);
    Ok("\n<Folder>\n<name>" + name + "</name>\n" + Join("\n\n", ps) + "\n</Folder>")
  }

  /** The placemark list comprehension of `Folder`. */
  function Placemarks(rows: seq<Row>, fields: seq<string>, style: string): (r: Outcome<seq<string>>)
    ensures r.Ok? <==> AllHavePlacemarkKeys(rows)
  {
    CollectOk(rows, (row: Row) => Placemark(row, fields, style));
    Collect(rows, (row: Row) => Placemark(row, fields, style))
  }

  /** A failing folder reports the first missing key of the first row that
      lacks one. */
  lemma FolderFirstError(name: string, rows: seq<Row>, fields: seq<string>, style: string)
    requires Folder(name, rows, fields, style).KeyError?
    ensures exists i :: 0 <= i < |rows| && MissingKey(rows[i]) == Some(Folder(name, rows, fields, style).key) &&
                        forall j :: 0 <= j < i ==> HasPlacemarkKeys(rows[j])
  {
    var f := (row: Row) => Placemark(row, fields, style);
    assert Collect(rows, f).KeyError? && Collect(rows, f).key == Folder(name, rows, fields, style).key;
    CollectFirstError(rows, f);
  }

  /** A layer without rows still gets its folder, with a name and no placemark. */
  lemma EmptyFolder(name: string, fields: seq<string>, style: string)
    ensures Folder(name, [], fields, style) == Ok("\n<Folder>\n<name>" + name + "</name>\n\n</Folder>")
  {
    var head := "\n<Folder>\n<name>" + name;
    assert Join("\n\n", []) == "";
    assert head + "</name>\n" + "" + "\n</Folder>" == head + "</name>\n\n</Folder>";
  }

  /** The seven layers the document shows, in document order, each with its
      default style (run.py:213-219). */
  const KnownLayers: seq<Entry> := [
    ("Flatwater Access Ramps", "#icon-1899-0288D1"),
    ("Class I Access Ramps", "#icon-1899-FF5252-labelson"),
    ("Camping Sites", "#icon-1765-0F9D58-labelson"),
    ("Outfitters", "#icon-1536-F9A825-labelson"),
    ("Food and Convenience Services", "#icon-1577-795548-labelson"),
    ("Sightseeing Opportunities", "#icon-1535-9C27B0-labelson"),
    ("USGS River Gauges", "#icon-1502-000000")
  ]

  /** The arguments of one `Folder(...)` call of the template: the folder's
      name, its rows, its display fields and its style. */
  type FolderCall = (string, seq<Row>, seq<string>, string)

  function FolderOf(call: FolderCall): Outcome<string>
  {
    Folder(call.0, call.1, call.2, call.3)
  }

  /** Every folder opens with a line break, its tag and the start of its name. */
  lemma FolderOpens(call: FolderCall)
    requires FolderOf(call).Ok?
    ensures "\n<Folder>\n<name>" <= FolderOf(call).value
    ensures |FolderOf(call).value| > 1 && FolderOf(call).value[1] == '<'
  {
    var ps := Placemarks(call.1, call.2, call.3).value;
    var open := "\n<Folder>\n<name>";
    var named := open + call.0;
    var headed := named + "</name>\n";
    var body := headed + Join("\n\n", ps);
    assert FolderOf(call).value == body + "\n</Folder>";
    PrefixChar(open, call.0, 1);
    PrefixChar(named, "</name>\n", 1);
    PrefixChar(headed, Join("\n\n", ps), 1);
    PrefixChar(body, "\n</Folder>", 1);
    ConcatKeepsPrefix(open, open, call.0);
    ConcatKeepsPrefix(open, named, "</name>\n");
    ConcatKeepsPrefix(open, headed, Join("\n\n", ps));
    ConcatKeepsPrefix(open, body, "\n</Folder>");
  }

  /** What follows the last folder (run.py:220-221). */
  const Footer: string := "\n  </Document>\n</kml>\n"

  /** The document of run.py:101-221: the fixed header `prelude`, the
      folders of `calls` separated by the template's line breaks, and the
      closing tags. The template's placeholders are evaluated in order, so
      the first folder that fails stops the document. */
  function Document(prelude: string, calls: seq<FolderCall>): (r: Outcome<string>)
    ensures r.Ok? <==> forall i :: 0 <= i < |calls| ==> AllHavePlacemarkKeys(calls[i].1)
  {
    CollectOk(calls, FolderOf);
    var fs :- Collect(calls, FolderOf);
    Ok(prelude + Join("\n    ", fs) + Footer)
  }
}
