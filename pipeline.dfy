/** The top level of run.py (lines 73-221): the downloaded CSV rows are
    sanitized, grouped by `Layer`, given their display fields, and rendered
    as the seven folders of the KML document. */
module Pipeline {
  import opened Text
  import opened Rows
  import opened Sanitizer
  import opened Grouper
  import opened DisplayFields
  import opened Renderer
  import opened Decoder

  /** The folder call the template makes for `layer` with the state the
      loops leave behind: `layer_rows[name]` is a `defaultdict(list)` lookup,
      so a layer without rows gets `[]`, and the display fields come from
      `layer_display_fields.get(name, FIELDS)` (run.py:213-219). */
  function CallOf(groups: map<string, seq<Row>>, display: map<string, seq<string>>, layer: Entry): FolderCall
  {
    (layer.0,
     if layer.0 in groups then groups[layer.0] else [],
     if layer.0 in display then display[layer.0] else Fields,
     layer.1)
  }

  /** The same call stated directly in terms of the sanitized rows. */
  function LayerCall(rows: seq<Row>, layer: Entry): FolderCall
  {
    var layerRows := RowsOfLayer(rows, layer.0);
    (layer.0, layerRows, DisplayFieldsFor(layerRows), layer.1)
  }

  function CallsFor(rows: seq<Row>, layers: seq<Entry>): (r: seq<FolderCall>)
    ensures |r| == |layers|
    ensures forall j :: 0 <= j < |layers| ==> r[j] == LayerCall(rows, layers[j])
  {
    seq(|layers|, j requires 0 <= j < |layers| => LayerCall(rows, layers[j]))
  }

  /** The document run.py writes for the sanitized `rows`: a row without a
      `Layer` stops the run during grouping, otherwise the seven folders are
      rendered in template order. */
  function Render(prelude: string, rows: seq<Row>): Outcome<string>
  {
    if !AllHaveLayer(rows) then KeyError(LayerKey) else Document(prelude, CallsFor(rows, KnownLayers))
  }

  /** run.py:73-221 with the downloaded rows `raw` and the template's fixed
      header `prelude`: sanitizing, the grouping loop, the two display-field
      loops, and the document. */
  method Run(prelude: string, raw: seq<RawRow>) returns (r: Outcome<string>)
    ensures r == Render(prelude, CleanRows(raw))
  {
    var rows := CleanRows(raw);
    var grouped := GroupByLayer(rows);
    if grouped.KeyError? {
      return KeyError(grouped.key);
    }
    var groups := grouped.value;
    var seen := CollectSeenFields(groups);
    var display := ComputeDisplayFields(seen);
    var calls := seq(|KnownLayers|, j requires 0 <= j < |KnownLayers| => CallOf(groups, display, KnownLayers[j]));
    forall j | 0 <= j < |KnownLayers|
      ensures calls[j] == LayerCall(rows, KnownLayers[j])
    {
      var name := KnownLayers[j].0;
      if name !in groups {
        assert RowsOfLayer(rows, name) == [];
        assert NonBlankKeys([]) == {};
      }
    }
    assert calls == CallsFor(rows, KnownLayers);
    r := Document(prelude, calls);
  }

  /** A layer some folder of `layers` shows. */
  predicate Shown(layers: seq<Entry>, layer: string)
  {
    exists j :: 0 <= j < |layers| && layers[j].0 == layer
  }

  /** Every row of a shown layer has the keys a placemark needs. */
  predicate Placeable(rows: seq<Row>, layers: seq<Entry>)
  {
    forall i :: 0 <= i < |rows| && LayerKey in rows[i] && Shown(layers, rows[i][LayerKey]) ==> HasPlacemarkKeys(rows[i])
  }

  /** The members of a layer's rows are exactly the rows of that layer. */
  lemma RowsOfLayerMembers(rows: seq<Row>, layer: string, x: Row)
    ensures x in RowsOfLayer(rows, layer) <==> x in rows && InLayer(x, layer)
  {
    RowsOfLayerSound(rows, layer);
    if x in RowsOfLayer(rows, layer) {
      SubsequenceMembers(RowsOfLayer(rows, layer), rows, x);
    }
    if x in rows && InLayer(x, layer) {
      var i :| 0 <= i < |rows| && rows[i] == x;
      RowPlacement(rows, i);
    }
  }

  /** The folders of `layers` render exactly when every row of a shown layer
      has the placemark keys. */
  lemma FoldersOk(prelude: string, rows: seq<Row>, layers: seq<Entry>)
    ensures Document(prelude, CallsFor(rows, layers)).Ok? <==> Placeable(rows, layers)
  {
    var calls := CallsFor(rows, layers);
    if Placeable(rows, layers) {
      forall j, x | 0 <= j < |calls| && x in calls[j].1
        ensures HasPlacemarkKeys(x)
      {
        RowsOfLayerMembers(rows, layers[j].0, x);
        var i :| 0 <= i < |rows| && rows[i] == x;
        assert Shown(layers, rows[i][LayerKey]);
      }
    }
    if Document(prelude, calls).Ok? {
      forall i | 0 <= i < |rows| && LayerKey in rows[i] && Shown(layers, rows[i][LayerKey])
        ensures HasPlacemarkKeys(rows[i])
      {
        var j :| 0 <= j < |layers| && layers[j].0 == rows[i][LayerKey];
        RowsOfLayerMembers(rows, layers[j].0, rows[i]);
        assert AllHavePlacemarkKeys(calls[j].1);
      }
    }
  }

  /** The run produces a document exactly when every row has a `Layer` and
      every row of a shown layer has a `Name`, a `Longitude` and a
      `Latitude`; rows of other layers may lack them. */
  lemma RenderOk(prelude: string, rows: seq<Row>)
    ensures Render(prelude, rows).Ok? <==> AllHaveLayer(rows) && Placeable(rows, KnownLayers)
  {
    FoldersOk(prelude, rows, KnownLayers);
  }

  /** Removing a row of a layer no folder shows leaves every folder call as
      it was. */
  lemma CallsIgnoreUnshown(a: seq<Row>, row: Row, b: seq<Row>, layers: seq<Entry>)
    requires LayerKey in row && !Shown(layers, row[LayerKey])
    ensures CallsFor(a + [row] + b, layers) == CallsFor(a + b, layers)
  {
    forall j | 0 <= j < |layers|
      ensures RowsOfLayer(a + [row] + b, layers[j].0) == RowsOfLayer(a + b, layers[j].0)
    {
      var name := layers[j].0;
      RowsOfLayerAppend(a + [row], b, name);
      RowsOfLayerAppend(a, [row], name);
      RowsOfLayerAppend(a, b, name);
      assert RowsOfLayer([row], name) == [] by {
        assert [row][..0] == [];
      }
    }
  }

  lemma AllHaveLayerInsert(a: seq<Row>, row: Row, b: seq<Row>)
    requires LayerKey in row
    ensures AllHaveLayer(a + [row] + b) <==> AllHaveLayer(a + b)
  {
    var with := a + [row] + b;
    assert forall i :: 0 <= i < |a| ==> with[i] == (a + b)[i];
    assert forall i :: |a| <= i < |a + b| ==> with[i + 1] == (a + b)[i];
    if AllHaveLayer(a + b) {
      forall i | 0 <= i < |with|
        ensures LayerKey in with[i]
      {
        if i > |a| {
          assert with[i] == (a + b)[i - 1];
        }
      }
    }
  }

  /** A row whose `Layer` the template does not show changes nothing: it
      lands in a bucket no folder reads. */
  lemma RenderIgnoresUnknown(prelude: string, a: seq<Row>, row: Row, b: seq<Row>)
    requires LayerKey in row && !Shown(KnownLayers, row[LayerKey])
    ensures Render(prelude, a + [row] + b) == Render(prelude, a + b)
  {
    CallsIgnoreUnshown(a, row, b, KnownLayers);
    AllHaveLayerInsert(a, row, b);
  }

  /** Names and styles without markup. */
  predicate Plain(layers: seq<Entry>)
  {
    forall j :: 0 <= j < |layers| ==> '<' !in layers[j].0 && '<' !in layers[j].1
  }

  /** The template's names and styles carry no markup, checked one layer at
      a time. */
  lemma PlainLayer(j: nat)
    requires j < |KnownLayers|
    ensures '<' !in KnownLayers[j].0 && '<' !in KnownLayers[j].1
  {
  }

  lemma KnownLayersPlain()
    ensures Plain(KnownLayers)
  {
    forall j | 0 <= j < |KnownLayers|
      ensures '<' !in KnownLayers[j].0 && '<' !in KnownLayers[j].1
    {
      PlainLayer(j);
    }
  }

  /** An empty layer is rendered as an empty folder with the full `FIELDS`
      as its display fields. */
  lemma EmptyLayer(rows: seq<Row>, layers: seq<Entry>, j: nat)
    requires j < |layers| && RowsOfLayer(rows, layers[j].0) == []
    ensures CallsFor(rows, layers)[j].2 == Fields
    ensures FolderOf(CallsFor(rows, layers)[j]) == Ok("\n<Folder>\n<name>" + layers[j].0 + "</name>\n\n</Folder>")
  {
    assert NonBlankKeys([]) == {};
    EmptyFolder(layers[j].0, Fields, layers[j].1);
  }

  lemma LayerRowsReadable(rows: seq<Row>, layers: seq<Entry>, j: nat)
    requires j < |layers|
    requires forall i :: 0 <= i < |rows| && LayerKey in rows[i] && Shown(layers, rows[i][LayerKey]) ==> Readable(rows[i])
    ensures AllReadable(RowsOfLayer(rows, layers[j].0))
  {
    var layerRows := RowsOfLayer(rows, layers[j].0);
    forall k | 0 <= k < |layerRows|
      ensures Readable(layerRows[k])
    {
      RowsOfLayerMembers(rows, layers[j].0, layerRows[k]);
      var i :| 0 <= i < |rows| && rows[i] == layerRows[k];
      assert Shown(layers, rows[i][LayerKey]);
    }
  }

  /** The fallback to `FIELDS` reaches only layers without rows: every row of
      a layer with a non-empty name has that name as a non-empty value, so a
      layer with rows always has an entry in `layer_display_fields`. */
  lemma FallbackOnlyWhenEmpty(rows: seq<Row>, layers: seq<Entry>, j: nat)
    requires j < |layers| && layers[j].0 != "" && RowsOfLayer(rows, layers[j].0) != []
    ensures CallsFor(rows, layers)[j].2 == SelectFields(Fields, NonBlankKeys(RowsOfLayer(rows, layers[j].0)))
  {
    var layerRows := RowsOfLayer(rows, layers[j].0);
    RowsOfLayerSound(rows, layers[j].0);
    assert layerRows[0] in layerRows;
    assert InLayer(layerRows[0], layers[j].0);
    NonBlankKeysSpec(layerRows, LayerKey);
  }

  /** Reading the document back gives the folders in template order, each
      with its name and one marker per row of its layer, in row order,
      showing that layer's display fields. */
  lemma FoldersRoundTrip(prelude: string, rows: seq<Row>, layers: seq<Entry>)
    requires Plain(layers)
    requires forall i :: 0 <= i < |rows| && LayerKey in rows[i] && Shown(layers, rows[i][LayerKey]) ==> Readable(rows[i])
    ensures Document(prelude, CallsFor(rows, layers)).Ok?
    ensures DecodeDocument(prelude, Document(prelude, CallsFor(rows, layers)).value) == Some(Map(ViewOf, CallsFor(rows, layers)))
    ensures forall j :: 0 <= j < |layers| ==>
              var layerRows := RowsOfLayer(rows, layers[j].0);
              Map(ViewOf, CallsFor(rows, layers))[j] ==
              FolderView(layers[j].0, Markers(DisplayFieldsFor(layerRows), layers[j].1, layerRows))
  {
    var calls := CallsFor(rows, layers);
    forall j | 0 <= j < |calls|
      ensures Presentable(calls[j])
    {
      LayerRowsReadable(rows, layers, j);
    }
    DocumentRoundTrip(prelude, calls);
    forall j | 0 <= j < |layers|
      ensures Map(ViewOf, calls)[j] ==
              FolderView(layers[j].0, Markers(DisplayFieldsFor(RowsOfLayer(rows, layers[j].0)), layers[j].1, RowsOfLayer(rows, layers[j].0)))
    {
      assert calls[j] == LayerCall(rows, layers[j]);
      assert Map(ViewOf, calls)[j] == ViewOf(calls[j]);
    }
  }

  /** The number of markers across the folders. */
  function MarkerTotal(views: seq<FolderView>): nat
  {
    if views == [] then 0 else |views[0].markers| + MarkerTotal(views[1..])
  }

  /** Each folder holds as many markers as its layer has rows. */
  lemma {:induction false} MarkerTotalSizes(rows: seq<Row>, layers: seq<Entry>)
    ensures MarkerTotal(Map(ViewOf, CallsFor(rows, layers))) == SumSizes(rows, Keys(layers))
    decreases |layers|
  {
    if layers != [] {
      var calls := CallsFor(rows, layers);
      var views := Map(ViewOf, calls);
      MapCons(ViewOf, calls);
      assert views[1..] == Map(ViewOf, calls[1..]);
      assert calls[1..] == CallsFor(rows, layers[1..]);
      assert |views[0].markers| == |RowsOfLayer(rows, Keys(layers)[0])|;
      assert Keys(layers)[1..] == Keys(layers[1..]);
      MarkerTotalSizes(rows, layers[1..]);
    }
  }

  /** When every row belongs to a shown layer and the layers are shown once
      each, the document shows every row exactly once: the folders' markers
      add up to the number of rows. */
  lemma EveryRowShown(prelude: string, rows: seq<Row>, layers: seq<Entry>)
    requires Plain(layers) && Distinct(Keys(layers)) && AllHaveLayer(rows)
    requires forall i :: 0 <= i < |rows| ==> Shown(layers, rows[i][LayerKey]) && Readable(rows[i])
    ensures Document(prelude, CallsFor(rows, layers)).Ok?
    ensures DecodeDocument(prelude, Document(prelude, CallsFor(rows, layers)).value).Some?
    ensures MarkerTotal(DecodeDocument(prelude, Document(prelude, CallsFor(rows, layers)).value).value) == |rows|
  {
    FoldersRoundTrip(prelude, rows, layers);
    MarkerTotalSizes(rows, layers);
    forall i | 0 <= i < |rows|
      ensures rows[i][LayerKey] in Keys(layers)
    {
      var j :| 0 <= j < |layers| && layers[j].0 == rows[i][LayerKey];
      assert Keys(layers)[j] == rows[i][LayerKey];
    }
    GroupSizesSum(rows, Keys(layers));
  }

  /** The seven layer names differ (they even differ in length). */
  lemma LayerNamesDistinct()
    ensures Distinct(Keys(KnownLayers))
  {
    assert forall i, j :: 0 <= i < j < |KnownLayers| ==> |KnownLayers[i].0| != |KnownLayers[j].0|;
  }

  /** The template's document reads back as its seven folders; with every row
      in a shown layer, the markers number the rows. */
  lemma RenderRoundTrip(prelude: string, rows: seq<Row>)
    requires AllHaveLayer(rows)
    requires forall i :: 0 <= i < |rows| && Shown(KnownLayers, rows[i][LayerKey]) ==> Readable(rows[i])
    ensures Render(prelude, rows).Ok?
    ensures DecodeDocument(prelude, Render(prelude, rows).value) == Some(Map(ViewOf, CallsFor(rows, KnownLayers)))
    ensures (forall i :: 0 <= i < |rows| ==> Shown(KnownLayers, rows[i][LayerKey])) ==>
              MarkerTotal(Map(ViewOf, CallsFor(rows, KnownLayers))) == |rows|
  {
    KnownLayersPlain();
    FoldersRoundTrip(prelude, rows, KnownLayers);
    if forall i :: 0 <= i < |rows| ==> Shown(KnownLayers, rows[i][LayerKey]) {
      LayerNamesDistinct();
      EveryRowShown(prelude, rows, KnownLayers);
    }
  }

  /** The views of a document with a single row: the row's folder holds its
      marker, every other folder is empty. */
  lemma SingleRowViews(row: Row, layers: seq<Entry>, k: nat)
    requires k < |layers| && InLayer(row, layers[k].0) && Distinct(Keys(layers))
    ensures forall j :: 0 <= j < |layers| && j != k ==> Map(ViewOf, CallsFor([row], layers))[j] == FolderView(layers[j].0, [])
    ensures Map(ViewOf, CallsFor([row], layers))[k] == FolderView(layers[k].0, [MarkerOf(DisplayFieldsFor([row]), layers[k].1, row)])
  {
    forall j | 0 <= j < |layers| && j != k
      ensures Map(ViewOf, CallsFor([row], layers))[j] == FolderView(layers[j].0, [])
    {
      assert Keys(layers)[j] != Keys(layers)[k];
      SingleRowView(row, layers[j]);
    }
    SingleRowView(row, layers[k]);
  }

  /** The folder of one layer in a one-row document: the row's marker if the
      row is in that layer, nothing otherwise. */
  lemma SingleRowView(row: Row, layer: Entry)
    ensures ViewOf(LayerCall([row], layer)) ==
            FolderView(layer.0, if InLayer(row, layer.0) then [MarkerOf(DisplayFieldsFor([row]), layer.1, row)] else [])
  {
    assert [row][..0] == [];
    if InLayer(row, layer.0) {
      assert RowsOfLayer([row], layer.0) == [row];
      MapSingle((r: Row) => MarkerOf(DisplayFieldsFor([row]), layer.1, r), row);
    } else {
      assert RowsOfLayer([row], layer.0) == [];
    }
  }

  /** A document made from one row of a shown layer reads back as seven
      folders: the row's own folder holds exactly its marker, and the other
      six are empty. */
  lemma SingleRow(prelude: string, row: Row, k: nat)
    requires k < |KnownLayers| && InLayer(row, KnownLayers[k].0) && Readable(row)
    ensures Render(prelude, [row]).Ok?
    ensures var views := DecodeDocument(prelude, Render(prelude, [row]).value);
            views.Some? && |views.value| == |KnownLayers| &&
            (forall j :: 0 <= j < |KnownLayers| && j != k ==> views.value[j] == FolderView(KnownLayers[j].0, [])) &&
            views.value[k] == FolderView(KnownLayers[k].0, [MarkerOf(DisplayFieldsFor([row]), KnownLayers[k].1, row)])
  {
    RenderRoundTrip(prelude, [row]);
    LayerNamesDistinct();
    SingleRowViews(row, KnownLayers, k);
  }

  // ---------------------------------------------------------------------
  // A worked example: one ramp, from its CSV record to its marker.

  /** The ramp's CSV record, its columns in header order. */
  const RossLandingRaw: RawRow := [("Name", "Ross's Landing"), ("Layer", "Flatwater Access Ramps"),
                                   ("Longitude", "-85.3"), ("Latitude", "35.05"), ("Bathroom?", "Yes")]

  /** The same record once sanitized. */
  const RossLanding: Row := map["Name" := "Ross's Landing", "Layer" := "Flatwater Access Ramps",
                                "Longitude" := "-85.3", "Latitude" := "35.05", "Bathroom?" := "Yes"]

  /** Column names and values of the example that `clean` leaves alone. */
  lemma CleanKeepsWord(k: string)
    requires k == "Name" || k == "Layer" || k == "Longitude" || k == "Latitude" || k == "Bathroom?" || k == "Yes"
    ensures Clean(k) == k
  {
    assert AllAllowed(k) && k[0] != ' ' && k[|k| - 1] != ' ';
    CleanFixedPoint(k);
  }

  /** Values of the example that `strip` leaves alone. */
  lemma StripKeepsWord(v: string)
    requires v == "Ross's Landing" || v == "Flatwater Access Ramps" || v == "-85.3" || v == "35.05" || v == "Yes"
    ensures Strip(v) == v
  {
    assert Trimmed(v);
    StripFixedPoint(v);
  }

  /** `clean` drops the apostrophe of the ramp's name. */
  lemma CleanDropsApostrophe(s: string, t: string)
    requires s == "Ross's Landing" && t == "Rosss Landing"
    ensures Clean(s) == t
  {
    assert Filter(s) == t by {
      assert s == "Ross" + ['\''] + "s Landing";
      assert t == "Ross" + "s Landing";
      FilterDropsDisallowed("Ross", '\'', "s Landing");
    }
    assert Strip(t) == t by {
      assert Trimmed(t);
      StripFixedPoint(t);
    }
  }

  /** The record's pairs are already clean and stripped. */
  lemma RossLandingItems(raw: RawRow)
    requires raw == RossLandingRaw
    ensures CleanItems(raw) == raw
  {
    forall i | 0 <= i < |raw|
      ensures Clean(raw[i].0) == raw[i].0 && Strip(raw[i].1) == raw[i].1
    {
      CleanKeepsWord(raw[i].0);
      StripKeepsWord(raw[i].1);
    }
    CleanItemsKeep(raw);
  }

  /** The record's columns are distinct, so its dictionary holds every pair. */
  lemma RossLandingDict(raw: RawRow, row: Row)
    requires raw == RossLandingRaw && row == RossLanding
    ensures DictOf(raw) == row
  {
    DictOfKeys(raw);
    forall i | 0 <= i < |raw|
      ensures raw[i].0 in DictOf(raw) && DictOf(raw)[raw[i].0] == raw[i].1
    {
      DictOfLastWins(raw, i);
    }
    forall k
      ensures k in DictOf(raw) <==> k in row
    {
      if k in row {
        assert k == raw[0].0 || k == raw[1].0 || k == raw[2].0 || k == raw[3].0 || k == raw[4].0;
        assert HasKey(raw, k);
      }
    }
  }

  /** Sanitizing the record changes nothing: its column names are clean and
      its values stripped already. */
  lemma RossLandingSanitized(raw: RawRow, row: Row)
    requires raw == RossLandingRaw && row == RossLanding
    ensures CleanDict(raw) == row
  {
    RossLandingItems(raw);
    RossLandingDict(raw, row);
  }

  /** Only `Bathroom?` of `FIELDS` has a value in the ramp's layer. */
  lemma RossLandingDisplay(row: Row)
    requires row == RossLanding
    ensures DisplayFieldsFor([row]) == ["Bathroom?"]
  {
    var seen := NonBlankKeys([row]);
    assert [row][..0] == [];
    assert NonBlankKeys([]) == {};
    assert seen == NonBlankKeys([]) + NonBlankOf(row);
    assert seen == {"Name", "Layer", "Longitude", "Latitude", "Bathroom?"};
    FieldsDistinct();
    assert forall g :: g in Fields ==> (g in seen <==> g == "Bathroom?");
    SelectOnly(Fields, seen, "Bathroom?");
  }

  /** The marker of a row with the three placemark keys, given the cleaned entries. */
  lemma MarkerParts(row: Row, fields: seq<string>, icon: string, ces: seq<Entry>, name: string, lon: string, lat: string)
    requires HasPlacemarkKeys(row) && Map(CleanEntry, Entries(row, fields)) == ces
    requires Clean(row[NameKey]) == name && row[LongitudeKey] == lon && row[LatitudeKey] == lat
    ensures MarkerOf(fields, icon, row) == Marker(name, ces, icon, ces, lon, lat)
  {
  }

  lemma RossLandingEntries(row: Row, fields: seq<string>)
    requires row == RossLanding && fields == ["Bathroom?"]
    ensures Entries(row, fields) == [("Bathroom?", "Yes")]
  {
    assert fields[1..] == [];
  }

  /** The example's one entry is already clean. */
  lemma RossLandingCleanEntry(e: Entry)
    requires e == ("Bathroom?", "Yes")
    ensures Map(CleanEntry, [e]) == [e]
  {
    CleanKeepsWord(e.0);
    CleanKeepsWord(e.1);
    MapSingle(CleanEntry, e);
  }

  /** The ramp's name loses its apostrophe. */
  lemma RossLandingName(row: Row, name: string)
    requires row == RossLanding && name == "Rosss Landing"
    ensures Clean(row[NameKey]) == name
  {
    CleanDropsApostrophe(row[NameKey], name);
  }

  /** The ramp's marker under its cleaned name. */
  lemma RossLandingNamedMarker(row: Row, fields: seq<string>, icon: string, name: string)
    requires row == RossLanding && fields == ["Bathroom?"] && name == "Rosss Landing"
    ensures MarkerOf(fields, icon, row) == Marker(name, [("Bathroom?", "Yes")], icon, [("Bathroom?", "Yes")], "-85.3", "35.05")
  {
    var e := ("Bathroom?", "Yes");
    assert Map(CleanEntry, Entries(row, fields)) == [e] by {
      RossLandingEntries(row, fields);
      RossLandingCleanEntry(e);
    }
    assert HasPlacemarkKeys(row) && row[LongitudeKey] == "-85.3" && row[LatitudeKey] == "35.05";
    assert Clean(row[NameKey]) == name by {
      RossLandingName(row, name);
    }
    MarkerParts(row, fields, icon, [e], name, "-85.3", "35.05");
  }

  /** The views of a one-row document whose row is in the first folder. */
  lemma FirstFolderViews(prelude: string, rows: seq<Row>, row: Row, fields: seq<string>)
    requires rows == [row] && InLayer(row, KnownLayers[0].0) && Readable(row) && DisplayFieldsFor([row]) == fields
    ensures Render(prelude, rows).Ok?
    ensures var views := DecodeDocument(prelude, Render(prelude, rows).value);
            views.Some? && |views.value| == |KnownLayers| &&
            views.value[0] == FolderView(KnownLayers[0].0, [MarkerOf(fields, KnownLayers[0].1, row)]) &&
            forall j :: 0 < j < |KnownLayers| ==> views.value[j] == FolderView(KnownLayers[j].0, [])
  {
    SingleRow(prelude, row, 0);
  }

  /** The views of the example's document, stated for the record and its
      sanitized form given as parameters. */
  lemma RossLandingViews(prelude: string, raw: RawRow, row: Row)
    requires raw == RossLandingRaw && row == RossLanding
    ensures Render(prelude, CleanRows([raw])).Ok?
    ensures var views := DecodeDocument(prelude, Render(prelude, CleanRows([raw])).value);
            views.Some? && |views.value| == |KnownLayers| &&
            views.value[0] == FolderView(KnownLayers[0].0, [MarkerOf(["Bathroom?"], KnownLayers[0].1, row)]) &&
            forall j :: 0 < j < |KnownLayers| ==> views.value[j] == FolderView(KnownLayers[j].0, [])
  {
    assert CleanRows([raw]) == [row] by {
      RossLandingSanitized(raw, row);
    }
    assert InLayer(row, KnownLayers[0].0) && Readable(row);
    assert DisplayFieldsFor([row]) == ["Bathroom?"] by {
      RossLandingDisplay(row);
    }
    FirstFolderViews(prelude, CleanRows([raw]), row, ["Bathroom?"]);
  }

  /** The worked example end to end: the record renders as the seven
      folders; the first, "Flatwater Access Ramps", holds one marker, named
      "Rosss Landing" (the apostrophe cleaned out), with `Bathroom?: Yes` as
      its only entry and its coordinates as given; the other six are empty. */
  lemma RossLandingExample(prelude: string)
    ensures Render(prelude, CleanRows([RossLandingRaw])).Ok?
    ensures var views := DecodeDocument(prelude, Render(prelude, CleanRows([RossLandingRaw])).value);
            views.Some? && |views.value| == |KnownLayers| &&
            views.value[0] == FolderView(KnownLayers[0].0,
                                         [Marker("Rosss Landing", [("Bathroom?", "Yes")], KnownLayers[0].1,
                                                 [("Bathroom?", "Yes")], "-85.3", "35.05")]) &&
            forall j :: 0 < j < |KnownLayers| ==> views.value[j] == FolderView(KnownLayers[j].0, [])
  {
    RossLandingViews(prelude, RossLandingRaw, RossLanding);
    RossLandingNamedMarker(RossLanding, ["Bathroom?"], KnownLayers[0].1, "Rosss Landing");
  }
}
