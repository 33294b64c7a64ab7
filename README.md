# Blueways KML export, modelled in Dafny

`run.py` turns a spreadsheet of waterway access points into a KML document. It works in five steps:

1. It reads the spreadsheet as CSV rows.
2. `clean_dict` sanitizes every row.
3. The rows are grouped by their `Layer` column.
4. For every layer it computes the *display fields*: the members of the fixed list `FIELDS` that have a non-empty value in some row of that layer.
5. The template renders seven fixed folders, one per known layer, each holding one `Placemark` per row of its layer.

This project models steps 2-5 and proves what they promise.

Modules, one file each:

- `text.dfy` (`Text`): the string toolkit.
  - `Join` is Python's `str.join`, and `Map` is a list comprehension.
  - It holds subsequence facts and the small literal readers `Expect` and `Until` used by the decoders.
- `rows.dfy` (`Rows`): the row types.
  - A raw CSV record is the list of its `(column, value)` pairs, in `row.items()` order.
  - A sanitized row is a map.
  - `Outcome` stands for a result or the `KeyError` Python raises.
  - `Collect` is a list comprehension whose element expression may raise, so it stops at the first error.
- `sanitizer.dfy` (`Sanitizer`): `clean` and `clean_dict`.
  - Python's `dict(...)` is modelled as "a later pair wins".
  - `str.strip` removes every character for which `str.isspace` holds.
- `grouper.dfy` (`Grouper`): the grouping loop. It is a method with a loop invariant, proved against `RowsOfLayer`, which gives each layer's bucket as a function of the rows.
- `display_fields.dfy` (`DisplayFields`): the two display-field loops, as methods.
  - Their results are stated through `NonBlankKeys`, `SelectFields` and `DisplayFieldsFor`.
  - `DisplayFieldsFor` includes the `.get(layer, FIELDS)` fallback of the template.
- `renderer.dfy` (`Renderer`): `Name`, `Data`, `ExtendedData`, `DescriptionPart`, `Description`, `styleUrl`, `Point`, `Placemark`, `Folder` and the document template.
- `decoder.dfy` (`Decoder`): an independent reader of the KML text.
  - It is the partner the renderers are proved against: reading a rendered document back gives its folders, in template order.
  - Each folder carries its name and one marker per row.
  - Each marker carries the sanitized name, the description entries, the style, the data entries and the two coordinates.
- `pipeline.dfy` (`Pipeline`): the top level.
  - `Run` chains the sanitizer, the grouping method and the two display-field methods, then builds the seven folder calls.
  - It is proved equal to the specification `Render`.
  - The lemmas next to it state when a document is produced, that rows of unknown layers are ignored, what an empty layer renders as, and that the document reads back with every row shown exactly once.

Error behaviour follows the Python evaluation order:

- A row without `Layer` stops the grouping loop with a `KeyError('Layer')`, before anything is rendered.
- A row of a shown layer without `Name`, `Longitude` or `Latitude` stops the document with the `KeyError` of the first of those keys it lacks.
- Rows of other layers are never rendered, so they may lack those keys.

## Model

| member | source | states |
|---|---|---|
| Sanitizer.Filter | run.py:23 | the comprehension keeps only allow-listed characters |
| Sanitizer.FilterAppend | run.py:23 | the comprehension works character by character: filtering a concatenation filters each part |
| Sanitizer.FilterKeepsEveryAllowed | run.py:23 | every allow-listed character of the input survives the comprehension |
| Sanitizer.FilterDropsDisallowed | run.py:23 | a character outside the allow-list is dropped and the allowed text around it is kept as it was |
| Sanitizer.StripLeft | run.py:23 | the leading white space is removed, and nothing after it |
| Sanitizer.StripRight | run.py:23 | the trailing white space is removed, and nothing before it |
| Sanitizer.StripSpec | run.py:23 | `strip()` returns a slice of its input with no white space at either end, having removed only white space |
| Sanitizer.StripFixedPoint | run.py:23 | `strip()` leaves a string unchanged exactly when it has no white space at either end |
| Sanitizer.StripIdempotent | run.py:23 | stripping twice is stripping once |
| Sanitizer.CleanSpec | run.py:22-23 | `clean` output holds only allow-listed characters and has no blank at either end |
| Sanitizer.CleanIsSubsequence | run.py:22-23 | `clean` output is a subsequence of its input: characters are dropped, never added or reordered |
| Sanitizer.CleanFixedPoint | run.py:22-23 | `clean` leaves a string unchanged exactly when it is allow-listed with no blank at either end |
| Sanitizer.CleanIdempotent | run.py:22-23 | cleaning twice is cleaning once |
| Sanitizer.CleanHasNoMarkup | run.py:22-23 | no `<`, `>`, `&`, quote, apostrophe, `]`, `:` or line break survives `clean` |
| Sanitizer.DictOfKeys | run.py:26 | the keys of `dict(pairs)` are exactly the keys of the pairs |
| Sanitizer.DictOfLastWins | run.py:26 | in `dict(pairs)` a key is bound to the value of its last pair |
| Sanitizer.CleanDictKeys | run.py:25-26 | the keys of `clean_dict(row)` are exactly the cleaned column names |
| Sanitizer.CleanDictLastWins | run.py:25-26 | the value of a key is the stripped value of the last column that cleans to that key |
| Sanitizer.CleanDictIsClean | run.py:25-26 | every key is a fixed point of `clean`, and every value a fixed point of `strip` |
| Sanitizer.CleanDictIdempotent | run.py:25-26 | sanitizing any listing of a sanitized record gives the same record |
| Rows.Collect | run.py:63 | a successful comprehension has one result per element |
| Rows.CollectCons | run.py:63 | a successful comprehension is its first element's result followed by the comprehension over the rest |
| Rows.CollectOk | run.py:63 | the comprehension succeeds exactly when every element's expression succeeds |
| Rows.CollectEach | run.py:63 | on success, result `i` is the value of element `i`'s expression |
| Rows.CollectFirstError | run.py:63 | on failure, the error is that of the first element whose expression fails, and all earlier ones succeed |
| Grouper.GroupByLayer | run.py:84-87 | the loop fails with `KeyError('Layer')` exactly when some row lacks `Layer`; otherwise the buckets are exactly the non-empty `RowsOfLayer` |
| Grouper.RowsOfLayerStep | run.py:86-87 | one more row extends its own bucket by itself and leaves every other bucket alone |
| Grouper.RowsOfLayerAppend | run.py:84-87 | grouping the concatenation of two row lists concatenates their buckets |
| Grouper.RowsOfLayerSound | run.py:84-87 | every row of a bucket has that bucket's layer, and the bucket keeps the input order |
| Grouper.RowPlacement | run.py:84-87 | every row sits in the bucket of its layer, after the earlier rows of that layer |
| Grouper.GroupSizesSum | run.py:84-87 | the bucket sizes add up to the number of rows |
| DisplayFields.AddSeenKeys | run.py:91-94 | the key loop for one row adds exactly the row's keys with non-empty values to its layer's set; a layer's set is created only on its first addition; other layers are untouched |
| DisplayFields.CollectSeenFields | run.py:89-94 | a layer has a set exactly when some row of it has a non-empty value, and that set is the keys with a non-empty value in some row of the layer |
| DisplayFields.NonBlankKeysSpec | run.py:89-94 | a key is collected exactly when some row has a non-empty value for it |
| DisplayFields.ComputeDisplayFields | run.py:96-98 | every layer with a seen set gets the selection of `FIELDS` from that set, and no other layer gets an entry |
| DisplayFields.SelectFieldsSpec | run.py:98 | the selection holds exactly the listed fields that were seen, in list order, without repetitions when the list has none |
| DisplayFields.SelectFieldsMonotonic | run.py:98 | seeing more keys only adds fields to the selection, keeping the others in order |
| DisplayFields.SelectOnly | run.py:98 | when exactly one of `FIELDS` was seen, the selection is that field alone |
| DisplayFields.FieldsDistinct | run.py:16 | `FIELDS` repeats no field |
| DisplayFields.DisplayFieldsSpec | run.py:89-98 | for a layer with a non-empty value, a field is displayed iff it is in `FIELDS` and some row of the layer has a non-empty value for it; the list is in `FIELDS` order with no repetitions |
| DisplayFields.DisplayFieldsMonotonic | run.py:89-98 | once a layer has a non-empty value, adding a row only adds display fields |
| DisplayFields.DisplayFieldsFallbackShrinks | run.py:213 | without that condition monotonicity fails: no rows gives all of `FIELDS`, while rows whose only non-empty values lie outside `FIELDS` give none |
| Renderer.EntriesSpec | run.py:36-45 | the `(f, row[f]) for f in fields if f in row` entries are the listed fields present in the row, in list order, each with the row's own value |
| Renderer.EntriesCover | run.py:36-45 | a field has an entry iff it is listed and present; the entries are a subsequence of the list and repeat nothing the list does not repeat |
| Renderer.MissingKey | run.py:55-59 | reports nothing iff the row has `Name`, `Longitude` and `Latitude`, else the first of them it lacks |
| Renderer.PlacemarkTextThen | run.py:54-60 | a placemark is its opening tag, then the five elements on separate lines in order name, description, style, data, point, then its closing tag |
| Renderer.Placemark | run.py:53-60 | rendering succeeds iff the row has the three keys; a failure names the first missing key |
| Renderer.Placemarks | run.py:63 | the placemark comprehension succeeds iff every row has the three keys |
| Renderer.Folder | run.py:62-64 | a folder renders iff every one of its rows has the three keys |
| Renderer.FolderFirstError | run.py:62-64 | a failing folder reports the first missing key of its first row that lacks one |
| Renderer.EmptyFolder | run.py:62-64 | a folder without rows is its name tag followed by an empty line |
| Renderer.Document | run.py:101-221 | the document renders iff every folder's rows have the three keys |
| Decoder.NameRoundTrip | run.py:28-29 | a name element reads back as the cleaned text |
| Decoder.StyleRoundTrip | run.py:47-48 | a style element reads back as the style reference given to it |
| Decoder.DataRoundTrip | run.py:31-34 | a data element reads back as the cleaned name and the cleaned value |
| Decoder.DataListRoundTrip | run.py:37 | the joined data elements read back as the cleaned entries, in order |
| Decoder.ExtendedDataRoundTrip | run.py:36-37 | the metadata block reads back as the cleaned entries of the fields present in the row, in field order |
| Decoder.PartRoundTrip | run.py:39-42 | a description part reads back as the cleaned name and the cleaned value |
| Decoder.PartsRoundTrip | run.py:45 | parts joined by `<br>` read back as the cleaned entries, in order |
| Decoder.DescriptionRoundTrip | run.py:44-45 | the description reads back as the cleaned entries of the fields present in the row, in field order |
| Decoder.PointRoundTrip | run.py:50-51 | a point reads back as the two coordinates, verbatim, when neither holds a comma |
| Decoder.PointAmbiguous | run.py:50-51 | the coordinates are not sanitized: two different coordinate pairs give the same point text |
| Decoder.PlacemarkRoundTrip | run.py:53-60 | a placemark reads back as the row's marker: its five elements in order, each holding what the row gave it |
| Decoder.PlacemarkOpens | run.py:54 | a placemark's text begins with `<Placemark>` and a line break |
| Decoder.PlacemarksRoundTrip | run.py:63 | placemarks joined by an empty line read back as the markers of the rows, in row order |
| Decoder.FolderBody | run.py:63-64 | a folder's placemark text is empty when it has no rows, and otherwise reads back as its rows' markers |
| Decoder.FolderRoundTrip | run.py:62-64 | a folder reads back as its name and one marker per row, in row order |
| Renderer.FolderOpens | run.py:64 | a folder's text begins with a line break, `<Folder>`, another line break and `<name>` |
| Decoder.FooterStops | run.py:220-221 | the closing tags cannot be read as the start of another folder |
| Decoder.FoldersRoundTrip | run.py:213-219 | the folders joined by the template's indentation read back as their views, in order |
| Decoder.DocumentRoundTrip | run.py:101-221 | a rendered document reads back as exactly its folders, in template order, with nothing left over |
| Pipeline.Run | run.py:76-221 | sanitizing, the grouping loop, the two display-field loops and the template give exactly the specification `Render`, including its errors |
| Pipeline.RowsOfLayerMembers | run.py:84-87 | the members of a layer's bucket are exactly the rows of that layer |
| Pipeline.FoldersOk | run.py:213-219 | the folders render iff every row of a shown layer has the three keys |
| Pipeline.RenderOk | run.py:84-221 | a document is produced iff every row has a `Layer` and every row of a shown layer has `Name`, `Longitude` and `Latitude` |
| Pipeline.CallsIgnoreUnshown | run.py:213-219 | a row of a layer no folder shows changes no folder call |
| Pipeline.AllHaveLayerInsert | run.py:86 | inserting a row that has a `Layer` does not change whether all rows have one |
| Pipeline.RenderIgnoresUnknown | run.py:84-221 | removing a row of an unknown layer leaves the document unchanged, wherever that row stood |
| Pipeline.KnownLayersPlain | run.py:213-219 | the seven names and styles contain no markup |
| Pipeline.LayerNamesDistinct | run.py:213-219 | the seven layer names differ from one another |
| Pipeline.EmptyLayer | run.py:213-219 | a layer without rows gets all of `FIELDS` and renders as an empty folder |
| Pipeline.FallbackOnlyWhenEmpty | run.py:213-219 | a shown layer with rows always has its computed display fields, so the fallback only ever reaches empty layers |
| Pipeline.FoldersRoundTrip | run.py:213-221 | the document reads back as one view per shown layer, in template order, each with the layer's name and its rows' markers, in row order |
| Pipeline.MarkerTotalSizes | run.py:213-219 | the markers of the folders number as many as the rows of their layers |
| Pipeline.EveryRowShown | run.py:84-221 | when every row is in a shown layer, the folders together hold exactly one marker per row |
| Pipeline.RenderRoundTrip | run.py:101-221 | the document reads back as the seven folders in template order; when every row is in a shown layer, the markers number the rows |
| Pipeline.SingleRowView | run.py:213-219 | in a one-row document a folder shows the row's marker if the row is in its layer, and nothing otherwise |
| Pipeline.SingleRowViews | run.py:213-219 | with distinct layer names, a one-row document has the row's marker in its own folder and every other folder empty |
| Pipeline.SingleRow | run.py:84-221 | a single readable row of a shown layer renders, and reads back as seven folders of which only its own holds anything: its one marker |
| Pipeline.CleanDropsApostrophe | run.py:22-23 | `clean("Ross's Landing")` is `"Rosss Landing"` |
| Pipeline.RossLandingSanitized | run.py:25-26 | the example record, already clean and stripped, sanitizes to the dictionary of its own columns |
| Pipeline.RossLandingDisplay | run.py:89-98 | a layer whose one row has `Bathroom?` among `FIELDS` displays `Bathroom?` alone |
| Pipeline.RossLandingExample | run.py:22-221 | the example record renders as seven folders; "Flatwater Access Ramps" holds one marker named "Rosss Landing" with the entry `Bathroom?: Yes` and the record's coordinates; the other six folders are empty |

## Left out

- The download (run.py:68-69), the CSV parsing (run.py:73), the JSON dump (run.py:79-80), the prints (run.py:99) and the file and archive writes (run.py:229-233) are I/O. The model starts from the parsed records `raw` and ends with the document text.
- The fixed header of the template (run.py:101-212, and the four spaces that open line 213) declares only static styles. It is a parameter `prelude` of `Run`, `Render` and `DecodeDocument`.
- The commented-out `lxml` pretty printer (run.py:9, 18-20, 226-227) is dead code.
- Dictionary iteration order in the display-field loops is not modelled. The methods process layers and keys in an arbitrary order, and their results do not depend on it.
- Reading `layer_rows[name]` on a `defaultdict` adds an empty entry for an absent layer. Nothing reads `layer_rows` after the template, so the model only returns `[]`.
- A record is a map from strings to strings. `csv.DictReader` (run.py:73) gives `None` for a missing cell and files surplus cells under a `None` key. On such a record `v.strip()` or `clean(k)` (run.py:26) raises, and those records are outside the model.
- Python strings are sequences of code points, modelled as Dafny's `string`. `str.isspace` is modelled by its list of white-space characters.
- Decoder.PlacemarkRoundTrip: holds only for rows whose coordinates contain no comma. `Point` writes the coordinates unsanitized, and `PointAmbiguous` shows that two different coordinate pairs can give the same text.
- Decoder.StyleRoundTrip: requires a style without `<`. The template only passes constants, and `KnownLayersPlain` shows they qualify.
- Pipeline.RenderRoundTrip: requires every row of a shown layer to have the three placemark keys and comma-free coordinates, for the reason given above.

## Behaviour worth knowing

The model follows the code in each of these cases.

- `clean_dict` cleans the column names but only strips the values (run.py:26), although the comment at run.py:75 presents this step as the sanitizing one.
  - Most values are cleaned later, when `Name`, `Data` and `DescriptionPart` render them.
  - The coordinates given to `Point` are never cleaned.
- A row without `Layer` raises `KeyError` in the grouping loop (run.py:86) and stops the run. It is not set aside under an empty key.
- A field gets a metadata entry when it is among the layer's display fields and *present* in the row (`f in row`, run.py:37 and 45), even when this row's value is empty. The "non-blank" condition applies only to the layer as a whole.
- The `.get(layer, FIELDS)` fallback (run.py:213-219) breaks the monotonicity of the display fields in general (`DisplayFieldsFallbackShrinks`). For the seven shown layers it is harmless: a shown layer with rows always has its own entry (`FallbackOnlyWhenEmpty`).
