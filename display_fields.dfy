/** The display-field computation of run.py (lines 89-98): for each layer,
    the members of the fixed field list that have a non-empty value in some
    row of that layer, in the order of the fixed list. */
module DisplayFields {
  import opened Text
  import opened Rows

  /** `FIELDS` (run.py:16). */
  const Fields: seq<string> := ["ID", "Waterway", "City, State", "GPS Coords", "River Miles",
                                "Class I?", "Bathroom?", "Camping?", "Power Boats?", "Details"]

  /** The keys of `row` whose value is non-empty (Python's `if value:`). */
  function NonBlankOf(row: Row): set<string>
  {
    set k | k in row && row[k] != ""
  }

  /** The keys that have a non-empty value in some row of `rows`. */
  function NonBlankKeys(rows: seq<Row>): set<string>
  {
    if rows == [] then {} else NonBlankKeys(rows[..|rows| - 1]) + NonBlankOf(rows[|rows| - 1])
  }

  /** A key has a non-empty value in some row exactly when it is collected. */
  lemma {:induction false} NonBlankKeysSpec(rows: seq<Row>, k: string)
    ensures k in NonBlankKeys(rows) <==> exists i :: 0 <= i < |rows| && k in rows[i] && rows[i][k] != ""
    decreases |rows|
  {
    if rows != [] {
      var n := |rows| - 1;
      NonBlankKeysSpec(rows[..n], k);
      if exists i :: 0 <= i < |rows| && k in rows[i] && rows[i][k] != "" {
        var i :| 0 <= i < |rows| && k in rows[i] && rows[i][k] != "";
        if i < n {
          assert rows[..n][i] == rows[i];
        }
      }
      if exists i :: 0 <= i < n && k in rows[..n][i] && rows[..n][i][k] != "" {
        var i :| 0 <= i < n && k in rows[..n][i] && rows[..n][i][k] != "";
        assert rows[i] == rows[..n][i];
      }
    }
  }

  /** `[f for f in fields if f in seen]`. */
  function SelectFields(fields: seq<string>, seen: set<string>): seq<string>
  {
    if fields == [] then []
    else (if fields[0] in seen then [fields[0]] else []) + SelectFields(fields[1..], seen)
  }

  /** The selection holds exactly the listed fields that were seen, in list
      order, and repeats none when the list repeats none. */
  lemma {:induction false} SelectFieldsSpec(fields: seq<string>, seen: set<string>)
    ensures forall f :: f in SelectFields(fields, seen) <==> f in fields && f in seen
    ensures IsSubsequence(SelectFields(fields, seen), fields)
    ensures Distinct(fields) ==> Distinct(SelectFields(fields, seen))
  {
    if fields != [] {
      var rest := SelectFields(fields[1..], seen);
      SelectFieldsSpec(fields[1..], seen);
      assert Distinct(fields) ==> Distinct(fields[1..]);
      assert forall f :: f in fields <==> f == fields[0] || f in fields[1..];
      if fields[0] in seen {
        assert SelectFields(fields, seen) == [fields[0]] + rest;
        assert ([fields[0]] + rest)[1..] == rest;
        if Distinct(fields) {
          assert fields[0] !in fields[1..];
          assert fields[0] !in rest;
          DistinctCons(fields[0], rest);
        }
      } else {
        assert SelectFields(fields, seen) == rest;
        SkipFront(rest, fields);
      }
    }
  }

  lemma DistinctCons(x: string, s: seq<string>)
    requires x !in s && Distinct(s)
    ensures Distinct([x] + s)
  {
    var t := [x] + s;
    forall i, j | 0 <= i < j < |t|
      ensures t[i] != t[j]
    {
      if i == 0 {
        assert t[j] == s[j - 1];
      } else {
        assert t[i] == s[i - 1] && t[j] == s[j - 1];
      }
    }
  }

  /** Seeing more keys can only add fields to a selection, never remove or reorder them. */
  lemma {:induction false} SelectFieldsMonotonic(fields: seq<string>, s1: set<string>, s2: set<string>)
    requires s1 <= s2
    ensures IsSubsequence(SelectFields(fields, s1), SelectFields(fields, s2))
  {
    if fields != [] {
      SelectFieldsMonotonic(fields[1..], s1, s2);
      var a := SelectFields(fields[1..], s1);
      var b := SelectFields(fields[1..], s2);
      if fields[0] in s1 {
        assert SelectFields(fields, s1) == [fields[0]] + a;
        assert SelectFields(fields, s2) == [fields[0]] + b;
        assert ([fields[0]] + a)[1..] == a && ([fields[0]] + b)[1..] == b;
      } else if fields[0] in s2 {
        assert SelectFields(fields, s1) == a;
        assert SelectFields(fields, s2) == [fields[0]] + b;
        assert ([fields[0]] + b)[1..] == b;
        assert IsSubsequence(a, b);
        SkipFront(a, [fields[0]] + b);
        assert IsSubsequence(a, [fields[0]] + b);
      } else {
        assert SelectFields(fields, s1) == a;
        assert SelectFields(fields, s2) == b;
      }
    }
  }

  lemma FieldsDistinct()
    ensures Distinct(Fields)
  {
  }

  /** The display fields a layer is rendered with: its entry in
      `layer_display_fields`, or `FIELDS` when the layer has no entry there
      (the `.get(layer, FIELDS)` of run.py:213-219), which happens exactly
      when no row of the layer has a non-empty value. */
  function DisplayFieldsFor(layerRows: seq<Row>): seq<string>
  {
    var seen := NonBlankKeys(layerRows);
    if seen == {} then Fields else SelectFields(Fields, seen)
  }

  /** For a layer with some non-empty value, a field is displayed exactly when
      it is in `FIELDS` and some row of the layer has a non-empty value for it;
      the display list is in `FIELDS` order and repeats nothing. */
  lemma DisplayFieldsSpec(layerRows: seq<Row>, f: string)
    requires NonBlankKeys(layerRows) != {}
    ensures f in DisplayFieldsFor(layerRows) <==>
              f in Fields && exists i :: 0 <= i < |layerRows| && f in layerRows[i] && layerRows[i][f] != ""
    ensures IsSubsequence(DisplayFieldsFor(layerRows), Fields)
    ensures Distinct(DisplayFieldsFor(layerRows))
  {
    SelectFieldsSpec(Fields, NonBlankKeys(layerRows));
    NonBlankKeysSpec(layerRows, f);
    FieldsDistinct();
  }

  /** Once a layer has a non-empty value, adding a row to it can only add display fields. */
  lemma DisplayFieldsMonotonic(layerRows: seq<Row>, row: Row)
    requires NonBlankKeys(layerRows) != {}
    ensures IsSubsequence(DisplayFieldsFor(layerRows), DisplayFieldsFor(layerRows + [row]))
  {
    var more := layerRows + [row];
    assert more[..|more| - 1] == layerRows;
    SelectFieldsMonotonic(Fields, NonBlankKeys(layerRows), NonBlankKeys(more));
  }

  /** Without that condition monotonicity fails: an empty layer falls back to
      the whole of `FIELDS`, while a layer whose only non-empty values are
      outside `FIELDS` (a row holding just its `Layer`, say) displays nothing. */
  lemma DisplayFieldsFallbackShrinks(layerRows: seq<Row>)
    requires NonBlankKeys(layerRows) != {}
    requires forall k :: k in NonBlankKeys(layerRows) ==> k !in Fields
    ensures DisplayFieldsFor([]) == Fields
    ensures DisplayFieldsFor(layerRows) == []
  {
    NoneSelected(Fields, NonBlankKeys(layerRows));
  }

  lemma {:induction false} NoneSelected(fields: seq<string>, seen: set<string>)
    requires forall f :: f in fields ==> f !in seen
    ensures SelectFields(fields, seen) == []
  {
    if fields != [] {
      assert fields[0] !in seen;
      NoneSelected(fields[1..], seen);
    }
  }

  /** When `f` is the only listed field that was seen, the selection is `[f]`. */
  lemma {:induction false} SelectOnly(fields: seq<string>, seen: set<string>, f: string)
    requires f in fields && Distinct(fields)
    requires forall g :: g in fields ==> (g in seen <==> g == f)
    ensures SelectFields(fields, seen) == [f]
  {
    if fields[0] == f {
      assert forall g :: g in fields[1..] ==> g != f;
      NoneSelected(fields[1..], seen);
    } else {
      assert f in fields[1..];
      assert Distinct(fields[1..]);
      SelectOnly(fields[1..], seen, f);
    }
  }

  /** The key-level loop of run.py:91-94 for one row: every key of `row`
      with a non-empty value is added to the set of `layer`, which comes into
      being on its first addition; the other layers are left alone. */
  method AddSeenKeys(seen: map<string, set<string>>, layer: string, row: Row)
    returns (out: map<string, set<string>>)
    ensures forall l :: l != layer ==> (l in out <==> l in seen)
    ensures forall l :: l != layer && l in out ==> out[l] == seen[l]
    ensures layer in out <==> layer in seen || NonBlankOf(row) != {}
    ensures layer in out ==> out[layer] == (if layer in seen then seen[layer] else {}) + NonBlankOf(row)
  {
    out := seen;
    var keys := row.Keys;
    while keys != {}
      invariant keys <= row.Keys
      invariant forall l :: l != layer ==> (l in out <==> l in seen)
      invariant forall l :: l != layer && l in out ==> out[l] == seen[l]
      invariant layer in out <==> layer in seen || exists k :: k in row && k !in keys && row[k] != ""
      invariant layer in out ==> out[layer] == (if layer in seen then seen[layer] else {}) + (set k | k in row && k !in keys && row[k] != "")
      decreases keys
    {
      var key :| key in keys;
      if row[key] != "" {
        out := out[layer := (if layer in out then out[layer] else {}) + {key}];
      }
      keys := keys - {key};
    }
    if layer in out {
      assert (set k | k in row && k !in keys && row[k] != "") == NonBlankOf(row);
    }
    if NonBlankOf(row) != {} {
      var k :| k in NonBlankOf(row);
      assert k in row && k !in keys && row[k] != "";
    }
  }

  /** `{k | some row of rows has a non-empty value for k}`, with a key only
      for a layer that has such a value: what `layer_seen_fields` holds after
      the loops of run.py:89-94 (a `defaultdict(set)` that gains a key on its
      first `add`). */
  method CollectSeenFields(groups: map<string, seq<Row>>) returns (seen: map<string, set<string>>)
    ensures forall l :: l in seen <==> l in groups && NonBlankKeys(groups[l]) != {}
    ensures forall l :: l in seen ==> seen[l] == NonBlankKeys(groups[l])
  {
    seen := map[];
    var todo := groups.Keys;
    while todo != {}
      invariant todo <= groups.Keys
      invariant forall l :: l in seen <==> l in groups && l !in todo && NonBlankKeys(groups[l]) != {}
      invariant forall l :: l in seen ==> seen[l] == NonBlankKeys(groups[l])
      decreases todo
    {
      var layer :| layer in todo;
      var rows := groups[layer];
      ghost var before := seen;
      var j := 0;
      while j < |rows|
        invariant 0 <= j <= |rows|
        invariant forall l :: l != layer ==> (l in seen <==> l in before)
        invariant forall l :: l != layer && l in seen ==> seen[l] == before[l]
        invariant layer in seen <==> NonBlankKeys(rows[..j]) != {}
        invariant layer in seen ==> seen[layer] == NonBlankKeys(rows[..j])
      {
        seen := AddSeenKeys(seen, layer, rows[j]);
        assert rows[..j + 1][..j] == rows[..j];
        j := j + 1;
      }
      assert rows[..j] == rows;
      todo := todo - {layer};
    }
  }

  /** `layer_display_fields` (run.py:96-98): the selection of `FIELDS` for
      every layer that has seen fields. */
  method ComputeDisplayFields(seen: map<string, set<string>>) returns (display: map<string, seq<string>>)
    ensures forall l :: l in display <==> l in seen
    ensures forall l :: l in display ==> display[l] == SelectFields(Fields, seen[l])
  {
    display := map[];
    var todo := seen.Keys;
    while todo != {}
      invariant todo <= seen.Keys
      invariant forall l :: l in display <==> l in seen && l !in todo
      invariant forall l :: l in display ==> display[l] == SelectFields(Fields, seen[l])
      decreases todo
    {
      var layer :| layer in todo;
      display := display[layer := SelectFields(Fields, seen[layer])];
      todo := todo - {layer};
    }
  }
}
