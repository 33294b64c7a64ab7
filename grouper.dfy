/** The grouper of run.py (lines 84-87): the sanitized rows are put into one
    bucket per `Layer` value, each bucket keeping the input order. */
module Grouper {
  import opened Text
  import opened Rows

  const LayerKey: string := "Layer"

  predicate AllHaveLayer(rows: seq<Row>)
  {
    forall i :: 0 <= i < |rows| ==> LayerKey in rows[i]
  }

  predicate InLayer(row: Row, layer: string)
  {
    LayerKey in row && row[LayerKey] == layer
  }

  /** The rows whose `Layer` is `layer`, in input order: what
      `layer_rows[layer]` holds once the loop is done. */
  function RowsOfLayer(rows: seq<Row>, layer: string): seq<Row>
  {
    if rows == [] then []
    else
      var last := rows[|rows| - 1];
      RowsOfLayer(rows[..|rows| - 1], layer) + (if InLayer(last, layer) then [last] else [])
  }

  /** The grouping loop of run.py:84-87. `layer_rows` is a `defaultdict(list)`:
      a layer becomes a key when its first row is appended. A row without a
      `Layer` key stops the run with a `KeyError`. */
  method GroupByLayer(rows: seq<Row>) returns (r: Outcome<map<string, seq<Row>>>)
    ensures r.Ok? <==> AllHaveLayer(rows)
    ensures r.KeyError? ==> r.key == LayerKey
    ensures r.Ok? ==> forall l :: l in r.value <==> RowsOfLayer(rows, l) != []
    ensures r.Ok? ==> forall l :: l in r.value ==> r.value[l] == RowsOfLayer(rows, l)
  {
    var groups: map<string, seq<Row>> := map[];
    var i := 0;
    while i < |rows|
      invariant 0 <= i <= |rows|
      invariant AllHaveLayer(rows[..i])
      invariant forall l :: l in groups <==> RowsOfLayer(rows[..i], l) != []
      invariant forall l :: l in groups ==> groups[l] == RowsOfLayer(rows[..i], l)
    {
      var row := rows[i];
      if LayerKey !in row {
        assert !AllHaveLayer(rows);
        return KeyError(LayerKey);
      }
      var layer := row[LayerKey];
      var bucket := if layer in groups then groups[layer] else [];
      groups := groups[layer := bucket + [row]];
      RowsOfLayerStep(rows, i);
      i := i + 1;
    }
    assert rows[..i] == rows;
    return Ok(groups);
  }

  /** One more row adds itself to its own bucket and to no other. */
  lemma RowsOfLayerStep(rows: seq<Row>, i: nat)
    requires i < |rows|
    ensures forall l :: RowsOfLayer(rows[..i + 1], l) ==
                        RowsOfLayer(rows[..i], l) + (if InLayer(rows[i], l) then [rows[i]] else [])
  {
    assert rows[..i + 1][..i] == rows[..i];
  }

  /** Grouping distributes over concatenation of the input. */
  lemma {:induction false} RowsOfLayerAppend(a: seq<Row>, b: seq<Row>, layer: string)
    ensures RowsOfLayer(a + b, layer) == RowsOfLayer(a, layer) + RowsOfLayer(b, layer)
    decreases |b|
  {
    if b == [] {
      assert a + b == a;
    } else {
      var n := |b| - 1;
      assert (a + b)[..|a + b| - 1] == a + b[..n];
      RowsOfLayerAppend(a, b[..n], layer);
    }
  }

  /** Every row of a bucket carries that bucket's layer, and the bucket keeps
      the rows in their input order. */
  lemma {:induction false} RowsOfLayerSound(rows: seq<Row>, layer: string)
    ensures forall r :: r in RowsOfLayer(rows, layer) ==> InLayer(r, layer)
    ensures IsSubsequence(RowsOfLayer(rows, layer), rows)
    decreases |rows|
  {
    if rows != [] {
      RowsOfLayerSound(rows[1..], layer);
      assert rows == [rows[0]] + rows[1..];
      RowsOfLayerAppend([rows[0]], rows[1..], layer);
      assert [rows[0]][..0] == [];
      var tail := RowsOfLayer(rows[1..], layer);
      if InLayer(rows[0], layer) {
        assert RowsOfLayer(rows, layer) == [rows[0]] + tail;
        assert ([rows[0]] + tail)[1..] == tail;
      } else {
        assert RowsOfLayer(rows, layer) == tail;
        SkipFront(tail, rows);
      }
    }
  }

  /** Every row with a `Layer` sits in the bucket of that layer, at the
      position given by the number of earlier rows of the same layer. */
  lemma RowPlacement(rows: seq<Row>, i: nat)
    requires i < |rows| && LayerKey in rows[i]
    ensures |RowsOfLayer(rows[..i], rows[i][LayerKey])| < |RowsOfLayer(rows, rows[i][LayerKey])|
    ensures RowsOfLayer(rows, rows[i][LayerKey])[|RowsOfLayer(rows[..i], rows[i][LayerKey])|] == rows[i]
  {
    var l := rows[i][LayerKey];
    assert rows == rows[..i + 1] + rows[i + 1..];
    RowsOfLayerAppend(rows[..i + 1], rows[i + 1..], l);
    assert rows[..i + 1][..i] == rows[..i];
  }

  /** Total size of the buckets of the layers `ls`. */
  function SumSizes(rows: seq<Row>, ls: seq<string>): nat
  {
    if ls == [] then 0 else |RowsOfLayer(rows, ls[0])| + SumSizes(rows, ls[1..])
  }

  lemma {:induction false} SumSizesSnoc(rows: seq<Row>, r: Row, ls: seq<string>)
    requires Distinct(ls) && LayerKey in r
    ensures SumSizes(rows + [r], ls) == SumSizes(rows, ls) + (if r[LayerKey] in ls then 1 else 0)
  {
    if ls != [] {
      assert (rows + [r])[..|rows|] == rows;
      assert Distinct(ls[1..]);
      SumSizesSnoc(rows, r, ls[1..]);
      assert r[LayerKey] in ls <==> r[LayerKey] == ls[0] || r[LayerKey] in ls[1..];
      assert r[LayerKey] == ls[0] ==> r[LayerKey] !in ls[1..];
    }
  }

  /** The buckets partition the input: when `ls` lists every layer once,
      their sizes add up to the number of rows. */
  lemma {:induction false} GroupSizesSum(rows: seq<Row>, ls: seq<string>)
    requires AllHaveLayer(rows) && Distinct(ls)
    requires forall i :: 0 <= i < |rows| ==> rows[i][LayerKey] in ls
    ensures SumSizes(rows, ls) == |rows|
    decreases |rows|
  {
    if rows == [] {
      EmptySums(ls);
    } else {
      var n := |rows| - 1;
      assert rows == rows[..n] + [rows[n]];
      GroupSizesSum(rows[..n], ls);
      SumSizesSnoc(rows[..n], rows[n], ls);
    }
  }

  lemma {:induction false} EmptySums(ls: seq<string>)
    ensures SumSizes([], ls) == 0
  {
    if ls != [] {
      EmptySums(ls[1..]);
    }
  }
}
