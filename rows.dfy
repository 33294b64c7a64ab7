/** The records the pipeline moves around. */
module Rows {

  /** One CSV record as the reader yields it: its `(column, value)` pairs in
      column order, as `row.items()` lists them. */
  type RawRow = seq<(string, string)>

  /** A field name with its value. */
  type Entry = (string, string)

  /** A sanitized record: a dictionary from field name to field value. */
  type Row = map<string, string>

  /** A computation that either succeeds or stops on a dictionary lookup of a
      missing key (Python's `KeyError`, which ends the run). */
  datatype Outcome<+T> = Ok(value: T) | KeyError(key: string) {
    predicate IsFailure() {
      KeyError?
    }

    function PropagateFailure<U>(): Outcome<U>
      requires KeyError?
    {
      KeyError(key)
    }

    function Extract(): T
      requires Ok?
    {
      value
    }
  }

  /** `[f(x) for x in xs]` where each call may raise: the results in order,
      or the error of the first element whose call fails. */
  function Collect<T, U>(xs: seq<T>, f: T -> Outcome<U>): (r: Outcome<seq<U>>)
    ensures r.Ok? ==> |r.value| == |xs|
  {
    if xs == [] then Ok([])
    else
      match f(xs[0])
      case KeyError(k) => KeyError(k)
      case Ok(y) =>
        match Collect(xs[1..], f)
        case KeyError(k) => KeyError(k)
        case Ok(ys) => Ok([y] + ys)
  }

  /** A successful comprehension is its first call's result followed by the
      comprehension over the remaining elements. */
  lemma CollectCons<T, U>(xs: seq<T>, f: T -> Outcome<U>, ys: seq<U>)
    requires xs != [] && Collect(xs, f) == Ok(ys)
    ensures ys != [] && f(xs[0]) == Ok(ys[0]) && Collect(xs[1..], f) == Ok(ys[1..])
  {
    var y := f(xs[0]).value;
    var rest := Collect(xs[1..], f).value;
    assert ys == [y] + rest;
    assert ([y] + rest)[1..] == rest;
  }

  /** The comprehension succeeds exactly when every call does. */
  lemma {:induction false} CollectOk<T, U>(xs: seq<T>, f: T -> Outcome<U>)
    ensures Collect(xs, f).Ok? <==> forall i :: 0 <= i < |xs| ==> f(xs[i]).Ok?
  {
    if xs != [] {
      CollectOk(xs[1..], f);
      assert forall i :: 0 < i < |xs| ==> xs[i] == xs[1..][i - 1];
    }
  }

  /** On success, the `i`-th result is the value of the call on the `i`-th element. */
  lemma {:induction false} CollectEach<T, U>(xs: seq<T>, f: T -> Outcome<U>)
    requires Collect(xs, f).Ok?
    ensures forall i :: 0 <= i < |xs| ==> f(xs[i]) == Ok(Collect(xs, f).value[i])
  {
    if xs != [] {
      var tail := xs[1..];
      CollectEach(tail, f);
      var ys := Collect(tail, f).value;
      var all := Collect(xs, f).value;
      assert all == [f(xs[0]).value] + ys;
      forall i | 0 < i < |xs|
        ensures f(xs[i]) == Ok(all[i])
      {
        assert xs[i] == tail[i - 1] && all[i] == ys[i - 1];
      }
    }
  }

  /** On failure, the error is that of the first failing call: every earlier
      call succeeded. */
  lemma {:induction false} CollectFirstError<T, U>(xs: seq<T>, f: T -> Outcome<U>)
    requires Collect(xs, f).KeyError?
    ensures exists i :: 0 <= i < |xs| && f(xs[i]) == KeyError(Collect(xs, f).key) &&
                        forall j :: 0 <= j < i ==> f(xs[j]).Ok?
  {
    var key := Collect(xs, f).key;
    if f(xs[0]).Ok? {
      var tail := xs[1..];
      CollectFirstError(tail, f);
      var i :| 0 <= i < |tail| && f(tail[i]) == KeyError(key) && forall j :: 0 <= j < i ==> f(tail[j]).Ok?;
      assert f(xs[i + 1]) == KeyError(key);
      forall j | 0 <= j < i + 1
        ensures f(xs[j]).Ok?
      {
        if j > 0 {
          assert xs[j] == tail[j - 1];
        }
      }
    } else {
      assert f(xs[0]) == KeyError(key);
    }
  }
}
