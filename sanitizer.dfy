/** The sanitizer of run.py: `clean`, an allow-list filter followed by a
    whitespace trim, and `clean_dict`, which cleans the keys of a record and
    only trims its values. */
module Sanitizer {
  import opened Text
  import opened Rows

  /** The allow-list of `clean`: digits, ASCII letters, comma, question mark,
      space, hyphen and period. */
  predicate IsAllowed(c: char)
  {
    ('0' <= c <= '9') || ('A' <= c <= 'Z') || ('a' <= c <= 'z')
    || c == ',' || c == '?' || c == ' ' || c == '-' || c == '.'
  }

  /** The characters Python's `str.strip()` removes (those for which
      `str.isspace` holds). */
  predicate IsSpace(c: char)
  {
    c == ' ' || ('\t' <= c <= '\r') || ('\U{1C}' <= c <= '\U{1F}')
    || c == '\U{85}' || c == '\U{A0}' || c == '\U{1680}' || ('\U{2000}' <= c <= '\U{200A}')
    || c == '\U{2028}' || c == '\U{2029}' || c == '\U{202F}' || c == '\U{205F}' || c == '\U{3000}'
  }

  predicate AllAllowed(s: string)
  {
    forall i :: 0 <= i < |s| ==> IsAllowed(s[i])
  }

  /** No white space at either end. */
  predicate Trimmed(s: string)
  {
    s == [] || (!IsSpace(s[0]) && !IsSpace(s[|s| - 1]))
  }

  /** The list comprehension of `clean`: the allowed characters of `s`, in order. */
  function Filter(s: string): (r: string)
    ensures AllAllowed(r)
  {
    if s == [] then []
    else (if IsAllowed(s[0]) then [s[0]] else []) + Filter(s[1..])
  }

  /** `lstrip()`: drop the leading white space, and only that. */
  function StripLeft(s: string): (r: string)
    ensures |r| <= |s| && r == s[|s| - |r|..]
    ensures forall i :: 0 <= i < |s| - |r| ==> IsSpace(s[i])
    ensures r == [] || !IsSpace(r[0])
  {
    if s != [] && IsSpace(s[0]) then StripLeft(s[1..]) else s
  }

  /** `rstrip()`: drop the trailing white space, and only that. */
  function StripRight(s: string): (r: string)
    ensures |r| <= |s| && r == s[..|r|]
    ensures forall i :: |r| <= i < |s| ==> IsSpace(s[i])
    ensures r == [] || !IsSpace(r[|r| - 1])
  {
    if s != [] && IsSpace(s[|s| - 1]) then StripRight(s[..|s| - 1]) else s
  }

  /** `strip()`. */
  function Strip(s: string): string
  {
    StripRight(StripLeft(s))
  }

  /** `clean(text)` (run.py:22-23). */
  function Clean(s: string): string
  {
    Strip(Filter(s))
  }

  /** `clean` leaves only allow-listed characters, and no space at either end. */
  lemma CleanSpec(s: string)
    ensures AllAllowed(Clean(s))
    ensures Clean(s) == [] || (Clean(s)[0] != ' ' && Clean(s)[|Clean(s)| - 1] != ' ')
  {
    var f := Filter(s);
    var l := StripLeft(f);
    var r := StripRight(l);
    SliceAllowed(f, |f| - |l|);
    assert AllAllowed(l);
    assert r == l[..|r|];
    assert AllAllowed(r);
    assert Clean(s) == r;
  }

  lemma SliceAllowed(s: string, i: nat)
    requires AllAllowed(s) && i <= |s|
    ensures AllAllowed(s[i..])
  {
    assert forall k :: 0 <= k < |s| - i ==> s[i..][k] == s[i + k];
  }

  /** `strip()` removes a white-space prefix and a white-space suffix and
      leaves a result with no white space at either end. */
  lemma StripSpec(s: string)
    ensures exists i, j :: 0 <= i <= j <= |s| && Strip(s) == s[i..j]
                           && (forall k :: 0 <= k < i ==> IsSpace(s[k]))
                           && (forall k :: j <= k < |s| ==> IsSpace(s[k]))
    ensures Trimmed(Strip(s))
  {
    var l := StripLeft(s);
    var i := |s| - |l|;
    var j := i + |StripRight(l)|;
    var r := StripRight(l);
    assert Trimmed(Strip(s)) by {
      StripTrimmed(l, r);
    }
    StripSlices(s, l, r, i);
    assert Strip(s) == s[i..j];
    assert forall k :: 0 <= k < i ==> IsSpace(s[k]);
  }

  lemma StripTrimmed(l: string, r: string)
    requires l == [] || !IsSpace(l[0])
    requires r == StripRight(l)
    ensures Trimmed(r)
  {
    if r != [] {
      assert r[0] == l[0];
    }
  }

  lemma StripSlices(s: string, l: string, r: string, i: nat)
    requires i <= |s| && l == s[i..] && r <= l
    requires forall k :: |r| <= k < |l| ==> IsSpace(l[k])
    ensures r == s[i..i + |r|]
    ensures forall k :: i + |r| <= k < |s| ==> IsSpace(s[k])
  {
    forall k | i + |r| <= k < |s|
      ensures IsSpace(s[k])
    {
      assert s[k] == l[k - i];
    }
  }

  /** `strip()` leaves a string alone exactly when it has no white space at either end. */
  lemma StripFixedPoint(s: string)
    ensures Strip(s) == s <==> Trimmed(s)
  {
    StripSpec(s);
    if Trimmed(s) && s != [] {
      assert StripLeft(s) == s;
      assert StripRight(s) == s;
    }
  }

  lemma StripIdempotent(s: string)
    ensures Strip(Strip(s)) == Strip(s)
  {
    StripSpec(s);
    StripFixedPoint(Strip(s));
  }

  /** The filter keeps a string whose characters are all allowed. */
  lemma {:induction false} FilterKeepsAllowed(s: string)
    requires AllAllowed(s)
    ensures Filter(s) == s
  {
    if s != [] {
      FilterKeepsAllowed(s[1..]);
    }
  }

  /** The filter works one character at a time: filtering a concatenation
      filters each part, so together with its definition on a single
      character it keeps exactly the allowed characters, in order. */
  lemma {:induction false} FilterAppend(a: string, b: string)
    ensures Filter(a + b) == Filter(a) + Filter(b)
  {
    if a == [] {
      assert a + b == b;
    } else {
      assert (a + b)[0] == a[0] && (a + b)[1..] == a[1..] + b;
      FilterAppend(a[1..], b);
    }
  }

  /** A character outside the allow-list is dropped, and nothing around it. */
  lemma FilterDropsDisallowed(a: string, c: char, b: string)
    requires AllAllowed(a) && AllAllowed(b) && !IsAllowed(c)
    ensures Filter(a + [c] + b) == a + b
  {
    FilterAppend(a + [c], b);
    FilterAppend(a, [c]);
    FilterKeepsAllowed(a);
    FilterKeepsAllowed(b);
    assert Filter([c]) == [] by {
      assert [c][1..] == [];
    }
    assert Filter(a + [c]) == a;
  }

  /** Every allowed character of `s` survives the filter. */
  lemma {:induction false} FilterKeepsEveryAllowed(s: string, i: nat)
    requires i < |s| && IsAllowed(s[i])
    ensures s[i] in Filter(s)
  {
    assert s == s[..i] + [s[i]] + s[i + 1..];
    FilterAppend(s[..i] + [s[i]], s[i + 1..]);
    FilterAppend(s[..i], [s[i]]);
    assert Filter([s[i]]) == [s[i]];
  }

  lemma {:induction false} FilterIsSubsequence(s: string)
    ensures IsSubsequence(Filter(s), s)
  {
    if s != [] {
      FilterIsSubsequence(s[1..]);
      if IsAllowed(s[0]) {
        assert Filter(s) == [s[0]] + Filter(s[1..]);
        assert Filter(s)[1..] == Filter(s[1..]);
      } else {
        assert Filter(s) == Filter(s[1..]);
        SkipFront(Filter(s), s);
      }
    }
  }

  lemma StripIsSubsequence(f: string)
    ensures IsSubsequence(Strip(f), f)
  {
    var l := StripLeft(f);
    var r := StripRight(l);
    SliceIsSubsequence(f, |f| - |l|, |f|);
    assert f[|f| - |l|..|f|] == l;
    SliceIsSubsequence(l, 0, |r|);
    assert l[0..|r|] == r;
    SubsequenceTransitive(r, l, f);
  }

  /** `clean(s)` keeps some of the characters of `s`, in their order. */
  lemma CleanIsSubsequence(s: string)
    ensures IsSubsequence(Clean(s), s)
    ensures |Clean(s)| <= |s|
  {
    FilterIsSubsequence(s);
    StripIsSubsequence(Filter(s));
    SubsequenceTransitive(Clean(s), Filter(s), s);
    SubsequenceLength(Clean(s), s);
  }

  /** The fixed points of `clean` are the allow-listed strings with no space at either end. */
  lemma CleanFixedPoint(s: string)
    ensures Clean(s) == s <==> AllAllowed(s) && (s == [] || (s[0] != ' ' && s[|s| - 1] != ' '))
  {
    CleanSpec(s);
    var c := Clean(s);
    if AllAllowed(s) && (s == [] || (s[0] != ' ' && s[|s| - 1] != ' ')) {
      FilterKeepsAllowed(s);
      if s != [] {
        AllowedSpaceIsBlank(s[0]);
        AllowedSpaceIsBlank(s[|s| - 1]);
      }
      StripFixedPoint(s);
      assert c == Strip(Filter(s));
    }
  }

  /** Of the allowed characters, only the blank is white space. */
  lemma AllowedSpaceIsBlank(c: char)
    requires IsAllowed(c)
    ensures IsSpace(c) <==> c == ' '
  {
  }

  lemma CleanIdempotent(s: string)
    ensures Clean(Clean(s)) == Clean(s)
  {
    CleanSpec(s);
    CleanFixedPoint(Clean(s));
  }

  /** None of the characters that carry meaning in XML markup survives `clean`. */
  lemma CleanHasNoMarkup(s: string)
    ensures '<' !in Clean(s) && '>' !in Clean(s) && '&' !in Clean(s)
    ensures '"' !in Clean(s) && '\'' !in Clean(s)
    ensures ']' !in Clean(s) && ':' !in Clean(s) && '\n' !in Clean(s)
  {
    CleanSpec(s);
    var c := Clean(s);
    assert forall i :: 0 <= i < |c| ==> IsAllowed(c[i]);
  }

  // ---------------------------------------------------------------------
  // clean_dict

  /** `dict(items)`: a later pair overrides an earlier pair with the same key. */
  function DictOf(items: seq<(string, string)>): map<string, string>
  {
    if items == [] then map[]
    else DictOf(items[..|items| - 1])[items[|items| - 1].0 := items[|items| - 1].1]
  }

  /** Some pair of `items` has key `k`. */
  predicate HasKey(items: seq<(string, string)>, k: string)
  {
    exists i :: 0 <= i < |items| && items[i].0 == k
  }

  /** No later pair of `items` has the key of pair `i`. */
  predicate LastWithKey(items: seq<(string, string)>, i: nat)
    requires i < |items|
  {
    forall j :: i < j < |items| ==> items[j].0 != items[i].0
  }

  predicate DistinctKeys(items: seq<(string, string)>)
  {
    forall i, j :: 0 <= i < j < |items| ==> items[i].0 != items[j].0
  }

  /** The keys of `dict(items)` are the keys of its pairs. */
  lemma {:induction false} DictOfKeys(items: seq<(string, string)>)
    ensures forall k :: k in DictOf(items) <==> HasKey(items, k)
  {
    if items != [] {
      var n := |items| - 1;
      var pre := items[..n];
      DictOfKeys(pre);
      forall k
        ensures k in DictOf(items) <==> HasKey(items, k)
      {
        if HasKey(pre, k) {
          var i :| 0 <= i < n && pre[i].0 == k;
          assert items[i].0 == k;
        }
        if HasKey(items, k) && k != items[n].0 {
          var i :| 0 <= i < |items| && items[i].0 == k;
          assert pre[i].0 == k;
        }
      }
    }
  }

  /** In `dict(items)` each key is bound to the value of its last pair. */
  lemma {:induction false} DictOfLastWins(items: seq<(string, string)>, i: nat)
    requires i < |items| && LastWithKey(items, i)
    ensures items[i].0 in DictOf(items) && DictOf(items)[items[i].0] == items[i].1
  {
    var n := |items| - 1;
    if i < n {
      var pre := items[..n];
      assert pre[i] == items[i];
      assert LastWithKey(pre, i) by {
        forall j | i < j < |pre| ensures pre[j].0 != pre[i].0 {
          assert pre[j] == items[j];
        }
      }
      DictOfLastWins(pre, i);
      assert items[i].0 != items[n].0;
    }
  }

  /** The pairs `(clean(k), v.strip())` of `clean_dict`. */
  function CleanItems(row: RawRow): (r: seq<(string, string)>)
    ensures |r| == |row|
    ensures forall i :: 0 <= i < |row| ==> r[i] == (Clean(row[i].0), Strip(row[i].1))
  {
    seq(|row|, i requires 0 <= i < |row| => (Clean(row[i].0), Strip(row[i].1)))
  }

  /** A listing whose names are clean and whose values are stripped is its own `CleanItems`. */
  lemma CleanItemsKeep(row: RawRow)
    requires forall i :: 0 <= i < |row| ==> Clean(row[i].0) == row[i].0 && Strip(row[i].1) == row[i].1
    ensures CleanItems(row) == row
  {
  }

  /** `clean_dict(row)` (run.py:25-26). */
  function CleanDict(row: RawRow): map<string, string>
  {
    DictOf(CleanItems(row))
  }

  /** The keys of `clean_dict(row)` are the cleaned column names. */
  lemma CleanDictKeys(row: RawRow)
    ensures forall k :: k in CleanDict(row) <==> exists i :: 0 <= i < |row| && Clean(row[i].0) == k
  {
    var items := CleanItems(row);
    DictOfKeys(items);
    forall k
      ensures k in CleanDict(row) <==> exists i :: 0 <= i < |row| && Clean(row[i].0) == k
    {
      if k in CleanDict(row) {
        var i :| 0 <= i < |items| && items[i].0 == k;
        assert Clean(row[i].0) == k;
      }
      if exists i :: 0 <= i < |row| && Clean(row[i].0) == k {
        var i :| 0 <= i < |row| && Clean(row[i].0) == k;
        assert items[i].0 == k;
      }
    }
  }

  /** The value of a key of `clean_dict(row)` is the trimmed, otherwise
      unfiltered, value of the last column whose name cleans to that key. */
  lemma CleanDictLastWins(row: RawRow, i: nat)
    requires i < |row|
    requires forall j :: i < j < |row| ==> Clean(row[j].0) != Clean(row[i].0)
    ensures Clean(row[i].0) in CleanDict(row) && CleanDict(row)[Clean(row[i].0)] == Strip(row[i].1)
  {
    var items := CleanItems(row);
    assert LastWithKey(items, i);
    DictOfLastWins(items, i);
  }

  /** Every key of `clean_dict(row)` is left alone by `clean`, every value by `strip`. */
  lemma CleanDictIsClean(row: RawRow, k: string)
    requires k in CleanDict(row)
    ensures Clean(k) == k && Strip(CleanDict(row)[k]) == CleanDict(row)[k]
  {
    var items := CleanItems(row);
    DictOfKeys(items);
    var i :| 0 <= i < |items| && items[i].0 == k;
    var last := LastIndex(items, i);
    DictOfLastWins(items, last);
    var name, value := row[last].0, row[last].1;
    assert items[last] == (Clean(name), Strip(value));
    assert k == Clean(name);
    assert CleanDict(row)[k] == Strip(value);
    CleanIdempotent(name);
    StripIdempotent(value);
  }

  /** The position of the last pair with the same key as pair `i`. */
  function LastIndex(items: seq<(string, string)>, i: nat): (r: nat)
    requires i < |items|
    ensures i <= r < |items| && items[r].0 == items[i].0 && LastWithKey(items, r)
    decreases |items| - i
  {
    if exists j :: i < j < |items| && items[j].0 == items[i].0 then
      var j :| i < j < |items| && items[j].0 == items[i].0;
      LastIndex(items, j)
    else i
  }

  /** Sanitizing a sanitized record again changes nothing: any listing of
      `clean_dict(row)` cleans back to `clean_dict(row)`. */
  lemma CleanDictIdempotent(row: RawRow, listing: RawRow)
    requires DistinctKeys(listing)
    requires DictOf(listing) == CleanDict(row)
    ensures CleanDict(listing) == CleanDict(row)
  {
    DictOfKeys(listing);
    forall i | 0 <= i < |listing|
      ensures CleanItems(listing)[i] == listing[i]
    {
      var k := listing[i].0;
      assert HasKey(listing, k);
      assert LastWithKey(listing, i);
      DictOfLastWins(listing, i);
      CleanDictIsClean(row, k);
    }
    assert CleanItems(listing) == listing;
  }

  /** The sanitized records, `[clean_dict(row) for row in rows]` (run.py:76). */
  function CleanRows(raw: seq<RawRow>): (rows: seq<Row>)
    ensures |rows| == |raw|
    ensures forall i :: 0 <= i < |raw| ==> rows[i] == CleanDict(raw[i])
  {
    seq(|raw|, i requires 0 <= i < |raw| => CleanDict(raw[i]))
  }
}
