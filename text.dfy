/** Generic helpers on strings and sequences used by every component:
    an Option type, Python's `sep.join`, prefix-driven scanning used by the
    decoders, and the subsequence relation. */
module Text {

  datatype Option<+T> = None | Some(value: T) {
    predicate IsFailure() {
      None?
    }

    function PropagateFailure<U>(): Option<U>
      requires None?
    {
      None
    }

    function Extract(): T
      requires Some?
    {
      value
    }
  }

  /** `sep.join(xs)`: the elements of `xs` with `sep` between consecutive ones. */
  function Join(sep: string, xs: seq<string>): string
  {
    if |xs| == 0 then "" else if |xs| == 1 then xs[0] else xs[0] + sep + Join(sep, xs[1..])
  }

  /** `[f(x) for x in xs]`. */
  function Map<T, U>(f: T -> U, xs: seq<T>): (r: seq<U>)
    ensures |r| == |xs|
    ensures forall i :: 0 <= i < |xs| ==> r[i] == f(xs[i])
  {
    seq(|xs|, i requires 0 <= i < |xs| => f(xs[i]))
  }

  lemma MapSingle<T, U>(f: T -> U, x: T)
    ensures Map(f, [x]) == [f(x)]
  {
    assert Map(f, [x])[0] == f(x);
  }

  lemma MapCons<T, U>(f: T -> U, xs: seq<T>)
    requires xs != []
    ensures Map(f, xs) == [f(xs[0])] + Map(f, xs[1..])
  {
    assert forall i :: 0 < i < |xs| ==> Map(f, xs)[i] == Map(f, xs[1..])[i - 1];
  }

  lemma Regroup<T>(a: seq<T>, b: seq<T>, c: seq<T>)
    ensures a + b + c == a + (b + c)
  {
  }

  lemma Regroup3(a: string, b: string, c: string, d: string)
    ensures a + b + c + d == a + (b + c + d)
  {
  }

  lemma Regroup5(a: string, b: string, c: string, d: string, e: string, f: string)
    ensures a + b + c + d + e + f == a + b + c + (d + e + f)
  {
  }

  /** One step of a join, regrouped so that it can be read from the front. */
  lemma JoinStep(x: string, sep: string, j: string, t: string)
    ensures x + sep + j + t == x + (sep + (j + t))
  {
  }

  lemma JoinFive(sep: string, a: string, b: string, c: string, d: string, e: string)
    ensures Join(sep, [a, b, c, d, e]) == a + sep + (b + sep + (c + sep + (d + sep + e)))
  {
    assert [a, b, c, d, e][1..] == [b, c, d, e];
    assert [b, c, d, e][1..] == [c, d, e];
    assert [c, d, e][1..] == [d, e];
    assert [d, e][1..] == [e];
    assert Join(sep, [d, e]) == d + sep + e;
    assert Join(sep, [c, d, e]) == c + sep + (d + sep + e);
    assert Join(sep, [b, c, d, e]) == b + sep + (c + sep + (d + sep + e));
  }

  /** A join of five elements followed by `t`, read from the front. */
  lemma JoinFiveThen(sep: string, a: string, b: string, c: string, d: string, e: string, t: string)
    ensures Join(sep, [a, b, c, d, e]) + t == a + (sep + (b + (sep + (c + (sep + (d + (sep + (e + t))))))))
  {
    JoinFive(sep, a, b, c, d, e);
    var de := d + sep + e;
    var cde := c + sep + de;
    var bcde := b + sep + cde;
    JoinStep(d, sep, e, t);
    JoinStep(c, sep, de, t);
    JoinStep(b, sep, cde, t);
    JoinStep(a, sep, bcde, t);
  }

  /** A join starts with its first element. */
  lemma JoinPrefix(sep: string, xs: seq<string>, p: string, t: string)
    requires xs != [] && p <= xs[0]
    ensures p <= Join(sep, xs) + t
  {
    if |xs| > 1 {
      assert Join(sep, xs) + t == xs[0] + (sep + (Join(sep, xs[1..]) + t));
    }
  }

  /** The first characters of a join are those of its first element. */
  lemma JoinHead(sep: string, xs: seq<string>, t: string, k: nat)
    requires xs != [] && k < |xs[0]|
    ensures k < |Join(sep, xs) + t| && (Join(sep, xs) + t)[k] == xs[0][k]
  {
    if |xs| > 1 {
      assert Join(sep, xs) + t == xs[0] + (sep + (Join(sep, xs[1..]) + t));
    }
  }

  /** A character of a prefix is a character of every extension of it. */
  lemma PrefixChar(a: string, b: string, k: nat)
    requires k < |a|
    ensures k < |a + b| && (a + b)[k] == a[k]
  {
  }

  /** Appending text keeps every prefix. */
  lemma ConcatKeepsPrefix(p: string, a: string, b: string)
    requires p <= a
    ensures p <= a + b
  {
    assert (a + b)[..|p|] == a[..|p|];
  }

  /** Joining with the empty separator is plain concatenation. */
  lemma JoinNoSeparator(xs: seq<string>)
    requires xs != []
    ensures Join("", xs) == xs[0] + Join("", xs[1..])
  {
    if |xs| == 1 {
      assert xs[1..] == [];
      assert xs[0] + "" == xs[0];
    } else {
      assert xs[0] + "" + Join("", xs[1..]) == xs[0] + Join("", xs[1..]);
    }
  }

  /** The longest prefix of `s` holding none of the characters `stops`. */
  function Until(stops: set<char>, s: string): (r: string)
    ensures r <= s
    ensures forall i :: 0 <= i < |r| ==> r[i] !in stops
    ensures |r| < |s| ==> s[|r|] in stops
  {
    if s == [] || s[0] in stops then [] else [s[0]] + Until(stops, s[1..])
  }

  /** Scanning stops exactly at the end of a prefix `a` free of `stops`
      when what follows is empty or starts with a stop character. */
  lemma {:induction false} UntilStops(stops: set<char>, a: string, t: string)
    requires forall i :: 0 <= i < |a| ==> a[i] !in stops
    requires t == [] || t[0] in stops
    ensures Until(stops, a + t) == a
  {
    if a == [] {
      assert a + t == t;
    } else {
      assert (a + t)[0] == a[0] && (a + t)[1..] == a[1..] + t;
      UntilStops(stops, a[1..], t);
    }
  }

  /** Consume the literal `lit` at the front of `s`, if it is there. */
  function Expect(lit: string, s: string): (r: Option<string>)
    ensures r.Some? <==> lit <= s
    ensures r.Some? ==> s == lit + r.value
  {
    if lit <= s then Some(s[|lit|..]) else None
  }

  lemma ExpectLiteral(lit: string, t: string)
    ensures Expect(lit, lit + t) == Some(t)
  {
    assert lit <= lit + t;
    assert (lit + t)[|lit|..] == t;
  }

  /** `a` can be obtained from `b` by deleting elements, keeping the order of the rest. */
  predicate IsSubsequence<T(==)>(a: seq<T>, b: seq<T>)
    decreases |b|
  {
    if a == [] then true
    else if b == [] then false
    else (a[0] == b[0] && IsSubsequence(a[1..], b[1..])) || IsSubsequence(a, b[1..])
  }

  lemma {:induction false} SubsequenceLength<T>(a: seq<T>, b: seq<T>)
    requires IsSubsequence(a, b)
    ensures |a| <= |b|
    decreases |b|
  {
    if a != [] {
      if a[0] == b[0] && IsSubsequence(a[1..], b[1..]) {
        SubsequenceLength(a[1..], b[1..]);
      } else {
        SubsequenceLength(a, b[1..]);
      }
    }
  }

  lemma {:induction false} SubsequenceReflexive<T>(a: seq<T>)
    ensures IsSubsequence(a, a)
    decreases |a|
  {
    if a != [] {
      SubsequenceReflexive(a[1..]);
    }
  }

  lemma {:induction false} SubsequenceTransitive<T>(a: seq<T>, b: seq<T>, c: seq<T>)
    requires IsSubsequence(a, b) && IsSubsequence(b, c)
    ensures IsSubsequence(a, c)
    decreases |c|
  {
    if a != [] {
      if b[0] == c[0] && IsSubsequence(b[1..], c[1..]) {
        if a[0] == b[0] && IsSubsequence(a[1..], b[1..]) {
          SubsequenceTransitive(a[1..], b[1..], c[1..]);
        } else {
          SubsequenceTransitive(a, b[1..], c[1..]);
        }
      } else {
        SubsequenceTransitive(a, b, c[1..]);
      }
    }
  }

  /** Every element of a subsequence is an element of the whole. */
  lemma {:induction false} SubsequenceMembers<T>(a: seq<T>, b: seq<T>, x: T)
    requires IsSubsequence(a, b) && x in a
    ensures x in b
    decreases |b|
  {
    if a[0] == b[0] && IsSubsequence(a[1..], b[1..]) {
      if x != a[0] {
        assert x in a[1..];
        SubsequenceMembers(a[1..], b[1..], x);
      }
    } else {
      SubsequenceMembers(a, b[1..], x);
    }
  }

  /** Dropping elements from the front of a subsequence keeps it a subsequence. */
  lemma {:induction false} SubsequenceDrop<T>(a: seq<T>, b: seq<T>, i: nat)
    requires IsSubsequence(a, b) && i <= |a|
    ensures IsSubsequence(a[i..], b)
    decreases |b|
  {
    if i > 0 {
      if a[0] == b[0] && IsSubsequence(a[1..], b[1..]) {
        SubsequenceDrop(a[1..], b[1..], i - 1);
        assert a[1..][i - 1..] == a[i..];
        SkipFront(a[i..], b);
      } else {
        SubsequenceDrop(a, b[1..], i);
      }
    } else {
      assert a[i..] == a;
    }
  }

  /** A subsequence of `b[1..]` is a subsequence of `b`. */
  lemma SkipFront<T>(a: seq<T>, b: seq<T>)
    requires b != [] && IsSubsequence(a, b[1..])
    ensures IsSubsequence(a, b)
  {
  }

  /** Dropping elements from the back of a subsequence keeps it a subsequence. */
  lemma {:induction false} SubsequenceTake<T>(a: seq<T>, b: seq<T>, j: nat)
    requires IsSubsequence(a, b) && j <= |a|
    ensures IsSubsequence(a[..j], b)
    decreases |b|
  {
    if j > 0 {
      if a[0] == b[0] && IsSubsequence(a[1..], b[1..]) {
        SubsequenceTake(a[1..], b[1..], j - 1);
        assert a[..j][1..] == a[1..][..j - 1];
      } else {
        SubsequenceTake(a, b[1..], j);
      }
    }
  }

  /** Every slice of a sequence is a subsequence of it. */
  lemma SliceIsSubsequence<T>(b: seq<T>, i: nat, j: nat)
    requires i <= j <= |b|
    ensures IsSubsequence(b[i..j], b)
  {
    SubsequenceReflexive(b);
    SubsequenceTake(b, b, j);
    SubsequenceDrop(b[..j], b, i);
    assert b[..j][i..] == b[i..j];
  }

  /** No element occurs twice. */
  predicate Distinct<T(==)>(s: seq<T>)
  {
    forall i, j :: 0 <= i < j < |s| ==> s[i] != s[j]
  }
}
