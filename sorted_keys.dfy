/**
 * The order in which an S3-compatible store lists keys: lexicographic
 * (character by character, a proper prefix first). `Sorted` enumerates a
 * finite set of keys in that order, which makes every listing a
 * deterministic, duplicate-free sequence.
 */
module SortedKeys {

  /** `a` is listed no later than `b`. */
  predicate Below(a: string, b: string) {
    |a| == 0 || (|b| > 0 && (a[0] < b[0] || (a[0] == b[0] && Below(a[1..], b[1..]))))
  }

  lemma {:induction false} BelowAntisymmetric(a: string, b: string)
    requires Below(a, b) && Below(b, a)
    ensures a == b
  {
    if |a| > 0 && |b| > 0 {
      BelowAntisymmetric(a[1..], b[1..]);
      assert a == [a[0]] + a[1..];
      assert b == [b[0]] + b[1..];
    }
  }

  lemma {:induction false} BelowTransitive(a: string, b: string, c: string)
    requires Below(a, b) && Below(b, c)
    ensures Below(a, c)
  {
    if |a| > 0 && |b| > 0 && |c| > 0 && a[0] == b[0] == c[0] {
      BelowTransitive(a[1..], b[1..], c[1..]);
    }
  }

  lemma {:induction false} BelowTotal(a: string, b: string)
    ensures Below(a, b) || Below(b, a)
  {
    if |a| > 0 && |b| > 0 && a[0] == b[0] {
      BelowTotal(a[1..], b[1..]);
    }
  }

  predicate IsLeast(m: string, s: set<string>) {
    m in s && forall x :: x in s ==> Below(m, x)
  }

  lemma {:induction false} LeastExists(s: set<string>)
    requires s != {}
    ensures exists m :: IsLeast(m, s)
    decreases |s|
  {
    var x :| x in s;
    if s == {x} {
      assert IsLeast(x, s) by { BelowTotal(x, x); }
    } else {
      LeastExists(s - {x});
      var m :| IsLeast(m, s - {x});
      BelowTotal(m, x);
      if Below(m, x) {
        assert IsLeast(m, s);
      } else {
        forall y | y in s ensures Below(x, y) {
          if y != x { BelowTransitive(x, m, y); } else { BelowTotal(x, x); }
        }
        assert IsLeast(x, s);
      }
    }
  }

  /** The key of `s` that is listed first. */
  function Least(s: set<string>): (m: string)
    requires s != {}
    ensures m in s && forall x :: x in s ==> Below(m, x)
  {
    LeastExists(s);
    assert forall a, b :: IsLeast(a, s) && IsLeast(b, s) ==> a == b by {
      forall a, b | IsLeast(a, s) && IsLeast(b, s) ensures a == b {
        BelowAntisymmetric(a, b);
      }
    }
    var m :| IsLeast(m, s);
    m
  }

  /** The keys of `s` in listing order. */
  function Sorted(s: set<string>): (r: seq<string>)
    ensures |r| == |s|
    ensures forall x :: x in r <==> x in s
    ensures forall i, j :: 0 <= i < j < |r| ==> r[i] != r[j] && Below(r[i], r[j])
    decreases |s|
  {
    if s == {} then []
    else
      var m := Least(s);
      var rest := Sorted(s - {m});
      SortedCons(s, m, rest);
      [m] + rest
  }

  /** The least key followed by the others in order is the whole set in order. */
  lemma SortedCons(s: set<string>, m: string, rest: seq<string>)
    requires m in s && forall x :: x in s ==> Below(m, x)
    requires |rest| == |s - {m}| && forall x :: x in rest <==> x in s - {m}
    requires forall i, j :: 0 <= i < j < |rest| ==> rest[i] != rest[j] && Below(rest[i], rest[j])
    ensures |[m] + rest| == |s|
    ensures forall x :: x in [m] + rest <==> x in s
    ensures forall i, j :: 0 <= i < j < |[m] + rest| ==> ([m] + rest)[i] != ([m] + rest)[j] && Below(([m] + rest)[i], ([m] + rest)[j])
  {
    var r := [m] + rest;
    forall i, j | 0 <= i < j < |r| ensures r[i] != r[j] && Below(r[i], r[j]) {
      SortedConsPair(s, m, rest, i, j);
    }
  }

  lemma SortedConsPair(s: set<string>, m: string, rest: seq<string>, i: int, j: int)
    requires m in s && forall x :: x in s ==> Below(m, x)
    requires forall x :: x in rest <==> x in s - {m}
    requires forall i, j :: 0 <= i < j < |rest| ==> rest[i] != rest[j] && Below(rest[i], rest[j])
    requires 0 <= i < j < |rest| + 1
    ensures ([m] + rest)[i] != ([m] + rest)[j] && Below(([m] + rest)[i], ([m] + rest)[j])
  {
    var r := [m] + rest;
    assert r[j] == rest[j - 1];
    if i == 0 {
      assert r[i] == m;
      assert rest[j - 1] in rest;
    } else {
      assert r[i] == rest[i - 1];
    }
  }
}
