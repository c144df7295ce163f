/**
 Python's ordering of `str` values: lexicographic by code point, with a
 proper prefix ordered before the longer string. (Dafny's own `<` on
 sequences means "proper prefix", so the order is defined here.)
 */
module TextOrder {

  predicate TextLe(a: string, b: string) {
    |a| == 0 || (|b| > 0 && (a[0] < b[0] || (a[0] == b[0] && TextLe(a[1..], b[1..]))))
  }

  lemma {:induction false} TextLeReflexive(a: string)
    ensures TextLe(a, a)
  {
    if |a| > 0 {
      TextLeReflexive(a[1..]);
    }
  }

  lemma {:induction false} TextLeTotal(a: string, b: string)
    ensures TextLe(a, b) || TextLe(b, a)
  {
    if |a| > 0 && |b| > 0 && a[0] == b[0] {
      TextLeTotal(a[1..], b[1..]);
    }
  }

  lemma {:induction false} TextLeTransitive(a: string, b: string, c: string)
    requires TextLe(a, b) && TextLe(b, c)
    ensures TextLe(a, c)
  {
    if |a| > 0 && a[0] == b[0] && b[0] == c[0] {
      TextLeTransitive(a[1..], b[1..], c[1..]);
    }
  }

  lemma {:induction false} TextLeAntisymmetric(a: string, b: string)
    requires TextLe(a, b) && TextLe(b, a)
    ensures a == b
  {
    if |a| > 0 {
      TextLeAntisymmetric(a[1..], b[1..]);
      assert a == [a[0]] + a[1..];
      assert b == [b[0]] + b[1..];
    }
  }

  /** The least string of a non-empty list under `TextLe` (what `sorted(xs)[0]` returns). */
  function Least(xs: seq<string>): (m: string)
    requires |xs| > 0
    ensures m in xs
    ensures forall i :: 0 <= i < |xs| ==> TextLe(m, xs[i])
  {
    if |xs| == 1 then
      TextLeReflexive(xs[0]);
      xs[0]
    else
      var rest := Least(xs[1..]);
      assert forall i :: 1 <= i < |xs| ==> xs[i] == xs[1..][i - 1];
      if TextLe(xs[0], rest) then
        TextLeReflexive(xs[0]);
        forall i | 1 <= i < |xs|
          ensures TextLe(xs[0], xs[i])
        {
          TextLeTransitive(xs[0], rest, xs[1..][i - 1]);
        }
        xs[0]
      else
        TextLeTotal(xs[0], rest);
        rest
  }

  /** Any element below every element of the list is the one `Least` picks. */
  lemma LeastUnique(xs: seq<string>, m: string)
    requires m in xs
    requires forall i :: 0 <= i < |xs| ==> TextLe(m, xs[i])
    ensures Least(xs) == m
  {
    var l := Least(xs);
    var j :| 0 <= j < |xs| && xs[j] == m;
    var k :| 0 <= k < |xs| && xs[k] == l;
    TextLeAntisymmetric(l, m);
  }

  /**
   `TextLe` is Python's string comparison: `a` is a prefix of `b`, or at the
   first position where they differ `a` has the smaller code point.
   */
  lemma {:induction false} TextLeIffPrefixOrFirstDifference(a: string, b: string)
    ensures TextLe(a, b) <==>
              a <= b || exists k :: 0 <= k < |a| && k < |b| && a[..k] == b[..k] && a[k] < b[k]
  {
    if |a| > 0 && |b| > 0 {
      TextLeIffPrefixOrFirstDifference(a[1..], b[1..]);
      if a[0] == b[0] {
        if a[1..] <= b[1..] {
          assert a <= b;
        }
        if exists k :: 0 <= k < |a[1..]| && k < |b[1..]| && a[1..][..k] == b[1..][..k] && a[1..][k] < b[1..][k] {
          var k :| 0 <= k < |a[1..]| && k < |b[1..]| && a[1..][..k] == b[1..][..k] && a[1..][k] < b[1..][k];
          assert a[..k + 1] == [a[0]] + a[1..][..k];
          assert b[..k + 1] == [b[0]] + b[1..][..k];
        }
        if exists k :: 0 <= k < |a| && k < |b| && a[..k] == b[..k] && a[k] < b[k] {
          var k :| 0 <= k < |a| && k < |b| && a[..k] == b[..k] && a[k] < b[k];
          assert k > 0;
          assert a[1..][..k - 1] == a[..k][1..];
          assert b[1..][..k - 1] == b[..k][1..];
        }
      } else if a[0] < b[0] {
        assert a[..0] == b[..0];
      } else {
        if exists k :: 0 <= k < |a| && k < |b| && a[..k] == b[..k] && a[k] < b[k] {
          var k :| 0 <= k < |a| && k < |b| && a[..k] == b[..k] && a[k] < b[k];
          if k > 0 {
            assert a[..k][0] == b[..k][0];
          }
        }
      }
    }
  }
}
