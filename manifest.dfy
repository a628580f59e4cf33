/**
  The extraction manifest: the set of extracted relative paths, written out
  as a list in Python's string order (code point by code point, a proper
  prefix first).
*/
module Manifest {

  /** `a < b` on Python strings. */
  predicate Below(a: string, b: string)
  {
    if a == [] then b != []
    else if b == [] then false
    else if a[0] != b[0] then a[0] < b[0]
    else Below(a[1..], b[1..])
  }

  lemma {:induction false} BelowIrreflexive(a: string)
    ensures !Below(a, a)
  {
    if a != [] {
      BelowIrreflexive(a[1..]);
    }
  }

  lemma {:induction false} BelowTransitive(a: string, b: string, c: string)
    requires Below(a, b) && Below(b, c)
    ensures Below(a, c)
  {
    if a != [] && b != [] && c != [] && a[0] == b[0] && b[0] == c[0] {
      BelowTransitive(a[1..], b[1..], c[1..]);
    }
  }

  /** Two different strings are always ordered one way or the other. */
  lemma {:induction false} BelowTotal(a: string, b: string)
    requires a != b
    ensures Below(a, b) || Below(b, a)
  {
    if a != [] && b != [] && a[0] == b[0] {
      assert a == [a[0]] + a[1..] && b == [b[0]] + b[1..];
      BelowTotal(a[1..], b[1..]);
    }
  }

  lemma BelowAsymmetric(a: string, b: string)
    requires Below(a, b)
    ensures !Below(b, a)
  {
    if Below(b, a) {
      BelowTransitive(a, b, a);
      BelowIrreflexive(a);
    }
  }

  predicate StrictlySorted(s: seq<string>)
  {
    forall i, j :: 0 <= i < j < |s| ==> Below(s[i], s[j])
  }

  /** The elements of `s`, as a set. */
  function Elements(s: seq<string>): set<string>
  {
    set x | x in s
  }

  /**
    A set has only one strictly sorted listing, so `sorted(list(items))` is
    determined by the set alone.
  */
  lemma {:induction false} SortedListingUnique(a: seq<string>, b: seq<string>)
    requires StrictlySorted(a) && StrictlySorted(b)
    requires Elements(a) == Elements(b)
    ensures a == b
  {
    if a != [] && b != [] {
      // both heads are the least element
      if a[0] != b[0] {
        assert b[0] in Elements(a) && a[0] in Elements(b);
        var i :| 0 <= i < |a| && a[i] == b[0];
        var j :| 0 <= j < |b| && b[j] == a[0];
        assert i > 0 && j > 0;
        assert Below(a[0], b[0]) && Below(b[0], a[0]);
        BelowAsymmetric(a[0], b[0]);
      }
      assert a[0] == b[0];
      assert Elements(a[1..]) == Elements(b[1..]) by {
        forall x | x in Elements(a[1..])
          ensures x in Elements(b[1..])
        {
          var i :| 1 <= i < |a| && a[i] == x;
          assert Below(a[0], x);
          BelowIrreflexive(x);
          assert x in Elements(b);
          var j :| 0 <= j < |b| && b[j] == x;
          assert j != 0;
          assert b[1..][j - 1] == x;
        }
        forall x | x in Elements(b[1..])
          ensures x in Elements(a[1..])
        {
          var j :| 1 <= j < |b| && b[j] == x;
          assert Below(b[0], x);
          BelowIrreflexive(x);
          assert x in Elements(a);
          var i :| 0 <= i < |a| && a[i] == x;
          assert i != 0;
          assert a[1..][i - 1] == x;
        }
      }
      SortedListingUnique(a[1..], b[1..]);
      assert a == [a[0]] + a[1..] && b == [b[0]] + b[1..];
    } else {
      NoElements(a);
      NoElements(b);
    }
  }

  lemma NoElements(s: seq<string>)
    ensures Elements(s) == {} <==> s == []
  {
    if s != [] {
      assert s[0] in Elements(s);
    }
  }

  /** The least string of a non-empty set. */
  method Least(items: set<string>) returns (m: string)
    requires items != {}
    ensures m in items
    ensures forall x :: x in items && x != m ==> Below(m, x)
  {
    m :| m in items;
    var rest := items - {m};
    while rest != {}
      invariant m in items && rest <= items
      invariant forall x :: x in items - rest && x != m ==> Below(m, x)
      decreases |rest|
    {
      var y :| y in rest;
      if Below(y, m) {
        forall x | x in items - rest && x != y
          ensures Below(y, x)
        {
          if x != m {
            BelowTransitive(y, m, x);
          }
        }
        m := y;
      } else if y != m {
        BelowTotal(y, m);
      }
      rest := rest - {y};
    }
  }

  /** `sorted(list(items))`. */
  method SortedList(items: set<string>) returns (r: seq<string>)
    ensures StrictlySorted(r)
    ensures Elements(r) == items
    ensures |r| == |items|
  {
    r := [];
    var rest := items;
    while rest != {}
      invariant rest <= items
      invariant StrictlySorted(r)
      invariant Elements(r) == items - rest
      invariant |r| + |rest| == |items|
      invariant forall i, y :: 0 <= i < |r| && y in rest ==> Below(r[i], y)
      decreases |rest|
    {
      var m := Least(rest);
      assert Elements(r + [m]) == Elements(r) + {m};
      r := r + [m];
      rest := rest - {m};
    }
  }
}
