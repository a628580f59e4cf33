/**
  Face decoding of the model importer: a 16-bit index stream holding
  triangle strips separated by the restart marker 0xFFFF becomes a list of
  triangles, degenerate ones dropped, and the triangles are then re-indexed
  densely over the vertices they actually use.
*/
module Strips {
  import opened Binary

  /** The primitive-restart marker that separates two strips. */
  const Restart: nat := 0xFFFF

  datatype Tri = Tri(a: nat, b: nat, c: nat)

  /** `np.frombuffer(b, dtype=np.uint16)`: little-endian words; an odd byte count has no such view. */
  function Words(b: seq<uint8>): (r: Result<seq<nat>>)
    ensures r.Ok? <==> |b| % 2 == 0
    ensures r.Err? ==> r.error == BadShape
    ensures r.Ok? ==> (|r.value| == |b| / 2 &&
      forall i :: 0 <= i < |r.value| ==> r.value[i] == b[2 * i] as nat + 256 * b[2 * i + 1] as nat)
  {
    if |b| % 2 != 0 then Err(BadShape)
    else Ok(seq(|b| / 2, i requires 0 <= i < |b| / 2 => b[2 * i] as nat + 256 * b[2 * i + 1] as nat))
  }

  // ---------------------------------------------------------------------------
  // Splitting the stream into strips

  /**
    `np.split` before every marker followed by `np.delete` of the markers:
    the pieces between markers, empty pieces included.
  */
  function Split(s: seq<nat>): (r: seq<seq<nat>>)
    ensures |r| >= 1
  {
    if s == [] then [[]]
    else
      var rest := Split(s[1..]);
      if s[0] == Restart then [[]] + rest
      else [[s[0]] + rest[0]] + rest[1..]
  }

  /** The pieces written back with one marker between neighbours. */
  function Join(segs: seq<seq<nat>>): seq<nat>
    requires |segs| >= 1
  {
    if |segs| == 1 then segs[0] else segs[0] + [Restart] + Join(segs[1..])
  }

  /** No strip carries a marker. */
  lemma {:induction false} SplitHasNoMarker(s: seq<nat>)
    ensures forall k :: 0 <= k < |Split(s)| ==> Restart !in Split(s)[k]
  {
    if s != [] {
      SplitHasNoMarker(s[1..]);
    }
  }

  /** Splitting loses nothing: joining the strips again gives the stream back. */
  lemma {:induction false} JoinSplit(s: seq<nat>)
    ensures Join(Split(s)) == s
  {
    if s != [] {
      var rest := Split(s[1..]);
      JoinSplit(s[1..]);
      if s[0] == Restart {
        assert ([[]] + rest)[1..] == rest;
        assert s == [] + [Restart] + s[1..];
      } else {
        var r := [[s[0]] + rest[0]] + rest[1..];
        assert Split(s) == r;
        if |rest| == 1 {
          assert Join(r) == [s[0]] + rest[0];
        } else {
          assert r[1..] == rest[1..];
          assert Join(rest) == rest[0] + [Restart] + Join(rest[1..]);
          assert Join(r) == [s[0]] + rest[0] + [Restart] + Join(rest[1..]);
        }
        assert s == [s[0]] + s[1..];
      }
    }
  }

  /** A stream without markers is a single strip. */
  lemma {:induction false} SplitPlain(a: seq<nat>)
    requires Restart !in a
    ensures Split(a) == [a]
  {
    if a != [] {
      assert Restart !in a[1..];
      SplitPlain(a[1..]);
      assert [a[0]] + a[1..] == a;
    }
  }

  /** A marker after a plain run ends exactly that strip. */
  lemma {:induction false} SplitAfterMarker(a: seq<nat>, b: seq<nat>)
    requires Restart !in a
    ensures Split(a + [Restart] + b) == [a] + Split(b)
  {
    if a == [] {
      assert a + [Restart] + b == [Restart] + b;
      assert ([Restart] + b)[1..] == b;
    } else {
      assert (a + [Restart] + b)[1..] == a[1..] + [Restart] + b;
      assert Restart !in a[1..];
      SplitAfterMarker(a[1..], b);
      assert [a[0]] + a[1..] == a;
    }
  }

  /** Strips free of markers are recovered by splitting their join. */
  lemma {:induction false} SplitJoin(segs: seq<seq<nat>>)
    requires |segs| >= 1
    requires forall k :: 0 <= k < |segs| ==> Restart !in segs[k]
    ensures Split(Join(segs)) == segs
  {
    if |segs| == 1 {
      SplitPlain(segs[0]);
    } else {
      SplitJoin(segs[1..]);
      SplitAfterMarker(segs[0], Join(segs[1..]));
      assert [segs[0]] + segs[1..] == segs;
    }
  }

  // ---------------------------------------------------------------------------
  // Triangles of one strip

  /** Window `k` of a strip as the importer orients it: odd windows swap their first two corners. */
  function Oriented(seg: seq<nat>, k: nat): Tri
    requires k + 2 < |seg|
  {
    if k % 2 == 0 then Tri(seg[k], seg[k + 1], seg[k + 2])
    else Tri(seg[k + 1], seg[k], seg[k + 2])
  }

  /**
    `sliding_window_view(seg, 3)` with the odd rows' first two columns
    swapped; a strip shorter than three indices has no window and fails.
  */
  function StripTris(seg: seq<nat>): (r: Result<seq<Tri>>)
    ensures r.Ok? <==> |seg| >= 3
    ensures r.Err? ==> r.error == BadShape
    ensures r.Ok? ==> |r.value| == |seg| - 2
  {
    if |seg| < 3 then Err(BadShape)
    else Ok(seq(|seg| - 2, k requires 0 <= k < |seg| - 2 => Oriented(seg, k)))
  }

  /** The directed edge `x -> y` belongs to the winding of `t`. */
  predicate HasEdge(t: Tri, x: nat, y: nat)
  {
    (t.a == x && t.b == y) || (t.b == x && t.c == y) || (t.c == x && t.a == y)
  }

  /** Every triangle of a strip uses exactly the three indices of its window. */
  lemma StripCorners(seg: seq<nat>)
    requires |seg| >= 3
    ensures var ts := StripTris(seg).value;
      forall k :: 0 <= k < |ts| ==> multiset{ts[k].a, ts[k].b, ts[k].c} == multiset(seg[k..k + 3])
  {
    var ts := StripTris(seg).value;
    forall k | 0 <= k < |ts|
      ensures multiset{ts[k].a, ts[k].b, ts[k].c} == multiset(seg[k..k + 3])
    {
      assert seg[k..k + 3] == [seg[k], seg[k + 1], seg[k + 2]];
      assert ts[k] == Oriented(seg, k);
    }
  }

  /** `t` and `u` share the edge between `x` and `y` and run along it in opposite directions. */
  predicate Opposite(t: Tri, u: Tri, x: nat, y: nat)
  {
    (HasEdge(t, x, y) && HasEdge(u, y, x)) || (HasEdge(t, y, x) && HasEdge(u, x, y))
  }

  /**
    Neighbouring triangles of a strip share the edge between them and run
    along it in opposite directions: the strip is wound one way throughout.
  */
  lemma StripWinding(seg: seq<nat>)
    requires |seg| >= 3
    ensures var ts := StripTris(seg).value;
      forall k :: 0 <= k < |seg| - 3 ==> Opposite(ts[k], ts[k + 1], seg[k + 1], seg[k + 2])
  {
    var ts := StripTris(seg).value;
    forall k | 0 <= k < |seg| - 3
      ensures Opposite(ts[k], ts[k + 1], seg[k + 1], seg[k + 2])
    {
      assert ts[k] == Oriented(seg, k) && ts[k + 1] == Oriented(seg, k + 1);
      if k % 2 == 0 {
        assert (k + 1) % 2 == 1;
        assert HasEdge(ts[k], seg[k + 1], seg[k + 2]);
        assert HasEdge(ts[k + 1], seg[k + 2], seg[k + 1]);
      } else {
        assert (k + 1) % 2 == 0;
        assert HasEdge(ts[k], seg[k + 2], seg[k + 1]);
        assert HasEdge(ts[k + 1], seg[k + 1], seg[k + 2]);
      }
    }
  }

  // ---------------------------------------------------------------------------
  // The whole face list

  /** `np.vstack` of every strip's triangles, failing at the first strip with no window. */
  function StackStrips(segs: seq<seq<nat>>): (r: Result<seq<Tri>>)
    ensures r.Ok? <==> forall k :: 0 <= k < |segs| ==> |segs[k]| >= 3
    ensures r.Err? ==> r.error == BadShape
  {
    if segs == [] then Ok([])
    else
      var init :- StackStrips(segs[..|segs| - 1]);
      var last :- StripTris(segs[|segs| - 1]);
      Ok(init + last)
  }

  /** Three different corners; `nunique(row) == 3`. */
  predicate Proper(t: Tri)
  {
    t.a != t.b && t.b != t.c && t.a != t.c
  }

  /** The triangles with three distinct corners, in order. */
  function KeepProper(ts: seq<Tri>): (r: seq<Tri>)
    ensures |r| <= |ts|
    ensures forall t :: t in r <==> t in ts && Proper(t)
  {
    if ts == [] then []
    else
      var init := KeepProper(ts[..|ts| - 1]);
      var t := ts[|ts| - 1];
      assert ts == ts[..|ts| - 1] + [t];
      if Proper(t) then init + [t] else init
  }

  /** The face list of one mesh from the bytes of its index range. */
  function Faces(b: seq<uint8>): (r: Result<seq<Tri>>)
  {
    var words :- Words(b);
    var tris :- StackStrips(Split(words));
    Ok(KeepProper(tris))
  }

  /**
    Face decoding fails exactly on an odd byte count or a strip shorter than
    three indices (an empty range, a leading, doubled or trailing marker all
    make one); otherwise every face is proper and free of the marker.
  */
  lemma FacesSpec(b: seq<uint8>)
    ensures Faces(b).Ok? <==>
      |b| % 2 == 0 && forall k :: 0 <= k < |Split(Words(b).value)| ==> |Split(Words(b).value)[k]| >= 3
    ensures Faces(b).Err? ==> Faces(b).error == BadShape
    ensures Faces(b).Ok? ==>
      forall t :: t in Faces(b).value ==> Proper(t) && t.a != Restart && t.b != Restart && t.c != Restart
  {
    if |b| % 2 == 0 {
      var segs := Split(Words(b).value);
      SplitHasNoMarker(Words(b).value);
      StackNoMarker(segs);
      var st := StackStrips(segs);
      if st.Ok? {
        assert Faces(b) == Ok(KeepProper(st.value));
      } else {
        assert Faces(b) == Err(st.error);
        var k :| 0 <= k < |segs| && |segs[k]| < 3;
        assert |Split(Words(b).value)[k]| < 3;
      }
    }
  }

  lemma {:induction false} StackNoMarker(segs: seq<seq<nat>>)
    requires forall k :: 0 <= k < |segs| ==> Restart !in segs[k]
    ensures StackStrips(segs).Ok? ==>
      forall t :: t in StackStrips(segs).value ==> t.a != Restart && t.b != Restart && t.c != Restart
  {
    if segs != [] && StackStrips(segs).Ok? {
      var init := segs[..|segs| - 1];
      var last := segs[|segs| - 1];
      StackNoMarker(init);
      var ts := StripTris(last).value;
      assert StackStrips(segs).value == StackStrips(init).value + ts;
      forall k | 0 <= k < |ts|
        ensures ts[k].a != Restart && ts[k].b != Restart && ts[k].c != Restart
      {
        assert last[k] in last && last[k + 1] in last && last[k + 2] in last;
      }
    }
  }

  /** An empty index range, or one that opens with a marker, cannot be decoded. */
  lemma EmptyOrLeadingMarkerFails(b: seq<uint8>)
    requires |b| == 0 || (|b| >= 2 && b[0] == 0xFF && b[1] == 0xFF)
    ensures Faces(b) == Err(BadShape)
  {
    if |b| % 2 == 0 {
      var w := Words(b).value;
      FacesSpec(b);
      if w != [] {
        assert w[0] == Restart;
      }
      assert Split(w)[0] == [];
    }
  }

  // ---------------------------------------------------------------------------
  // Dense re-indexing

  /** `faces.flatten()`. */
  function Corners(ts: seq<Tri>): (r: seq<nat>)
    ensures |r| == 3 * |ts|
    ensures forall i :: 0 <= i < |ts| ==> r[3 * i] == ts[i].a && r[3 * i + 1] == ts[i].b && r[3 * i + 2] == ts[i].c
  {
    if ts == [] then []
    else [ts[0].a, ts[0].b, ts[0].c] + Corners(ts[1..])
  }

  predicate Increasing(s: seq<nat>)
  {
    forall i, j :: 0 <= i < j < |s| ==> s[i] < s[j]
  }

  /** In a strictly increasing sequence the head is below everything after it. */
  lemma HeadBelowRest(s: seq<nat>)
    requires Increasing(s) && |s| > 0
    ensures Increasing(s[1..])
    ensures forall y :: y in s[1..] ==> s[0] < y
  {
    forall y | y in s[1..]
      ensures s[0] < y
    {
      var k :| 0 <= k < |s[1..]| && s[1..][k] == y;
      assert s[k + 1] == y;
    }
  }

  /** A value below every element of a strictly increasing sequence may lead it. */
  lemma IncreasingCons(a: nat, t: seq<nat>)
    requires Increasing(t)
    requires forall y :: y in t ==> a < y
    ensures Increasing([a] + t)
  {
    var u := [a] + t;
    forall i, j | 0 <= i < j < |u|
      ensures u[i] < u[j]
    {
      assert u[j] == t[j - 1] && t[j - 1] in t;
      if i > 0 {
        assert u[i] == t[i - 1];
      }
    }
  }

  /** `x` added to a strictly increasing sequence, kept strictly increasing. */
  function Insert(x: nat, s: seq<nat>): (r: seq<nat>)
    requires Increasing(s)
    ensures Increasing(r)
    ensures forall y :: y in r <==> y == x || y in s
  {
    if s == [] then [x]
    else if x < s[0] then
      HeadBelowRest(s);
      assert forall y :: y in s ==> y == s[0] || y in s[1..];
      IncreasingCons(x, s);
      [x] + s
    else if x == s[0] then s
    else
      HeadBelowRest(s);
      var t := Insert(x, s[1..]);
      IncreasingCons(s[0], t);
      assert s == [s[0]] + s[1..];
      [s[0]] + t
  }

  /** `np.unique`: the distinct values, ascending. */
  function Unique(s: seq<nat>): (r: seq<nat>)
    ensures Increasing(r)
    ensures forall y :: y in r <==> y in s
  {
    if s == [] then []
    else Insert(s[|s| - 1], Unique(s[..|s| - 1]))
  }

  /** `np.searchsorted(s, x)`: how many entries are smaller than `x`. */
  function CountBelow(s: seq<nat>, x: nat): (n: nat)
    ensures n <= |s|
  {
    if s == [] then 0
    else (if s[0] < x then 1 else 0) + CountBelow(s[1..], x)
  }

  /** In a strictly increasing sequence, the number of smaller entries is the position of `x`. */
  lemma {:induction false} CountBelowFinds(s: seq<nat>, x: nat)
    requires Increasing(s) && x in s
    ensures CountBelow(s, x) < |s| && s[CountBelow(s, x)] == x
  {
    if s[0] != x {
      assert x in s[1..];
      CountBelowFinds(s[1..], x);
    } else {
      CountNoneBelow(s[1..], x);
    }
  }

  lemma {:induction false} CountNoneBelow(s: seq<nat>, x: nat)
    requires forall i :: 0 <= i < |s| ==> x < s[i]
    ensures CountBelow(s, x) == 0
  {
    if s != [] {
      CountNoneBelow(s[1..], x);
    }
  }

  /** Every corner replaced by its position among the used vertices. */
  function Reindex(ts: seq<Tri>, used: seq<nat>): (r: seq<Tri>)
    ensures |r| == |ts|
  {
    seq(|ts|, i requires 0 <= i < |ts| =>
      Tri(CountBelow(used, ts[i].a), CountBelow(used, ts[i].b), CountBelow(used, ts[i].c)))
  }

  /** The vertices a face list uses, ascending and without repeats. */
  function Used(ts: seq<Tri>): seq<nat>
  {
    Unique(Corners(ts))
  }

  /**
    Re-indexing is undone by the used-vertex list: every new corner is a valid
    position in it and names the original corner there.
  */
  lemma ReindexInverts(ts: seq<Tri>)
    ensures var used, r := Used(ts), Reindex(ts, Used(ts));
      forall i :: 0 <= i < |ts| ==>
        r[i].a < |used| && used[r[i].a] == ts[i].a &&
        r[i].b < |used| && used[r[i].b] == ts[i].b &&
        r[i].c < |used| && used[r[i].c] == ts[i].c
  {
    var used := Used(ts);
    var cs := Corners(ts);
    forall i | 0 <= i < |ts|
      ensures CountBelow(used, ts[i].a) < |used| && used[CountBelow(used, ts[i].a)] == ts[i].a
      ensures CountBelow(used, ts[i].b) < |used| && used[CountBelow(used, ts[i].b)] == ts[i].b
      ensures CountBelow(used, ts[i].c) < |used| && used[CountBelow(used, ts[i].c)] == ts[i].c
    {
      assert cs[3 * i] == ts[i].a && cs[3 * i + 1] == ts[i].b && cs[3 * i + 2] == ts[i].c;
      CountBelowFinds(used, ts[i].a);
      CountBelowFinds(used, ts[i].b);
      CountBelowFinds(used, ts[i].c);
    }
  }

  /** Every used vertex is a corner of some face: nothing is kept that no face needs. */
  lemma UsedAreCorners(ts: seq<Tri>, x: nat)
    requires x in Used(ts)
    ensures exists i :: 0 <= i < |ts| && (ts[i].a == x || ts[i].b == x || ts[i].c == x)
  {
    var cs := Corners(ts);
    var j :| 0 <= j < |cs| && cs[j] == x;
    var i := j / 3;
    assert cs[3 * i] == ts[i].a && cs[3 * i + 1] == ts[i].b && cs[3 * i + 2] == ts[i].c;
  }

  /** `a[idx]` with a list of indices: an index past the end raises IndexError. */
  function Gather<T>(a: seq<T>, idx: seq<nat>): (r: Result<seq<T>>)
    ensures r.Ok? <==> forall i :: 0 <= i < |idx| ==> idx[i] < |a|
    ensures r.Err? ==> r.error == IndexOutOfRange
    ensures r.Ok? ==> |r.value| == |idx| && forall i :: 0 <= i < |idx| ==> r.value[i] == a[idx[i]]
  {
    if forall i :: 0 <= i < |idx| ==> idx[i] < |a| then Ok(seq(|idx|, i requires 0 <= i < |idx| => a[idx[i]]))
    else Err(IndexOutOfRange)
  }

  /**
    Attributes gathered through the used-vertex list and read back through
    the re-indexed faces are the attributes of the original corners.
  */
  lemma GatherThroughFaces<T>(a: seq<T>, ts: seq<Tri>)
    requires Gather(a, Used(ts)).Ok?
    ensures var g, r := Gather(a, Used(ts)).value, Reindex(ts, Used(ts));
      forall i :: 0 <= i < |ts| ==>
        r[i].a < |g| && ts[i].a < |a| && g[r[i].a] == a[ts[i].a] &&
        r[i].b < |g| && ts[i].b < |a| && g[r[i].b] == a[ts[i].b] &&
        r[i].c < |g| && ts[i].c < |a| && g[r[i].c] == a[ts[i].c]
  {
    ReindexInverts(ts);
  }
}
