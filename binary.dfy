/**
  Bytes, Python slice semantics, little-endian integer decoding and the
  failure-carrying result type shared by every decoder of the tool suite.

  Every typed read of the parsers is `struct.unpack(fmt, data[o:o+w])`: the
  slice follows Python's rules (negative bounds count from the end, bounds are
  clamped), and the unpack fails unless the slice has exactly `w` bytes.
*/
module Binary {

  type uint8 = x: int | 0 <= x < 256

  /** The exceptions the parsers can raise, one constructor per kind. */
  datatype Error =
    | Underrun                            // struct.error: a typed read got a short slice
    | BadMagic(magic: nat)                // RuntimeError: wrong file magic
    | BadModHeader(magic: nat, version: nat)  // RuntimeError: wrong model magic or version
    | IndexOutOfRange                     // IndexError
    | BadShape                            // ValueError raised by an array reshape or window
    | ZeroDivision                        // ZeroDivisionError
    | NoRemapTable                        // NameError: the bone remap table was never built
    | InflateFailed                       // zlib.error

  datatype Result<+T> = Ok(value: T) | Err(error: Error) {
    predicate IsFailure() { Err? }
    function PropagateFailure<U>(): Result<U>
      requires Err?
    {
      Err(error)
    }
    function Extract(): T
      requires Ok?
    {
      value
    }
  }

  datatype Option<+T> = None | Some(value: T)

  /** Raw IEEE-754 bit patterns; their numeric value is never needed here. */
  datatype Half = Half(bits: nat)
  datatype Single = Single(bits: nat)

  // ---------------------------------------------------------------------------
  // Python slicing

  /** A slice bound as Python normalises it for a sequence of length n. */
  function SliceBound(i: int, n: nat): (k: nat)
    ensures k <= n
    ensures 0 <= i <= n ==> k == i
  {
    if i < 0 then (if i + n < 0 then 0 else i + n)
    else if i > n then n
    else i
  }

  /** `s[lo:hi]` in Python. */
  function PySlice<T>(s: seq<T>, lo: int, hi: int): (r: seq<T>)
    ensures |r| <= |s|
  {
    var a, b := SliceBound(lo, |s|), SliceBound(hi, |s|);
    if a < b then s[a..b] else []
  }

  /** A non-negative slice start gives the plain sub-sequence, clamped at the end. */
  lemma PySliceFrom<T>(s: seq<T>, lo: int, w: nat)
    requires 0 <= lo
    ensures lo + w <= |s| ==> PySlice(s, lo, lo + w) == s[lo..lo + w]
    ensures lo + w > |s| && w > 0 ==> |PySlice(s, lo, lo + w)| < w
  {
  }

  /** `s[i]` in Python: a negative index counts from the end; anything else outside raises. */
  function PyIndex<T>(s: seq<T>, i: int): (r: Result<T>)
    ensures r.Ok? <==> -|s| <= i < |s|
    ensures r.Err? ==> r.error == IndexOutOfRange
    ensures 0 <= i < |s| ==> r == Ok(s[i])
    ensures -|s| <= i < 0 ==> r == Ok(s[|s| + i])
  {
    if 0 <= i < |s| then Ok(s[i])
    else if -|s| <= i < 0 then Ok(s[|s| + i])
    else Err(IndexOutOfRange)
  }

  /** `w` bytes at `off` as `struct.unpack` sees them: exactly `w` of them or a failure. */
  function Bytes(data: seq<uint8>, off: int, w: nat): (r: Result<seq<uint8>>)
    ensures r.Ok? ==> |r.value| == w
    ensures r.Err? ==> r.error == Underrun
  {
    var s := PySlice(data, off, off + w);
    if |s| == w then Ok(s) else Err(Underrun)
  }

  /** A read of at least one byte succeeds only strictly before the end of the buffer. */
  lemma BytesBelowEnd(data: seq<uint8>, off: int, w: nat)
    requires w > 0 && Bytes(data, off, w).Ok?
    ensures off < |data|
  {
  }

  /** For a non-negative offset a read succeeds exactly when it fits. */
  lemma BytesFrom(data: seq<uint8>, off: int, w: nat)
    requires 0 <= off
    ensures Bytes(data, off, w).Ok? <==> w == 0 || off + w <= |data|
    ensures off + w <= |data| ==> Bytes(data, off, w) == Ok(data[off..off + w])
  {
    PySliceFrom(data, off, w);
  }

  /** A one-byte read yields the byte itself, and fails past the end. */
  lemma ByteAt(data: seq<uint8>, off: nat)
    ensures off < |data| ==> UIntAt(data, off, 1) == Ok(data[off])
    ensures off >= |data| ==> UIntAt(data, off, 1).Err?
  {
    BytesFrom(data, off, 1);
    if off < |data| {
      assert data[off..off + 1] == [data[off]];
    }
  }

  /** A non-empty sequence is its front followed by its last element. */
  lemma LastSplit<T>(s: seq<T>)
    requires |s| > 0
    ensures s == s[..|s| - 1] + [s[|s| - 1]]
    ensures forall x :: x in s <==> x in s[..|s| - 1] || x == s[|s| - 1]
  {
  }

  // ---------------------------------------------------------------------------
  // Little-endian integers (the native order of the target platforms)

  function Pow256(n: nat): (p: nat)
    ensures p >= 1
  {
    if n == 0 then 1 else 256 * Pow256(n - 1)
  }

  function LeUInt(b: seq<uint8>): (v: nat)
    ensures v < Pow256(|b|)
  {
    if b == [] then 0 else b[0] + 256 * LeUInt(b[1..])
  }

  /** Two's-complement reading of an unsigned value of `n` bytes. */
  function Signed(v: nat, n: nat): (s: int)
    requires v < Pow256(n)
    ensures n > 0 ==> -(Pow256(n) / 2) <= s < Pow256(n) / 2
    ensures s == v || s == v - Pow256(n)
  {
    var p := Pow256(n);
    assert n > 0 ==> p == 256 * Pow256(n - 1);
    if n > 0 && v >= p / 2 then v - p else v
  }

  function UIntAt(data: seq<uint8>, off: int, w: nat): (r: Result<nat>)
    ensures r.Ok? ==> r.value < Pow256(w)
    ensures r.Ok? <==> Bytes(data, off, w).Ok?
  {
    var b :- Bytes(data, off, w);
    Ok(LeUInt(b))
  }

  function SIntAt(data: seq<uint8>, off: int, w: nat): (r: Result<int>)
    ensures r.Ok? <==> Bytes(data, off, w).Ok?
  {
    var v :- UIntAt(data, off, w);
    Ok(Signed(v, w))
  }

  function HalfAt(data: seq<uint8>, off: int): (r: Result<Half>)
    ensures r.Ok? <==> Bytes(data, off, 2).Ok?
  {
    var v :- UIntAt(data, off, 2);
    Ok(Half(v))
  }

  function SingleAt(data: seq<uint8>, off: int): (r: Result<Single>)
    ensures r.Ok? <==> Bytes(data, off, 4).Ok?
  {
    var v :- UIntAt(data, off, 4);
    Ok(Single(v))
  }

  /** Unsigned field of `w` bytes at `k` inside an already-read record. */
  function Field(rec: seq<uint8>, k: nat, w: nat): nat
    requires k + w <= |rec|
  {
    LeUInt(rec[k..k + w])
  }

  /**
    A field read at `base + k` from a record that lies wholly inside the buffer
    gives the record's field; when the record sticks out of the buffer, the
    read of its last field fails.
  */
  lemma FieldOfRecord(data: seq<uint8>, base: nat, size: nat, k: nat, w: nat)
    requires k + w <= size
    ensures base + size <= |data| ==>
      Bytes(data, base, size).Ok? &&
      UIntAt(data, base + k, w) == Ok(Field(Bytes(data, base, size).value, k, w))
    ensures base + size > |data| && k + w == size && w > 0 ==> UIntAt(data, base + k, w).Err?
  {
    BytesFrom(data, base, size);
    BytesFrom(data, base + k, w);
    if base + size <= |data| {
      assert data[base..base + size][k..k + w] == data[base + k..base + k + w];
    }
  }

  // ---------------------------------------------------------------------------
  // Sequential decoding: the first failure in source order wins

  /** `[f(0), ..., f(n-1)]`, stopping at the first failing element. */
  function Collect<T>(n: nat, f: nat -> Result<T>): (r: Result<seq<T>>)
    ensures r.Ok? ==> |r.value| == n
  {
    if n == 0 then Ok([])
    else
      var prefix :- Collect(n - 1, f);
      var x :- f(n - 1);
      Ok(prefix + [x])
  }

  /** A successful collection holds element `i` at position `i`. */
  lemma {:induction false} CollectElements<T>(n: nat, f: nat -> Result<T>)
    requires Collect(n, f).Ok?
    ensures forall i :: 0 <= i < n ==> f(i) == Ok(Collect(n, f).value[i])
  {
    if n > 0 {
      CollectElements(n - 1, f);
    }
  }

  /** Once a prefix of the collection fails, the whole collection fails the same way. */
  lemma {:induction false} CollectSticky<T>(i: nat, n: nat, f: nat -> Result<T>)
    requires i <= n && Collect(i, f).Err?
    ensures Collect(n, f) == Collect(i, f)
    decreases n - i
  {
    if i < n {
      CollectSticky(i, n - 1, f);
    }
  }

  /** The element that fails first decides the error of the whole collection. */
  lemma CollectFailsAt<T>(i: nat, n: nat, f: nat -> Result<T>)
    requires i < n && Collect(i, f).Ok? && f(i).Err?
    ensures Collect(n, f) == Err(f(i).error)
  {
    CollectSticky(i + 1, n, f);
  }

  /** A collection succeeds exactly when every element does. */
  lemma {:induction false} CollectOkIff<T>(n: nat, f: nat -> Result<T>)
    ensures Collect(n, f).Ok? <==> forall i :: 0 <= i < n ==> f(i).Ok?
  {
    if n > 0 {
      CollectOkIff(n - 1, f);
    }
  }

  /** When every element fails with the same error, so does a failed collection. */
  lemma {:induction false} CollectErrorIs<T>(n: nat, f: nat -> Result<T>, e: Error)
    requires forall i :: f(i).Err? ==> f(i).error == e
    ensures Collect(n, f).Err? ==> Collect(n, f).error == e
  {
    if n > 0 {
      CollectErrorIs(n - 1, f, e);
    }
  }

  /** A collection whose every element is given yields exactly those elements. */
  lemma {:induction false} CollectOfAll<T>(n: nat, f: nat -> Result<T>, s: seq<T>)
    requires |s| == n && forall t :: 0 <= t < n ==> f(t) == Ok(s[t])
    ensures Collect(n, f) == Ok(s)
  {
    if n > 0 {
      CollectOfAll(n - 1, f, s[..n - 1]);
      LastSplit(s);
    }
  }

  /** `step` applied for i = 0 .. n-1 from `init`, stopping at the first failure. */
  function FoldIdx<S>(n: nat, init: S, step: (S, nat) -> Result<S>): Result<S>
  {
    if n == 0 then Ok(init)
    else
      var s :- FoldIdx(n - 1, init, step);
      step(s, n - 1)
  }

  lemma {:induction false} FoldIdxSticky<S>(i: nat, n: nat, init: S, step: (S, nat) -> Result<S>)
    requires i <= n && FoldIdx(i, init, step).Err?
    ensures FoldIdx(n, init, step) == FoldIdx(i, init, step)
    decreases n - i
  {
    if i < n {
      FoldIdxSticky(i, n - 1, init, step);
    }
  }
}
