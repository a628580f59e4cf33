/**
  The vertex layouts of the model importer. A mesh's encoding tag selects a
  layout; the layout says which numpy views the vertex bytes are read
  through, which columns of which view hold each attribute, and how the
  skin is stored: one bone with weight 1, or several bones whose last weight
  is one minus the others. Floating-point values stay raw bit patterns,
  except skin weights, which are real numbers so that their sum can be
  stated; the value of a half-precision float and its cast to an integer
  index are parameters (`Decoder`).
*/
module Layouts {
  import opened Binary

  // ---------------------------------------------------------------------------
  // Views over the vertex bytes

  /** `np.float32`, `np.float16`, `np.int16`, `np.uint8`, `np.int8`. */
  datatype ViewKind = F32 | F16 | I16 | U8 | I8

  function Width(k: ViewKind): (w: nat)
    ensures w == 1 || w == 2 || w == 4
  {
    match k
    case F32 => 4
    case F16 => 2
    case I16 => 2
    case U8 => 1
    case I8 => 1
  }

  predicate IsSigned(k: ViewKind)
  {
    k == I16 || k == I8
  }

  /** One element from its little-endian bytes: two's complement for signed integers, raw bits otherwise. */
  function Element(b: seq<uint8>, k: ViewKind): int
  {
    if IsSigned(k) then Signed(LeUInt(b), |b|) else LeUInt(b)
  }

  /** `np.frombuffer(b, dtype)`: the whole elements of the buffer, in order. */
  function Elements(b: seq<uint8>, k: ViewKind): seq<int>
    decreases |b|
  {
    if |b| < Width(k) then [] else [Element(b[..Width(k)], k)] + Elements(b[Width(k)..], k)
  }

  /** `reshape([-1, c])` read row by row: the whole rows of `c` values. */
  function Rows<T>(s: seq<T>, c: nat): (r: seq<seq<T>>)
    requires c > 0
    ensures forall i :: 0 <= i < |r| ==> |r[i]| == c
    decreases |s|
  {
    if |s| < c then [] else [s[..c]] + Rows(s[c..], c)
  }

  function Flatten<T>(rows: seq<seq<T>>): seq<T>
  {
    if rows == [] then [] else rows[0] + Flatten(rows[1..])
  }

  /** What is left after the whole rows: fewer than `c` values. */
  function Leftover<T>(s: seq<T>, c: nat): (r: seq<T>)
    requires c > 0
    ensures |r| < c
    decreases |s|
  {
    if |s| < c then s else Leftover(s[c..], c)
  }

  /** The rows laid end to end, followed by the leftover, give the sequence back. */
  lemma {:induction false} FlattenRows<T>(s: seq<T>, c: nat)
    requires c > 0
    ensures Flatten(Rows(s, c)) + Leftover(s, c) == s
    decreases |s|
  {
    if |s| >= c {
      FlattenRows(s[c..], c);
      var rs := Rows(s, c);
      assert rs == [s[..c]] + Rows(s[c..], c);
      assert rs[1..] == Rows(s[c..], c);
      assert s[..c] + s[c..] == s;
    } else {
      assert Rows(s, c) == [];
    }
  }

  // ---------------------------------------------------------------------------
  // The layout table

  /** Bytes per vertex row: the descriptor's block size, or a width fixed by the layout. */
  datatype Block = PerDescriptor | Fixed(bytes: nat)

  /** `view[:, lo:hi]`, or the single column `view[:, at]`. */
  datatype Column = Slice(kind: ViewKind, lo: nat, hi: nat) | Index(kind: ViewKind, at: nat)

  /** One group of skin weights: int16 / 32767, uint8 / 255, or a half-precision value. */
  datatype Part = Snorm16(col: Column) | Unorm8(col: Column) | HalfWeight(col: Column)

  /** One bone with weight 1, or bones whose weights are the parts followed by one minus their sum. */
  datatype Skin = Rigid(names: Column) | Blend(names: Column, parts: seq<Part>)

  datatype Layout = Layout(
    block: Block,
    views: seq<ViewKind>,       // the views built, in order
    position: Column,
    placed: bool,               // int16 positions, scaled and moved by the bounding box
    normal: Option<Column>,
    uv1: Option<Column>,
    uv2: Option<Column>,
    color: Option<Column>,
    skin: Option<Skin>)

  /** What the importer does with an encoding tag. */
  datatype Dispatch = Decode(layout: Layout) | Ignored | Unsupported

  predicate SliceOf(c: Column, views: seq<ViewKind>)
  {
    c.Slice? && c.kind in views && c.lo <= c.hi
  }

  predicate OptSliceOf(c: Option<Column>, views: seq<ViewKind>)
  {
    c.Some? ==> SliceOf(c.value, views)
  }

  predicate PartOf(p: Part, views: seq<ViewKind>)
  {
    p.col.kind in views && (p.col.Slice? ==> p.col.lo <= p.col.hi) &&
    (p.Snorm16? ==> p.col.kind == I16) && (p.Unorm8? ==> p.col.kind == U8) &&
    (p.HalfWeight? ==> p.col.kind == F16)
  }

  /**
    Every attribute is a column range of a view the layout builds; bone
    columns are bytes or half floats; only weight parts pick single columns.
  */
  predicate WellFormed(l: Layout)
  {
    |l.views| > 0 &&
    SliceOf(l.position, l.views) && OptSliceOf(l.normal, l.views) && OptSliceOf(l.uv1, l.views) &&
    OptSliceOf(l.uv2, l.views) && OptSliceOf(l.color, l.views) &&
    (l.placed ==> l.position.kind == I16) &&
    (l.skin.Some? ==>
      SliceOf(l.skin.value.names, l.views) &&
      (l.skin.value.names.kind == U8 || l.skin.value.names.kind == F16) &&
      (l.skin.value.Blend? ==> forall i :: 0 <= i < |l.skin.value.parts| ==> PartOf(l.skin.value.parts[i], l.views)))
  }

  const Quantized: seq<ViewKind> := [F16, I16, U8, I8]

  /** Position as int16, scaled into the bounding box. */
  const Packed: Column := Slice(I16, 0, 3)

  const Normal8: Option<Column> := Some(Slice(I8, 8, 11))
  const Color12: Option<Column> := Some(Slice(I8, 12, 16))
  const OneBone: Option<Skin> := Some(Rigid(Slice(U8, 6, 7)))
  const WeightA: Part := Snorm16(Index(I16, 3))

  function Uv(lo: nat): Option<Column>
  {
    Some(Slice(F16, lo, lo + 2))
  }

  /** Position as float32. */
  const Direct: Column := Slice(F32, 0, 3)

  /** Encodings without a skin. */
  const StaticTags: set<nat> := {0xd829_7027, 0x207d_6036, 0xa7d7_d035, 0x49b4_f028}

  /** Encodings with one bone per vertex. */
  const RigidTags: set<nat> := {0xd877_801a, 0x667b_1018, 0xcbf6_c019, 0xa8fa_b017}

  /** Encodings with blended bones whose weights are stored as int16 and half floats. */
  const BlendTags: set<nat> := {0x77d8_7021, 0xb392_101e, 0xda55_a020, 0xa013_501d, 0x6459_3022, 0xc31f_201b}

  /** Encodings with blended bones that also store byte weights, or a fixed row width. */
  const WideTags: set<nat> := {0xcbcf_7026, 0xbb42_4023, 0x14d4_001f}

  const DecodedTags: set<nat> := StaticTags + RigidTags + BlendTags + WideTags

  /** The four encodings the importer skips without a warning. */
  const IgnoredTags: set<nat> := {0xa320_c015, 0x0cb6_8014, 0xdb7d_a013, 0xb098_3012}

  function StaticLayout(tag: nat): (l: Layout)
    requires tag in StaticTags
    ensures WellFormed(l) && l.skin.None?
  {
    if tag == 0xd829_7027 then
      Layout(PerDescriptor, [F32, F16, I8], Direct, false, Some(Slice(I8, 12, 15)), Uv(10), None, None, None)
    else if tag == 0x207d_6036 then
      Layout(PerDescriptor, [F32, F16, U8, I8], Direct, false, None, Uv(8), None, Some(Slice(I8, 20, 24)), None)
    else if tag == 0xa7d7_d035 then
      Layout(PerDescriptor, [F32, F16], Direct, false, None, Uv(8), None, None, None)
    else
      Layout(PerDescriptor, [F32, F16, U8, I8], Direct, false,
             Some(Slice(I8, 12, 15)), Uv(10), None, Some(Slice(I8, 24, 28)), None)
  }

  function RigidLayout(tag: nat): (l: Layout)
    requires tag in RigidTags
    ensures WellFormed(l) && l.skin.Some? && l.skin.value.Rigid? && Nominal(l.skin.value.names) == 1
  {
    if tag == 0xd877_801a then
      Layout(PerDescriptor, Quantized, Packed, true, Normal8, Uv(8), Uv(12), Color12, OneBone)
    else if tag == 0x667b_1018 then
      Layout(PerDescriptor, Quantized, Packed, true, Normal8, Uv(8), Uv(10), Color12, OneBone)
    else // 0xcbf6c019 and 0xa8fab017 read the same columns
      Layout(PerDescriptor, Quantized, Packed, true, Normal8, Uv(8), None, Color12, OneBone)
  }

  /** Two bones (the one part is the int16 weight) or four (int16 and two halves). */
  function BlendLayout(tag: nat): (l: Layout)
    requires tag in BlendTags
    ensures WellFormed(l) && l.skin.Some? && l.skin.value.Blend?
  {
    var two := [WeightA];
    var four := [WeightA, HalfWeight(Slice(F16, 12, 14))];
    if tag == 0x77d8_7021 then
      Layout(PerDescriptor, Quantized, Packed, true, Normal8, Uv(10), None, Color12,
             Some(Blend(Slice(U8, 16, 20), four)))
    else if tag == 0xb392_101e then
      Layout(PerDescriptor, Quantized, Packed, true, Normal8, Uv(10), Uv(12), Color12,
             Some(Blend(Slice(F16, 8, 10), two)))
    else if tag == 0xda55_a020 then
      Layout(PerDescriptor, Quantized, Packed, true, Normal8, Uv(10), Uv(14), Color12,
             Some(Blend(Slice(U8, 16, 20), four)))
    else if tag == 0xa013_501d then
      Layout(PerDescriptor, Quantized, Packed, true, Normal8, Uv(8), None, Color12,
             Some(Blend(Slice(F16, 10, 12), two)))
    else if tag == 0x6459_3022 then
      Layout(PerDescriptor, Quantized, Packed, true, Normal8, Uv(10), Uv(16), Color12,
             Some(Blend(Slice(U8, 16, 20), four)))
    else
      Layout(PerDescriptor, Quantized, Packed, true, Normal8, Uv(8), None, Color12,
             Some(Blend(Slice(F16, 10, 12), two)))
  }

  /** Eight bones per vertex, or four in a fixed 28-byte row. */
  function WideLayout(tag: nat): (l: Layout)
    requires tag in WideTags
    ensures WellFormed(l) && l.skin.Some? && l.skin.value.Blend?
  {
    if tag == 0xcbcf_7026 then
      Layout(PerDescriptor, Quantized, Packed, true, Normal8, Uv(12), None, None,
             Some(Blend(Slice(U8, 16, 24), EightParts)))
    else if tag == 0xbb42_4023 then
      Layout(Fixed(36), Quantized, Packed, true, Normal8, Uv(12), None, Some(Slice(I8, 32, 36)),
             Some(Blend(Slice(U8, 16, 24), [WeightA, Unorm8(Slice(U8, 12, 16)), HalfWeight(Slice(F16, 14, 16))])))
    else
      Layout(Fixed(28), Quantized, Packed, true, Normal8, Uv(10), None, Color12,
             Some(Blend(Slice(U8, 16, 20), [WeightA, HalfWeight(Slice(F16, 12, 14))])))
  }

  /** The int16 weight, four byte weights, two half weights. */
  const EightParts: seq<Part> := [WeightA, Unorm8(Index(U8, 12)), Unorm8(Index(U8, 13)), Unorm8(Index(U8, 14)),
                                  Unorm8(Index(U8, 15)), HalfWeight(Slice(F16, 14, 16))]

  /** The encodings the importer decodes, the four it skips silently, and the rest. */
  function LayoutOf(tag: nat): (d: Dispatch)
    ensures d.Decode? ==> WellFormed(d.layout)
  {
    if tag in StaticTags then Decode(StaticLayout(tag))
    else if tag in RigidTags then Decode(RigidLayout(tag))
    else if tag in BlendTags then Decode(BlendLayout(tag))
    else if tag in WideTags then Decode(WideLayout(tag))
    else if tag in IgnoredTags then Ignored
    else Unsupported
  }

  /** Seventeen tags decode, four are skipped without a word, every other one is unsupported. */
  lemma DispatchSpec(tag: nat)
    ensures LayoutOf(tag).Decode? <==> tag in DecodedTags
    ensures LayoutOf(tag).Ignored? <==> tag in IgnoredTags
  {
    if tag in IgnoredTags {
      assert tag == 0xa320_c015 || tag == 0x0cb6_8014 || tag == 0xdb7d_a013 || tag == 0xb098_3012;
      assert tag !in DecodedTags;
    }
  }

  // ---------------------------------------------------------------------------
  // Influence counts

  /** Columns a selection yields when the row is wide enough. */
  function Nominal(c: Column): nat
  {
    match c
    case Slice(_, lo, hi) => if lo <= hi then hi - lo else 0
    case Index(_, _) => 1
  }

  function PartsWidth(parts: seq<Part>): nat
  {
    if parts == [] then 0 else PartsWidth(parts[..|parts| - 1]) + Nominal(parts[|parts| - 1].col)
  }

  /**
    In every skinned layout there are as many weights as bone columns: one
    for a single bone, and the parts plus the closing weight otherwise; the
    layouts carry 1, 2, 4 or 8 bones per vertex.
  */
  lemma InfluencesBalanced(tag: nat)
    requires LayoutOf(tag).Decode? && LayoutOf(tag).layout.skin.Some?
    ensures match LayoutOf(tag).layout.skin.value
      case Rigid(names) => Nominal(names) == 1
      case Blend(names, parts) => Nominal(names) == PartsWidth(parts) + 1
    ensures var n := Nominal(LayoutOf(tag).layout.skin.value.names);
      n == 1 || n == 2 || n == 4 || n == 8
  {
    if tag in BlendTags {
      BlendBalanced(tag);
    } else if tag in WideTags {
      WideBalanced(tag);
    }
  }

  lemma BlendBalanced(tag: nat)
    requires tag in BlendTags
    ensures var s := BlendLayout(tag).skin.value;
      Nominal(s.names) == PartsWidth(s.parts) + 1 && (Nominal(s.names) == 2 || Nominal(s.names) == 4)
  {
    var two := [WeightA];
    PartsWidthSnoc([], WeightA);
    assert [] + [WeightA] == two;
    PartsWidthSnoc(two, HalfWeight(Slice(F16, 12, 14)));
    assert two + [HalfWeight(Slice(F16, 12, 14))] == [WeightA, HalfWeight(Slice(F16, 12, 14))];
  }

  lemma WideBalanced(tag: nat)
    requires tag in WideTags
    ensures var s := WideLayout(tag).skin.value;
      Nominal(s.names) == PartsWidth(s.parts) + 1 && (Nominal(s.names) == 4 || Nominal(s.names) == 8)
  {
    var two := [WeightA];
    PartsWidthSnoc([], WeightA);
    assert [] + [WeightA] == two;
    if tag == 0xcbcf_7026 {
      var p1 := two + [Unorm8(Index(U8, 12))];
      var p2 := p1 + [Unorm8(Index(U8, 13))];
      var p3 := p2 + [Unorm8(Index(U8, 14))];
      var p4 := p3 + [Unorm8(Index(U8, 15))];
      PartsWidthSnoc(two, Unorm8(Index(U8, 12)));
      PartsWidthSnoc(p1, Unorm8(Index(U8, 13)));
      PartsWidthSnoc(p2, Unorm8(Index(U8, 14)));
      PartsWidthSnoc(p3, Unorm8(Index(U8, 15)));
      PartsWidthSnoc(p4, HalfWeight(Slice(F16, 14, 16)));
      assert p4 + [HalfWeight(Slice(F16, 14, 16))] == EightParts;
    } else if tag == 0xbb42_4023 {
      var p1 := two + [Unorm8(Slice(U8, 12, 16))];
      PartsWidthSnoc(two, Unorm8(Slice(U8, 12, 16)));
      PartsWidthSnoc(p1, HalfWeight(Slice(F16, 14, 16)));
      assert p1 + [HalfWeight(Slice(F16, 14, 16))] ==
             [WeightA, Unorm8(Slice(U8, 12, 16)), HalfWeight(Slice(F16, 14, 16))];
    } else {
      PartsWidthSnoc(two, HalfWeight(Slice(F16, 12, 14)));
      assert two + [HalfWeight(Slice(F16, 12, 14))] == [WeightA, HalfWeight(Slice(F16, 12, 14))];
    }
  }

  lemma PartsWidthSnoc(parts: seq<Part>, p: Part)
    ensures PartsWidth(parts + [p]) == PartsWidth(parts) + Nominal(p.col)
  {
    assert (parts + [p])[..|parts|] == parts;
  }

  // ---------------------------------------------------------------------------
  // Decoding the vertex arrays

  datatype Decoder = Decoder(
    halfValue: int -> real,     // the number a float16 bit pattern stands for
    halfIndex: int -> nat)      // `astype(np.uint16)` of a float16 bit pattern

  function BlockBytes(l: Layout, blocksize: nat): nat
  {
    match l.block
    case PerDescriptor => blocksize
    case Fixed(n) => n
  }

  /** The row width of view `k`: `int(blocksize / width)`, or the layout's fixed width. */
  function Cols(l: Layout, blocksize: nat, k: ViewKind): nat
  {
    BlockBytes(l, blocksize) / Width(k)
  }

  /** `np.frombuffer(b, k).reshape([-1, c])` succeeds: whole elements, a positive width, whole rows. */
  predicate Reshapes(b: seq<uint8>, k: ViewKind, c: nat)
  {
    |b| % Width(k) == 0 && c > 0 && |Elements(b, k)| % c == 0
  }

  predicate ViewsReshape(l: Layout, blocksize: nat, b: seq<uint8>)
  {
    forall k :: k in l.views ==> Reshapes(b, k, Cols(l, blocksize, k))
  }

  /** One row's selection. */
  function Pick(row: seq<int>, col: Column): seq<int>
    requires col.Index? ==> col.at < |row|
  {
    match col
    case Slice(_, lo, hi) => PySlice(row, lo, hi)
    case Index(_, at) => [row[at]]
  }

  /** A column selection over every row of its view. */
  function ColumnArray(l: Layout, blocksize: nat, b: seq<uint8>, col: Column): (r: seq<seq<int>>)
    requires Cols(l, blocksize, col.kind) > 0
    requires col.Index? ==> col.at < Cols(l, blocksize, col.kind)
  {
    var v := Rows(Elements(b, col.kind), Cols(l, blocksize, col.kind));
    seq(|v|, i requires 0 <= i < |v| => Pick(v[i], col))
  }

  function OptColumnArray(l: Layout, blocksize: nat, b: seq<uint8>, col: Option<Column>): Option<seq<seq<int>>>
    requires col.Some? ==> Cols(l, blocksize, col.value.kind) > 0 && col.value.Slice?
  {
    if col.Some? then Some(ColumnArray(l, blocksize, b, col.value)) else None
  }

  /** Every entry of every row lies in `[0, bound)`. */
  predicate Within(rows: seq<seq<int>>, bound: nat)
  {
    forall i, j :: 0 <= i < |rows| && 0 <= j < |rows[i]| ==> 0 <= rows[i][j] < bound
  }

  /** `remap_np[idx]`: every index looked up in the bone table. */
  function Remapped(rows: seq<seq<int>>, table: seq<nat>): (r: seq<seq<nat>>)
    requires Within(rows, |table|)
    ensures |r| == |rows|
    ensures forall i :: 0 <= i < |r| ==> |r[i]| == |rows[i]|
  {
    seq(|rows|, i requires 0 <= i < |rows| => seq(|rows[i]|, j requires 0 <= j < |rows[i]| => table[rows[i][j]]))
  }

  /**
    The bone column: bytes are table indices as they are, half floats are cast
    first. Without a table (a model with no bones) the lookup raises NameError;
    an index past the table raises IndexError.
  */
  function BoneNames(l: Layout, blocksize: nat, b: seq<uint8>, col: Column, remap: Option<seq<nat>>, dec: Decoder)
    : (r: Result<seq<seq<nat>>>)
    requires Cols(l, blocksize, col.kind) > 0 && col.Slice?
  {
    if remap.None? then Err(NoRemapTable)
    else
      var raw := ColumnArray(l, blocksize, b, col);
      var idx := if col.kind == F16 then seq(|raw|, i requires 0 <= i < |raw| =>
                   seq(|raw[i]|, j requires 0 <= j < |raw[i]| => dec.halfIndex(raw[i][j]) as int))
                 else raw;
      if Within(idx, |remap.value|) then Ok(Remapped(idx, remap.value)) else Err(IndexOutOfRange)
  }

  function Weight(p: Part, v: int, dec: Decoder): real
  {
    match p
    case Snorm16(_) => v as real / 32767.0
    case Unorm8(_) => v as real / 255.0
    case HalfWeight(_) => dec.halfValue(v)
  }

  /** One weight part over every row. */
  function PartArray(l: Layout, blocksize: nat, b: seq<uint8>, p: Part, dec: Decoder): (r: seq<seq<real>>)
    requires Cols(l, blocksize, p.col.kind) > 0
    requires p.col.Index? ==> p.col.at < Cols(l, blocksize, p.col.kind)
    ensures var a := ColumnArray(l, blocksize, b, p.col);
      |r| == |a| && forall i :: 0 <= i < |r| ==> |r[i]| == |a[i]|
  {
    var a := ColumnArray(l, blocksize, b, p.col);
    seq(|a|, i requires 0 <= i < |a| => seq(|a[i]|, j requires 0 <= j < |a[i]| => Weight(p, a[i][j], dec)))
  }

  /** Every single-column part names a column its view has. */
  predicate PartsInRange(l: Layout, blocksize: nat, parts: seq<Part>)
  {
    forall i :: 0 <= i < |parts| && parts[i].col.Index? ==> parts[i].col.at < Cols(l, blocksize, parts[i].col.kind)
  }

  function Sum(s: seq<real>): real
  {
    if s == [] then 0.0 else Sum(s[..|s| - 1]) + s[|s| - 1]
  }

  /** Row `i` of every part, side by side (`np.hstack`). */
  function Side(arrays: seq<seq<seq<real>>>, i: nat): (r: seq<real>)
    requires forall p :: 0 <= p < |arrays| ==> i < |arrays[p]|
  {
    if arrays == [] then [] else Side(arrays[..|arrays| - 1], i) + arrays[|arrays| - 1][i]
  }

  /** The weight row of a blended vertex: its parts, then one minus their sum. */
  function BlendRow(arrays: seq<seq<seq<real>>>, i: nat): (r: seq<real>)
    requires forall p :: 0 <= p < |arrays| ==> i < |arrays[p]|
  {
    var w := Side(arrays, i);
    w + [1.0 - Sum(w)]
  }

  predicate SameRows(arrays: seq<seq<seq<real>>>)
  {
    forall p :: 0 <= p < |arrays| ==> |arrays[p]| == |arrays[0]|
  }

  datatype Skinning = Skinning(names: seq<seq<nat>>, weights: seq<seq<real>>)

  /**
    The skin arrays. Single columns of the weight parts are taken before the
    bone lookup (IndexError); the parts are stacked last, and parts of
    different row counts do not stack (ValueError).
  */
  function SkinArrays(l: Layout, blocksize: nat, b: seq<uint8>, remap: Option<seq<nat>>, dec: Decoder)
    : (r: Result<Option<Skinning>>)
    requires WellFormed(l) && ViewsReshape(l, blocksize, b)
    ensures r.Ok? ==> (r.value.Some? <==> l.skin.Some?)
  {
    match l.skin
    case None => Ok(None)
    case Some(Rigid(names)) =>
      var ns :- BoneNames(l, blocksize, b, names, remap, dec);
      Ok(Some(Skinning(ns, seq(|ns|, i requires 0 <= i < |ns| => seq(|ns[i]|, _ => 1.0)))))
    case Some(Blend(names, parts)) =>
      if !PartsInRange(l, blocksize, parts) then Err(IndexOutOfRange)
      else
        var ns :- BoneNames(l, blocksize, b, names, remap, dec);
        var arrays := seq(|parts|, p requires 0 <= p < |parts| => PartArray(l, blocksize, b, parts[p], dec));
        if |arrays| == 0 || !SameRows(arrays) then Err(BadShape)
        else Ok(Some(Skinning(ns, seq(|arrays[0]|, i requires 0 <= i < |arrays[0]| => BlendRow(arrays, i)))))
  }

  /**
    The number of columns `view[:, lo:hi]` has when the view's rows hold
    `cols` values: the slice clamped to the row, whatever the number of rows.
  */
  function SliceWidth(c: Column, cols: nat): (w: nat)
    requires c.Slice?
    ensures w <= cols
    ensures Fits(c, cols) ==> w == Nominal(c)
    ensures c.hi <= c.lo || cols <= c.lo ==> w == 0
  {
    var lo := if c.lo < cols then c.lo else cols;
    var hi := if c.hi < cols then c.hi else cols;
    if lo < hi then hi - lo else 0
  }

  /** The column count of an optional slice, 0 when the layout has none. */
  function OptSliceWidth(l: Layout, blocksize: nat, col: Option<Column>): nat
    requires col.Some? ==> col.value.Slice?
  {
    if col.Some? then SliceWidth(col.value, Cols(l, blocksize, col.value.kind)) else 0
  }

  /**
    The per-vertex arrays of a mesh, one row per vertex of the buffer, before
    selection. The UV arrays carry their column counts, which numpy keeps
    even for an array without rows.
  */
  datatype Arrays = Arrays(
    positions: seq<seq<int>>,
    normals: Option<seq<seq<int>>>,
    uv1: Option<seq<seq<int>>>,
    uv2: Option<seq<seq<int>>>,
    colors: Option<seq<seq<int>>>,
    skin: Option<Skinning>,
    uv1Width: nat,
    uv2Width: nat)

  /**
    The branch of the dispatch for one layout: build the views (ValueError on
    a bad shape), place int16 positions into the box (a two-column position
    does not broadcast against it), then the skin.
  */
  function Prepare(l: Layout, blocksize: nat, b: seq<uint8>, remap: Option<seq<nat>>, dec: Decoder)
    : (r: Result<Arrays>)
    requires WellFormed(l)
  {
    if !ViewsReshape(l, blocksize, b) then Err(BadShape)
    else if l.placed && Cols(l, blocksize, l.position.kind) == 2 then Err(BadShape)
    else
      var skin :- SkinArrays(l, blocksize, b, remap, dec);
      Ok(Arrays(ColumnArray(l, blocksize, b, l.position),
                OptColumnArray(l, blocksize, b, l.normal),
                OptColumnArray(l, blocksize, b, l.uv1),
                OptColumnArray(l, blocksize, b, l.uv2),
                OptColumnArray(l, blocksize, b, l.color),
                skin,
                OptSliceWidth(l, blocksize, l.uv1),
                OptSliceWidth(l, blocksize, l.uv2)))
  }

  /** Every row of a prepared UV array has the column count the arrays carry. */
  lemma UvWidths(l: Layout, blocksize: nat, b: seq<uint8>, remap: Option<seq<nat>>, dec: Decoder)
    requires WellFormed(l) && Prepare(l, blocksize, b, remap, dec).Ok?
    ensures var a := Prepare(l, blocksize, b, remap, dec).value;
      (a.uv1.Some? <==> l.uv1.Some?) && (a.uv2.Some? <==> l.uv2.Some?) &&
      (a.uv1.Some? ==> forall i :: 0 <= i < |a.uv1.value| ==> |a.uv1.value[i]| == a.uv1Width) &&
      (a.uv2.Some? ==> forall i :: 0 <= i < |a.uv2.value| ==> |a.uv2.value[i]| == a.uv2Width)
  {
  }

  /**
    The UV slices of a decoded encoding are two columns wide unless the
    block is too narrow for them: with encoding 0xcbf6c019 a 16-byte block
    leaves `[:, 8:10]` of its eight half floats empty, an 18-byte block one
    column wide.
  */
  lemma UvNarrowBlocks()
    ensures var l := LayoutOf(0xcbf6_c019).layout;
      OptSliceWidth(l, 16, l.uv1) == 0 && OptSliceWidth(l, 18, l.uv1) == 1 &&
      OptSliceWidth(l, 20, l.uv1) == 2
  {
  }

  // ---------------------------------------------------------------------------
  // Weight properties

  lemma SumSnoc(w: seq<real>, x: real)
    ensures Sum(w + [x]) == Sum(w) + x
  {
    assert (w + [x])[..|w|] == w;
  }

  /** Every blended weight row sums to one; every single-bone weight is one. */
  lemma WeightsSumToOne(l: Layout, blocksize: nat, b: seq<uint8>, remap: Option<seq<nat>>, dec: Decoder)
    requires WellFormed(l) && Prepare(l, blocksize, b, remap, dec).Ok?
    requires l.skin.Some?
    ensures var s := Prepare(l, blocksize, b, remap, dec).value.skin;
      s.Some? &&
      (l.skin.value.Blend? ==> forall i :: 0 <= i < |s.value.weights| ==> Sum(s.value.weights[i]) == 1.0) &&
      (l.skin.value.Rigid? ==>
         |s.value.weights| == |s.value.names| &&
         forall i :: 0 <= i < |s.value.weights| ==>
           |s.value.weights[i]| == |s.value.names[i]| &&
           forall j :: 0 <= j < |s.value.weights[i]| ==> s.value.weights[i][j] == 1.0)
  {
    var s := SkinArrays(l, blocksize, b, remap, dec);
    assert Prepare(l, blocksize, b, remap, dec).value.skin == s.value;
    if l.skin.value.Blend? {
      var parts := l.skin.value.parts;
      var arrays := seq(|parts|, p requires 0 <= p < |parts| => PartArray(l, blocksize, b, parts[p], dec));
      forall i | 0 <= i < |s.value.value.weights|
        ensures Sum(s.value.value.weights[i]) == 1.0
      {
        assert s.value.value.weights[i] == BlendRow(arrays, i);
        SumSnoc(Side(arrays, i), 1.0 - Sum(Side(arrays, i)));
      }
    }
  }

  // ---------------------------------------------------------------------------
  // Bone and weight columns agree when the row is wide enough

  /** The selection lies inside a row of `cols` values. */
  predicate Fits(c: Column, cols: nat)
  {
    match c
    case Slice(_, lo, hi) => lo <= hi <= cols
    case Index(_, at) => at < cols
  }

  /** Every skin column of the layout lies inside its view's rows. */
  predicate SkinFits(l: Layout, blocksize: nat)
  {
    l.skin.Some? &&
    Fits(l.skin.value.names, Cols(l, blocksize, l.skin.value.names.kind)) &&
    (l.skin.value.Blend? ==>
      forall p :: 0 <= p < |l.skin.value.parts| ==>
        Fits(l.skin.value.parts[p].col, Cols(l, blocksize, l.skin.value.parts[p].col.kind)))
  }

  lemma ColumnWidth(l: Layout, blocksize: nat, b: seq<uint8>, col: Column)
    requires Cols(l, blocksize, col.kind) > 0 && Fits(col, Cols(l, blocksize, col.kind))
    ensures var a := ColumnArray(l, blocksize, b, col);
      forall i :: 0 <= i < |a| ==> |a[i]| == Nominal(col)
  {
  }

  lemma {:induction false} SideWidth(arrays: seq<seq<seq<real>>>, parts: seq<Part>, i: nat)
    requires |arrays| == |parts|
    requires forall p :: 0 <= p < |arrays| ==> i < |arrays[p]| && |arrays[p][i]| == Nominal(parts[p].col)
    ensures |Side(arrays, i)| == PartsWidth(parts)
  {
    if arrays != [] {
      SideWidth(arrays[..|arrays| - 1], parts[..|parts| - 1], i);
    }
  }

  /** Every row of a bone column that fits has the column's nominal width. */
  lemma NamesWidth(l: Layout, blocksize: nat, b: seq<uint8>, col: Column, remap: Option<seq<nat>>, dec: Decoder)
    requires Cols(l, blocksize, col.kind) > 0 && col.Slice? && Fits(col, Cols(l, blocksize, col.kind))
    requires BoneNames(l, blocksize, b, col, remap, dec).Ok?
    ensures var ns := BoneNames(l, blocksize, b, col, remap, dec).value;
      forall i :: 0 <= i < |ns| ==> |ns[i]| == Nominal(col)
  {
    ColumnWidth(l, blocksize, b, col);
  }

  /** Every blended weight row holds the parts' columns and the closing weight. */
  lemma BlendWidth(l: Layout, blocksize: nat, b: seq<uint8>, remap: Option<seq<nat>>, dec: Decoder)
    requires WellFormed(l) && ViewsReshape(l, blocksize, b) && SkinFits(l, blocksize) && l.skin.value.Blend?
    requires SkinArrays(l, blocksize, b, remap, dec).Ok?
    ensures var s := SkinArrays(l, blocksize, b, remap, dec).value.value;
      forall i :: 0 <= i < |s.weights| ==> |s.weights[i]| == PartsWidth(l.skin.value.parts) + 1
  {
    var s := SkinArrays(l, blocksize, b, remap, dec).value.value;
    var parts := l.skin.value.parts;
    var arrays := seq(|parts|, p requires 0 <= p < |parts| => PartArray(l, blocksize, b, parts[p], dec));
    forall i | 0 <= i < |s.weights|
      ensures |s.weights[i]| == PartsWidth(parts) + 1
    {
      assert s.weights[i] == BlendRow(arrays, i);
      forall p | 0 <= p < |arrays|
        ensures i < |arrays[p]| && |arrays[p][i]| == Nominal(parts[p].col)
      {
        ColumnWidth(l, blocksize, b, parts[p].col);
      }
      SideWidth(arrays, parts, i);
    }
  }

  /** The width of every bone row and every weight row of a layout whose skin fits. */
  lemma SkinWidths(l: Layout, blocksize: nat, b: seq<uint8>, remap: Option<seq<nat>>, dec: Decoder)
    requires WellFormed(l) && SkinFits(l, blocksize) && Prepare(l, blocksize, b, remap, dec).Ok?
    ensures var s := Prepare(l, blocksize, b, remap, dec).value.skin.value;
      var names := l.skin.value.names;
      (forall i :: 0 <= i < |s.names| ==> |s.names[i]| == Nominal(names)) &&
      (forall i :: 0 <= i < |s.weights| ==>
         |s.weights[i]| == if l.skin.value.Rigid? then Nominal(names) else PartsWidth(l.skin.value.parts) + 1)
  {
    var s := SkinArrays(l, blocksize, b, remap, dec).value.value;
    assert Prepare(l, blocksize, b, remap, dec).value.skin.value == s;
    var names := l.skin.value.names;
    NamesWidth(l, blocksize, b, names, remap, dec);
    if l.skin.value.Blend? {
      BlendWidth(l, blocksize, b, remap, dec);
    }
  }

  /**
    For a skinned encoding whose columns fit the block, every vertex has as
    many weights as bones.
  */
  lemma BalancedRows(tag: nat, blocksize: nat, b: seq<uint8>, remap: Option<seq<nat>>, dec: Decoder)
    requires LayoutOf(tag).Decode?
    requires var l := LayoutOf(tag).layout;
      SkinFits(l, blocksize) && Prepare(l, blocksize, b, remap, dec).Ok?
    ensures var s := Prepare(LayoutOf(tag).layout, blocksize, b, remap, dec).value.skin.value;
      forall i :: 0 <= i < |s.names| && i < |s.weights| ==> |s.names[i]| == |s.weights[i]|
  {
    InfluencesBalanced(tag);
    SkinWidths(LayoutOf(tag).layout, blocksize, b, remap, dec);
  }
}
