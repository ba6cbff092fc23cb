/** CYLGame/Sprite.py: sprite sets, the recoloured sprite sheets built from
    them, and the `Char` wrapper. A recoloured sheet stacks one copy of the
    base sheet per combination of recolourings, in `itertools.product`
    order, and a key's value is the offset of its block. */
module Sprite {
  import opened Common

  datatype SpriteSet = SpriteSet(imagePath: string, charWidth: int, charHeight: int, charRows: int, charColumns: int)

  /** `is_char_valid(char)`: a one-character string is taken by its code point. */
  function IsCharValid(s: SpriteSet, ch: PyValue): (r: Result<bool, PyError>)
    ensures ch.PyInt? ==> r.Ok? && (r.value <==> 0 <= ch.i && ch.i < s.charRows * s.charColumns)
    ensures ch.PyStr? && |ch.s| == 1 ==>
      r.Ok? && (r.value <==> (ch.s[0] as int) < s.charRows * s.charColumns)
    ensures ch.PyStr? && |ch.s| != 1 ==> r == Err(TypeError)
    ensures ch.PyFloat? ==> r.Ok? && (r.value <==> 0.0 <= ch.f < (s.charRows * s.charColumns) as real)
    ensures ch.PyNone? || ch.PyOther? ==> r == Err(TypeError)
  {
    match ch
    case PyStr(str) => if |str| == 1 then Ok(0 <= str[0] as int < s.charRows * s.charColumns) else Err(TypeError)
    case PyInt(c) => Ok(0 <= c < s.charRows * s.charColumns)
    case PyFloat(f) => Ok(0.0 <= f < (s.charRows * s.charColumns) as real)
    case _ => Err(TypeError)
  }

  /** A one-character string and its code point are equally valid. */
  lemma CharValidByCode(s: SpriteSet, c: char)
    ensures IsCharValid(s, PyStr([c])) == IsCharValid(s, PyInt(c as int))
  {
  }

  // ---------------------------------------------------------------------
  // Mixed-radix layout of the recoloured blocks

  type Color = (int, int, int)

  /** One item `key: (old_color, new_color)` of a mapping dict. */
  datatype Entry = Entry(key: PyValue, oldColor: Color, newColor: Color)

  /** A mapping dict, in insertion order. */
  type Mapping = seq<Entry>

  ghost predicate DistinctKeys(m: Mapping)
  {
    forall i, j :: 0 <= i < j < |m| ==> m[i].key != m[j].key
  }

  /** `len(x) + 1` for each mapping: its keys plus "no recolour". */
  function Lens(mappings: seq<Mapping>): (lens: seq<nat>)
    ensures |lens| == |mappings|
    ensures forall x :: 0 <= x < |lens| ==> lens[x] == |mappings[x]| + 1 && lens[x] >= 1
  {
    seq(|mappings|, x requires 0 <= x < |mappings| => |mappings[x]| + 1)
  }

  function Prod(lens: seq<nat>): nat
  {
    if lens == [] then 1 else lens[0] * Prod(lens[1..])
  }

  ghost predicate Positive(lens: seq<nat>)
  {
    forall x :: 0 <= x < |lens| ==> lens[x] >= 1
  }

  lemma {:induction false} ProdPositive(lens: seq<nat>)
    requires Positive(lens)
    ensures Prod(lens) >= 1
  {
    if lens != [] {
      ProdPositive(lens[1..]);
    }
  }

  /** `reduce(lambda a, b: a * b, lens)`: a left fold with no initial value. */
  function Reduce(lens: seq<nat>): nat
    requires lens != []
  {
    if |lens| == 1 then lens[0] else Reduce(lens[..|lens| - 1]) * lens[|lens| - 1]
  }

  /** The left fold equals the product of all the factors. */
  lemma {:induction false} ReduceIsProd(lens: seq<nat>)
    requires lens != []
    ensures Reduce(lens) == Prod(lens)
    decreases |lens|
  {
    if |lens| > 1 {
      var init := lens[..|lens| - 1];
      ReduceIsProd(init);
      ProdSnoc(init, lens[|lens| - 1]);
      assert init + [lens[|lens| - 1]] == lens;
    }
  }

  lemma {:induction false} ProdSnoc(lens: seq<nat>, l: nat)
    ensures Prod(lens + [l]) == Prod(lens) * l
    decreases |lens|
  {
    if lens == [] {
      assert [] + [l] == [l];
    } else {
      assert (lens + [l])[1..] == lens[1..] + [l];
      ProdSnoc(lens[1..], l);
      calc {
        Prod(lens + [l]);
        lens[0] * Prod(lens[1..] + [l]);
        lens[0] * (Prod(lens[1..]) * l);
        (lens[0] * Prod(lens[1..])) * l;
      }
    }
  }

  /** `height_increase_factor`: the product of `len(x) + 1`; `reduce` over no
      mappings raises TypeError. */
  function HeightFactor(mappings: seq<Mapping>): (r: Result<nat, PyError>)
    ensures mappings == [] <==> r == Err(TypeError)
    ensures r.Ok? ==> r.value == Prod(Lens(mappings)) && r.value >= 1
  {
    if mappings == [] then Err(TypeError)
    else
      ReduceIsProd(Lens(mappings));
      ProdPositive(Lens(mappings));
      Ok(Reduce(Lens(mappings)))
  }

  /** The inner size of dimension x: how many blocks one step of x spans. */
  function InnerSize(lens: seq<nat>, x: nat): nat
    requires x < |lens|
  {
    Prod(lens[x + 1..])
  }

  /** `mapping_index_to_inner_size`, built by inserting at the front while
      walking the mappings backwards, then dropping the leading total. */
  method InnerSizes(lens: seq<nat>) returns (sizes: seq<nat>)
    ensures |sizes| == |lens|
    ensures forall x :: 0 <= x < |lens| ==> sizes[x] == InnerSize(lens, x)
  {
    var acc: seq<nat> := [1];
    var k := |lens|;
    assert lens[k..] == [];
    while k > 0
      invariant 0 <= k <= |lens|
      invariant |acc| == |lens| - k + 1
      invariant forall i :: 0 <= i < |acc| ==> acc[i] == Prod(lens[k + i..])
    {
      k := k - 1;
      assert lens[k..][1..] == lens[k + 1..];
      acc := [acc[0] * lens[k]] + acc;
    }
    sizes := acc[1..];
  }

  // ---------------------------------------------------------------------
  // `itertools.product` order

  /** Tuples of digits, digit x below lens[x], the last digit varying fastest. */
  function Product(lens: seq<nat>): seq<seq<nat>>
    decreases |lens|, 1
  {
    if lens == [] then [[]] else Blocks(lens[0], lens)
  }

  /** The first k runs of `Product(lens)`: those whose first digit is below k. */
  function Blocks(k: nat, lens: seq<nat>): seq<seq<nat>>
    requires lens != []
    decreases |lens|, 0, k
  {
    if k == 0 then [] else Blocks(k - 1, lens) + Prefixed(k - 1, Product(lens[1..]))
  }

  function Prefixed(d: nat, ts: seq<seq<nat>>): (r: seq<seq<nat>>)
    ensures |r| == |ts|
    ensures forall i :: 0 <= i < |ts| ==> r[i] == [d] + ts[i]
  {
    seq(|ts|, i requires 0 <= i < |ts| => [d] + ts[i])
  }

  /** Σ t[x] · inner_size[x]: the block a digit tuple addresses. */
  function Weight(t: seq<nat>, lens: seq<nat>): int
    requires |t| == |lens|
  {
    if t == [] then 0 else t[0] * Prod(lens[1..]) + Weight(t[1..], lens[1..])
  }

  lemma {:induction false} ProductLength(lens: seq<nat>)
    ensures |Product(lens)| == Prod(lens)
    decreases |lens|, 1
  {
    if lens != [] {
      BlocksLength(lens[0], lens);
    }
  }

  lemma {:induction false} BlocksLength(k: nat, lens: seq<nat>)
    requires lens != []
    ensures |Blocks(k, lens)| == k * Prod(lens[1..])
    decreases |lens|, 0, k
  {
    if k > 0 {
      BlocksLength(k - 1, lens);
      ProductLength(lens[1..]);
    }
  }

  lemma DivModOf(p: int, q: int, r: int, n: int)
    requires n > 0 && 0 <= r < n && p == q * n + r
    ensures p / n == q && p % n == r
  {
    var q', r' := p / n, p % n;
    assert (q - q') * n == r' - r;
    MulSmall(q - q', n);
  }

  lemma MulSmall(a: int, n: int)
    requires n > 0 && -n < a * n < n
    ensures a == 0
  {
  }

  lemma DivBelow(p: nat, n: nat, k: nat)
    requires n > 0 && p < k * n
    ensures p / n < k
  {
  }

  /** Entry p of the k-run prefix splits as the digit p / P' followed by entry
      p % P' of the product of the remaining dimensions (P' its size). */
  lemma {:induction false} BlocksAt(k: nat, lens: seq<nat>, p: nat)
    requires lens != [] && Prod(lens[1..]) > 0
    requires p < k * Prod(lens[1..])
    ensures |Blocks(k, lens)| == k * Prod(lens[1..])
    ensures |Product(lens[1..])| == Prod(lens[1..])
    ensures Blocks(k, lens)[p] == [p / Prod(lens[1..])] + Product(lens[1..])[p % Prod(lens[1..])]
    decreases k
  {
    var n := Prod(lens[1..]);
    BlocksLength(k, lens);
    BlocksLength(k - 1, lens);
    ProductLength(lens[1..]);
    if p < (k - 1) * n {
      BlocksAt(k - 1, lens, p);
    } else {
      var r := p - (k - 1) * n;
      DivModOf(p, k - 1, r, n);
    }
  }

  /** Entry p of a product splits into its first digit p / P' and entry
      p % P' of the product of the remaining dimensions. */
  lemma ProductAt(lens: seq<nat>, p: nat)
    requires lens != [] && Positive(lens)
    requires p < Prod(lens)
    ensures Prod(lens[1..]) >= 1
    ensures |Product(lens)| == Prod(lens)
    ensures |Product(lens[1..])| == Prod(lens[1..])
    ensures p / Prod(lens[1..]) < lens[0]
    ensures Product(lens)[p] == [p / Prod(lens[1..])] + Product(lens[1..])[p % Prod(lens[1..])]
  {
    assert Positive(lens[1..]);
    ProdPositive(lens[1..]);
    ProductLength(lens);
    BlocksAt(lens[0], lens, p);
    DivBelow(p, Prod(lens[1..]), lens[0]);
  }

  /** The p-th tuple of `itertools.product` has digits in range and addresses
      block p: Σ t[x] · inner_size[x] == p. */
  lemma {:induction false} ProductAddressesBlock(lens: seq<nat>, p: nat)
    requires Positive(lens)
    requires p < Prod(lens)
    ensures |Product(lens)| == Prod(lens)
    ensures |Product(lens)[p]| == |lens|
    ensures forall x :: 0 <= x < |lens| ==> Product(lens)[p][x] < lens[x]
    ensures Weight(Product(lens)[p], lens) == p
    decreases |lens|
  {
    ProductLength(lens);
    if lens != [] {
      var rest := lens[1..];
      ProductAt(lens, p);
      var n := Prod(rest);
      var q, r := p / n, p % n;
      assert Positive(rest);
      ProductAddressesBlock(rest, r);
      var t := Product(lens)[p];
      var u := Product(rest)[r];
      assert t == [q] + u;
      assert t[1..] == u;
      forall x | 0 <= x < |lens|
        ensures t[x] < lens[x]
      {
        if x > 0 {
          assert t[x] == u[x - 1] && rest[x - 1] == lens[x];
        }
      }
      assert Weight(t, lens) == q * n + Weight(u, rest);
      Euclid(p, n);
    }
  }

  lemma Euclid(p: nat, n: nat)
    requires n > 0
    ensures p == (p / n) * n + p % n
  {
  }

  /** `Weight` is the dot product of the digits with the inner sizes. */
  function Dot(t: seq<nat>, w: seq<nat>): int
    requires |t| == |w|
  {
    if t == [] then 0 else t[0] * w[0] + Dot(t[1..], w[1..])
  }

  function InnerSizeSeq(lens: seq<nat>): (w: seq<nat>)
    ensures |w| == |lens|
    ensures forall x :: 0 <= x < |lens| ==> w[x] == InnerSize(lens, x)
  {
    seq(|lens|, x requires 0 <= x < |lens| => InnerSize(lens, x))
  }

  lemma {:induction false} WeightIsDot(t: seq<nat>, lens: seq<nat>)
    requires |t| == |lens|
    ensures Weight(t, lens) == Dot(t, InnerSizeSeq(lens))
    decreases |t|
  {
    if t != [] {
      WeightIsDot(t[1..], lens[1..]);
      var w := InnerSizeSeq(lens);
      assert InnerSizeSeq(lens[1..]) == w[1..] by {
        forall x | 0 <= x < |lens| - 1
          ensures InnerSizeSeq(lens[1..])[x] == w[1..][x]
        {
          assert lens[1..][x + 1..] == lens[x + 2..];
        }
      }
    }
  }

  // ---------------------------------------------------------------------
  // Key offsets

  /** `_mapping_keys_to_index[x]` for one mapping: the key at 0-based position
      i gets `size * (i + 1)`, and a `None` key is skipped. */
  function OffsetsOf(m: Mapping, size: nat): map<PyValue, int>
  {
    if m == [] then map[]
    else
      var r := OffsetsOf(m[..|m| - 1], size);
      var e := m[|m| - 1];
      if e.key.PyNone? then r else r[e.key := size * |m|]
  }

  /** The offset table has exactly the non-None keys, and the key at position
      i (counting "no recolour" as 0, so i + 1) is worth `size * (i + 1)`. */
  lemma {:induction false} OffsetOfKey(m: Mapping, size: nat)
    requires DistinctKeys(m)
    ensures forall k :: k in OffsetsOf(m, size) <==> k != PyNone && exists i :: 0 <= i < |m| && m[i].key == k
    ensures forall i :: 0 <= i < |m| && !m[i].key.PyNone? ==>
      m[i].key in OffsetsOf(m, size) && OffsetsOf(m, size)[m[i].key] == size * (i + 1)
    decreases |m|
  {
    if m != [] {
      var init := m[..|m| - 1];
      assert DistinctKeys(init);
      OffsetOfKey(init, size);
      forall k | k != PyNone && (exists i :: 0 <= i < |m| && m[i].key == k)
        ensures k in OffsetsOf(m, size)
      {
        var i :| 0 <= i < |m| && m[i].key == k;
        if i < |m| - 1 {
          assert init[i].key == k;
        }
      }
    }
  }

  /** The inner loop of the offset table for one mapping. */
  method KeyOffsets(m: Mapping, size: nat) returns (offsets: map<PyValue, int>)
    ensures offsets == OffsetsOf(m, size)
  {
    offsets := map[];
    var i := 0;
    while i < |m|
      invariant 0 <= i <= |m|
      invariant offsets == OffsetsOf(m[..i], size)
    {
      assert m[..i + 1][..i] == m[..i];
      if !m[i].key.PyNone? {
        offsets := offsets[m[i].key := size * (i + 1)];
      }
      i := i + 1;
    }
    assert m[..|m|] == m;
  }

  /** `_mapping_keys_to_index`: dimension x -> key -> offset. */
  function Table(mappings: seq<Mapping>): map<int, map<PyValue, int>>
  {
    var lens := Lens(mappings);
    map x | 0 <= x < |mappings| :: OffsetsOf(mappings[x], InnerSize(lens, x))
  }

  /** The state a coloring keeps: `_orig_size`, the offset table and the
      generated sprite set. */
  datatype Coloring = Coloring(origSize: int, table: map<int, map<PyValue, int>>, spriteSet: SpriteSet)

  /** `MultiDimensionalSpriteColoring(base_sprite_set, mappings)`, given the
      base image's size: checks the image against the sheet, then records
      the offsets and the taller generated sheet. */
  method NewColoring(base: SpriteSet, mappings: seq<Mapping>, imgWidth: int, imgHeight: int, newPath: string)
    returns (r: Result<Coloring, PyError>)
    ensures imgWidth != base.charWidth * base.charRows || imgHeight != base.charHeight * base.charColumns
      ==> r == Err(AssertionError)
    ensures (imgWidth == base.charWidth * base.charRows && imgHeight == base.charHeight * base.charColumns
      && mappings == []) ==> r == Err(TypeError)
    ensures r.Ok? ==>
      && mappings != []
      && r.value.origSize == base.charRows * base.charColumns
      && r.value.table == Table(mappings)
      && r.value.spriteSet == base.(imagePath := newPath, charRows := base.charRows * Prod(Lens(mappings)))
    ensures (imgWidth == base.charWidth * base.charRows && imgHeight == base.charHeight * base.charColumns
      && mappings != []) ==> r.Ok?
  {
    var origSize := base.charRows * base.charColumns;
    if imgWidth != base.charWidth * base.charRows || imgHeight != base.charHeight * base.charColumns {
      return Err(AssertionError);
    }
    var factor := HeightFactor(mappings);
    if factor.Err? {
      return Err(factor.error);
    }
    var lens := Lens(mappings);
    var inner := InnerSizes(lens);
    var table: map<int, map<PyValue, int>> := map[];
    var x := 0;
    while x < |mappings|
      invariant 0 <= x <= |mappings|
      invariant table == map j | 0 <= j < x :: OffsetsOf(mappings[j], InnerSize(lens, j))
    {
      var offsets := KeyOffsets(mappings[x], inner[x]);
      table := table[x := offsets];
      x := x + 1;
    }
    var sheet := base.(imagePath := newPath, charRows := base.charRows * factor.value);
    return Ok(Coloring(origSize, table, sheet));
  }

  /** `get_mapping_value(index, key)`: the key's offset scaled to chars. */
  function GetMappingValue(c: Coloring, index: int, key: PyValue): (r: Result<int, PyError>)
    ensures r.Ok? <==> index in c.table && key in c.table[index]
    ensures r.Ok? ==> r.value == c.table[index][key] * c.origSize
    ensures r.Err? ==> r.error == KeyError
  {
    if index !in c.table || key !in c.table[index] then Err(KeyError)
    else Ok(c.table[index][key] * c.origSize)
  }

  /** The generated sheet holds one copy of the base sheet per block. */
  lemma GeneratedSheetSize(base: SpriteSet, mappings: seq<Mapping>, c: Coloring)
    requires c.origSize == base.charRows * base.charColumns
    requires c.spriteSet.charRows == base.charRows * Prod(Lens(mappings))
    requires c.spriteSet.charColumns == base.charColumns
    ensures c.spriteSet.charRows * c.spriteSet.charColumns == c.origSize * |Product(Lens(mappings))|
  {
    ProductLength(Lens(mappings));
    calc {
      c.spriteSet.charRows * c.spriteSet.charColumns;
      (base.charRows * Prod(Lens(mappings))) * base.charColumns;
      (base.charRows * base.charColumns) * Prod(Lens(mappings));
    }
  }

  /** `_replace(img, old_color, new_color)` on one pixel. */
  function Recolor(px: Color, oldColor: Color, newColor: Color): Color
  {
    if px == oldColor then newColor else px
  }

  /** Replacing a colour twice is replacing it once; afterwards no pixel has
      the old colour unless it is also the new one. */
  lemma RecolorIdempotent(px: Color, oldColor: Color, newColor: Color)
    ensures Recolor(Recolor(px, oldColor, newColor), oldColor, newColor) == Recolor(px, oldColor, newColor)
    ensures Recolor(px, oldColor, newColor) == oldColor ==> oldColor == newColor
  {
  }

  /** `_replace(img, old_color, new_color)` over the pixel grid, indexed
      `img[x, y]`. */
  method Replace(img: array2<Color>, oldColor: Color, newColor: Color)
    modifies img
    ensures forall x, y :: 0 <= x < img.Length0 && 0 <= y < img.Length1 ==>
      img[x, y] == Recolor(old(img[x, y]), oldColor, newColor)
  {
    var y := 0;
    while y < img.Length1
      invariant 0 <= y <= img.Length1
      invariant forall i, j :: 0 <= i < img.Length0 && 0 <= j < y ==>
        img[i, j] == Recolor(old(img[i, j]), oldColor, newColor)
      invariant forall i, j :: 0 <= i < img.Length0 && y <= j < img.Length1 ==> img[i, j] == old(img[i, j])
    {
      var x := 0;
      while x < img.Length0
        invariant 0 <= x <= img.Length0
        invariant forall i, j :: 0 <= i < img.Length0 && 0 <= j < y ==>
          img[i, j] == Recolor(old(img[i, j]), oldColor, newColor)
        invariant forall i :: 0 <= i < x ==> img[i, y] == Recolor(old(img[i, y]), oldColor, newColor)
        invariant forall i, j :: 0 <= i < img.Length0 && y <= j < img.Length1 && (j > y || i >= x) ==>
          img[i, j] == old(img[i, j])
      {
        if img[x, y] == oldColor {
          img[x, y] := newColor;
        }
        x := x + 1;
      }
      y := y + 1;
    }
  }

  // ---------------------------------------------------------------------
  // Two-dimensional colouring

  /** The two mappings: foreground keys recolour the base foreground colour
      (dimension 0), background keys the base background colour (dimension 1). */
  function TwoDimensionalMappings(fg: seq<(PyValue, Color)>, bg: seq<(PyValue, Color)>, baseFg: Color, baseBg: Color): (ms: seq<Mapping>)
    ensures |ms| == 2 && |ms[0]| == |fg| && |ms[1]| == |bg|
    ensures forall i :: 0 <= i < |fg| ==> ms[0][i] == Entry(fg[i].0, baseFg, fg[i].1)
    ensures forall i :: 0 <= i < |bg| ==> ms[1][i] == Entry(bg[i].0, baseBg, bg[i].1)
  {
    [seq(|fg|, i requires 0 <= i < |fg| => Entry(fg[i].0, baseFg, fg[i].1)),
     seq(|bg|, i requires 0 <= i < |bg| => Entry(bg[i].0, baseBg, bg[i].1))]
  }

  /** The foreground key at position i and the background key at position j
      are worth (i+1)·(|bg|+1) and (j+1) blocks, and together they address
      the block whose product tuple is (i+1, j+1). */
  lemma TwoDimensionalValues(fg: seq<(PyValue, Color)>, bg: seq<(PyValue, Color)>, baseFg: Color, baseBg: Color, i: nat, j: nat)
    requires i < |fg| && j < |bg|
    requires !fg[i].0.PyNone? && !bg[j].0.PyNone?
    requires DistinctKeys(TwoDimensionalMappings(fg, bg, baseFg, baseBg)[0])
    requires DistinctKeys(TwoDimensionalMappings(fg, bg, baseFg, baseBg)[1])
    ensures var ms := TwoDimensionalMappings(fg, bg, baseFg, baseBg);
      && 0 in Table(ms) && 1 in Table(ms)
      && fg[i].0 in Table(ms)[0] && bg[j].0 in Table(ms)[1]
      && Table(ms)[0][fg[i].0] == (|bg| + 1) * (i + 1)
      && Table(ms)[1][bg[j].0] == j + 1
      && |Product(Lens(ms))| > Table(ms)[0][fg[i].0] + Table(ms)[1][bg[j].0]
      && Product(Lens(ms))[Table(ms)[0][fg[i].0] + Table(ms)[1][bg[j].0]] == [i + 1, j + 1]
  {
    var ms := TwoDimensionalMappings(fg, bg, baseFg, baseBg);
    TwoLens(ms);
    assert ms[0][i].key == fg[i].0 && ms[1][j].key == bg[j].0;
    OffsetAt(ms[0], |bg| + 1, i);
    OffsetAt(ms[1], 1, j);
    var outer := (|bg| + 1) * (i + 1);
    MulNonneg(|bg| + 1, i + 1);
    TwoDigits(|fg| + 1, |bg| + 1, i + 1, j + 1, outer + (j + 1));
  }

  lemma MulNonneg(a: nat, b: nat)
    ensures a * b >= 0
  {
  }

  lemma OffsetAt(m: Mapping, size: nat, i: nat)
    requires DistinctKeys(m) && i < |m| && !m[i].key.PyNone?
    ensures m[i].key in OffsetsOf(m, size) && OffsetsOf(m, size)[m[i].key] == size * (i + 1)
  {
    OffsetOfKey(m, size);
  }

  lemma TwoLens(ms: seq<Mapping>)
    requires |ms| == 2
    ensures Lens(ms) == [|ms[0]| + 1, |ms[1]| + 1]
    ensures 0 in Table(ms) && 1 in Table(ms)
    ensures Table(ms)[0] == OffsetsOf(ms[0], |ms[1]| + 1)
    ensures Table(ms)[1] == OffsetsOf(ms[1], 1)
  {
    var lens := Lens(ms);
    assert lens[1..] == [|ms[1]| + 1];
    assert lens[1..][1..] == [];
    assert lens[2..] == [];
    assert Prod(lens[1..]) == (|ms[1]| + 1) * Prod(lens[1..][1..]);
    assert InnerSize(lens, 0) == |ms[1]| + 1;
    assert InnerSize(lens, 1) == 1;
  }

  /** In a two-dimensional product, digit pair (q, r) sits at b · q + r. */
  lemma TwoDigits(a: nat, b: nat, q: nat, r: nat, p: nat)
    requires q < a && r < b && p == b * q + r
    ensures |Product([a, b])| > p
    ensures Product([a, b])[p] == [q, r]
  {
    var lens := [a, b];
    assert lens[1..] == [b];
    assert [b][1..] == [];
    assert Prod([b]) == b;
    ProductLength(lens);
    assert p < a * b by {
      assert b * q <= b * (a - 1);
    }
    ProductAt(lens, p);
    DivModOf(p, q, r, b);
    ProductAt([b], r);
  }

  datatype TwoDimensionalColoring = TwoDimensionalColoring(coloring: Coloring)

  /** `TwoDimensionalSpriteColoring(base, foreground_mapping, background_mapping)`. */
  method NewTwoDimensional(base: SpriteSet, fg: seq<(PyValue, Color)>, bg: seq<(PyValue, Color)>,
                           baseFg: Color, baseBg: Color, imgWidth: int, imgHeight: int, newPath: string)
    returns (r: Result<TwoDimensionalColoring, PyError>)
    ensures imgWidth == base.charWidth * base.charRows && imgHeight == base.charHeight * base.charColumns
      <==> r.Ok?
    ensures r.Ok? ==>
      && r.value.coloring.table == Table(TwoDimensionalMappings(fg, bg, baseFg, baseBg))
      && r.value.coloring.spriteSet.charRows == base.charRows * (|fg| + 1) * (|bg| + 1)
  {
    var ms := TwoDimensionalMappings(fg, bg, baseFg, baseBg);
    var c := NewColoring(base, ms, imgWidth, imgHeight, newPath);
    if c.Err? {
      return Err(c.error);
    }
    assert Lens(ms) == [|fg| + 1, |bg| + 1];
    assert Lens(ms)[1..][1..] == [];
    return Ok(TwoDimensionalColoring(c.value));
  }

  /** `get_foreground_value(key)`: dimension 0. */
  function ForegroundValue(t: TwoDimensionalColoring, key: PyValue): (r: Result<int, PyError>)
    ensures r.Ok? <==> 0 in t.coloring.table && key in t.coloring.table[0]
  {
    GetMappingValue(t.coloring, 0, key)
  }

  /** `get_background_value(key)`: dimension 1. */
  function BackgroundValue(t: TwoDimensionalColoring, key: PyValue): (r: Result<int, PyError>)
    ensures r.Ok? <==> 1 in t.coloring.table && key in t.coloring.table[1]
  {
    GetMappingValue(t.coloring, 1, key)
  }

  // ---------------------------------------------------------------------
  // Char

  datatype Char = Char(value: int)

  /** `Char.from_str(c)`: the code point of a one-character string. */
  function FromStr(s: string): (r: Result<Char, PyError>)
    ensures r.Ok? <==> |s| == 1
    ensures r.Ok? ==> r.value.value == s[0] as int
    ensures r.Err? ==> r.error == TypeError
  {
    if |s| == 1 then Ok(Char(s[0] as int)) else Err(TypeError)
  }

  /** The right operand of `+` and `==`: another Char or any Python value. */
  datatype Operand = OfChar(c: Char) | OfValue(v: PyValue)

  /** `Char + other` (and `other + Char`): a string or an int is converted to
      a Char first; any other operand falls through and yields None. */
  function Plus(c: Char, other: Operand): (r: Result<Option<Char>, PyError>)
    ensures other.OfChar? ==> r == Ok(Some(Char(c.value + other.c.value)))
    ensures other.OfValue? && other.v.PyInt? ==> r == Ok(Some(Char(c.value + other.v.i)))
    ensures other.OfValue? && other.v.PyStr? ==>
      (r.Ok? <==> |other.v.s| == 1) && (r.Ok? ==> r == Ok(Some(Char(c.value + other.v.s[0] as int))))
    ensures other.OfValue? && !other.v.PyInt? && !other.v.PyStr? ==> r == Ok(None)
  {
    match other
    case OfChar(o) => Ok(Some(Char(c.value + o.value)))
    case OfValue(PyStr(s)) =>
      var o := FromStr(s);
      if o.Err? then Err(o.error) else Ok(Some(Char(c.value + o.value.value)))
    case OfValue(PyInt(i)) => Ok(Some(Char(c.value + i)))
    case OfValue(_) => Ok(None)
  }

  /** `Char == other`: against a Char or an int by value, against a string
      by `chr(value)`; any other type raises TypeError. */
  function Equals(c: Char, other: Operand): (r: Result<bool, PyError>)
    ensures other.OfChar? ==> r == Ok(c.value == other.c.value)
    ensures other.OfValue? && other.v.PyInt? ==> r == Ok(c.value == other.v.i)
    ensures other.OfValue? && other.v.PyStr? && 0 <= c.value < 0x11_0000 ==>
      r == Ok(|other.v.s| == 1 && other.v.s[0] as int == c.value)
    ensures other.OfValue? && other.v.PyStr? && !(0 <= c.value < 0x11_0000) ==> r == Err(ValueError)
    ensures other.OfValue? && !other.v.PyInt? && !other.v.PyStr? ==> r == Err(TypeError)
  {
    match other
    case OfChar(o) => Ok(c.value == o.value)
    case OfValue(PyStr(s)) =>
      if !(0 <= c.value < 0x11_0000) then Err(ValueError)
      else Ok(|s| == 1 && s[0] as int == c.value)
    case OfValue(PyInt(i)) => Ok(c.value == i)
    case OfValue(_) => Err(TypeError)
  }

  /** Adding Chars commutes, and a one-character string adds like its Char. */
  lemma PlusCommutes(a: Char, b: Char, s: string)
    ensures Plus(a, OfChar(b)) == Plus(b, OfChar(a))
    ensures |s| == 1 ==> Plus(a, OfValue(PyStr(s))) == Plus(a, OfChar(FromStr(s).value))
  {
  }

  /** A Char read from a string compares equal to that string and to its code. */
  lemma FromStrEquals(s: string)
    requires |s| == 1
    ensures Equals(FromStr(s).value, OfValue(PyStr(s))) == Ok(true)
    ensures Equals(FromStr(s).value, OfValue(PyInt(s[0] as int))) == Ok(true)
  {
  }

  /** `base + fg + bg` with two int operands: the Char additions compose,
      so the result's code is the sum of the three. */
  lemma CharPlusValues(base: Char, fgValue: int, bgValue: int)
    ensures Plus(base, OfValue(PyInt(fgValue))).Ok?
    ensures Plus(Plus(base, OfValue(PyInt(fgValue))).value.value, OfValue(PyInt(bgValue)))
      == Ok(Some(Char(base.value + fgValue + bgValue)))
  {
  }
}
