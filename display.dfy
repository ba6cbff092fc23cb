/** CYLGame/Display.py: the char-set arithmetic between pixels and character
    cells, the glyph cache, and the one-screen guard of the pygame display. */
module Display {
  import opened Common

  /** A pair of sizes or coordinates, `(size[0], size[1])`. */
  datatype Size = Size(w: int, h: int)

  /** `char_size_to_pix(size)`: character cells to pixels. */
  function CharSizeToPix(charWidth: int, charHeight: int, size: Size): (r: Size)
    ensures r.w == size.w * charWidth && r.h == size.h * charHeight
  {
    Size(size.w * charWidth, size.h * charHeight)
  }

  /** `pix_size_to_char(size)`: pixels to whole character cells, rounding down;
      a zero character dimension divides by zero. */
  function PixSizeToChar(charWidth: int, charHeight: int, size: Size): (r: Result<Size, PyError>)
    ensures r.Err? <==> charWidth == 0 || charHeight == 0
    ensures r.Err? ==> r.error == ZeroDivisionError
    ensures charWidth > 0 && charHeight > 0 ==>
      && r.Ok?
      && r.value.w * charWidth <= size.w < r.value.w * charWidth + charWidth
      && r.value.h * charHeight <= size.h < r.value.h * charHeight + charHeight
  {
    if charWidth == 0 || charHeight == 0 then Err(ZeroDivisionError)
    else Ok(Size(FloorDiv(size.w, charWidth), FloorDiv(size.h, charHeight)))
  }

  lemma FloorDivOfMultiple(a: int, b: int)
    requires b > 0
    ensures FloorDiv(a * b, b) == a
  {
    var q := FloorDiv(a * b, b);
    assert (a - q) * b == a * b - q * b;
    UnitRange(a - q, b);
  }

  lemma UnitRange(x: int, n: int)
    requires n > 0 && 0 <= x * n < n
    ensures x == 0
  {
  }

  /** Converting cells to pixels and back gives the cells again. */
  lemma CharPixRoundTrip(charWidth: int, charHeight: int, size: Size)
    requires charWidth > 0 && charHeight > 0
    ensures PixSizeToChar(charWidth, charHeight, CharSizeToPix(charWidth, charHeight, size)) == Ok(size)
  {
    FloorDivOfMultiple(size.w, charWidth);
    FloorDivOfMultiple(size.h, charHeight);
  }

  /** Converting pixels to cells and back rounds down to the cell's corner,
      which lies less than one cell before the pixel. */
  lemma PixCharRoundDown(charWidth: int, charHeight: int, size: Size)
    requires charWidth > 0 && charHeight > 0
    ensures var back := CharSizeToPix(charWidth, charHeight, PixSizeToChar(charWidth, charHeight, size).value);
      back.w <= size.w < back.w + charWidth && back.h <= size.h < back.h + charHeight
  {
  }

  /** The crop box `(left, top, right, bottom)` of a glyph in the sheet. */
  datatype Box = Box(left: int, top: int, right: int, bottom: int)

  /** What `create_char_img(char)` builds: a `char_width` x `char_height`
      surface with the sheet blitted from the crop box. */
  datatype Glyph = Glyph(width: int, height: int, crop: Box)

  /** `create_char_img(char)`: glyph c sits in sheet column c % 16 and sheet
      row c // 16 (the source names them the other way round). */
  function CreateCharImg(charWidth: int, charHeight: int, c: int): (g: Glyph)
    ensures g.width == charWidth && g.height == charHeight
    ensures g.crop.right - g.crop.left == charWidth && g.crop.bottom - g.crop.top == charHeight
    ensures g.crop.left == PyMod(c, 16) * charWidth && g.crop.top == FloorDiv(c, 16) * charHeight
  {
    var column := PyMod(c, 16);
    var row := FloorDiv(c, 16);
    Glyph(charWidth, charHeight, Box(column * charWidth, row * charHeight, (column + 1) * charWidth, (row + 1) * charHeight))
  }

  /** With positive character dimensions, different chars are cropped from
      different boxes. */
  lemma CropInjective(charWidth: int, charHeight: int, c: int, d: int)
    requires charWidth > 0 && charHeight > 0
    requires c != d
    ensures CreateCharImg(charWidth, charHeight, c).crop != CreateCharImg(charWidth, charHeight, d).crop
  {
    if CreateCharImg(charWidth, charHeight, c).crop == CreateCharImg(charWidth, charHeight, d).crop {
      MulCancel(PyMod(c, 16), PyMod(d, 16), charWidth);
      MulCancel(FloorDiv(c, 16), FloorDiv(d, 16), charHeight);
    }
  }

  lemma MulCancel(a: int, b: int, n: int)
    requires n > 0 && a * n == b * n
    ensures a == b
  {
  }

  class CharSet {
    var charWidth: int
    var charHeight: int
    var cache: map<int, Glyph>
    /** Every char `create_char_img` has been called for, in call order. */
    ghost var created: seq<int>

    ghost predicate Valid()
      reads this
    {
      && (forall i, j :: 0 <= i < j < |created| ==> created[i] != created[j])
      && (forall c :: c in cache <==> c in created)
      && (forall c :: c in cache ==> cache[c] == CreateCharImg(charWidth, charHeight, c))
    }

    constructor (charWidth: int, charHeight: int)
      ensures Valid()
      ensures this.charWidth == charWidth && this.charHeight == charHeight
      ensures cache == map[] && created == []
    {
      this.charWidth, this.charHeight := charWidth, charHeight;
      cache, created := map[], [];
    }

    /** `get_img(char)`: creates the glyph on the first request only. */
    method GetImg(c: int) returns (g: Glyph)
      requires Valid()
      modifies this
      ensures Valid()
      ensures g == CreateCharImg(charWidth, charHeight, c)
      ensures c in cache
      ensures c in old(cache) ==> cache == old(cache) && created == old(created)
      ensures c !in old(cache) ==> cache == old(cache)[c := g] && created == old(created) + [c]
      ensures charWidth == old(charWidth) && charHeight == old(charHeight)
    {
      if c !in cache {
        cache := cache[c := CreateCharImg(charWidth, charHeight, c)];
        created := created + [c];
      }
      g := cache[c];
    }
  }

  /** The global `PYGAME_SCREEN`: at most one pygame display exists. */
  class Screen {
    var open: Option<Size>

    constructor ()
      ensures open == None
    {
      open := None;
    }

    /** `PyGameDisplay(width, height)`: opens the screen if none is open, and
        raises otherwise. */
    method OpenDisplay(width: int, height: int) returns (o: Outcome<PyError>)
      modifies this
      ensures old(open).None? ==> o == Pass && open == Some(Size(width, height))
      ensures old(open).Some? ==> o == Fail(Exception) && open == old(open)
    {
      if open.None? {
        open := Some(Size(width, height));
        return Pass;
      }
      return Fail(Exception);
    }
  }

  /** Opening a second display while one is open raises. */
  method SecondDisplayFails(s: Screen, w1: int, h1: int, w2: int, h2: int) returns (first: Outcome<PyError>, second: Outcome<PyError>)
    requires s.open.None?
    modifies s
    ensures first == Pass && second == Fail(Exception)
    ensures s.open == Some(Size(w1, h1))
  {
    first := s.OpenDisplay(w1, h1);
    second := s.OpenDisplay(w2, h2);
  }
}
