/** CYLGame/Frame.py: the grid frame buffer, a `height` x `width` grid of
    cells holding char ids. */
module Frame {
  import opened Common

  /** The length of `range(n)` and of `[v] * n`: negative counts give nothing. */
  function Count(n: int): nat
  {
    if n < 0 then 0 else n
  }

  /** Where Python's `s[i]` lands in a list of length len, if anywhere. */
  function Resolve(len: nat, i: int): (r: Option<nat>)
    ensures r.Some? <==> -(len as int) <= i < len
    ensures r.Some? ==> r.value < len && (r.value == i || r.value == len + i)
  {
    if 0 <= i < len then Some(i)
    else if -(len as int) <= i < 0 then Some(len + i)
    else None
  }

  /** The value `set` stores for `char`: a one-character string becomes its
      code point, a longer or empty one fails the length assertion, anything
      else is stored as it is. */
  function Stored(ch: PyValue): (r: Result<PyValue, PyError>)
    ensures ch.PyStr? ==> (r.Ok? <==> |ch.s| == 1)
    ensures ch.PyStr? && |ch.s| == 1 ==> r == Ok(PyInt(ch.s[0] as int))
    ensures !ch.PyStr? ==> r == Ok(ch)
    ensures r.Err? ==> r.error == AssertionError
  {
    if ch.PyStr? then
      if |ch.s| == 1 then Ok(PyInt(ch.s[0] as int)) else Err(AssertionError)
    else Ok(ch)
  }

  /** `arr[y][x] = char` on the grid as a list of rows. */
  function SetCell(g: seq<seq<PyValue>>, x: int, y: int, ch: PyValue): (seq<seq<PyValue>>, Outcome<PyError>)
  {
    var v := Stored(ch);
    if v.Err? then (g, Fail(v.error))
    else
      var row := Resolve(|g|, y);
      if row.None? then (g, Fail(IndexError))
      else
        var col := Resolve(|g[row.value]|, x);
        if col.None? then (g, Fail(IndexError))
        else (g[row.value := g[row.value][col.value := v.value]], Pass)
  }

  /** A rectangular grid of the given size, every cell holding v. */
  ghost predicate Filled(g: seq<seq<PyValue>>, rows: nat, cols: nat, v: PyValue)
  {
    |g| == rows && forall i :: 0 <= i < rows ==> g[i] == seq(cols, _ => v)
  }

  /** `set` writes exactly one cell, the one that `arr[y][x]` addresses, and
      fails (changing nothing) on a bad string or an index out of range. */
  lemma SetCellChangesOneCell(g: seq<seq<PyValue>>, x: int, y: int, ch: PyValue)
    ensures var (g', o) := SetCell(g, x, y, ch);
      && |g'| == |g|
      && (forall i :: 0 <= i < |g| ==> |g'[i]| == |g[i]|)
      && (o.Fail? ==> g' == g)
      && (o.Pass? <==> Stored(ch).Ok? && Resolve(|g|, y).Some? && Resolve(|g[Resolve(|g|, y).value]|, x).Some?)
      && (o.Pass? ==>
            var r := Resolve(|g|, y).value;
            var c := Resolve(|g[r]|, x).value;
            && g'[r][c] == Stored(ch).value
            && forall i, j :: 0 <= i < |g| && 0 <= j < |g[i]| && (i, j) != (r, c) ==> g'[i][j] == g[i][j])
  {
  }

  class GridFrameBuffer {
    var x: int
    var y: int
    var arr: array2<PyValue>

    ghost predicate Valid()
      reads this
    {
      arr.Length0 == Count(y) && arr.Length1 == Count(x)
    }

    /** `dump()`: a copy of the grid, row by row. */
    function Dump(): (rows: seq<seq<PyValue>>)
      reads this, arr
      ensures |rows| == arr.Length0
      ensures forall i :: 0 <= i < arr.Length0 ==> |rows[i]| == arr.Length1
      ensures forall i, j :: 0 <= i < arr.Length0 && 0 <= j < arr.Length1 ==> rows[i][j] == arr[i, j]
    {
      seq(arr.Length0, i reads this, arr requires 0 <= i < arr.Length0 => Row(i))
    }

    /** Row i of the grid. */
    function Row(i: nat): (row: seq<PyValue>)
      reads this, arr
      requires i < arr.Length0
      ensures |row| == arr.Length1
      ensures forall j :: 0 <= j < arr.Length1 ==> row[j] == arr[i, j]
    {
      var a := arr;
      seq(a.Length1, j reads a requires 0 <= j < a.Length1 => a[i, j])
    }

    /** `GridFrameBuffer(width, height, init_value=...)`: `height` rows of
        `width` cells, each `init_value`. */
    constructor (width: int, height: int, initValue: PyValue)
      ensures Valid() && x == width && y == height && fresh(arr)
      ensures Filled(Dump(), Count(height), Count(width), initValue)
    {
      x, y := width, height;
      var a := new PyValue[Count(height), Count(width)];
      var i := 0;
      while i < Count(height)
        invariant 0 <= i <= Count(height)
        invariant forall r, c :: 0 <= r < i && 0 <= c < Count(width) ==> a[r, c] == initValue
      {
        var j := 0;
        while j < Count(width)
          invariant 0 <= j <= Count(width)
          invariant forall r, c :: 0 <= r < i && 0 <= c < Count(width) ==> a[r, c] == initValue
          invariant forall c :: 0 <= c < j ==> a[i, c] == initValue
        {
          a[i, j] := initValue;
          j := j + 1;
        }
        i := i + 1;
      }
      arr := a;
      new;
      forall r | 0 <= r < Count(height)
        ensures Dump()[r] == seq(Count(width), _ => initValue)
      {
      }
    }

    /** `set(x, y, char)`. */
    method Set(cx: int, cy: int, ch: PyValue) returns (o: Outcome<PyError>)
      requires Valid()
      modifies arr
      ensures Valid()
      ensures (Dump(), o) == SetCell(old(Dump()), cx, cy, ch)
    {
      var v := Stored(ch);
      if v.Err? {
        return Fail(v.error);
      }
      var row := Resolve(arr.Length0, cy);
      if row.None? {
        return Fail(IndexError);
      }
      var col := Resolve(arr.Length1, cx);
      if col.None? {
        return Fail(IndexError);
      }
      ghost var before := Dump();
      arr[row.value, col.value] := v.value;
      ghost var after := before[row.value := before[row.value][col.value := v.value]];
      forall i | 0 <= i < |after|
        ensures Dump()[i] == after[i]
      {
        forall j | 0 <= j < |after[i]|
          ensures Dump()[i][j] == after[i][j]
        {
        }
      }
      assert Dump() == after;
      assert |before[row.value]| == arr.Length1;
      return Pass;
    }
  }
}
