/** CYLGame/Game.py: `int2base`, the older dict-subclass `ConstMapping`
    that stores every pair in both directions, and the move constants of
    grid games. */
module Game {
  import opened Common

  // ---------------------------------------------------------------------
  // int2base

  /** The d-th character of `digits + ascii_letters`: 0-9, then a-z, then A-Z. */
  function DigitChar(d: nat): char
    requires d < 62
  {
    if d < 10 then ('0' as int + d) as char
    else if d < 36 then ('a' as int + d - 10) as char
    else ('A' as int + d - 36) as char
  }

  /** The position of c in `digs`, or -1. */
  function DigitIndex(c: char): int
  {
    if '0' <= c <= '9' then c as int - '0' as int
    else if 'a' <= c <= 'z' then c as int - 'a' as int + 10
    else if 'A' <= c <= 'Z' then c as int - 'A' as int + 36
    else -1
  }

  lemma DigitIndexInverts(d: nat)
    requires d < 62
    ensures DigitIndex(DigitChar(d)) == d
  {
  }

  /** The base-b digits of n, least significant first (the order the loop appends them). */
  function LowDigits(n: nat, base: nat): (ds: seq<nat>)
    requires base >= 2
    ensures forall i :: 0 <= i < |ds| ==> ds[i] < base
    ensures n == 0 <==> ds == []
    decreases n
  {
    if n == 0 then [] else [n % base] + LowDigits(n / base, base)
  }

  /** The number denoted by least-significant-first digits. */
  function LowValue(ds: seq<nat>, base: nat): nat
  {
    if ds == [] then 0 else ds[0] + base * LowValue(ds[1..], base)
  }

  function Reverse<T>(s: seq<T>): (r: seq<T>)
    ensures |r| == |s|
    ensures forall i :: 0 <= i < |s| ==> r[i] == s[|s| - 1 - i]
  {
    if s == [] then [] else Reverse(s[1..]) + [s[0]]
  }

  /** Every digit has a character in `digs`. */
  predicate InDigs(ds: seq<nat>)
  {
    forall i :: 0 <= i < |ds| ==> ds[i] < 62
  }

  /** The characters of digits that all lie inside `digs`. */
  function Render(ds: seq<nat>): (cs: string)
    requires InDigs(ds)
    ensures |cs| == |ds|
    ensures forall i :: 0 <= i < |ds| ==> cs[i] == DigitChar(ds[i])
  {
    seq(|ds|, i requires 0 <= i < |ds| => DigitChar(ds[i]))
  }

  /** How `int2base` renders nonzero x from its least-significant-first
      digits: a "-" for negative x, then the digits most significant first.
      A digit of 62 or more indexes past `digs` and raises IndexError. */
  function Format(negative: bool, ds: seq<nat>): Result<string, PyError>
  {
    if !InDigs(ds) then Err(IndexError)
    else Ok((if negative then "-" else "") + Reverse(Render(ds)))
  }

  /** `int2base(x, base)`: "0" for zero, otherwise the base-`base` digits of |x|. */
  function Int2BaseSpec(x: int, base: nat): Result<string, PyError>
    requires base >= 2
  {
    if x == 0 then Ok("0") else Format(x < 0, LowDigits(if x < 0 then -x else x, base))
  }

  /** `int2base(x, base)`: the sign is split off, the digits of |x| are
      appended least significant first, then the list is reversed. Base 1
      never terminates and is excluded. */
  method Int2Base(x: int, base: nat) returns (r: Result<string, PyError>)
    requires base >= 2
    ensures r == Int2BaseSpec(x, base)
  {
    var sign: int;
    if x < 0 {
      sign := -1;
    } else if x == 0 {
      return Ok("0");
    } else {
      sign := 1;
    }
    // `x *= sign`, with sign -1 or 1
    var n: nat := if sign < 0 then -x else x;
    var digits, ok := AppendDigits(n, base);
    if !ok {
      return Err(IndexError);
    }
    FormatOk(sign < 0, LowDigits(n, base));
    ghost var body := Reverse(digits);
    if sign < 0 {
      ReverseSnoc(digits, '-');
      digits := digits + ['-'];
    }
    digits := Reverse(digits);
    assert digits == (if sign < 0 then "-" else "") + body;
    return Ok(digits);
  }

  /** The `while x:` loop of `int2base`: appends `digs[x % base]` and
      floor-divides x by the base until it reaches zero; `ok` is false when
      a digit indexes past `digs`. */
  method AppendDigits(n0: nat, base: nat) returns (digits: string, ok: bool)
    requires base >= 2
    ensures ok <==> InDigs(LowDigits(n0, base))
    ensures ok ==> digits == Render(LowDigits(n0, base))
  {
    var n: nat := n0;
    ghost var emitted: seq<nat> := [];
    digits := [];
    while n != 0
      invariant LowDigits(n0, base) == emitted + LowDigits(n, base)
      invariant InDigs(emitted)
      invariant digits == Render(emitted)
      decreases n
    {
      var d: nat := n % base;
      var q := n / base;
      EmitStep(n0, base, emitted, n, d, q);
      if d >= 62 {
        return digits, false;
      }
      digits := digits + [DigitChar(d)];
      emitted := emitted + [d];
      n := q;
    }
    assert emitted == LowDigits(n0, base);
    return digits, true;
  }

  /** One turn of the digit loop: the next digit emitted is `n % base`. */
  lemma EmitStep(n0: nat, base: nat, emitted: seq<nat>, n: nat, d: nat, q: int)
    requires base >= 2 && n > 0 && d == n % base && q == n / base
    requires LowDigits(n0, base) == emitted + LowDigits(n, base)
    requires InDigs(emitted)
    ensures 0 <= q < n
    ensures LowDigits(n0, base) == (emitted + [d]) + LowDigits(q, base)
    ensures d >= 62 ==> !InDigs(LowDigits(n0, base))
    ensures d < 62 ==> InDigs(emitted + [d]) && Render(emitted + [d]) == Render(emitted) + [DigitChar(d)]
  {
    LowDigitsUnfold(n, base);
    assert (emitted + [d]) + LowDigits(q, base) == emitted + ([d] + LowDigits(q, base));
    assert LowDigits(n0, base)[|emitted|] == d;
    if d < 62 {
      RenderSnoc(emitted, d);
    }
  }

  lemma LowDigitsUnfold(n: nat, base: nat)
    requires base >= 2 && n > 0
    ensures 0 <= n / base < n && n % base < base
    ensures LowDigits(n, base) == [n % base] + LowDigits(n / base, base)
  {
  }

  lemma FormatOk(negative: bool, ds: seq<nat>)
    requires InDigs(ds)
    ensures Format(negative, ds) == Ok((if negative then "-" else "") + Reverse(Render(ds)))
  {
  }

  lemma RenderSnoc(ds: seq<nat>, d: nat)
    requires InDigs(ds)
    requires d < 62
    ensures Render(ds + [d]) == Render(ds) + [DigitChar(d)]
  {
  }

  lemma ReverseSnoc<T>(s: seq<T>, c: T)
    ensures Reverse(s + [c]) == [c] + Reverse(s)
  {
  }

  /** int(s, base) for an unsigned digit string, most significant digit first. */
  function ParseUnsigned(s: string, base: nat): int
  {
    if s == [] then 0 else ParseUnsigned(s[..|s| - 1], base) * base + DigitIndex(s[|s| - 1])
  }

  /** int(s, base) for an optionally signed digit string. */
  function ParseInt(s: string, base: nat): int
  {
    if |s| > 0 && s[0] == '-' then -ParseUnsigned(s[1..], base) else ParseUnsigned(s, base)
  }

  lemma {:induction false} LowValueOfLowDigits(n: nat, base: nat)
    requires base >= 2
    ensures LowValue(LowDigits(n, base), base) == n
    decreases n
  {
    if n > 0 {
      LowValueStep(n, base);
      DivLess(n, base);
      LowValueOfLowDigits(n / base, base);
      DivMod(n, base);
    }
  }

  lemma LowValueStep(n: nat, base: nat)
    requires base >= 2 && n > 0
    ensures LowValue(LowDigits(n, base), base) == n % base + base * LowValue(LowDigits(n / base, base), base)
  {
    var t := LowDigits(n / base, base);
    assert LowDigits(n, base) == [n % base] + t;
    assert ([n % base] + t)[1..] == t;
  }

  lemma DivLess(n: nat, base: nat)
    requires base >= 2 && n > 0
    ensures n / base < n
  {
  }

  lemma DivMod(n: nat, base: nat)
    requires base >= 2
    ensures n == n % base + base * (n / base)
  {
  }

  lemma {:induction false} ParseReversed(ds: seq<nat>, base: nat)
    requires InDigs(ds)
    ensures ParseUnsigned(Reverse(Render(ds)), base) == LowValue(ds, base)
    decreases |ds|
  {
    if ds != [] {
      var s := Reverse(Render(ds));
      assert s[..|s| - 1] == Reverse(Render(ds[1..]));
      ParseReversed(ds[1..], base);
      DigitIndexInverts(ds[0]);
    }
  }

  /** Parsing `int2base(x, base)` in the same base gives back x; the server
      relies on this for base-36 seeds. */
  lemma Int2BaseRoundTrip(x: int, base: nat)
    requires 2 <= base <= 62
    ensures Int2BaseSpec(x, base).Ok?
    ensures ParseInt(Int2BaseSpec(x, base).value, base) == x
  {
    if x != 0 {
      var n: nat := if x < 0 then -x else x;
      var ds := LowDigits(n, base);
      var s := Reverse(Render(ds));
      assert Int2BaseSpec(x, base) == Ok((if x < 0 then "-" else "") + s) by {
        FormatOk(x < 0, ds);
      }
      assert ParseUnsigned(s, base) == n by {
        LowValueOfLowDigits(n, base);
        ParseReversed(ds, base);
      }
      assert s[0] != '-' by {
        assert s[0] == DigitChar(ds[|ds| - 1]);
      }
      ParseSigned(x < 0, s, base);
    } else {
      ParseZero(base);
    }
  }

  lemma ParseZero(base: nat)
    ensures ParseInt("0", base) == 0
  {
    assert "0"[..0] == [];
    assert ParseUnsigned("0", base) == ParseUnsigned([], base) * base + DigitIndex('0');
  }

  lemma ParseSigned(negative: bool, s: string, base: nat)
    requires |s| > 0 && s[0] != '-'
    ensures ParseInt((if negative then "-" else "") + s, base) ==
      if negative then -ParseUnsigned(s, base) else ParseUnsigned(s, base)
  {
    if negative {
      assert ("-" + s)[1..] == s;
    } else {
      assert "" + s == s;
    }
  }

  /** The result has no leading zero and only digits below the base; it is
      "-" followed by digits exactly when x is negative. */
  lemma Int2BaseShape(x: int, base: nat)
    requires 2 <= base <= 62
    requires x != 0
    ensures var s := Int2BaseSpec(x, base).value;
      && (|s| > 0 && s[0] == '-' <==> x < 0)
      && var body := if x < 0 then s[1..] else s;
      && |body| > 0 && body[0] != '0'
      && forall i :: 0 <= i < |body| ==> 0 <= DigitIndex(body[i]) < base
  {
    var n: nat := if x < 0 then -x else x;
    var ds := LowDigits(n, base);
    LeadingDigitNonZero(n, base);
    BodyShape(ds, base);
    var body := Reverse(Render(ds));
    FormatOk(x < 0, ds);
    if x < 0 {
      assert ("-" + body)[1..] == body;
    } else {
      assert "" + body == body;
    }
  }

  /** The digits of a positive number, most significant first: no leading
      zero, no sign, and every character a digit below the base. */
  lemma BodyShape(ds: seq<nat>, base: nat)
    requires 2 <= base <= 62
    requires ds != [] && ds[|ds| - 1] != 0
    requires forall i :: 0 <= i < |ds| ==> ds[i] < base
    ensures InDigs(ds)
    ensures var body := Reverse(Render(ds));
      && |body| > 0 && body[0] != '0' && body[0] != '-'
      && forall i :: 0 <= i < |body| ==> 0 <= DigitIndex(body[i]) < base
  {
    var body := Reverse(Render(ds));
    forall i | 0 <= i < |body|
      ensures 0 <= DigitIndex(body[i]) < base
    {
      DigitIndexInverts(ds[|ds| - 1 - i]);
    }
    DigitIndexInverts(ds[|ds| - 1]);
  }

  lemma {:induction false} LeadingDigitNonZero(n: nat, base: nat)
    requires base >= 2 && n > 0
    ensures LowDigits(n, base)[|LowDigits(n, base)| - 1] != 0
    decreases n
  {
    if n / base > 0 {
      DivLess(n, base);
      LeadingDigitNonZero(n / base, base);
    }
  }

  /** Test cases of `int2base` in base 2 and 32. */
  lemma Int2BaseSmallExamples()
    ensures Int2BaseSpec(0, 2) == Ok("0")
    ensures Int2BaseSpec(1, 2) == Ok("1")
    ensures Int2BaseSpec(-1, 2) == Ok("-1")
    ensures Int2BaseSpec(1, 32) == Ok("1")
  {
    RenderExample(1, 2, [1], "1");
    RenderExample(1, 32, [1], "1");
    assert "-" + "1" == "-1";
  }

  /** Test case of `int2base` for 123789213 in base 16. */
  lemma Int2BaseHexExample()
    ensures Int2BaseSpec(123789213, 16) == Ok("760df9d")
  {
    var ds := [13, 9, 15, 13, 0, 6, 7];
    HexDigits();
    RenderExample(123789213, 16, ds, "760df9d");
  }

  /** Test case of `int2base` for 123789213 in base 32. */
  lemma Int2Base32Example()
    ensures Int2BaseSpec(123789213, 32) == Ok("3m1nst")
  {
    var ds := [29, 28, 23, 1, 22, 3];
    Base32Digits();
    RenderExample(123789213, 32, ds, "3m1nst");
  }

  /** The base-36 test cases, the base the server writes seeds in. */
  lemma Int2BaseSeedExamples()
    ensures Int2BaseSpec(123789213, 36) == Ok("21p8d9")
    ensures Int2BaseSpec(-123789213, 36) == Ok("-21p8d9")
  {
    var ds := [9, 13, 8, 25, 1, 2];
    SeedDigits();
    RenderExample(123789213, 36, ds, "21p8d9");
    assert "-" + "21p8d9" == "-21p8d9";
  }

  lemma HexDigits()
    ensures LowDigits(123789213, 16) == [13, 9, 15, 13, 0, 6, 7]
  {
  }

  lemma Base32Digits()
    ensures LowDigits(123789213, 32) == [29, 28, 23, 1, 22, 3]
  {
  }

  lemma SeedDigits()
    ensures LowDigits(123789213, 36) == [9, 13, 8, 25, 1, 2]
  {
  }

  lemma RenderExample(n: nat, base: nat, ds: seq<nat>, s: string)
    requires 2 <= base <= 62 && n > 0
    requires ds == LowDigits(n, base)
    requires |s| == |ds| && forall i :: 0 <= i < |s| ==> s[i] == DigitChar(ds[|ds| - 1 - i])
    ensures Int2BaseSpec(n, base) == Ok(s)
    ensures Int2BaseSpec(-(n as int), base) == Ok("-" + s)
  {
    assert InDigs(ds);
    assert Reverse(Render(ds)) == s;
    assert Int2BaseSpec(n, base) == Format(false, ds);
    assert Int2BaseSpec(-(n as int), base) == Format(true, ds);
    FormatOk(false, ds);
    FormatOk(true, ds);
    assert "" + s == s;
  }

  // ---------------------------------------------------------------------
  // The dict-subclass ConstMapping: each pair is stored both ways in one dict.

  type Dict = map<PyValue, PyValue>

  /** Every stored entry has its partner stored back: `self[self[e]] == e`. */
  ghost predicate Symmetric(d: Dict)
  {
    forall a :: a in d ==> d[a] in d && d[d[a]] == a
  }

  /** e is stored as its own partner (`m[e] = e`). */
  predicate SelfPaired(d: Dict, e: PyValue)
  {
    e in d && d[e] == e
  }

  /** `del m[key]`: drops the partner entry, then the key's own entry. For a
      self-paired key the second drop finds nothing and raises KeyError. */
  function DelSpec(d: Dict, key: PyValue): (r: (Dict, Outcome<PyError>))
    requires Symmetric(d)
    ensures Symmetric(r.0)
  {
    if key !in d then (d, Fail(KeyError))
    else
      var d1 := d - {d[key]};
      DropPairSymmetric(d, key);
      if key !in d1 then (d1, Fail(KeyError)) else (d1 - {key}, Pass)
  }

  /** Dropping a key together with its partner keeps the dict symmetric;
      for a self-paired key that is one entry, otherwise two. */
  lemma DropPairSymmetric(d: Dict, key: PyValue)
    requires Symmetric(d) && key in d
    ensures Symmetric(d - {key, d[key]})
    ensures d - {d[key]} - {key} == d - {key, d[key]}
    ensures key !in d - {d[key]} ==> d - {d[key]} == d - {key, d[key]}
  {
    var d' := d - {key, d[key]};
    forall a, b | a in d' && d'[a] == b
      ensures b in d' && d'[b] == a
    {
      assert d[b] == a;
    }
  }

  /** `m[key] = value`: deletes any pair holding key or value, then stores
      key -> value and value -> key. */
  function SetSpec(d: Dict, key: PyValue, value: PyValue): (r: (Dict, Outcome<PyError>))
    requires Symmetric(d)
    ensures Symmetric(r.0)
  {
    var r1 := if key in d then DelSpec(d, key) else (d, Pass);
    if r1.1.Fail? then r1
    else
      var r2 := if value in r1.0 then DelSpec(r1.0, value) else (r1.0, Pass);
      if r2.1.Fail? then r2
      else (r2.0[key := value][value := key], Pass)
  }

  /** `m[key] = value` for each pair in order, stopping at the first error. */
  function UpdateSpec(d: Dict, pairs: seq<(PyValue, PyValue)>): (r: (Dict, Outcome<PyError>))
    requires Symmetric(d)
    ensures Symmetric(r.0)
    decreases |pairs|
  {
    if pairs == [] then (d, Pass)
    else
      var s := SetSpec(d, pairs[0].0, pairs[0].1);
      if s.1.Fail? then s else UpdateSpec(s.0, pairs[1..])
  }

  /** A successful `m[k] = v` makes m[k] == v and m[v] == k. */
  lemma SetThenGet(d: Dict, k: PyValue, v: PyValue)
    requires Symmetric(d)
    requires SetSpec(d, k, v).1.Pass?
    ensures k in SetSpec(d, k, v).0 && SetSpec(d, k, v).0[k] == v
    ensures v in SetSpec(d, k, v).0 && SetSpec(d, k, v).0[v] == k
  {
  }

  /** `m[k] = v` keeps every pair that holds neither k nor v, and adds no
      other entry than k and v. */
  lemma SetKeepsOtherPairs(d: Dict, k: PyValue, v: PyValue)
    requires Symmetric(d)
    requires SetSpec(d, k, v).1.Pass?
    ensures forall e :: e in d && e != k && e != v && d[e] != k && d[e] != v ==>
      e in SetSpec(d, k, v).0 && SetSpec(d, k, v).0[e] == d[e]
    ensures forall e :: e in SetSpec(d, k, v).0 ==> e == k || e == v || (e in d && d[e] != k && d[e] != v)
  {
  }

  /** `m[k] = v` raises KeyError exactly when k or v is stored as its own partner. */
  lemma SetFailsIff(d: Dict, k: PyValue, v: PyValue)
    requires Symmetric(d)
    ensures SetSpec(d, k, v).1.Fail? <==> SelfPaired(d, k) || SelfPaired(d, v)
    ensures SetSpec(d, k, v).1.Fail? ==> SetSpec(d, k, v).1.error == KeyError
  {
    if SelfPaired(d, v) && !SelfPaired(d, k) && k in d {
      assert d[d[k]] == k;
    }
  }

  /** `del m[k]` removes k together with its partner, unless k is absent or self-paired. */
  lemma DelRemovesPair(d: Dict, k: PyValue)
    requires Symmetric(d)
    ensures DelSpec(d, k).1.Pass? <==> k in d && !SelfPaired(d, k)
    ensures DelSpec(d, k).1.Pass? ==> DelSpec(d, k).0 == d - {k, d[k]}
  {
    if k in d && !SelfPaired(d, k) {
      assert d - {d[k]} - {k} == d - {k, d[k]};
    }
  }

  /** With no self-paired entry the dict holds whole pairs, so `len` (half
      the entries) counts the pairs exactly. */
  lemma {:induction false} EvenWithoutSelfPairs(d: Dict)
    requires Symmetric(d)
    requires forall e :: e in d ==> d[e] != e
    ensures |d| % 2 == 0
    decreases |d|
  {
    if d != map[] {
      var e :| e in d;
      var d' := RemovePair(d, e);
      assert forall a :: a in d' ==> d'[a] != a;
      EvenWithoutSelfPairs(d');
      EvenPlusTwo(|d'|, |d|);
    }
  }

  lemma EvenPlusTwo(a: nat, b: nat)
    requires a % 2 == 0 && b == a + 2
    ensures b % 2 == 0
  {
  }

  /** Removing a pair that is not self-paired keeps the dict symmetric and
      shrinks it by two entries. */
  lemma RemovePair(d: Dict, e: PyValue) returns (d': Dict)
    requires Symmetric(d) && e in d && d[e] != e
    ensures d' == d - {e, d[e]}
    ensures Symmetric(d') && |d'| == |d| - 2
    ensures forall a :: a in d' ==> d'[a] != a || SelfPaired(d, a)
  {
    var p := d[e];
    d' := d - {e, p};
    DropPairSymmetric(d, e);
    DropTwo(d, e, p);
  }

  lemma DropTwo(d: Dict, x: PyValue, y: PyValue)
    requires x in d && y in d && x != y
    ensures |d - {x, y}| == |d| - 2
  {
    assert d.Keys == (d - {x, y}).Keys + {x, y};
  }

  /** `m[k] = k` is stored once, so `len` counts it as half a pair: zero. */
  lemma SelfPairHasNoLength(k: PyValue)
    ensures SetSpec(map[], k, k) == (map[k := k], Pass)
    ensures |map[k := k]| / 2 == 0
  {
    assert map[k := k].Keys == {k};
    assert map[k := k][k := k] == map[k := k];
  }

  /** `update` with fresh names bound to fresh int values, none repeated, only adds. */
  ghost predicate FreshPairs(d: Dict, pairs: seq<(PyValue, PyValue)>)
  {
    && (forall j :: 0 <= j < |pairs| ==>
          pairs[j].0.PyStr? && pairs[j].1.PyInt? && pairs[j].0 !in d && pairs[j].1 !in d)
    && (forall i, j :: 0 <= i < j < |pairs| ==> pairs[i].0 != pairs[j].0 && pairs[i].1 != pairs[j].1)
  }

  /** The dict after storing each pair both ways, with no deletions. */
  function AddPairs(d: Dict, pairs: seq<(PyValue, PyValue)>): Dict
    decreases |pairs|
  {
    if pairs == [] then d
    else AddPairs(d[pairs[0].0 := pairs[0].1][pairs[0].1 := pairs[0].0], pairs[1..])
  }

  lemma {:induction false} UpdateFresh(d: Dict, pairs: seq<(PyValue, PyValue)>)
    requires Symmetric(d) && FreshPairs(d, pairs)
    ensures UpdateSpec(d, pairs) == (AddPairs(d, pairs), Pass)
    ensures forall j :: 0 <= j < |pairs| ==>
      && pairs[j].0 in AddPairs(d, pairs) && AddPairs(d, pairs)[pairs[j].0] == pairs[j].1
      && pairs[j].1 in AddPairs(d, pairs) && AddPairs(d, pairs)[pairs[j].1] == pairs[j].0
    decreases |pairs|
  {
    if pairs != [] {
      var k, v := pairs[0].0, pairs[0].1;
      var d' := d[k := v][v := k];
      assert SetSpec(d, k, v) == (d', Pass);
      assert FreshPairs(d', pairs[1..]) by {
        forall j | 0 <= j < |pairs[1..]|
          ensures pairs[1..][j].0 !in d' && pairs[1..][j].1 !in d'
        {
          assert pairs[1..][j] == pairs[j + 1];
        }
      }
      UpdateFresh(d', pairs[1..]);
      forall j | 0 <= j < |pairs|
        ensures && pairs[j].0 in AddPairs(d, pairs) && AddPairs(d, pairs)[pairs[j].0] == pairs[j].1
                && pairs[j].1 in AddPairs(d, pairs) && AddPairs(d, pairs)[pairs[j].1] == pairs[j].0
      {
        if j == 0 {
          AddPairsKeeps(d', pairs[1..], k);
          AddPairsKeeps(d', pairs[1..], v);
        } else {
          assert pairs[j] == pairs[1..][j - 1];
        }
      }
    }
  }

  /** Entries whose key is never added stay as they are. */
  lemma {:induction false} AddPairsKeeps(d: Dict, pairs: seq<(PyValue, PyValue)>, e: PyValue)
    requires e in d
    requires forall j :: 0 <= j < |pairs| ==> pairs[j].0 != e && pairs[j].1 != e
    ensures e in AddPairs(d, pairs) && AddPairs(d, pairs)[e] == d[e]
    decreases |pairs|
  {
    if pairs != [] {
      var d' := d[pairs[0].0 := pairs[0].1][pairs[0].1 := pairs[0].0];
      forall j | 0 <= j < |pairs[1..]|
        ensures pairs[1..][j].0 != e && pairs[1..][j].1 != e
      {
        assert pairs[1..][j] == pairs[j + 1];
      }
      AddPairsKeeps(d', pairs[1..], e);
    }
  }

  /** The positional argument of the constructor: nothing at all, a dict,
      or another iterable of pairs, each iterated in order. */
  datatype InitArg = NoArg | DictArg(pairs: seq<(PyValue, PyValue)>) | IterArg(pairs: seq<(PyValue, PyValue)>)

  /** `for v, k in kwargs: self[v] = k` as written: iterating the keyword
      dict yields its names, and each name is unpacked into two one-char
      strings that are paired with each other; a name of any other length
      raises ValueError there. */
  function KeywordKeysSpec(d: Dict, names: seq<string>): (r: (Dict, Outcome<PyError>))
    requires Symmetric(d)
    ensures Symmetric(r.0)
    decreases |names|
  {
    if names == [] then (d, Pass)
    else if |names[0]| != 2 then (d, Fail(ValueError))
    else
      var s := SetSpec(d, PyStr(names[0][..1]), PyStr(names[0][1..]));
      if s.1.Fail? then s else KeywordKeysSpec(s.0, names[1..])
  }

  /** The names of the keyword arguments, in order. */
  function KeywordNames(kwargs: seq<(string, PyValue)>): (r: seq<string>)
    ensures |r| == |kwargs| && forall i :: 0 <= i < |kwargs| ==> r[i] == kwargs[i].0
  {
    seq(|kwargs|, i requires 0 <= i < |kwargs| => kwargs[i].0)
  }

  /** The keyword arguments as (name, value) pairs. */
  function KeywordPairs(kwargs: seq<(string, PyValue)>): (r: seq<(PyValue, PyValue)>)
    ensures |r| == |kwargs| && forall i :: 0 <= i < |kwargs| ==> r[i] == (PyStr(kwargs[i].0), kwargs[i].1)
  {
    seq(|kwargs|, i requires 0 <= i < |kwargs| => (PyStr(kwargs[i].0), kwargs[i].1))
  }

  /** `ConstMapping(seq, **kwargs)` as written: a dict wins; otherwise any
      keyword arguments are iterated by name; otherwise `seq` is iterated,
      and a missing `seq` is iterating `None`, a TypeError. */
  function InitSpec(arg: InitArg, kwargs: seq<(string, PyValue)>): (r: (Dict, Outcome<PyError>))
    ensures Symmetric(r.0)
  {
    if arg.DictArg? then UpdateSpec(map[], arg.pairs)
    else if kwargs != [] then KeywordKeysSpec(map[], KeywordNames(kwargs))
    else if arg.NoArg? then (map[], Fail(TypeError))
    else UpdateSpec(map[], arg.pairs)
  }

  /** The constructor as evidently intended, following the `dict()` forms
      its docstring copies: keyword arguments pair each name with its
      value, and no argument at all gives an empty mapping. */
  function InitCorrectedSpec(arg: InitArg, kwargs: seq<(string, PyValue)>): (r: (Dict, Outcome<PyError>))
    ensures Symmetric(r.0)
  {
    if arg.DictArg? then UpdateSpec(map[], arg.pairs)
    else if kwargs != [] then UpdateSpec(map[], KeywordPairs(kwargs))
    else if arg.NoArg? then (map[], Pass)
    else UpdateSpec(map[], arg.pairs)
  }

  /** As written, a two-char keyword name pairs its two chars and ignores
      its value: `ConstMapping(up=1)` holds "u" <-> "p" and not "up" at all,
      while `ConstMapping(left=2)` raises ValueError. As intended,
      `ConstMapping(up=1)` pairs "up" with 1. */
  lemma KeywordArgsAsWritten()
    ensures InitSpec(NoArg, [("up", PyInt(1))]) == (map[PyStr("u") := PyStr("p"), PyStr("p") := PyStr("u")], Pass)
    ensures InitSpec(NoArg, [("left", PyInt(2))]) == (map[], Fail(ValueError))
    ensures InitCorrectedSpec(NoArg, [("up", PyInt(1))]) == (map[PyStr("up") := PyInt(1), PyInt(1) := PyStr("up")], Pass)
  {
    assert KeywordNames([("up", PyInt(1))]) == ["up"];
    assert KeywordNames([("left", PyInt(2))]) == ["left"];
    assert "up"[..1] == "u" && "up"[1..] == "p";
    var e: Dict := map[];
    assert SetSpec(e, PyStr("u"), PyStr("p")) == (map[PyStr("u") := PyStr("p"), PyStr("p") := PyStr("u")], Pass);
    assert KeywordKeysSpec(e, ["up"]) == KeywordKeysSpec(SetSpec(e, PyStr("u"), PyStr("p")).0, ["up"][1..]);
    var ps := KeywordPairs([("up", PyInt(1))]);
    assert ps == [(PyStr("up"), PyInt(1))];
    assert UpdateSpec(e, ps) == UpdateSpec(SetSpec(e, PyStr("up"), PyInt(1)).0, ps[1..]);
  }

  class ConstMapping {
    var d: Dict

    ghost predicate Valid()
      reads this
    {
      Symmetric(d)
    }

    constructor Empty()
      ensures Valid() && d == map[]
    {
      d := map[];
    }

    /** `ConstMapping(seq, **kwargs)` as written: the new mapping holds
        `InitSpec`'s dict, or the constructor raises its error. */
    static method Create(arg: InitArg, kwargs: seq<(string, PyValue)>) returns (r: Result<ConstMapping, PyError>)
      ensures r.Ok? <==> InitSpec(arg, kwargs).1.Pass?
      ensures r.Err? ==> r.error == InitSpec(arg, kwargs).1.error
      ensures r.Ok? ==> fresh(r.value) && r.value.Valid() && r.value.d == InitSpec(arg, kwargs).0
    {
      var m := new ConstMapping.Empty();
      var o;
      if arg.DictArg? {
        o := m.Update(arg.pairs);
      } else if kwargs != [] {
        o := m.UpdateKeywordKeys(KeywordNames(kwargs));
      } else if arg.NoArg? {
        o := Fail(TypeError);
      } else {
        o := m.Update(arg.pairs);
      }
      if o.Fail? {
        return Err(o.error);
      }
      return Ok(m);
    }

    /** The constructor as evidently intended: the new mapping holds
        `InitCorrectedSpec`'s dict, or the constructor raises its error. */
    static method CreateCorrected(arg: InitArg, kwargs: seq<(string, PyValue)>) returns (r: Result<ConstMapping, PyError>)
      ensures r.Ok? <==> InitCorrectedSpec(arg, kwargs).1.Pass?
      ensures r.Err? ==> r.error == InitCorrectedSpec(arg, kwargs).1.error
      ensures r.Ok? ==> fresh(r.value) && r.value.Valid() && r.value.d == InitCorrectedSpec(arg, kwargs).0
    {
      var m := new ConstMapping.Empty();
      var o;
      if arg.DictArg? {
        o := m.Update(arg.pairs);
      } else if kwargs != [] {
        o := m.Update(KeywordPairs(kwargs));
      } else if arg.NoArg? {
        o := Pass;
      } else {
        o := m.Update(arg.pairs);
      }
      if o.Fail? {
        return Err(o.error);
      }
      return Ok(m);
    }

    /** The keyword loop of the constructor as written, one name at a time. */
    method UpdateKeywordKeys(names: seq<string>) returns (o: Outcome<PyError>)
      requires Valid()
      modifies this
      ensures Valid()
      ensures (d, o) == KeywordKeysSpec(old(d), names)
    {
      var k := 0;
      while k < |names|
        invariant 0 <= k <= |names|
        invariant Valid()
        invariant KeywordKeysSpec(old(d), names) == KeywordKeysSpec(d, names[k..])
      {
        assert names[k..][1..] == names[k + 1..];
        if |names[k]| != 2 {
          return Fail(ValueError);
        }
        o := Set(PyStr(names[k][..1]), PyStr(names[k][1..]));
        if o.Fail? {
          return;
        }
        k := k + 1;
      }
      return Pass;
    }

    /** `m[key] = value`. */
    method Set(key: PyValue, value: PyValue) returns (o: Outcome<PyError>)
      requires Valid()
      modifies this
      ensures Valid()
      ensures (d, o) == SetSpec(old(d), key, value)
    {
      ghost var r1 := if key in d then DelSpec(d, key) else (d, Pass);
      if key in d {
        o := Delete(key);
        if o.Fail? {
          return;
        }
      }
      assert d == r1.0 && r1.1.Pass?;
      ghost var r2 := if value in d then DelSpec(d, value) else (d, Pass);
      if value in d {
        o := Delete(value);
        if o.Fail? {
          return;
        }
      }
      assert d == r2.0 && r2.1.Pass?;
      d := d[key := value][value := key];
      assert (d, Pass) == SetSpec(old(d), key, value);
      return Pass;
    }

    /** `del m[key]`: `dict.__delitem__(self, self[key])`, then `dict.__delitem__(self, key)`. */
    method Delete(key: PyValue) returns (o: Outcome<PyError>)
      requires Valid()
      modifies this
      ensures Valid()
      ensures (d, o) == DelSpec(old(d), key)
    {
      if key !in d {
        return Fail(KeyError);
      }
      DropPairSymmetric(d, key);
      d := d - {d[key]};
      if key !in d {
        return Fail(KeyError);
      }
      d := d - {key};
      return Pass;
    }

    /** The constructor's loop: `self[k] = v` for each pair in order. */
    method Update(pairs: seq<(PyValue, PyValue)>) returns (o: Outcome<PyError>)
      requires Valid()
      modifies this
      ensures Valid()
      ensures (d, o) == UpdateSpec(old(d), pairs)
    {
      var k := 0;
      while k < |pairs|
        invariant 0 <= k <= |pairs|
        invariant Valid()
        invariant UpdateSpec(old(d), pairs) == UpdateSpec(d, pairs[k..])
      {
        assert pairs[k..][1..] == pairs[k + 1..];
        o := Set(pairs[k].0, pairs[k].1);
        if o.Fail? {
          return;
        }
        k := k + 1;
      }
      return Pass;
    }

    /** `m[key]`: the partner of key, or KeyError. */
    function Get(key: PyValue): (r: Result<PyValue, PyError>)
      reads this
      requires Valid()
      ensures r.Ok? <==> key in d
      ensures r.Ok? ==> r.value in d && d[r.value] == key
    {
      if key in d then Ok(d[key]) else Err(KeyError)
    }

    /** `len(m)`: half the number of stored entries, rounded down. */
    function Len(): (n: nat)
      reads this
      requires Valid()
      ensures 2 * n <= |d| <= 2 * n + 1
    {
      |d| / 2
    }
  }

  // ---------------------------------------------------------------------
  // Move constants

  /** The eight compass directions of a grid game and the keys that move
      in them, in the order `GridGame.get_move_consts` lists them. */
  const MovePairs: seq<(PyValue, PyValue)> := [
    (PyStr("north"), PyInt('w' as int)), (PyStr("south"), PyInt('s' as int)),
    (PyStr("west"), PyInt('a' as int)), (PyStr("east"), PyInt('d' as int)),
    (PyStr("northeast"), PyInt('e' as int)), (PyStr("southeast"), PyInt('c' as int)),
    (PyStr("northwest"), PyInt('q' as int)), (PyStr("southwest"), PyInt('z' as int))]

  /** Every direction maps to its key's code and every code back to its direction. */
  lemma MoveConstsTable()
    ensures UpdateSpec(map[], MovePairs).1.Pass?
    ensures forall j :: 0 <= j < |MovePairs| ==>
      && MovePairs[j].0 in UpdateSpec(map[], MovePairs).0
      && UpdateSpec(map[], MovePairs).0[MovePairs[j].0] == MovePairs[j].1
      && MovePairs[j].1 in UpdateSpec(map[], MovePairs).0
      && UpdateSpec(map[], MovePairs).0[MovePairs[j].1] == MovePairs[j].0
  {
    assert FreshPairs(map[], MovePairs);
    UpdateFresh(map[], MovePairs);
  }

  /** `GridGame.get_move_consts()`. */
  method GridMoveConsts() returns (m: ConstMapping)
    ensures fresh(m) && m.Valid()
    ensures m.d == UpdateSpec(map[], MovePairs).0
  {
    MoveConstsTable();
    var r := ConstMapping.Create(DictArg(MovePairs), []);
    m := r.value;
  }

  /** `Game.get_move_consts()` as written: `ConstMapping()` raises TypeError. */
  method BaseMoveConsts() returns (r: Result<ConstMapping, PyError>)
    ensures r == Err(TypeError)
  {
    r := ConstMapping.Create(NoArg, []);
  }

  /** `Game.get_move_consts()` as evidently intended: an empty mapping. */
  method BaseMoveConstsCorrected() returns (m: ConstMapping)
    ensures fresh(m) && m.Valid() && m.d == map[] && m.Len() == 0
  {
    m := new ConstMapping.Empty();
  }
}
