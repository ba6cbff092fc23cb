/** CYLGame/structures/const_mapping.py: a one-to-one mapping between
    variable names (str) and constant values (int), kept as two dicts
    that must stay exact inverses of each other. */
module ConstMappingStruct {
  import opened Common

  /** The contents of the two dicts. */
  datatype Bindings = Bindings(names: map<string, int>, vals: map<int, string>)

  const Empty := Bindings(map[], map[])

  /** The two dicts are exact inverses. */
  ghost predicate Inverse(b: Bindings)
  {
    forall n, v :: (n in b.names && b.names[n] == v) <==> (v in b.vals && b.vals[v] == n)
  }

  /** Drops name n and its value from both dicts, if n is bound. */
  function Unbind(b: Bindings, n: string): (r: Bindings)
    requires Inverse(b)
    ensures Inverse(r)
    ensures r.names.Keys == b.names.Keys - {n}
  {
    if n in b.names then Bindings(b.names - {n}, b.vals - {b.names[n]}) else b
  }

  /** `m[key] = value`: the new bindings and whether an assertion failed.
      Re-binding a name first drops its old value; a value owned by another
      name then fails the one-to-one assertion, after that drop. */
  function SetSpec(b: Bindings, key: PyValue, value: PyValue): (r: (Bindings, Outcome<PyError>))
    requires Inverse(b)
    ensures Inverse(r.0)
  {
    if !key.PyStr? || !value.PyInt? then (b, Fail(AssertionError))
    else
      var u := Unbind(b, key.s);
      if value.i in u.vals then (u, Fail(AssertionError))
      else (Bindings(u.names[key.s := value.i], u.vals[value.i := key.s]), Pass)
  }

  /** `update(pairs)` and the constructor: `SetSpec` on each pair in order,
      stopping at the first failed assertion. */
  function UpdateSpec(b: Bindings, pairs: seq<(PyValue, PyValue)>): (r: (Bindings, Outcome<PyError>))
    requires Inverse(b)
    ensures Inverse(r.0)
    decreases |pairs|
  {
    if pairs == [] then (b, Pass)
    else
      var s := SetSpec(b, pairs[0].0, pairs[0].1);
      if s.1.Fail? then s else UpdateSpec(s.0, pairs[1..])
  }

  /** `m[item]`: a name gives its value, a value gives its name, any other
      index type is a TypeError. */
  function Lookup(b: Bindings, item: PyValue): (r: Result<PyValue, PyError>)
  {
    match item
    case PyStr(n) => if n in b.names then Ok(PyInt(b.names[n])) else Err(KeyError)
    case PyInt(v) => if v in b.vals then Ok(PyStr(b.vals[v])) else Err(KeyError)
    case _ => Err(TypeError)
  }

  /** `item in m`: holds for any bound name or value (a float equal to a
      bound int value hashes and compares equal to it). */
  predicate Contains(b: Bindings, item: PyValue)
  {
    match item
    case PyStr(n) => n in b.names
    case PyInt(v) => v in b.vals
    case PyFloat(f) => f == f.Floor as real && f.Floor in b.vals
    case _ => false
  }

  /** A successful `m[k] = v` makes m[k] == v and m[v] == k. */
  lemma SetThenLookup(b: Bindings, k: string, v: int)
    requires Inverse(b)
    requires SetSpec(b, PyStr(k), PyInt(v)).1.Pass?
    ensures Lookup(SetSpec(b, PyStr(k), PyInt(v)).0, PyStr(k)) == Ok(PyInt(v))
    ensures Lookup(SetSpec(b, PyStr(k), PyInt(v)).0, PyInt(v)) == Ok(PyStr(k))
    ensures SetSpec(b, PyStr(k), PyInt(v)).0.names.Keys == b.names.Keys + {k}
  {
  }

  /** `m[k] = v` fails exactly when the types are wrong or another name owns v. */
  lemma SetFailsIff(b: Bindings, key: PyValue, value: PyValue)
    requires Inverse(b)
    ensures SetSpec(b, key, value).1.Fail? <==>
      (!key.PyStr? || !value.PyInt? || (value.i in b.vals && b.vals[value.i] != key.s))
  {
  }

  /** Every lookup in one direction is undone by a lookup in the other. */
  lemma LookupRoundTrip(b: Bindings, item: PyValue)
    requires Inverse(b)
    requires Lookup(b, item).Ok?
    ensures Lookup(b, Lookup(b, item).value) == Ok(item)
  {
  }

  /** The two dicts of an inverse pair have the same size, so `len` (the
      number of names) is also the number of values. */
  lemma {:induction false} InverseSameSize(b: Bindings)
    requires Inverse(b)
    ensures |b.names| == |b.vals|
    decreases |b.names|
  {
    if b.names == map[] {
      EmptyInverse(b);
    } else {
      var n :| n in b.names;
      var v := b.names[n];
      var u := Unbind(b, n);
      UnbindShrinks(b, n);
      InverseSameSize(u);
    }
  }

  lemma EmptyInverse(b: Bindings)
    requires Inverse(b) && b.names == map[]
    ensures b.vals == map[]
  {
    ValsAreImage(b);
    assert b.vals.Keys == {};
  }

  /** The values dict is keyed by exactly the values of the names dict. */
  lemma ValsAreImage(b: Bindings)
    requires Inverse(b)
    ensures b.vals.Keys == b.names.Values
  {
    forall v | v in b.vals
      ensures v in b.names.Values
    {
      assert b.names[b.vals[v]] == v;
    }
    forall v | v in b.names.Values
      ensures v in b.vals
    {
      var n :| n in b.names && b.names[n] == v;
    }
  }

  lemma UnbindShrinks(b: Bindings, n: string)
    requires Inverse(b) && n in b.names
    ensures |Unbind(b, n).names| == |b.names| - 1
    ensures |Unbind(b, n).vals| == |b.vals| - 1
  {
    var v := b.names[n];
    assert v in b.vals;
    MapRemoveSize(b.names, n);
    MapRemoveSize(b.vals, v);
  }

  lemma MapRemoveSize<K, V>(m: map<K, V>, k: K)
    requires k in m
    ensures |m - {k}| == |m| - 1
  {
    assert m.Keys == (m - {k}).Keys + {k};
  }

  /** The positional argument of the constructor: nothing at all, a dict,
      or another iterable of (name, value) pairs, each iterated in order. */
  datatype InitArg = NoArg | DictArg(pairs: seq<(PyValue, PyValue)>) | IterArg(pairs: seq<(PyValue, PyValue)>)

  /** `for v, k in kwargs: self[v] = k` as written: iterating the keyword
      dict yields its names, and each name is unpacked into two one-char
      strings; a name of any other length raises ValueError there. */
  function KeywordKeysSpec(b: Bindings, names: seq<string>): (r: (Bindings, Outcome<PyError>))
    requires Inverse(b)
    ensures Inverse(r.0)
    decreases |names|
  {
    if names == [] then (b, Pass)
    else if |names[0]| != 2 then (b, Fail(ValueError))
    else
      var s := SetSpec(b, PyStr(names[0][..1]), PyStr(names[0][1..]));
      if s.1.Fail? then s else KeywordKeysSpec(s.0, names[1..])
  }

  /** The names of the keyword arguments, in order. */
  function KeywordNames(kwargs: seq<(string, PyValue)>): (r: seq<string>)
    ensures |r| == |kwargs| && forall i :: 0 <= i < |kwargs| ==> r[i] == kwargs[i].0
  {
    seq(|kwargs|, i requires 0 <= i < |kwargs| => kwargs[i].0)
  }

  /** The keyword arguments as (name, value) pairs. */
  function KeywordPairs(kwargs: seq<(string, PyValue)>): (r: seq<(PyValue, PyValue)>)
    ensures |r| == |kwargs| && forall i :: 0 <= i < |kwargs| ==> r[i] == (PyStr(kwargs[i].0), kwargs[i].1)
  {
    seq(|kwargs|, i requires 0 <= i < |kwargs| => (PyStr(kwargs[i].0), kwargs[i].1))
  }

  /** `ConstMapping(seq, **kwargs)` as written: a dict wins; otherwise any
      keyword arguments are iterated by name; otherwise `seq` is iterated,
      and a missing `seq` is iterating `None`, a TypeError. */
  function InitSpec(arg: InitArg, kwargs: seq<(string, PyValue)>): (r: (Bindings, Outcome<PyError>))
    ensures Inverse(r.0)
  {
    if arg.DictArg? then UpdateSpec(Empty, arg.pairs)
    else if kwargs != [] then KeywordKeysSpec(Empty, KeywordNames(kwargs))
    else if arg.NoArg? then (Empty, Fail(TypeError))
    else UpdateSpec(Empty, arg.pairs)
  }

  /** The constructor as evidently intended, following the `dict()` forms
      its docstring copies: keyword arguments bind each name to its value,
      and no argument at all gives an empty mapping. */
  function InitCorrectedSpec(arg: InitArg, kwargs: seq<(string, PyValue)>): (r: (Bindings, Outcome<PyError>))
    ensures Inverse(r.0)
  {
    if arg.DictArg? then UpdateSpec(Empty, arg.pairs)
    else if kwargs != [] then UpdateSpec(Empty, KeywordPairs(kwargs))
    else if arg.NoArg? then (Empty, Pass)
    else UpdateSpec(Empty, arg.pairs)
  }

  /** As written, keyword arguments never build a mapping here: the first
      name either has the wrong length to unpack (ValueError) or unpacks to
      a str value, which `__setitem__` rejects (AssertionError). */
  lemma KeywordKeysNeverBind(b: Bindings, names: seq<string>)
    requires Inverse(b) && names != []
    ensures KeywordKeysSpec(b, names) == (b, Fail(if |names[0]| == 2 then AssertionError else ValueError))
  {
  }

  /** As written, `ConstMapping(up=1)` raises AssertionError ("up" unpacks
      to "u" and the str "p") and `ConstMapping(left=2)` raises ValueError;
      as intended, `ConstMapping(up=1)` binds "up" to 1. */
  lemma KeywordArgsAsWritten()
    ensures InitSpec(NoArg, [("up", PyInt(1))]) == (Empty, Fail(AssertionError))
    ensures InitSpec(NoArg, [("left", PyInt(2))]) == (Empty, Fail(ValueError))
    ensures InitCorrectedSpec(NoArg, [("up", PyInt(1))]) == (Bindings(map["up" := 1], map[1 := "up"]), Pass)
  {
    assert KeywordNames([("up", PyInt(1))]) == ["up"];
    assert KeywordNames([("left", PyInt(2))]) == ["left"];
    KeywordKeysNeverBind(Empty, ["up"]);
    var ps := KeywordPairs([("up", PyInt(1))]);
    assert ps == [(PyStr("up"), PyInt(1))];
    assert UpdateSpec(Empty, ps) == UpdateSpec(SetSpec(Empty, PyStr("up"), PyInt(1)).0, ps[1..]);
  }

  class ConstMapping {
    var names: map<string, int>
    var vals: map<int, string>

    function Contents(): Bindings
      reads this
    {
      Bindings(names, vals)
    }

    ghost predicate Valid()
      reads this
    {
      Inverse(Contents())
    }

    constructor Empty()
      ensures Valid() && Contents() == Bindings(map[], map[])
    {
      names, vals := map[], map[];
    }

    /** `ConstMapping(seq, **kwargs)` as written: the new mapping holds
        `InitSpec`'s bindings, or the constructor raises its error. */
    static method Create(arg: InitArg, kwargs: seq<(string, PyValue)>) returns (r: Result<ConstMapping, PyError>)
      ensures r.Ok? <==> InitSpec(arg, kwargs).1.Pass?
      ensures r.Err? ==> r.error == InitSpec(arg, kwargs).1.error
      ensures r.Ok? ==> fresh(r.value) && r.value.Valid() && r.value.Contents() == InitSpec(arg, kwargs).0
    {
      var m := new ConstMapping.Empty();
      var o;
      if arg.DictArg? {
        o := m.Update(arg.pairs);
      } else if kwargs != [] {
        o := m.UpdateKeywordKeys(KeywordNames(kwargs));
      } else if arg.NoArg? {
        o := Fail(TypeError);
      } else {
        o := m.Update(arg.pairs);
      }
      if o.Fail? {
        return Err(o.error);
      }
      return Ok(m);
    }

    /** The constructor as evidently intended: the new mapping holds
        `InitCorrectedSpec`'s bindings, or the constructor raises its error. */
    static method CreateCorrected(arg: InitArg, kwargs: seq<(string, PyValue)>) returns (r: Result<ConstMapping, PyError>)
      ensures r.Ok? <==> InitCorrectedSpec(arg, kwargs).1.Pass?
      ensures r.Err? ==> r.error == InitCorrectedSpec(arg, kwargs).1.error
      ensures r.Ok? ==> fresh(r.value) && r.value.Valid() && r.value.Contents() == InitCorrectedSpec(arg, kwargs).0
    {
      var m := new ConstMapping.Empty();
      var o;
      if arg.DictArg? {
        o := m.Update(arg.pairs);
      } else if kwargs != [] {
        o := m.Update(KeywordPairs(kwargs));
      } else if arg.NoArg? {
        o := Pass;
      } else {
        o := m.Update(arg.pairs);
      }
      if o.Fail? {
        return Err(o.error);
      }
      return Ok(m);
    }

    /** The keyword loop of the constructor as written, one name at a time. */
    method UpdateKeywordKeys(names: seq<string>) returns (o: Outcome<PyError>)
      requires Valid()
      modifies this
      ensures Valid()
      ensures (Contents(), o) == KeywordKeysSpec(old(Contents()), names)
    {
      var k := 0;
      while k < |names|
        invariant 0 <= k <= |names|
        invariant Valid()
        invariant KeywordKeysSpec(old(Contents()), names) == KeywordKeysSpec(Contents(), names[k..])
      {
        assert names[k..][1..] == names[k + 1..];
        if |names[k]| != 2 {
          return Fail(ValueError);
        }
        o := Set(PyStr(names[k][..1]), PyStr(names[k][1..]));
        if o.Fail? {
          return;
        }
        k := k + 1;
      }
      return Pass;
    }

    /** `m[key] = value`. */
    method Set(key: PyValue, value: PyValue) returns (o: Outcome<PyError>)
      requires Valid()
      modifies this
      ensures Valid()
      ensures (Contents(), o) == SetSpec(old(Contents()), key, value)
    {
      if !key.PyStr? || !value.PyInt? {
        return Fail(AssertionError);
      }
      if key.s in names {
        var oldValue := names[key.s];
        names := names - {key.s};
        vals := vals - {oldValue};
      }
      if value.i in vals {
        return Fail(AssertionError);
      }
      names := names[key.s := value.i];
      vals := vals[value.i := key.s];
      return Pass;
    }

    /** `del m[key]`: removes the name and its value; an unbound key is a KeyError. */
    method Delete(key: PyValue) returns (o: Outcome<PyError>)
      requires Valid()
      modifies this
      ensures Valid()
      ensures o.Fail? <==> !(key.PyStr? && key.s in old(names))
      ensures o.Fail? ==> o.error == KeyError && Contents() == old(Contents())
      ensures o.Pass? ==> Contents() == Unbind(old(Contents()), key.s)
    {
      if !key.PyStr? || key.s !in names {
        return Fail(KeyError);
      }
      var value := names[key.s];
      names := names - {key.s};
      vals := vals - {value};
      return Pass;
    }

    /** `update(other)`: `m[k] = v` for each pair in order. */
    method Update(pairs: seq<(PyValue, PyValue)>) returns (o: Outcome<PyError>)
      requires Valid()
      modifies this
      ensures Valid()
      ensures (Contents(), o) == UpdateSpec(old(Contents()), pairs)
    {
      var k := 0;
      while k < |pairs|
        invariant 0 <= k <= |pairs|
        invariant Valid()
        invariant UpdateSpec(old(Contents()), pairs) == UpdateSpec(Contents(), pairs[k..])
      {
        assert pairs[k..][1..] == pairs[k + 1..];
        o := Set(pairs[k].0, pairs[k].1);
        if o.Fail? {
          return;
        }
        k := k + 1;
      }
      return Pass;
    }

    /** `m[item]`. */
    function Get(item: PyValue): (r: Result<PyValue, PyError>)
      reads this
      requires Valid()
      ensures r.Ok? ==> Contains(Contents(), item)
      ensures item.PyStr? || item.PyInt? ==> (r.Ok? <==> Contains(Contents(), item))
      ensures !item.PyStr? && !item.PyInt? ==> r == Err(TypeError)
    {
      Lookup(Contents(), item)
    }

    /** `item in m`. */
    predicate Has(item: PyValue)
      reads this
    {
      Contains(Contents(), item)
    }

    /** `len(m)`: the number of names, which is also the number of values. */
    function Len(): (r: nat)
      reads this
      requires Valid()
      ensures r == |names| == |vals|
    {
      InverseSameSize(Contents());
      |names|
    }
  }
}
