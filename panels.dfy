/** CYLGame/Panels.py: the char/position index of a map panel and the
    message lists of message and status panels. */
module Panels {
  import opened Common
  import Game

  /** A position tuple. */
  datatype Pos = Pos(x: int, y: int)

  /** `DEFAULT_CHAR`. */
  const DefaultChar: string := " "

  // ---------------------------------------------------------------------
  // Map: char -> set of positions, position -> char, and a change log

  /** The dicts of a `Map`: `char_to_ps`, `p_to_char` (whose missing keys
      read as `default_char`) and `changes`. */
  datatype Index = Index(
    charToPs: map<string, set<Pos>>,
    pToChar: map<Pos, string>,
    defaultChar: string,
    changes: map<Pos, string>)

  /** Every indexed position reads back as the char it is indexed under. */
  ghost predicate Indexed(s: Index)
  {
    forall c, p :: c in s.charToPs && p in s.charToPs[c] ==> p in s.pToChar && s.pToChar[p] == c
  }

  /** Every stored position is indexed under its char, except the default
      entries that reading an unset position leaves behind. */
  ghost predicate Mirrored(s: Index)
  {
    forall p :: p in s.pToChar ==>
      s.pToChar[p] == s.defaultChar || (s.pToChar[p] in s.charToPs && p in s.charToPs[s.pToChar[p]])
  }

  ghost predicate ValidIndex(s: Index)
  {
    Indexed(s) && Mirrored(s)
  }

  /** The char at p as `p_to_char[p]` reads it. */
  function CharAt(s: Index, p: Pos): string
  {
    if p in s.pToChar then s.pToChar[p] else s.defaultChar
  }

  /** The positions indexed under c (empty for a char never added). */
  function PositionsOf(s: Index, c: string): set<Pos>
  {
    if c in s.charToPs then s.charToPs[c] else {}
  }

  /** `rm_char(pos)`: forgets pos; if pos was indexed under its char, unindexes
      it and records a change back to `default_char`. */
  function RmSpec(s: Index, pos: Pos): Index
  {
    var c := CharAt(s, pos);
    var pToChar := s.pToChar - {pos};
    if c in s.charToPs && pos in s.charToPs[c] then
      s.(charToPs := s.charToPs[c := s.charToPs[c] - {pos}], pToChar := pToChar,
         changes := s.changes[pos := s.defaultChar])
    else
      s.(pToChar := pToChar)
  }

  /** `add(char, pos)`: removes a stored pos first, then indexes pos under
      char, stores char at pos and records the change. */
  function AddSpec(s: Index, c: string, pos: Pos): Index
  {
    var s1 := if pos in s.pToChar then RmSpec(s, pos) else s;
    s1.(charToPs := s1.charToPs[c := PositionsOf(s1, c) + {pos}],
        pToChar := s1.pToChar[pos := c],
        changes := s1.changes[pos := c])
  }

  lemma RmPreservesValid(s: Index, pos: Pos)
    requires ValidIndex(s)
    ensures ValidIndex(RmSpec(s, pos))
  {
  }

  lemma AddPreservesValid(s: Index, c: string, pos: Pos)
    requires ValidIndex(s)
    ensures ValidIndex(AddSpec(s, c, pos))
  {
    var s1 := if pos in s.pToChar then RmSpec(s, pos) else s;
    assert ValidIndex(s1) by { RmPreservesValid(s, pos); }
    assert forall c' :: c' in s1.charToPs ==> pos !in s1.charToPs[c'];
  }

  /** After `add(c, pos)`: pos reads as c, is indexed under c and under no
      other char, the change is logged, and every other position reads as before. */
  lemma AddThenQuery(s: Index, c: string, pos: Pos)
    requires ValidIndex(s)
    ensures CharAt(AddSpec(s, c, pos), pos) == c
    ensures pos in PositionsOf(AddSpec(s, c, pos), c)
    ensures forall c' :: c' != c ==> pos !in PositionsOf(AddSpec(s, c, pos), c')
    ensures AddSpec(s, c, pos).changes[pos] == c
    ensures forall q :: q != pos ==> CharAt(AddSpec(s, c, pos), q) == CharAt(s, q)
    ensures forall c' :: c' != c ==> PositionsOf(AddSpec(s, c, pos), c') == PositionsOf(s, c') - {pos}
  {
    UnindexPos(s, pos);
  }

  /** The state `add` starts from once a stored pos is removed: pos is in no
      position set, and every other position and set is as before. */
  lemma UnindexPos(s: Index, pos: Pos)
    requires ValidIndex(s)
    ensures var s1 := if pos in s.pToChar then RmSpec(s, pos) else s;
      && (forall c' :: c' in s1.charToPs ==> pos !in s1.charToPs[c'])
      && (forall q :: q != pos ==> CharAt(s1, q) == CharAt(s, q))
      && (forall c' :: PositionsOf(s1, c') == PositionsOf(s, c') - {pos})
  {
    var s1 := if pos in s.pToChar then RmSpec(s, pos) else s;
    forall c' | c' in s1.charToPs
      ensures pos !in s1.charToPs[c']
    {
      if pos in s.charToPs[c'] {
        assert s.pToChar[pos] == c';
      }
    }
    forall c'
      ensures PositionsOf(s1, c') == PositionsOf(s, c') - {pos}
    {
      if c' in s.charToPs && pos in s.charToPs[c'] {
        assert s.pToChar[pos] == c';
      }
    }
  }

  /** `rm_char` on a position never stored changes nothing. */
  lemma RmUnsetIsNoOp(s: Index, pos: Pos)
    requires ValidIndex(s)
    requires pos !in s.pToChar
    ensures RmSpec(s, pos) == s
  {
    assert s.pToChar - {pos} == s.pToChar;
  }

  /** `rm_char` logs a change exactly when pos was indexed under its char. */
  lemma RmLogsIffIndexed(s: Index, pos: Pos)
    requires ValidIndex(s)
    ensures pos in RmSpec(s, pos).changes && RmSpec(s, pos).changes[pos] == s.defaultChar
      <== pos in PositionsOf(s, CharAt(s, pos))
    ensures pos !in PositionsOf(s, CharAt(s, pos)) ==> RmSpec(s, pos).changes == s.changes
    ensures CharAt(RmSpec(s, pos), pos) == s.defaultChar
  {
  }

  class Map {
    var charToPs: map<string, set<Pos>>
    var pToChar: map<Pos, string>
    var defaultChar: string
    var changes: map<Pos, string>

    function State(): Index
      reads this
    {
      Index(charToPs, pToChar, defaultChar, changes)
    }

    ghost predicate Valid()
      reads this
    {
      ValidIndex(State())
    }

    constructor (defaultChar: string)
      ensures Valid()
      ensures State() == Index(map[], map[], defaultChar, map[])
    {
      charToPs, pToChar, this.defaultChar, changes := map[], map[], defaultChar, map[];
    }

    /** `get_diff()`: hands back the changes logged so far and starts a new log. */
    method GetDiff() returns (diff: map<Pos, string>)
      requires Valid()
      modifies this
      ensures Valid()
      ensures diff == old(changes)
      ensures State() == old(State()).(changes := map[])
    {
      diff := changes;
      changes := map[];
    }

    /** `add(char, pos)`. */
    method Add(c: string, pos: Pos)
      requires Valid()
      modifies this
      ensures Valid()
      ensures State() == AddSpec(old(State()), c, pos)
    {
      AddPreservesValid(State(), c, pos);
      if pos in pToChar {
        RmChar(pos);
      }
      var ps := if c in charToPs then charToPs[c] else {};
      charToPs := charToPs[c := ps + {pos}];
      pToChar := pToChar[pos := c];
      changes := changes[pos := c];
    }

    /** `rm_char(pos)`. */
    method RmChar(pos: Pos)
      requires Valid()
      modifies this
      ensures Valid()
      ensures State() == RmSpec(old(State()), pos)
    {
      RmPreservesValid(State(), pos);
      var c := if pos in pToChar then pToChar[pos] else defaultChar;
      pToChar := pToChar - {pos};
      if c in charToPs && pos in charToPs[c] {
        charToPs := charToPs[c := charToPs[c] - {pos}];
        changes := changes[pos := defaultChar];
      }
    }

    /** `get_all_pos(char)`: reading a missing char inserts an empty set. */
    method GetAllPos(c: string) returns (ps: set<Pos>)
      requires Valid()
      modifies this
      ensures Valid()
      ensures ps == PositionsOf(old(State()), c)
      ensures State() == old(State()).(charToPs := old(charToPs)[c := ps])
    {
      if c !in charToPs {
        charToPs := charToPs[c := {}];
      }
      ps := charToPs[c];
    }

    /** `get_char_at(pos)`: reading an unset position stores `default_char`
        there, without indexing it. */
    method GetCharAt(pos: Pos) returns (c: string)
      requires Valid()
      modifies this
      ensures Valid()
      ensures c == CharAt(old(State()), pos)
      ensures State() == old(State()).(pToChar := old(pToChar)[pos := c])
    {
      if pos !in pToChar {
        pToChar := pToChar[pos := defaultChar];
      }
      c := pToChar[pos];
    }
  }

  // ---------------------------------------------------------------------
  // Message lists

  /** `s.split("\n")`. */
  function Split(s: string): (pieces: seq<string>)
    ensures |pieces| >= 1
    ensures forall i :: 0 <= i < |pieces| ==> '\n' !in pieces[i]
    decreases |s|
  {
    if '\n' !in s then [s]
    else
      var i := FirstNewline(s);
      [s[..i]] + Split(s[i + 1..])
  }

  function FirstNewline(s: string): (i: nat)
    requires '\n' in s
    ensures i < |s| && s[i] == '\n' && '\n' !in s[..i]
  {
    if s[0] == '\n' then 0
    else
      assert '\n' in s[1..] by { var k :| 0 <= k < |s| && s[k] == '\n'; assert s[1..][k - 1] == '\n'; }
      var j := FirstNewline(s[1..]);
      assert s[..j + 1] == [s[0]] + s[1..][..j];
      j + 1
  }

  /** `"\n".join(pieces)`. */
  function Join(pieces: seq<string>): string
  {
    if |pieces| <= 1 then (if pieces == [] then "" else pieces[0])
    else pieces[0] + "\n" + Join(pieces[1..])
  }

  /** Splitting on newlines and joining back gives the original message. */
  lemma {:induction false} JoinSplit(s: string)
    ensures Join(Split(s)) == s
    decreases |s|
  {
    if '\n' in s {
      var i := FirstNewline(s);
      JoinSplit(s[i + 1..]);
      assert s == s[..i] + "\n" + s[i + 1..];
    }
  }

  /** Joining newline-free pieces and splitting again gives the pieces back. */
  lemma {:induction false} SplitJoin(pieces: seq<string>)
    requires |pieces| >= 1
    requires forall i :: 0 <= i < |pieces| ==> '\n' !in pieces[i]
    ensures Split(Join(pieces)) == pieces
    decreases |pieces|
  {
    if |pieces| > 1 {
      var p, rest := pieces[0], Join(pieces[1..]);
      assert Join(pieces) == p + "\n" + rest;
      SplitAt(p, rest);
      SplitJoin(pieces[1..]);
      assert pieces == [p] + pieces[1..];
    }
  }

  /** A newline-free first line splits off at the first newline. */
  lemma SplitAt(p: string, rest: string)
    requires '\n' !in p
    ensures Split(p + "\n" + rest) == [p] + Split(rest)
  {
    var s := p + "\n" + rest;
    assert s[|p|] == '\n' && s[..|p|] == p && s[|p| + 1..] == rest;
    FirstNewlineAt(s, |p|);
  }

  /** The first newline is the one with no newline before it. */
  lemma FirstNewlineAt(s: string, k: nat)
    requires k < |s| && s[k] == '\n' && '\n' !in s[..k]
    ensures '\n' in s && FirstNewline(s) == k
  {
    var i := FirstNewline(s);
    NoNewlineBefore(s, k);
    NoNewlineBefore(s, i);
  }

  lemma NoNewlineBefore(s: string, k: nat)
    requires k <= |s| && '\n' !in s[..k]
    ensures forall j :: 0 <= j < k ==> s[j] != '\n'
  {
    forall j | 0 <= j < k
      ensures s[j] != '\n'
    {
      assert s[..k][j] == s[j];
    }
  }

  /** The lines that `add` appends for the messages, in order. */
  function Lines(messages: seq<string>): seq<string>
  {
    if messages == [] then [] else Lines(messages[..|messages| - 1]) + Split(messages[|messages| - 1])
  }

  lemma LinesStep(items: seq<string>, k: int)
    requires 0 <= k < |items|
    ensures Lines(items[..k + 1]) == Lines(items[..k]) + Split(items[k])
  {
    assert items[..k + 1][..k] == items[..k];
  }

  lemma OneLine(s: string)
    ensures Lines([s]) == Split(s)
  {
    assert [s][..0] == [];
  }

  /** What `MessagePanel.add` was given: one string, an iterable of strings,
      or something that is neither. */
  datatype Messages = One(s: string) | Many(items: seq<string>) | NotIterable

  /** The last `rows` lines as `msgs[-rows:]` slices them; with rows == 0 the
      slice `msgs[-0:]` is the whole list. */
  function LastRows(msgs: seq<string>, rows: int): (r: seq<string>)
    ensures rows == 0 ==> r == msgs
    ensures 0 < rows <= |msgs| ==> r == msgs[|msgs| - rows..] && |r| == rows
    ensures rows > |msgs| ==> r == msgs
    ensures rows < 0 ==> r == msgs[if -rows < |msgs| then -rows else |msgs|..]
  {
    msgs[SliceStart(|msgs|, -rows)..]
  }

  class MessagePanel {
    var msgs: seq<string>
    var rows: int
    var maxLen: int

    constructor (x: int, y: int, w: int, h: int)
      ensures msgs == [] && rows == h - 2 && maxLen == w - 2
    {
      msgs, rows, maxLen := [], h - 2, w - 2;
    }

    /** `panel[item]`: an int index, negative ones counting from the end. */
    function GetItem(item: PyValue): (r: Result<string, PyError>)
      reads this
      ensures !item.PyInt? ==> r == Err(AssertionError)
      ensures item.PyInt? && 0 <= item.i < |msgs| ==> r == Ok(msgs[item.i])
      ensures item.PyInt? && -|msgs| <= item.i < 0 ==> r == Ok(msgs[|msgs| + item.i])
      ensures item.PyInt? && !(-|msgs| <= item.i < |msgs|) ==> r == Err(IndexError)
    {
      if !item.PyInt? then Err(AssertionError) else PyIndex(msgs, item.i)
    }

    /** `panel[key] = value`: replaces an existing line with a one-line string;
        out-of-range keys are ignored. */
    method SetItem(key: PyValue, value: PyValue) returns (o: Outcome<PyError>)
      modifies this
      ensures o.Fail? <==> !key.PyInt? || !value.PyStr? || '\n' in value.s
      ensures o.Fail? ==> o.error == AssertionError && msgs == old(msgs)
      ensures o.Pass? && 0 <= key.i < |old(msgs)| ==> msgs == old(msgs)[key.i := value.s]
      ensures o.Pass? && !(0 <= key.i < |old(msgs)|) ==> msgs == old(msgs)
      ensures rows == old(rows) && maxLen == old(maxLen)
    {
      if !key.PyInt? || !value.PyStr? || '\n' in value.s {
        return Fail(AssertionError);
      }
      if 0 <= key.i < |msgs| {
        msgs := msgs[key.i := value.s];
      }
      return Pass;
    }

    /** `item in panel`. */
    predicate Contains(item: string)
      reads this
    {
      item in msgs
    }

    /** `add(messages)`: appends every message split into its lines. */
    method Add(messages: Messages) returns (o: Outcome<PyError>)
      modifies this
      ensures messages.NotIterable? ==> o == Fail(AssertionError) && msgs == old(msgs)
      ensures messages.One? ==> o == Pass && msgs == old(msgs) + Split(messages.s)
      ensures messages.Many? ==> o == Pass && msgs == old(msgs) + Lines(messages.items)
      ensures rows == old(rows) && maxLen == old(maxLen)
    {
      if messages.NotIterable? {
        return Fail(AssertionError);
      }
      if messages.One? {
        OneLine(messages.s);
        AppendLines([messages.s]);
      } else {
        AppendLines(messages.items);
      }
      return Pass;
    }

    /** Appends the lines of every item, in order. */
    method AppendLines(items: seq<string>)
      modifies this
      ensures msgs == old(msgs) + Lines(items)
      ensures rows == old(rows) && maxLen == old(maxLen)
    {
      ghost var m0 := msgs;
      var k := 0;
      while k < |items|
        invariant 0 <= k <= |items|
        invariant msgs == m0 + Lines(items[..k])
        invariant rows == old(rows) && maxLen == old(maxLen)
      {
        LinesStep(items, k);
        msgs := msgs + Split(items[k]);
        k := k + 1;
      }
      assert items[..|items|] == items;
    }

    /** `clear()`. */
    method Clear()
      modifies this
      ensures msgs == [] && rows == old(rows) && maxLen == old(maxLen)
    {
      msgs := [];
    }

    /** `get_current_messages()`: `msgs[-rows:]`. */
    function CurrentMessages(): (r: seq<string>)
      reads this
      ensures rows == 0 ==> r == msgs
      ensures 0 < rows <= |msgs| ==> |r| == rows && r == msgs[|msgs| - rows..]
      ensures rows > |msgs| ==> r == msgs
    {
      LastRows(msgs, rows)
    }
  }

  /** `str(value)` for the values a status line holds: strings as they are,
      ints in decimal, None as "None". */
  function Str(v: PyValue): string
    requires v.PyStr? || v.PyInt? || v.PyNone?
  {
    match v
    case PyStr(s) => s
    case PyInt(i) => Game.Int2BaseSpec(i, 10).value
    case PyNone => "None"
  }

  /** `str(n)` writes ints in decimal, and `int()` reads them back. */
  lemma StrIntRoundTrip(i: int)
    ensures Game.ParseInt(Str(PyInt(i)), 10) == i
  {
    Game.Int2BaseRoundTrip(i, 10);
  }

  /** The status lines "key: value", in the order the keys were first set. */
  function StatusLines(keys: seq<string>, info: map<string, string>): (lines: seq<string>)
    requires forall k :: k in keys ==> k in info
    ensures |lines| == |keys|
    ensures forall j :: 0 <= j < |keys| ==> lines[j] == keys[j] + ": " + info[keys[j]]
  {
    seq(|keys|, j requires 0 <= j < |keys| => keys[j] + ": " + info[keys[j]])
  }

  class StatusPanel {
    var msgs: seq<string>
    var rows: int
    /** `info`'s keys in insertion order, and the dict itself. */
    var keys: seq<string>
    var info: map<string, string>

    ghost predicate Valid()
      reads this
    {
      && (forall i, j :: 0 <= i < j < |keys| ==> keys[i] != keys[j])
      && (forall k :: k in keys <==> k in info)
    }

    constructor (x: int, y: int, w: int, h: int)
      ensures Valid()
      ensures msgs == [] && rows == h - 2 && keys == [] && info == map[]
    {
      msgs, rows, keys, info := [], h - 2, [], map[];
    }

    /** `panel[item]`: the stored string, or KeyError. */
    function GetItem(item: string): (r: Result<string, PyError>)
      reads this
      ensures r.Ok? <==> item in info
      ensures r.Ok? ==> r.value == info[item]
    {
      if item in info then Ok(info[item]) else Err(KeyError)
    }

    /** `panel[key] = value`: stores `str(value)` under `str(key)`; a new key
        goes last, an existing one keeps its place. */
    method SetItem(key: PyValue, value: PyValue)
      requires Valid()
      requires key.PyStr? || key.PyInt? || key.PyNone?
      requires value.PyStr? || value.PyInt? || value.PyNone?
      modifies this
      ensures Valid()
      ensures info == old(info)[Str(key) := Str(value)]
      ensures keys == if Str(key) in old(info) then old(keys) else old(keys) + [Str(key)]
      ensures msgs == old(msgs) && rows == old(rows)
    {
      var k := Str(key);
      if k !in info {
        keys := keys + [k];
      }
      info := info[k := Str(value)];
    }

    /** `item in panel`. */
    predicate Contains(item: string)
      reads this
    {
      item in info
    }

    /** `get_current_messages()`: rebuilds msgs as "key: value" lines, then
        returns the last `rows` of them. */
    method CurrentMessages() returns (r: seq<string>)
      requires Valid()
      modifies this
      ensures Valid()
      ensures msgs == StatusLines(keys, info)
      ensures r == LastRows(msgs, rows)
      ensures keys == old(keys) && info == old(info) && rows == old(rows)
    {
      msgs := [];
      var k := 0;
      while k < |keys|
        invariant 0 <= k <= |keys|
        invariant keys == old(keys) && info == old(info) && rows == old(rows)
        invariant Valid()
        invariant msgs == StatusLines(keys[..k], info)
      {
        msgs := msgs + [keys[k] + ": " + info[keys[k]]];
        k := k + 1;
      }
      assert keys[..|keys|] == keys;
      r := msgs[SliceStart(|msgs|, -rows)..];
    }
  }
}
