/** example_game.py: the tic-tac-toe example game. The board is nine cells,
    0 for empty, 1 for the player's marks and 2 for the AI's. */
module TicTacToe {
  import opened Common

  const Player := 1
  const Ai := 2

  /** The eight lines of the board, as cell triples. */
  const Lines: seq<(nat, nat, nat)> :=
    [(0, 3, 6), (1, 4, 7), (2, 5, 8), (0, 1, 2), (3, 4, 5), (6, 7, 8), (0, 4, 8), (2, 4, 6)]

  /** A line whose three cells hold the same non-empty mark. */
  predicate Full(g: seq<int>, a: nat, b: nat, c: nat)
    requires a < |g| && b < |g| && c < |g|
  {
    g[a] == g[b] == g[c] && g[a] != 0
  }

  /** Column i is `grid[i::3]`, row i is `grid[i*3:(i+1)*3]`. */
  function WinnerFrom(g: seq<int>, i: nat): int
    requires |g| == 9 && i <= 3
    decreases 3 - i
  {
    if i < 3 then
      if Full(g, i, i + 3, i + 6) then g[i]
      else if Full(g, 3 * i, 3 * i + 1, 3 * i + 2) then g[3 * i]
      else WinnerFrom(g, i + 1)
    else if Full(g, 0, 4, 8) then g[4]
    else if Full(g, 2, 4, 6) then g[4]
    else 0
  }

  /** `check_win()`: the columns and rows in turn, then the two diagonals;
      the owner of the first full line, or 0. */
  function CheckWin(g: seq<int>): (r: int)
    requires |g| == 9
    ensures r != 0 <==> exists k :: 0 <= k < |Lines| && Full(g, Lines[k].0, Lines[k].1, Lines[k].2)
    ensures r != 0 ==> exists k :: 0 <= k < |Lines| && Full(g, Lines[k].0, Lines[k].1, Lines[k].2) && g[Lines[k].0] == r
  {
    CheckWinLines(g);
    WinnerFrom(g, 0)
  }

  /** Follows `check_win`'s order of tests to the first full line. */
  lemma CheckWinLines(g: seq<int>)
    requires |g| == 9
    ensures WinnerFrom(g, 0) != 0 <==> exists k :: 0 <= k < |Lines| && Full(g, Lines[k].0, Lines[k].1, Lines[k].2)
    ensures WinnerFrom(g, 0) != 0 ==>
      exists k :: 0 <= k < |Lines| && Full(g, Lines[k].0, Lines[k].1, Lines[k].2) && g[Lines[k].0] == WinnerFrom(g, 0)
  {
    var w := WinnerFrom(g, 0);
    assert WinnerFrom(g, 0) == (if Full(g, 0, 3, 6) then g[0] else if Full(g, 0, 1, 2) then g[0] else WinnerFrom(g, 1));
    assert WinnerFrom(g, 1) == (if Full(g, 1, 4, 7) then g[1] else if Full(g, 3, 4, 5) then g[3] else WinnerFrom(g, 2));
    assert WinnerFrom(g, 2) == (if Full(g, 2, 5, 8) then g[2] else if Full(g, 6, 7, 8) then g[6] else WinnerFrom(g, 3));
    assert WinnerFrom(g, 3) == (if Full(g, 0, 4, 8) then g[4] else if Full(g, 2, 4, 6) then g[4] else 0);
    if Full(g, 0, 3, 6) {
      assert Lines[0] == (0, 3, 6);
    } else if Full(g, 0, 1, 2) {
      assert Lines[3] == (0, 1, 2);
    } else if Full(g, 1, 4, 7) {
      assert Lines[1] == (1, 4, 7);
    } else if Full(g, 3, 4, 5) {
      assert Lines[4] == (3, 4, 5);
    } else if Full(g, 2, 5, 8) {
      assert Lines[2] == (2, 5, 8);
    } else if Full(g, 6, 7, 8) {
      assert Lines[5] == (6, 7, 8);
    } else if Full(g, 0, 4, 8) {
      assert Lines[6] == (0, 4, 8);
    } else if Full(g, 2, 4, 6) {
      assert Lines[7] == (2, 4, 6);
    } else {
      assert w == 0;
      forall k | 0 <= k < |Lines|
        ensures !Full(g, Lines[k].0, Lines[k].1, Lines[k].2)
      {
      }
    }
  }

  /** The spot a key selects: a key of ASCII digits whose value is 1..9,
      as `key.isdigit() and 0 < int(key) < 10` decides. */
  function SpotOf(key: string): (r: Option<nat>)
    ensures r.Some? ==> r.value < 9 && key != [] && AllDigits(key)
  {
    if key != [] && AllDigits(key) && 0 < Decimal(key) < 10 then Some(Decimal(key) - 1) else None
  }

  /** A single digit 1..9 selects cell digit - 1; "0" and non-digits select
      nothing; `int` ignores leading zeros, so "05" selects cell 4. */
  lemma DigitKeys(c: char)
    ensures '1' <= c <= '9' ==> SpotOf([c]) == Some(c as int - '1' as int)
    ensures SpotOf("0") == None && SpotOf("Q") == None && SpotOf("10") == None
    ensures SpotOf("05") == Some(4)
  {
    if '1' <= c <= '9' {
      assert [c][..0] == [];
      assert Decimal([c]) == c as int - '0' as int;
    }
    assert "0"[..0] == [] && Decimal("0") == 0;
    assert "1"[..0] == [] && Decimal("1") == 1;
    assert "10"[..1] == "1" && Decimal("10") == 10;
    assert "05"[..1] == "0" && Decimal("05") == 5;
    assert !AllDigits("Q") by { assert "Q"[0] == 'Q'; }
  }

  predicate AllDigits(s: string)
  {
    forall i :: 0 <= i < |s| ==> '0' <= s[i] <= '9'
  }

  /** `int(s)` for a string of ASCII digits. */
  function Decimal(s: string): nat
    requires AllDigits(s)
  {
    if s == [] then 0 else 10 * Decimal(s[..|s| - 1]) + (s[|s| - 1] as int - '0' as int)
  }

  /** The lowest-index empty cell. */
  function FirstEmpty(g: seq<int>): (r: Option<nat>)
    ensures r.Some? ==> r.value < |g| && g[r.value] == 0 && forall j :: 0 <= j < r.value ==> g[j] != 0
    ensures r.None? ==> forall j :: 0 <= j < |g| ==> g[j] != 0
  {
    if g == [] then None
    else if g[0] == 0 then Some(0)
    else
      var r := FirstEmpty(g[1..]);
      if r.None? then None else Some(r.value + 1)
  }

  /** The AI's move: a 2 in the lowest-index empty cell, if there is one. */
  function AiMove(g: seq<int>): seq<int>
  {
    var e := FirstEmpty(g);
    if e.Some? then g[e.value := Ai] else g
  }

  /** The state `handle_key` reads and writes. */
  datatype Board = Board(grid: seq<int>, running: bool, drawWin: int)

  /** `handle_key(key)`: the new state and the return value. */
  function HandleKeySpec(b: Board, key: string): (Board, bool)
    requires |b.grid| == 9
  {
    var spot := SpotOf(key);
    var moved := spot.Some? && b.grid[spot.value] == 0;
    var g1 := if moved then b.grid[spot.value := Player] else b.grid;
    var running := if key == "Q" then false else b.running;
    if !moved then (Board(g1, running, b.drawWin), false)
    else if CheckWin(g1) != 0 then (Board(g1, running, CheckWin(g1)), true)
    else
      var g2 := AiMove(g1);
      if CheckWin(g2) != 0 then (Board(g2, running, CheckWin(g2)), true)
      else (Board(g2, running, b.drawWin), true)
  }

  /** A key that selects no empty cell changes no cell and returns False. */
  lemma InvalidKeyChangesNothing(b: Board, key: string)
    requires |b.grid| == 9
    requires SpotOf(key).None? || b.grid[SpotOf(key).value] != 0
    ensures HandleKeySpec(b, key).1 == false
    ensures HandleKeySpec(b, key).0.grid == b.grid
    ensures HandleKeySpec(b, key).0.drawWin == b.drawWin
  {
  }

  /** "Q" stops the game and returns False. */
  lemma QuitStops(b: Board)
    requires |b.grid| == 9
    ensures HandleKeySpec(b, "Q") == (b.(running := false), false)
  {
    assert "Q"[0] == 'Q';
  }

  /** A digit key on an empty cell places the player's mark there; if that
      does not win, the AI marks the lowest-index empty cell; a win after
      either move is recorded. */
  lemma ValidMove(b: Board, key: string)
    requires |b.grid| == 9
    requires SpotOf(key).Some? && b.grid[SpotOf(key).value] == 0
    ensures var (b', r) := HandleKeySpec(b, key);
      var g1 := b.grid[SpotOf(key).value := Player];
      && r
      && (CheckWin(g1) != 0 ==> b'.grid == g1 && b'.drawWin == CheckWin(g1))
      && (CheckWin(g1) == 0 ==> b'.grid == AiMove(g1))
      && (CheckWin(g1) == 0 && CheckWin(AiMove(g1)) != 0 ==> b'.drawWin == CheckWin(AiMove(g1)))
      && (CheckWin(b'.grid) == 0 ==> b'.drawWin == b.drawWin)
  {
  }

  /** A valid move fills one or two cells that were empty and never touches
      a marked cell. */
  lemma MoveFillsEmptyCells(b: Board, key: string)
    requires |b.grid| == 9
    requires HandleKeySpec(b, key).1
    ensures var g' := HandleKeySpec(b, key).0.grid;
      && |g'| == 9
      && (forall i :: 0 <= i < 9 && b.grid[i] != 0 ==> g'[i] == b.grid[i])
      && (forall i :: 0 <= i < 9 && g'[i] != b.grid[i] ==> b.grid[i] == 0 && g'[i] != 0)
      && 1 <= |set i | 0 <= i < 9 && g'[i] != b.grid[i]| <= 2
  {
    var spot := SpotOf(key).value;
    var g1 := b.grid[spot := Player];
    var g' := HandleKeySpec(b, key).0.grid;
    assert b.grid[spot] == 0;
    if g' == g1 {
      FillOne(b.grid, spot);
    } else {
      var e := FirstEmpty(g1);
      assert e.Some? && g' == g1[e.value := Ai];
      FillTwo(b.grid, spot, e.value);
    }
  }

  /** Marking one empty cell changes exactly that cell. */
  lemma FillOne(g: seq<int>, k: nat)
    requires |g| == 9 && k < 9 && g[k] == 0
    ensures (set i | 0 <= i < 9 && g[k := Player][i] != g[i]) == {k}
  {
  }

  /** Marking two distinct empty cells changes exactly those two. */
  lemma FillTwo(g: seq<int>, k: nat, e: nat)
    requires |g| == 9 && k < 9 && e < 9 && g[k] == 0 && g[k := Player][e] == 0
    ensures var g' := g[k := Player][e := Ai];
      && (forall i :: 0 <= i < 9 && g[i] != 0 ==> g'[i] == g[i])
      && (forall i :: 0 <= i < 9 && g'[i] != g[i] ==> g[i] == 0 && g'[i] != 0)
      && (set i | 0 <= i < 9 && g'[i] != g[i]) == {k, e}
  {
  }

  /** `get_vars_for_bot()`: "spot1".."spot9" name the nine cells. */
  function SpotName(i: nat): string
    requires i < 9
  {
    "spot" + [('1' as int + i) as char]
  }

  lemma SpotNamesDistinct(i: nat, j: nat)
    requires i < 9 && j < 9 && i != j
    ensures SpotName(i) != SpotName(j)
  {
    assert SpotName(i)[4] != SpotName(j)[4];
  }

  class TickTackToe {
    var grid: array<int>
    var running: bool
    /** `draw_win`: False (0) until someone wins, then the winner. */
    var drawWin: int

    ghost predicate Valid()
      reads this
    {
      grid.Length == 9
    }

    function State(): Board
      reads this, grid
    {
      Board(grid[..], running, drawWin)
    }

    constructor ()
      ensures Valid() && fresh(grid)
      ensures State() == Board(seq(9, _ => 0), true, 0)
    {
      grid := new int[9](_ => 0);
      running := true;
      drawWin := 0;
    }

    /** `check_win()` on the current grid. */
    function Winner(): (r: int)
      reads this, grid
      requires Valid()
      ensures r == CheckWin(grid[..])
    {
      CheckWin(grid[..])
    }

    /** `handle_key(key)`. */
    method HandleKey(key: string) returns (r: bool)
      requires Valid()
      modifies this, grid
      ensures Valid() && grid == old(grid)
      ensures (State(), r) == HandleKeySpec(old(State()), key)
    {
      var isValid := false;
      var spot := SpotOf(key);
      if spot.Some? && grid[spot.value] == 0 {
        grid[spot.value] := Player;
        isValid := true;
      }
      if key == "Q" {
        running := false;
      }
      if !isValid {
        return false;
      }
      if Winner() != 0 {
        drawWin := Winner();
        return true;
      }
      AiPlays();
      if Winner() != 0 {
        drawWin := Winner();
        return true;
      }
      return true;
    }

    /** The AI's loop: marks the first empty cell and stops. */
    method AiPlays()
      requires Valid()
      modifies grid
      ensures grid[..] == AiMove(old(grid[..]))
    {
      var i := 0;
      while i < 9
        invariant 0 <= i <= 9
        invariant grid[..] == old(grid[..])
        invariant forall j :: 0 <= j < i ==> grid[j] != 0
      {
        if grid[i] == 0 {
          grid[i] := Ai;
          return;
        }
        i := i + 1;
      }
    }

    /** `get_vars_for_bot()`. */
    method GetVarsForBot() returns (vars: map<string, int>)
      requires Valid()
      ensures forall i :: 0 <= i < 9 ==> SpotName(i) in vars && vars[SpotName(i)] == grid[i]
      ensures forall k :: k in vars ==> exists i :: 0 <= i < 9 && k == SpotName(i)
    {
      vars := map[];
      var i := 0;
      while i < 9
        invariant 0 <= i <= 9
        invariant forall j :: 0 <= j < i ==> SpotName(j) in vars && vars[SpotName(j)] == grid[j]
        invariant forall k :: k in vars ==> exists j :: 0 <= j < i && k == SpotName(j)
      {
        forall j | 0 <= j < i
          ensures SpotName(j) != SpotName(i)
        {
          SpotNamesDistinct(i, j);
        }
        vars := vars[SpotName(i) := grid[i]];
        i := i + 1;
      }
    }
  }
}
