/** CYLGame/Comp.py: the tournament rules. Rankings of a room, the
    round-robin `MultiplayerComp` and the rolling `RollingMultiplayerComp`
    that score bots by `OnlineMean`s, the choice of each school's best bot,
    and the rolling runner's pass counter and game clean-up. Shuffles,
    directory listings, the clock and the compiler are inputs. */
module Comp {
  import opened Common
  import opened Utils
  import Database

  /** A competitor's program, known by its owner's token. */
  type Bot = string

  /** One place in a room: a competitor, or the default computer player
      `default_bot_class()` made to fill the room, numbered by its place. */
  datatype Seat = Entrant(bot: Bot) | Filler(place: nat)

  // ---------------------------------------------------------------------
  // Ranking
  // ---------------------------------------------------------------------

  /** The rank `Ranking(bots)` gives each seat: the last place it holds
      in `bots`. */
  function RanksOf(bots: seq<Seat>): map<Seat, int>
  {
    if bots == [] then map[] else RanksOf(bots[..|bots| - 1])[bots[|bots| - 1] := |bots| - 1]
  }

  /** Every seat of `bots` is ranked, at a place it holds and holds no
      more after; nothing else is ranked. */
  lemma {:induction false} RanksOfPlaces(bots: seq<Seat>)
    ensures forall k :: 0 <= k < |bots| ==> bots[k] in RanksOf(bots)
    ensures forall x :: x in RanksOf(bots) ==>
      && 0 <= RanksOf(bots)[x] < |bots| && bots[RanksOf(bots)[x]] == x
      && forall j :: RanksOf(bots)[x] < j < |bots| ==> bots[j] != x
  {
    if bots != [] {
      var init := bots[..|bots| - 1];
      RanksOfPlaces(init);
      forall k | 0 <= k < |bots|
        ensures bots[k] in RanksOf(bots)
      {
        if k < |bots| - 1 {
          assert bots[k] == init[k];
        }
      }
    }
  }

  /** With no seat twice, seat `bots[i]` has rank i. */
  lemma RanksOfDistinct(bots: seq<Seat>)
    requires forall i, j :: 0 <= i < j < |bots| ==> bots[i] != bots[j]
    ensures forall i :: 0 <= i < |bots| ==> bots[i] in RanksOf(bots) && RanksOf(bots)[bots[i]] == i
  {
    RanksOfPlaces(bots);
  }

  /** What `other` can be in `ranking + other` and `other + ranking`: a
      number (the 0 `sum` starts from), a dict, or another `Ranking`. */
  datatype Operand = Number(n: int) | Dict(m: map<Seat, int>) | RankingObject(ranks: map<Seat, int>)

  /** `{k: self.ranks[k] + other[k] for k in self.ranks}`, built one key at a
      time: nothing is looked up when there are no ranks, a dict missing a
      key raises KeyError, and anything that cannot be indexed raises
      TypeError. */
  function SumWith(ranks: map<Seat, int>, other: Operand): (r: Result<map<Seat, int>, PyError>)
  {
    if ranks == map[] then Ok(map[])
    else if !other.Dict? then Err(TypeError)
    else if !(ranks.Keys <= other.m.Keys) then Err(KeyError)
    else Ok(map k | k in ranks :: ranks[k] + other.m[k])
  }

  /** The sum is taken key by key over the ranked seats, and fails exactly
      when some ranked seat cannot be looked up in `other`. */
  lemma SumWithKeywise(ranks: map<Seat, int>, other: Operand)
    ensures SumWith(ranks, other).Ok? <==> forall k :: k in ranks ==> other.Dict? && k in other.m
    ensures SumWith(ranks, other).Ok? ==>
      && SumWith(ranks, other).value.Keys == ranks.Keys
      && forall k :: k in ranks ==> SumWith(ranks, other).value[k] == ranks[k] + other.m[k]
  {
    if ranks != map[] && !other.Dict? {
      var k :| k in ranks;
    }
  }

  /** Two rankings over the same seats add up the same either way round. */
  lemma SumWithCommutes(a: map<Seat, int>, b: map<Seat, int>)
    requires a.Keys == b.Keys
    ensures SumWith(a, Dict(b)) == SumWith(b, Dict(a))
  {
    if a != map[] {
      assert (map k | k in a :: a[k] + b[k]) == (map k | k in b :: b[k] + a[k]);
    }
  }

  /** Adding two non-empty `Ranking` objects raises TypeError, since a
      `Ranking` cannot be indexed; so does adding a number. */
  lemma RankingsDoNotAdd(a: map<Seat, int>, b: map<Seat, int>, n: int)
    requires a != map[]
    ensures SumWith(a, RankingObject(b)) == Err(TypeError)
    ensures SumWith(a, Number(n)) == Err(TypeError)
  {
  }

  /** What `other + ranking` returns: the ranking itself, or a dict. */
  datatype RightSum = Itself | Summed(m: map<Seat, int>)

  /** `Ranking(bots)` with its `ranks` dict. */
  class Ranking {
    var ranks: map<Seat, int>

    constructor (bots: seq<Seat>)
      ensures ranks == RanksOf(bots)
    {
      ranks := map[];
      new;
      for i := 0 to |bots|
        invariant ranks == RanksOf(bots[..i])
      {
        assert bots[..i + 1][..i] == bots[..i];
        ranks := ranks[bots[i] := i];
      }
      assert bots[..|bots|] == bots;
    }

    /** `__add__(other)`. */
    method Add(other: Operand) returns (r: Result<map<Seat, int>, PyError>)
      ensures r == SumWith(ranks, other)
    {
      var todo := ranks.Keys;
      var acc := map[];
      while todo != {}
        invariant todo <= ranks.Keys
        invariant todo != ranks.Keys ==> other.Dict? && ranks.Keys - todo <= other.m.Keys
        invariant acc.Keys == ranks.Keys - todo
        invariant forall k :: k in acc ==> other.Dict? && k in other.m && acc[k] == ranks[k] + other.m[k]
        decreases todo
      {
        var k :| k in todo;
        if !other.Dict? {
          return Err(TypeError);
        }
        if k !in other.m {
          return Err(KeyError);
        }
        acc := acc[k := ranks[k] + other.m[k]];
        todo := todo - {k};
      }
      if ranks == map[] {
        return Ok(map[]);
      }
      assert acc == map k | k in ranks :: ranks[k] + other.m[k];
      r := Ok(acc);
    }

    /** `__radd__(other)`: `0 + ranking` is the ranking itself. */
    method RAdd(other: Operand) returns (r: Result<RightSum, PyError>)
      ensures other == Number(0) ==> r == Ok(Itself)
      ensures other != Number(0) ==> match SumWith(ranks, other)
        case Ok(m) => r == Ok(Summed(m))
        case Err(e) => r == Err(e)
    {
      if other == Number(0) {
        return Ok(Itself);
      }
      var sum := Add(other);
      if sum.Err? {
        return Err(sum.error);
      }
      r := Ok(Summed(sum.value));
    }

    /** `add_rank(standing, bot)`: adds to exactly one existing entry. */
    method AddRank(standing: int, bot: Seat) returns (o: Outcome<PyError>)
      modifies this
      ensures bot in old(ranks) ==> o == Pass && ranks == old(ranks)[bot := old(ranks)[bot] + standing]
      ensures bot !in old(ranks) ==> o == Fail(KeyError) && ranks == old(ranks)
    {
      if bot !in ranks {
        return Fail(KeyError);
      }
      ranks := ranks[bot := ranks[bot] + standing];
      o := Pass;
    }
  }

  // ---------------------------------------------------------------------
  // Filling a room
  // ---------------------------------------------------------------------

  /** A room created by `next()`. */
  class Room {
    const seats: seq<Seat>

    constructor (seats: seq<Seat>)
      ensures this.seats == seats
    {
      this.seats := seats;
    }
  }

  /** What `shuffle(list(self.scores.keys()))` can give: every scored bot
      once, in some order. */
  predicate IsShuffleOf(order: seq<Bot>, pool: set<Bot>)
  {
    && (forall i, j :: 0 <= i < j < |order| ==> order[i] != order[j])
    && (forall i :: 0 <= i < |order| ==> order[i] in pool)
    && (forall b :: b in pool ==> b in order)
  }

  function Entrants(bots: seq<Bot>): (r: seq<Seat>)
    ensures |r| == |bots| && forall i :: 0 <= i < |r| ==> r[i] == Entrant(bots[i])
  {
    seq(|bots|, i requires 0 <= i < |bots| => Entrant(bots[i]))
  }

  /** The default players appended while the room is short: one per place
      from `from` up to `size`. */
  function Fillers(from: nat, size: nat): (r: seq<Seat>)
    ensures |r| == if from < size then size - from else 0
    ensures forall i :: 0 <= i < |r| ==> r[i] == Filler(from + i)
  {
    if from < size then seq(size - from, i requires 0 <= i < size - from => Filler(from + i)) else []
  }

  function Min(a: int, b: int): int { if a < b then a else b }

  /** The seats of a room: the first `take` bots of the shuffled order,
      then default players until there are `size`. */
  function Seats(order: seq<Bot>, size: nat, take: nat): seq<Seat>
  {
    var p := Entrants(order[..Min(|order|, take)]);
    p + Fillers(|p|, size)
  }

  /** The room `next()` fills as written: `l[:room_size + 1]`. */
  function RoomAsWritten(order: seq<Bot>, size: nat): seq<Seat>
  {
    Seats(order, size, size + 1)
  }

  /** The room `next()` is meant to fill: `l[:room_size]`. */
  function RoomOf(order: seq<Bot>, size: nat): seq<Seat>
  {
    Seats(order, size, size)
  }

  /** As written, a pool larger than the room puts one bot too many in it. */
  lemma RoomAsWrittenSize(order: seq<Bot>, size: nat)
    ensures |RoomAsWritten(order, size)| == if |order| > size then size + 1 else size
  {
  }

  /** Three bots and rooms of two: the room gets all three. */
  lemma RoomOneTooMany()
    ensures |RoomAsWritten(["a", "b", "c"], 2)| == 3
  {
    RoomAsWrittenSize(["a", "b", "c"], 2);
  }

  /** The intended room holds exactly `size` seats: the first bots of the
      shuffle, each once, then default players in the remaining places. */
  lemma RoomOfShape(order: seq<Bot>, size: nat)
    requires forall i, j :: 0 <= i < j < |order| ==> order[i] != order[j]
    ensures var r := RoomOf(order, size);
      && |r| == size
      && (forall i :: 0 <= i < Min(|order|, size) ==> r[i] == Entrant(order[i]))
      && (forall i :: Min(|order|, size) <= i < size ==> r[i] == Filler(i))
      && (forall i, j :: 0 <= i < j < |r| ==> r[i] != r[j])
  {
    var r := RoomOf(order, size);
    var m := Min(|order|, size);
    assert |Entrants(order[..m])| == m;
    forall i | 0 <= i < m
      ensures r[i] == Entrant(order[i])
    {
      assert r[i] == Entrants(order[..m])[i];
    }
    forall i | m <= i < size
      ensures r[i] == Filler(i)
    {
      assert r[i] == Fillers(m, size)[i - m];
    }
  }

  /** `p = l[:k]` then `while len(p) < room_size: p += [default]`. */
  method FillRoom(order: seq<Bot>, size: nat, take: nat) returns (p: seq<Seat>)
    ensures p == Seats(order, size, take)
  {
    var m := Min(|order|, take);
    p := Entrants(order[..m]);
    while |p| < size
      invariant m <= |p|
      invariant |p| < size ==> p == Entrants(order[..m]) + Fillers(m, |p|)
      invariant |p| >= size ==> p == Entrants(order[..m]) + Fillers(m, size)
      decreases size - |p|
    {
      p := p + [Filler(|p|)];
    }
  }

  // ---------------------------------------------------------------------
  // Scoring a room
  // ---------------------------------------------------------------------

  /** One `add(x)` of an `OnlineMean`, rolling after `roll` values when
      it was made with `roll_after_n`. */
  function Update(m: MeanState, x: real, roll: Option<nat>): MeanState
    requires roll.Some? ==> roll.value >= 1
  {
    if roll.Some? then RollingStep(m, x, roll.value) else Step(m, x)
  }

  /** `scores[k.prog] += rank * 10` for each ranked seat whose bot is
      scored; every other score is left as it was. */
  function Scored(scores: map<Bot, MeanState>, ranks: map<Seat, int>, roll: Option<nat>): map<Bot, MeanState>
    requires roll.Some? ==> roll.value >= 1
  {
    map b | b in scores :: if Entrant(b) in ranks then Update(scores[b], (ranks[Entrant(b)] * 10) as real, roll) else scores[b]
  }

  /** One room counts once for each ranked, scored bot and not at all for
      the others. */
  lemma ScoredCounts(scores: map<Bot, MeanState>, ranks: map<Seat, int>)
    ensures Scored(scores, ranks, None).Keys == scores.Keys
    ensures forall b :: b in scores ==>
      Scored(scores, ranks, None)[b].i == scores[b].i + (if Entrant(b) in ranks then 1 else 0)
  {
  }

  /** Scoring rooms one after the other. */
  function ScoredAll(scores: map<Bot, MeanState>, rankings: seq<map<Seat, int>>): map<Bot, MeanState>
    decreases |rankings|
  {
    if rankings == [] then scores else ScoredAll(Scored(scores, rankings[0], None), rankings[1..])
  }

  /** Ten times each rank a bot got, room by room. */
  function TenfoldRanks(b: Bot, rankings: seq<map<Seat, int>>): (xs: seq<real>)
    requires forall k :: 0 <= k < |rankings| ==> Entrant(b) in rankings[k]
    ensures |xs| == |rankings|
  {
    seq(|rankings|, k requires 0 <= k < |rankings| => (rankings[k][Entrant(b)] * 10) as real)
  }

  /** A bot ranked in every room has, as its score, the online mean of ten
      times its ranks. */
  lemma {:induction false} ScoredAllIsMean(scores: map<Bot, MeanState>, rankings: seq<map<Seat, int>>, b: Bot)
    requires b in scores
    requires forall k :: 0 <= k < |rankings| ==> Entrant(b) in rankings[k]
    ensures b in ScoredAll(scores, rankings)
    ensures ScoredAll(scores, rankings)[b] == AddAll(scores[b], TenfoldRanks(b, rankings))
    decreases |rankings|
  {
    if rankings != [] {
      var s1 := Scored(scores, rankings[0], None);
      ScoredAllIsMean(s1, rankings[1..], b);
      assert TenfoldRanks(b, rankings)[1..] == TenfoldRanks(b, rankings[1..]);
    }
  }

  /** Starting from a fresh `OnlineMean`, that score is the plain average. */
  lemma FreshScoreIsAverage(rankings: seq<map<Seat, int>>, b: Bot)
    requires rankings != []
    requires forall k :: 0 <= k < |rankings| ==> Entrant(b) in rankings[k]
    ensures b in ScoredAll(map[b := Fresh], rankings)
    ensures ScoredAll(map[b := Fresh], rankings)[b].mean == Sum(TenfoldRanks(b, rankings)) / |rankings| as real
  {
    ScoredAllIsMean(map[b := Fresh], rankings, b);
    AddAllFromFreshIsAverage(TenfoldRanks(b, rankings));
  }

  /** The number of rooms a round-robin competition plays. */
  function TotalRuns(bots: nat, runFactor: int): (r: int)
    ensures runFactor >= 0 ==> r >= 0
    ensures runFactor > 0 ==> r >= runFactor
  {
    var n: nat := if bots > 4 then bots else 4;
    ChooseAtLeastOne(n, 4);
    Distribute(runFactor, 1, Choose(n, 4) - 1);
    runFactor * Choose(n, 4)
  }

  /** Choosing k of n >= k things can be done at least one way. */
  lemma {:induction false} ChooseAtLeastOne(n: nat, k: nat)
    requires k <= n
    ensures Choose(n, k) >= 1
  {
    if k > 0 {
      ChooseAtLeastOne(n - 1, k - 1);
    }
  }

  /** `MultiplayerComp(bots, room_size, default_bot_class, run_factor)`. */
  class MultiplayerComp {
    const roomSize: nat
    const totalRuns: int
    var scores: map<Bot, MeanState>
    var rooms: map<Room, Option<map<Seat, int>>>
    var curRun: int

    /** The run counter never passes the number of runs. */
    ghost predicate Valid()
      reads this
    {
      0 <= curRun && (totalRuns >= 0 ==> curRun <= totalRuns)
    }

    constructor (bots: seq<Bot>, roomSize: nat, runFactor: int)
      ensures Valid()
      ensures this.roomSize == roomSize && totalRuns == TotalRuns(|bots|, runFactor)
      ensures scores.Keys == (set b | b in bots) && forall b :: b in scores ==> scores[b] == Fresh
      ensures rooms == map[] && curRun == 0
    {
      this.roomSize := roomSize;
      totalRuns := TotalRuns(|bots|, runFactor);
      rooms := map[];
      curRun := 0;
      scores := map[];
      new;
      for i := 0 to |bots|
        invariant scores.Keys == set b | b in bots[..i]
        invariant rooms == map[] && curRun == 0
        invariant forall b :: b in scores ==> scores[b] == Fresh
      {
        assert bots[..i + 1] == bots[..i] + [bots[i]];
        scores := scores[bots[i] := Fresh];
      }
      assert bots[..|bots|] == bots;
    }

    /** `tourney[bot]`. */
    function Get(b: Bot): (r: Result<MeanState, PyError>)
      reads this
      ensures r.Ok? <==> b in scores
      ensures r.Ok? ==> r.value == scores[b]
      ensures r.Err? ==> r.error == KeyError
    {
      if b in scores then Ok(scores[b]) else Err(KeyError)
    }

    /** `next()` with the shuffle `order`: StopIteration once every run
        has been handed out, otherwise a fresh room of exactly `room_size`
        seats (see RoomOf). */
    method Next(order: seq<Bot>) returns (r: Result<Room, PyError>)
      requires Valid() && IsShuffleOf(order, scores.Keys)
      modifies this
      ensures Valid()
      ensures old(curRun) == totalRuns ==> r == Err(StopIteration) && rooms == old(rooms) && curRun == old(curRun)
      ensures old(curRun) != totalRuns ==>
        && r.Ok? && fresh(r.value) && r.value.seats == RoomOf(order, roomSize)
        && rooms == old(rooms)[r.value := None] && curRun == old(curRun) + 1
      ensures scores == old(scores)
    {
      if curRun == totalRuns {
        return Err(StopIteration);
      }
      var p := FillRoom(order, roomSize, roomSize);
      var room := new Room(p);
      rooms := rooms[room := None];
      curRun := curRun + 1;
      r := Ok(room);
    }

    /** `tourney[room] = ranking`. */
    method SetItem(room: Room, value: Ranking)
      modifies this
      ensures rooms == old(rooms)[room := Some(value.ranks)]
      ensures scores == Scored(old(scores), value.ranks, None)
      ensures curRun == old(curRun)
    {
      rooms := rooms[room := Some(value.ranks)];
      scores := ScoreRoom(scores, value.ranks, None);
    }

    /** A whole competition: rooms are handed out until StopIteration;
        `shuffles` gives each room's shuffle. It plays exactly the runs
        that are left. */
    method PlayAll(shuffles: seq<seq<Bot>>) returns (played: seq<Room>)
      requires Valid() && totalRuns >= 0
      requires |shuffles| >= totalRuns - curRun
      requires forall k :: 0 <= k < |shuffles| ==> IsShuffleOf(shuffles[k], scores.Keys)
      modifies this
      ensures Valid() && curRun == totalRuns
      ensures |played| == old(totalRuns - curRun)
      ensures forall k :: 0 <= k < |played| ==> played[k].seats == RoomOf(shuffles[k], roomSize)
      ensures scores == old(scores)
    {
      played := [];
      while true
        invariant Valid() && |played| == curRun - old(curRun)
        invariant forall k :: 0 <= k < |played| ==> played[k].seats == RoomOf(shuffles[k], roomSize)
        invariant scores == old(scores)
        decreases totalRuns - curRun
      {
        if curRun == totalRuns {
          return;
        }
        var r := Next(shuffles[|played|]);
        played := played + [r.value];
      }
    }
  }

  /** The score loop of `__setitem__`, one ranked seat at a time. */
  method ScoreRoom(scores: map<Bot, MeanState>, ranks: map<Seat, int>, roll: Option<nat>) returns (r: map<Bot, MeanState>)
    requires roll.Some? ==> roll.value >= 1
    ensures r == Scored(scores, ranks, roll)
  {
    r := scores;
    var todo := ranks.Keys;
    while todo != {}
      invariant todo <= ranks.Keys
      invariant r == map b | b in scores :: if Entrant(b) in ranks && Entrant(b) !in todo then Update(scores[b], (ranks[Entrant(b)] * 10) as real, roll) else scores[b]
      decreases todo
    {
      var k :| k in todo;
      if k.Entrant? && k.bot in r {
        r := r[k.bot := Update(r[k.bot], (ranks[k] * 10) as real, roll)];
      }
      todo := todo - {k};
    }
  }

  // ---------------------------------------------------------------------
  // The rolling competition
  // ---------------------------------------------------------------------

  const RollingScoreKey := "rolling_score"
  const RollingCountKey := "rolling_n"

  /** A stored `rolling_n` as an `OnlineMean` count. */
  function AsCount(v: PyValue): Option<nat>
  {
    if v.PyInt? && v.i >= 0 then Some(v.i) else None
  }

  /** A stored `rolling_score` as an `OnlineMean` mean. */
  function AsMean(v: PyValue): Option<real>
  {
    match v
    case PyInt(i) => Some(i as real)
    case PyFloat(f) => Some(f)
    case _ => None
  }

  /** The score `add_bot` restores: `OnlineMean(n, mean)` from the values
      saved under `rolling_n` and `rolling_score`, 0 for those not saved. */
  function Restored(s: Database.Store, t: Bot): Result<MeanState, PyError>
  {
    var mean := Database.GetValue(s, t, RollingScoreKey, PyInt(0));
    var n := Database.GetValue(s, t, RollingCountKey, PyInt(0));
    if mean.Err? || n.Err? then Err(TypeError)
    else if AsCount(n.value).None? || AsMean(mean.value).None? then Err(TypeError)
    else Ok(MeanState(AsCount(n.value).value, AsMean(mean.value).value))
  }

  /** A bot that has never been scored starts from a zero count and mean;
      one without a directory cannot be restored. */
  lemma RestoreUnsaved(s: Database.Store, t: Bot)
    ensures Database.DirForToken(s, t).None? ==> Restored(s, t) == Err(TypeError)
    ensures (&& Database.DirForToken(s, t).Some?
             && RollingScoreKey !in Database.FilesAt(s, Database.DirForToken(s, t).value).kv
             && RollingCountKey !in Database.FilesAt(s, Database.DirForToken(s, t).value).kv)
      ==> Restored(s, t) == Ok(MeanState(0, 0.0))
  {
  }

  /** Saving a score the way `save_rolling_scores` does and restoring it
      the way `add_bot` does gives the same score back. */
  lemma RestoreOfSaved(s: Database.Store, t: Bot, m: MeanState)
    requires Database.ValidStore(s) && Database.DirForToken(s, t).Some?
    ensures var s1 := Database.SaveValueSpec(s, t, RollingScoreKey, PyFloat(m.mean)).0;
      var s2 := Database.SaveValueSpec(s1, t, RollingCountKey, PyInt(m.i)).0;
      Restored(s2, t) == Ok(m)
  {
    var s1 := Database.SaveValueSpec(s, t, RollingScoreKey, PyFloat(m.mean)).0;
    Database.SaveThenGet(s, t, RollingScoreKey, PyFloat(m.mean), PyInt(0));
    Database.SaveThenGet(s1, t, RollingCountKey, PyInt(m.i), PyInt(0));
  }

  /** `RollingMultiplayerComp(room_size, default_bot_class, rolling_n)`. */
  class RollingMultiplayerComp {
    const roomSize: nat
    const rollingN: nat
    var scores: map<Bot, MeanState>
    var rooms: map<Room, Option<map<Seat, int>>>
    /** The tokens of the bots added so far. */
    var bots: set<string>

    /** Exactly the added bots are scored, with a positive rolling bound. */
    ghost predicate Valid()
      reads this
    {
      rollingN >= 1 && scores.Keys == bots
    }

    constructor (roomSize: nat, rollingN: nat)
      requires rollingN >= 1
      ensures Valid()
      ensures this.roomSize == roomSize && this.rollingN == rollingN
      ensures scores == map[] && rooms == map[] && bots == {}
    {
      this.roomSize, this.rollingN := roomSize, rollingN;
      scores, rooms, bots := map[], map[], {};
    }

    /** `add_bot(bot, gamedb)`: restores the bot's saved score and records
        its token. */
    method AddBot(bot: Bot, db: Database.GameDB) returns (o: Outcome<PyError>)
      requires Valid()
      modifies this
      ensures Valid()
      ensures Restored(db.State(), bot).Ok? ==>
        o == Pass && scores == old(scores)[bot := Restored(db.State(), bot).value] && bots == old(bots) + {bot}
      ensures Restored(db.State(), bot).Err? ==>
        o == Fail(Restored(db.State(), bot).error) && scores == old(scores) && bots == old(bots)
      ensures rooms == old(rooms)
    {
      var mean := Database.GetValue(db.State(), bot, RollingScoreKey, PyInt(0));
      var n := Database.GetValue(db.State(), bot, RollingCountKey, PyInt(0));
      if mean.Err? || n.Err? {
        return Fail(TypeError);
      }
      var i := AsCount(n.value);
      var m := AsMean(mean.value);
      if i.None? || m.None? {
        return Fail(TypeError);
      }
      scores := scores[bot := MeanState(i.value, m.value)];
      bots := bots + {bot};
      o := Pass;
    }

    /** `add_bot_if_needed(bot, gamedb)`: a bot already added is left alone. */
    method AddBotIfNeeded(bot: Bot, db: Database.GameDB) returns (o: Outcome<PyError>)
      requires Valid()
      modifies this
      ensures Valid()
      ensures bot in old(bots) ==> o == Pass && scores == old(scores) && bots == old(bots)
      ensures bot !in old(bots) && Restored(db.State(), bot).Ok? ==>
        o == Pass && scores == old(scores)[bot := Restored(db.State(), bot).value] && bots == old(bots) + {bot}
      ensures bot !in old(bots) && Restored(db.State(), bot).Err? ==>
        o == Fail(Restored(db.State(), bot).error) && scores == old(scores) && bots == old(bots)
      ensures rooms == old(rooms)
    {
      if bot !in bots {
        o := AddBot(bot, db);
      } else {
        o := Pass;
      }
    }

    /** `comp[room] = ranking`: ranked bots' scores roll on. */
    method SetItem(room: Room, value: Ranking)
      requires Valid()
      modifies this
      ensures Valid()
      ensures rooms == old(rooms)[room := Some(value.ranks)]
      ensures scores == Scored(old(scores), value.ranks, Some(rollingN))
      ensures bots == old(bots)
    {
      rooms := rooms[room := Some(value.ranks)];
      scores := ScoreRoom(scores, value.ranks, Some(rollingN));
    }

    /** `next()` with the shuffle `order`: never stops. */
    method Next(order: seq<Bot>) returns (room: Room)
      requires IsShuffleOf(order, scores.Keys)
      modifies this
      ensures fresh(room) && room.seats == RoomOf(order, roomSize)
      ensures rooms == old(rooms)[room := None]
      ensures scores == old(scores) && bots == old(bots)
    {
      var p := FillRoom(order, roomSize, roomSize);
      room := new Room(p);
      rooms := rooms[room := None];
    }

    /** `save_rolling_scores(gamedb)`: every bot's mean and count are saved
        where `add_bot` reads them back, and its floored mean as its
        average score; a bot without a directory stops the loop. */
    method SaveRollingScores(db: Database.GameDB) returns (o: Outcome<PyError>)
      requires Valid() && db.Valid()
      modifies db
      ensures db.Valid()
      ensures o.Pass? <==> forall b :: b in scores ==> Database.DirForToken(old(db.State()), b).Some?
      ensures o.Pass? ==> forall b :: b in scores ==> Restored(db.State(), b) == Ok(scores[b])
      ensures o.Pass? ==> forall b :: b in scores ==>
        Database.GetAvgScore(db.State(), b, None) == Ok(Some(Trunc(scores[b].mean) as real))
      ensures forall t, k, d :: t !in scores || (k != RollingScoreKey && k != RollingCountKey) ==>
        Database.GetValue(db.State(), t, k, d) == Database.GetValue(old(db.State()), t, k, d)
      ensures forall t, d :: t !in scores ==> Database.GetAvgScore(db.State(), t, d) == Database.GetAvgScore(old(db.State()), t, d)
    {
      ghost var s0 := db.State();
      var todo := scores.Keys;
      ghost var done: set<Bot> := {};
      while todo != {}
        invariant todo !! done && todo + done == scores.Keys
        invariant db.Valid() && SavedSoFar(s0, db.State(), scores, done)
        decreases todo
      {
        var b :| b in todo;
        ghost var s1 := db.State();
        assert Database.DirForToken(s1, b) == Database.DirForToken(s0, b);
        o := SaveScore(db, b, scores[b]);
        if o.Fail? {
          assert b in scores && Database.DirForToken(s0, b).None?;
          return;
        }
        SaveStep(s0, s1, db.State(), scores, done, b);
        todo := todo - {b};
        done := done + {b};
      }
      o := Pass;
    }
  }

  /** What `save_rolling_scores` has achieved once the bots in `done` are
      saved: only files changed; each of them resolves, restores to its
      score and has its floored mean as its average score; every other
      value and average score is as in s0. */
  ghost predicate SavedSoFar(s0: Database.Store, s: Database.Store, scores: map<Bot, MeanState>, done: set<Bot>)
    requires done <= scores.Keys
  {
    && s.(files := s0.files) == s0
    && (forall x :: x in done ==> Database.DirForToken(s0, x).Some? && Restored(s, x) == Ok(scores[x]))
    && (forall t, k, d :: t !in done || (k != RollingScoreKey && k != RollingCountKey) ==>
          Database.GetValue(s, t, k, d) == Database.GetValue(s0, t, k, d))
    && (forall x :: x in done ==> Database.GetAvgScore(s, x, None) == Ok(Some(Trunc(scores[x].mean) as real)))
    && (forall t, d :: t !in done ==> Database.GetAvgScore(s, t, d) == Database.GetAvgScore(s0, t, d))
  }

  /** The loop invariant of `save_rolling_scores` survives saving bot b:
      the other bots' saved scores and every other value stay put. */
  lemma SaveStep(s0: Database.Store, s1: Database.Store, s2: Database.Store, scores: map<Bot, MeanState>, done: set<Bot>, b: Bot)
    requires b in scores && done <= scores.Keys && b !in done
    requires SavedSoFar(s0, s1, scores, done)
    requires s2.(files := s1.files) == s1
    requires Database.DirForToken(s1, b).Some? && Restored(s2, b) == Ok(scores[b])
    requires forall t, k, d :: t != b || (k != RollingScoreKey && k != RollingCountKey) ==>
      Database.GetValue(s2, t, k, d) == Database.GetValue(s1, t, k, d)
    requires Database.GetAvgScore(s2, b, None) == Ok(Some(Trunc(scores[b].mean) as real))
    requires forall t, d :: t != b ==> Database.GetAvgScore(s2, t, d) == Database.GetAvgScore(s1, t, d)
    ensures SavedSoFar(s0, s2, scores, done + {b})
  {
    assert Database.DirForToken(s1, b) == Database.DirForToken(s0, b);
    forall x | x in done
      ensures Restored(s2, x) == Restored(s1, x)
    {
      if x != b {
        assert Database.GetValue(s2, x, RollingScoreKey, PyInt(0)) == Database.GetValue(s1, x, RollingScoreKey, PyInt(0));
        assert Database.GetValue(s2, x, RollingCountKey, PyInt(0)) == Database.GetValue(s1, x, RollingCountKey, PyInt(0));
      }
    }
  }

  /** The two `save_value` calls and the `save_avg_score` call that
      `save_rolling_scores` makes for one bot. */
  method SaveScore(db: Database.GameDB, b: Bot, m: MeanState) returns (o: Outcome<PyError>)
    requires db.Valid()
    modifies db
    ensures db.Valid() && db.State().(files := old(db.State()).files) == old(db.State())
    ensures o.Pass? <==> Database.DirForToken(old(db.State()), b).Some?
    ensures o.Fail? ==> db.State() == old(db.State())
    ensures o.Pass? ==> Restored(db.State(), b) == Ok(m)
    ensures o.Pass? ==> Database.GetAvgScore(db.State(), b, None) == Ok(Some(Trunc(m.mean) as real))
    ensures forall t, k, d :: t != b || (k != RollingScoreKey && k != RollingCountKey) ==>
      Database.GetValue(db.State(), t, k, d) == Database.GetValue(old(db.State()), t, k, d)
    ensures forall t, d :: t != b ==> Database.GetAvgScore(db.State(), t, d) == Database.GetAvgScore(old(db.State()), t, d)
  {
    ghost var s0 := db.State();
    o := db.SaveValue(b, RollingScoreKey, PyFloat(m.mean));
    if o.Fail? {
      return;
    }
    SaveScoreSteps(s0, b, m);
    o := db.SaveValue(b, RollingCountKey, PyInt(m.i));
    o := db.SaveAvgScore(b, Trunc(m.mean));
  }

  /** The three saves of one bot in a row: each succeeds, and together they
      leave the bot's score restorable and its average score saved, with
      every other value and average score as before. */
  lemma SaveScoreSteps(s0: Database.Store, b: Bot, m: MeanState)
    requires Database.ValidStore(s0) && Database.DirForToken(s0, b).Some?
    ensures var s1 := Database.SaveValueSpec(s0, b, RollingScoreKey, PyFloat(m.mean));
      var s2 := Database.SaveValueSpec(s1.0, b, RollingCountKey, PyInt(m.i));
      var s3 := Database.SaveAvgScoreSpec(s2.0, b, Trunc(m.mean));
      && s1.1.Pass? && s2.1.Pass? && s3.1.Pass?
      && s3.0.(files := s0.files) == s0
      && Restored(s3.0, b) == Ok(m)
      && Database.GetAvgScore(s3.0, b, None) == Ok(Some(Trunc(m.mean) as real))
      && (forall t, k, d :: t != b || (k != RollingScoreKey && k != RollingCountKey) ==>
            Database.GetValue(s3.0, t, k, d) == Database.GetValue(s0, t, k, d))
      && (forall t, d :: t != b ==> Database.GetAvgScore(s3.0, t, d) == Database.GetAvgScore(s0, t, d))
  {
    var s1 := Database.SaveValueSpec(s0, b, RollingScoreKey, PyFloat(m.mean)).0;
    var s2 := Database.SaveValueSpec(s1, b, RollingCountKey, PyInt(m.i)).0;
    var s3 := Database.SaveAvgScoreSpec(s2, b, Trunc(m.mean)).0;
    SaveValuesStep(s0, b, m);
    Database.SaveAvgThenGet(s2, b, Trunc(m.mean), None);
    assert Database.GetValue(s3, b, RollingScoreKey, PyInt(0)) == Database.GetValue(s2, b, RollingScoreKey, PyInt(0));
    assert Database.GetValue(s3, b, RollingCountKey, PyInt(0)) == Database.GetValue(s2, b, RollingCountKey, PyInt(0));
  }

  /** The two `save_value` calls for one bot: both succeed, the bot's score
      restores, and every other value and every average score is kept. */
  lemma SaveValuesStep(s0: Database.Store, b: Bot, m: MeanState)
    requires Database.ValidStore(s0) && Database.DirForToken(s0, b).Some?
    ensures var s1 := Database.SaveValueSpec(s0, b, RollingScoreKey, PyFloat(m.mean));
      var s2 := Database.SaveValueSpec(s1.0, b, RollingCountKey, PyInt(m.i));
      && s1.1.Pass? && s2.1.Pass?
      && s2.0.(files := s0.files) == s0
      && Restored(s2.0, b) == Ok(m)
      && (forall t, k, d :: t != b || (k != RollingScoreKey && k != RollingCountKey) ==>
            Database.GetValue(s2.0, t, k, d) == Database.GetValue(s0, t, k, d))
      && (forall t, d :: Database.GetAvgScore(s2.0, t, d) == Database.GetAvgScore(s0, t, d))
  {
    var s1 := Database.SaveValueSpec(s0, b, RollingScoreKey, PyFloat(m.mean)).0;
    Database.SaveThenGet(s0, b, RollingScoreKey, PyFloat(m.mean), PyInt(0));
    Database.DirIgnoresFiles(s0, s1.files, b);
    Database.SaveThenGet(s1, b, RollingCountKey, PyInt(m.i), PyInt(0));
    RestoreOfSaved(s0, b, m);
    AvgUnchangedBySave(s0, b, RollingScoreKey, PyFloat(m.mean));
    AvgUnchangedBySave(s1, b, RollingCountKey, PyInt(m.i));
  }

  /** `save_value` leaves every saved average score as it was. */
  lemma AvgUnchangedBySave(s: Database.Store, t: Bot, key: string, v: PyValue)
    requires Database.SaveValueSpec(s, t, key, v).1.Pass?
    ensures forall t', d :: Database.GetAvgScore(Database.SaveValueSpec(s, t, key, v).0, t', d) == Database.GetAvgScore(s, t', d)
  {
    var s' := Database.SaveValueSpec(s, t, key, v).0;
    forall t', d
      ensures Database.GetAvgScore(s', t', d) == Database.GetAvgScore(s, t', d)
    {
      Database.DirIgnoresFiles(s, s'.files, t');
    }
  }

  // ---------------------------------------------------------------------
  // Making a bot
  // ---------------------------------------------------------------------

  /** What `get_active_code_and_options` gave `make_bot`. */
  type ActiveCode = Result<(Option<string>, Database.Options), PyError>

  /** Whether the active code is worth compiling (`if not code: return`). */
  predicate HasCode(active: ActiveCode)
    requires active.Ok?
  {
    active.value.0.Some? && active.value.0.value != ""
  }

  /** `make_bot(gamedb, compiler, token)` as written, with `compiles`
      saying whether `compiler.compile(code)` succeeds: every failure lands
      in the `except` handler, which formats the message with a name `s`
      that is not defined there and so raises NameError. */
  function MakeBotAsWritten(token: Bot, active: ActiveCode, compiles: bool): Result<Option<Bot>, PyError>
  {
    if active.Err? then Err(NameError)
    else if !HasCode(active) then Ok(None)
    else if !compiles then Err(NameError)
    else Ok(Some(token))
  }

  /** `make_bot` as its handler intends: a failure is reported and no bot
      is made. */
  function MakeBot(token: Bot, active: ActiveCode, compiles: bool): (r: Result<Option<Bot>, PyError>)
    ensures r.Ok?
    ensures r.value.Some? <==> active.Ok? && HasCode(active) && compiles
    ensures r.value.Some? ==> r.value.value == token
  {
    if active.Err? then Ok(None)
    else if !HasCode(active) then Ok(None)
    else if !compiles then Ok(None)
    else Ok(Some(token))
  }

  /** As written, `make_bot` raises exactly when its handler runs, and
      otherwise agrees with the intended version. */
  lemma MakeBotHandlerRaises(token: Bot, active: ActiveCode, compiles: bool)
    ensures MakeBotAsWritten(token, active, compiles) == Err(NameError) <==> active.Err? || (HasCode(active) && !compiles)
    ensures MakeBotAsWritten(token, active, compiles).Ok? ==> MakeBotAsWritten(token, active, compiles) == MakeBot(token, active, compiles)
  {
  }

  /** A token without a directory, or code that does not compile: NameError
      instead of no bot. */
  lemma MakeBotNameErrorExamples()
    ensures MakeBotAsWritten("ABCD1234", Err(TypeError), true) == Err(NameError)
    ensures MakeBot("ABCD1234", Err(TypeError), true) == Ok(None)
    ensures MakeBotAsWritten("ABCD1234", Ok((Some("x = ("), map[])), false) == Err(NameError)
    ensures MakeBot("ABCD1234", Ok((Some("x = ("), map[])), false) == Ok(None)
  {
  }

  /** `make_bot` on the database: reads (and perhaps migrates) the active
      code, then makes the bot when the code compiles. The migration names
      its version from clock reading `ctime` and content hash `codeHash`. */
  method MakeBotFor(db: Database.GameDB, token: Bot, ctime: nat, codeHash: string, compiles: bool) returns (r: Option<Bot>)
    requires db.Valid()
    modifies db
    ensures db.Valid()
    ensures var (s1, active) := Database.GetActiveCodeSpec(old(db.State()), token, Database.VersionName(ctime, codeHash));
      && db.State() == s1
      && Ok(r) == MakeBot(token, active, compiles)
  {
    var active := db.GetActiveCodeAndOptions(token, ctime, codeHash);
    if active.Err? || !HasCode(active) || !compiles {
      return None;
    }
    r := Some(token);
  }

  // ---------------------------------------------------------------------
  // The best bot of a school
  // ---------------------------------------------------------------------

  /** Whether `sim_comp` can pick the token at place i: it has a stored
      average score (missing scores read as -inf, which never wins) and
      `make_bot` gives a bot for it. */
  predicate Candidate(tokens: seq<string>, avg: map<string, real>, usable: set<string>, i: int)
  {
    0 <= i < |tokens| && tokens[i] in avg && tokens[i] in usable
  }

  /** The token at place i is the best: no candidate scores higher, and
      every earlier candidate scores strictly lower. */
  ghost predicate BestAt(tokens: seq<string>, avg: map<string, real>, usable: set<string>, i: int)
  {
    && Candidate(tokens, avg, usable, i)
    && forall j :: Candidate(tokens, avg, usable, j) ==>
      avg[tokens[j]] <= avg[tokens[i]] && (j < i ==> avg[tokens[j]] < avg[tokens[i]])
  }

  /** At most one place is the best, so ties go to the earliest. */
  lemma BestAtUnique(tokens: seq<string>, avg: map<string, real>, usable: set<string>, i: int, j: int)
    requires BestAt(tokens, avg, usable, i) && BestAt(tokens, avg, usable, j)
    ensures i == j
  {
  }

  /** The best-bot loop of `sim_comp` over one school's tokens in listing
      order: a token replaces the best so far only when its score is
      strictly higher and a bot can be made for it. */
  method BestBot(tokens: seq<string>, avg: map<string, real>, usable: set<string>) returns (best: Option<string>, ghost at: int)
    ensures best.None? <==> forall j :: !Candidate(tokens, avg, usable, j)
    ensures best.Some? ==> BestAt(tokens, avg, usable, at) && best.value == tokens[at]
  {
    best := None;
    at := -1;
    var bestScore: real := 0.0;
    for k := 0 to |tokens|
      invariant best.None? ==> forall j :: 0 <= j < k ==> !Candidate(tokens, avg, usable, j)
      invariant best.Some? ==>
        && 0 <= at < k && Candidate(tokens, avg, usable, at) && best.value == tokens[at]
        && bestScore == avg[tokens[at]]
        && forall j :: 0 <= j < k && Candidate(tokens, avg, usable, j) ==>
          avg[tokens[j]] <= bestScore && (j < at ==> avg[tokens[j]] < bestScore)
    {
      var t := tokens[k];
      if t in avg && (best.None? || avg[t] > bestScore) && t in usable {
        best := Some(t);
        bestScore := avg[t];
        at := k;
      }
    }
  }

  // ---------------------------------------------------------------------
  // Cleaning up old games
  // ---------------------------------------------------------------------

  /** The games of the default competition user u has played. */
  function Candidates(s: Database.Store, all: set<string>, u: string): set<string>
    requires u in s.users
  {
    s.users[u] * all
  }

  predicate HasCtimes(s: Database.Store, games: set<string>)
  {
    forall g :: g in games ==> g in s.games && s.games[g].ctime.Some?
  }

  function Ctime(s: Database.Store, g: string): real
    requires g in s.games && s.games[g].ctime.Some?
  {
    s.games[g].ctime.value
  }

  /** K is what a player with games G keeps: all of them when there are at
      most n, otherwise n of the newest by ctime (ties either way). */
  predicate IsNewest(s: Database.Store, K: set<string>, G: set<string>, n: nat)
  {
    && K <= G
    && (|G| <= n ==> K == G)
    && (|G| > n ==> HasCtimes(s, G) && |K| == n && forall a, b :: a in K && b in G - K ==> Ctime(s, a) >= Ctime(s, b))
  }

  /** The users listed under the given schools. */
  function Members(s: Database.Store, schools: set<string>): set<string>
  {
    set sc, u | sc in schools && sc in s.schools && u in s.schools[sc].members :: u
  }

  /** Every game some player keeps. */
  function Kept(keep: map<string, set<string>>): set<string>
  {
    set u, g | u in keep && g in keep[u] :: g
  }

  /** A player whose newest games cannot be found: one of them has no
      ctime file. */
  predicate Unsortable(s: Database.Store, all: set<string>, n: nat, u: string)
  {
    u in s.users && |Candidates(s, all, u)| > n && !HasCtimes(s, Candidates(s, all, u))
  }

  /** What `clean_up_old_games` settles on: each member of a school keeps
      their newest games of the default competition, and D is every game of
      that competition nobody keeps. */
  predicate CleanupPlan(s: Database.Store, n: nat, keep: map<string, set<string>>, D: set<string>)
  {
    && Database.GetGamesForToken(s, Database.DefaultComp).Ok?
    && keep.Keys == Members(s, s.schools.Keys)
    && (forall u :: u in keep ==> u in s.users && IsNewest(s, keep[u], Candidates(s, Database.GetGamesForToken(s, Database.DefaultComp).value, u), n))
    && D == Database.GetGamesForToken(s, Database.DefaultComp).value - Kept(keep)
  }

  /** Under a clean-up plan only games of the default competition are
      deleted; a game is deleted exactly when no member keeps it; each
      member keeps min(n, their games) of them; and a game no member has
      played is deleted. */
  lemma CleanupPlanKeeps(s: Database.Store, n: nat, keep: map<string, set<string>>, D: set<string>)
    requires CleanupPlan(s, n, keep, D)
    ensures var all := Database.GetGamesForToken(s, Database.DefaultComp).value;
      && D <= all
      && (forall g :: g in D <==> g in all && forall u :: u in keep ==> g !in keep[u])
      && (forall u :: u in keep ==> keep[u] !! D && |keep[u]| == Min(|Candidates(s, all, u)|, n))
      && (forall g :: g in all && (forall u :: u in keep ==> g !in s.users[u]) ==> g in D)
  {
    var all := Database.GetGamesForToken(s, Database.DefaultComp).value;
    forall g | g in all && (forall u :: u in keep ==> g !in s.users[u])
      ensures g in D
    {
      forall u | u in keep
        ensures g !in keep[u]
      {
        assert keep[u] <= s.users[u];
      }
    }
  }

  /** Adding one more player's kept games. */
  lemma KeptAdd(keep: map<string, set<string>>, u: string, K: set<string>)
    requires u !in keep
    ensures Kept(keep[u := K]) == Kept(keep) + K
  {
    var l := Kept(keep[u := K]);
    forall g | g in l
      ensures g in Kept(keep) + K
    {
      var v :| v in keep[u := K] && g in keep[u := K][v];
      if v != u {
        assert g in keep[v];
      }
    }
    forall g | g in Kept(keep)
      ensures g in l
    {
      var v :| v in keep && g in keep[v];
      assert v in keep[u := K] && g in keep[u := K][v];
    }
    forall g | g in K
      ensures g in l
    {
      assert u in keep[u := K] && g in keep[u := K][u];
    }
  }

  /** A finite set with ctimes has a newest game. */
  lemma {:induction false} NewestExists(s: Database.Store, R: set<string>) returns (g: string)
    requires R != {} && HasCtimes(s, R)
    ensures g in R && forall h :: h in R ==> Ctime(s, h) <= Ctime(s, g)
    decreases |R|
  {
    var x :| x in R;
    var rest := R - {x};
    if rest == {} {
      assert R == {x};
      return x;
    }
    var y := NewestExists(s, rest);
    g := if Ctime(s, x) > Ctime(s, y) then x else y;
    forall h | h in R
      ensures Ctime(s, h) <= Ctime(s, g)
    {
      if h != x {
        assert h in rest;
      }
    }
  }

  /** `sorted(games, key=get_ctime_for_game, reverse=True)[:n]`, taken one
      newest game at a time. */
  method Newest(s: Database.Store, G: set<string>, n: nat) returns (K: set<string>)
    requires |G| > n && HasCtimes(s, G)
    ensures IsNewest(s, K, G, n)
  {
    K := {};
    var rest := G;
    while |K| < n
      invariant K !! rest && K + rest == G && |K| + |rest| == |G| && |K| <= n
      invariant forall a, b :: a in K && b in rest ==> Ctime(s, a) >= Ctime(s, b)
      decreases n - |K|
    {
      ghost var newest := NewestExists(s, rest);
      var g :| g in rest && forall h :: h in rest ==> Ctime(s, h) <= Ctime(s, g);
      K := K + {g};
      rest := rest - {g};
    }
    assert G - K == rest;
  }

  /** Distinct schools have no member in common. */
  lemma SchoolsDisjoint(s: Database.Store, done: set<string>, sc: string, u: string)
    requires Database.ValidStore(s)
    requires sc in s.schools && sc !in done && u in s.schools[sc].members
    ensures u !in Members(s, done) && u in s.users
  {
    forall sc' | sc' in done && sc' in s.schools
      ensures u !in s.schools[sc'].members
    {
      assert sc' != sc;
    }
  }

  /** Every player in `keep` keeps their newest games. */
  predicate KeepsNewest(s: Database.Store, all: set<string>, n: nat, keep: map<string, set<string>>)
  {
    forall u :: u in keep ==> u in s.users && IsNewest(s, keep[u], Candidates(s, all, u), n) && !Unsortable(s, all, n, u)
  }

  /** One more player keeps their newest games. */
  lemma KeepsNewestAdd(s: Database.Store, all: set<string>, n: nat, keep: map<string, set<string>>, u: string, kept: set<string>)
    requires KeepsNewest(s, all, n, keep) && u in s.users && u !in keep
    requires IsNewest(s, kept, Candidates(s, all, u), n) && !Unsortable(s, all, n, u)
    ensures KeepsNewest(s, all, n, keep[u := kept])
    ensures (all - Kept(keep)) - kept == all - Kept(keep[u := kept])
  {
    KeptAdd(keep, u, kept);
    var keep' := keep[u := kept];
    forall v | v in keep'
      ensures v in s.users && IsNewest(s, keep'[v], Candidates(s, all, v), n) && !Unsortable(s, all, n, v)
    {
      if v != u {
        assert keep'[v] == keep[v];
      }
    }
  }

  /** The games one player keeps: all of their games of the default
      competition when there are at most n, else the n newest, which needs
      every ctime. */
  method KeepOne(s: Database.Store, all: set<string>, n: nat, u: string) returns (kept: Option<set<string>>)
    requires u in s.users
    ensures kept.None? <==> Unsortable(s, all, n, u)
    ensures kept.Some? ==> IsNewest(s, kept.value, Candidates(s, all, u), n)
  {
    var games := s.users[u] * all;
    if n >= |games| {
      return Some(games);
    }
    if !(forall g | g in games :: g in s.games && s.games[g].ctime.Some?) {
      return None;
    }
    var k := Newest(s, games, n);
    kept := Some(k);
  }

  /** The inner loop of `clean_up_old_games`, over the members of one
      school: each keeps their newest games, and those leave the set to
      delete. Stops at the first member whose games have no ctime. */
  method KeepMembers(s: Database.Store, all: set<string>, n: nat, members: set<string>, ghost keep0: map<string, set<string>>, toDelete0: set<string>)
    returns (ok: bool, ghost keep: map<string, set<string>>, toDelete: set<string>)
    requires members <= s.users.Keys && members !! keep0.Keys
    requires KeepsNewest(s, all, n, keep0) && toDelete0 == all - Kept(keep0)
    ensures ok <==> forall u :: u in members ==> !Unsortable(s, all, n, u)
    ensures ok ==> keep.Keys == keep0.Keys + members && KeepsNewest(s, all, n, keep) && toDelete == all - Kept(keep)
  {
    keep, toDelete := keep0, toDelete0;
    var left := members;
    ghost var done: set<string> := {};
    while left != {}
      invariant left !! done && left + done == members
      invariant keep.Keys == keep0.Keys + done
      invariant KeepsNewest(s, all, n, keep) && toDelete == all - Kept(keep)
      decreases left
    {
      var u :| u in left;
      var kept;
      kept, keep, toDelete := KeepNext(s, all, n, u, keep, toDelete);
      if kept.None? {
        return false, keep, toDelete;
      }
      MoveOne(left, done, members, u);
      left := left - {u};
      done := done + {u};
    }
    assert done == members;
    forall v | v in members
      ensures !Unsortable(s, all, n, v)
    {
      assert v in keep;
    }
    ok := true;
  }

  /** One member's turn in the inner loop of `clean_up_old_games`. */
  method KeepNext(s: Database.Store, all: set<string>, n: nat, u: string, ghost keep0: map<string, set<string>>, toDelete0: set<string>)
    returns (kept: Option<set<string>>, ghost keep: map<string, set<string>>, toDelete: set<string>)
    requires u in s.users && u !in keep0
    requires KeepsNewest(s, all, n, keep0) && toDelete0 == all - Kept(keep0)
    ensures kept.None? <==> Unsortable(s, all, n, u)
    ensures kept.Some? ==> keep == keep0[u := kept.value] && KeepsNewest(s, all, n, keep) && toDelete == all - Kept(keep)
  {
    keep, toDelete := keep0, toDelete0;
    kept := KeepOne(s, all, n, u);
    if kept.Some? {
      KeepsNewestAdd(s, all, n, keep, u, kept.value);
      toDelete := toDelete - kept.value;
      keep := keep[u := kept.value];
    }
  }

  /** The selection part of `clean_up_old_games`: which games of the
      default competition go, schools and their members taken in whatever
      order the directory lists them. */
  method GamesToDelete(db: Database.GameDB, n: nat) returns (r: Result<set<string>, PyError>, ghost keep: map<string, set<string>>)
    requires db.Valid()
    ensures var all := Database.GetGamesForToken(db.State(), Database.DefaultComp);
      && (all.Err? ==> r == Err(ValueError))
      && (all.Ok? ==> (r.Err? <==> exists u :: u in Members(db.State(), db.schools.Keys) && Unsortable(db.State(), all.value, n, u)))
      && (all.Ok? && r.Err? ==> r.error == FileNotFoundError)
      && (r.Ok? ==> CleanupPlan(db.State(), n, keep, r.value))
  {
    var s := db.State();
    keep := map[];
    var all := Database.GetGamesForToken(s, Database.DefaultComp);
    if all.Err? {
      return Err(ValueError), keep;
    }
    var toDelete := all.value;
    var schoolsLeft := s.schools.Keys;
    ghost var schoolsDone: set<string> := {};
    while schoolsLeft != {}
      invariant schoolsLeft !! schoolsDone && schoolsLeft + schoolsDone == s.schools.Keys
      invariant keep.Keys == Members(s, schoolsDone)
      invariant KeepsNewest(s, all.value, n, keep) && toDelete == all.value - Kept(keep)
      decreases schoolsLeft
    {
      var sc :| sc in schoolsLeft;
      var members := s.schools[sc].members;
      forall u | u in members
        ensures u !in keep && u in s.users
      {
        SchoolsDisjoint(s, schoolsDone, sc, u);
      }
      var ok;
      ok, keep, toDelete := KeepMembers(s, all.value, n, members, keep, toDelete);
      if !ok {
        var u :| u in members && Unsortable(s, all.value, n, u);
        assert u in Members(s, s.schools.Keys);
        return Err(FileNotFoundError), keep;
      }
      assert Members(s, schoolsDone + {sc}) == Members(s, schoolsDone) + members;
      schoolsLeft := schoolsLeft - {sc};
      schoolsDone := schoolsDone + {sc};
    }
    assert schoolsDone == s.schools.Keys;
    r := Ok(toDelete);
  }

  /** `for gtoken in games_to_delete: gamedb.delete_game(gtoken)`, in
      whatever order the set gives, stopping at the first failure: the
      games `done` before it stay deleted, and the game `failed` may be
      unlinked from some of its players. */
  method DeleteEach(db: Database.GameDB, D: set<string>) returns (o: Outcome<PyError>, ghost done: set<string>, ghost failed: string)
    requires db.Valid()
    modifies db
    ensures db.Valid()
    ensures o.Pass? <==> forall g :: g in D ==> Database.Deletable(old(db.State()), g)
    ensures o.Pass? ==> done == D && db.State() == Database.DeleteGames(old(db.State()), D)
    ensures o.Fail? ==> done < D && failed in D - done && !Database.Deletable(old(db.State()), failed)
    ensures o.Fail? ==> forall g :: g in done ==> Database.Deletable(old(db.State()), g)
    ensures o.Fail? ==> Database.PartlyUnlinked(Database.DeleteGames(old(db.State()), done), db.State(), failed)
  {
    ghost var s0 := db.State();
    var todo := D;
    done := {};
    failed := "";
    Database.DeleteNothing(s0);
    while todo != {}
      invariant todo !! done && todo + done == D
      invariant db.Valid()
      invariant db.State() == Database.DeleteGames(s0, done)
      invariant forall g :: g in done ==> Database.Deletable(s0, g)
      decreases todo
    {
      var g :| g in todo;
      Database.DeletableAfter(s0, done, g);
      o := db.DeleteGame(g);
      if o.Fail? {
        failed := g;
        return;
      }
      Database.DeleteGamesStep(s0, done, g);
      todo := todo - {g};
      done := done + {g};
    }
    o := Pass;
  }

  // ---------------------------------------------------------------------
  // The rolling runner
  // ---------------------------------------------------------------------

  /** Whether the pass numbered k cleans up: `self.i % self.rolling_n == 0`. */
  function CleansOn(k: int, n: nat): (r: Result<bool, PyError>)
    ensures n == 0 <==> r.Err?
  {
    if n == 0 then Err(ZeroDivisionError) else Ok(PyMod(k, n) == 0)
  }

  /** The first pass cleans up, and after a pass that cleans up the next
      one to do so comes exactly n passes later. */
  lemma CleansEveryNPasses(n: nat, p: nat)
    requires n >= 1 && CleansOn(p, n) == Ok(true)
    ensures CleansOn(0, n) == Ok(true)
    ensures CleansOn(p + n, n) == Ok(true)
    ensures forall j :: p < j < p + n ==> CleansOn(j, n) == Ok(false)
  {
    var q := FloorDiv(p, n);
    ModOf(0, n, 0, 0);
    assert (q + 1) * n == q * n + n;
    ModOf(p + n, n, q + 1, 0);
    forall j | p < j < p + n
      ensures CleansOn(j, n) == Ok(false)
    {
      ModOf(j, n, q, j - p);
    }
  }

  /** Python's remainder is the r of any a == q * n + r with 0 <= r < n. */
  lemma ModOf(a: int, n: nat, q: int, r: int)
    requires n >= 1 && a == q * n + r && 0 <= r < n
    ensures PyMod(a, n) == r
  {
    var q' := FloorDiv(a, n);
    if q < q' {
      MulStep(q, q', n);
    } else if q' < q {
      MulStep(q', q, n);
    }
  }

  lemma MulStep(a: int, b: int, n: nat)
    requires a < b
    ensures a * n + n <= b * n
  {
    assert b * n == a * n + n + (b - a - 1) * n;
  }

  /** `RollingMultiplayerCompRunner`: the pass counter and the clean-up it
      schedules. */
  class RollingRunner {
    const rollingN: nat
    var i: int

    constructor (rollingN: nat)
      ensures this.rollingN == rollingN && i == -1
    {
      this.rollingN := rollingN;
      i := -1;
    }

    /** The bookkeeping of one pass of `__run`: the counter moves on, and the
        pass cleans up when the counter is a multiple of `rolling_n`. The
        scoring in between is not part of this model. */
    method StartPass(db: Database.GameDB) returns (o: Outcome<PyError>, cleaned: bool, ghost keep: map<string, set<string>>, ghost deleted: set<string>)
      requires db.Valid()
      modifies this, db
      ensures db.Valid()
      ensures i == old(i) + 1
      ensures rollingN == 0 ==> o == Fail(ZeroDivisionError) && !cleaned && db.State() == old(db.State())
      ensures cleaned <==> CleansOn(i, rollingN) == Ok(true)
      ensures !cleaned ==> db.State() == old(db.State())
      ensures cleaned && o.Pass? ==> CleanupPlan(old(db.State()), rollingN, keep, deleted) && db.State() == Database.DeleteGames(old(db.State()), deleted)
    {
      i := i + 1;
      keep, deleted := map[], {};
      if rollingN == 0 {
        return Fail(ZeroDivisionError), false, keep, deleted;
      }
      cleaned := PyMod(i, rollingN) == 0;
      if cleaned {
        ghost var done, failed;
        o, keep, deleted, done, failed := CleanUpOldGames(db, rollingN);
      } else {
        o := Pass;
      }
    }
  }

  /** `clean_up_old_games()`: keeps each school member's newest `n` games
      of the default competition and deletes the rest of them. */
  method CleanUpOldGames(db: Database.GameDB, n: nat) returns (o: Outcome<PyError>, ghost keep: map<string, set<string>>, ghost deleted: set<string>, ghost done: set<string>, ghost failed: string)
    requires db.Valid()
    modifies db
    ensures db.Valid()
    ensures o.Pass? ==> CleanupPlan(old(db.State()), n, keep, deleted) && db.State() == Database.DeleteGames(old(db.State()), deleted)
    ensures o.Pass? ==> forall g :: g in deleted ==> Database.Deletable(old(db.State()), g)
    ensures done <= deleted
    ensures o.Fail? && deleted == {} ==> db.State() == old(db.State())
    ensures o.Fail? && deleted != {} ==>
      && CleanupPlan(old(db.State()), n, keep, deleted)
      && done < deleted && failed in deleted - done && !Database.Deletable(old(db.State()), failed)
      && (forall g :: g in done ==> Database.Deletable(old(db.State()), g))
      && Database.PartlyUnlinked(Database.DeleteGames(old(db.State()), done), db.State(), failed)
    ensures var all := Database.GetGamesForToken(old(db.State()), Database.DefaultComp);
      && (all.Err? ==> o == Fail(ValueError) && db.State() == old(db.State()))
      && (all.Ok? && (exists u :: u in Members(old(db.State()), old(db.schools.Keys)) && Unsortable(old(db.State()), all.value, n, u)) ==>
            o == Fail(FileNotFoundError) && db.State() == old(db.State()))
  {
    var plan;
    plan, keep := GamesToDelete(db, n);
    deleted, done, failed := {}, {}, "";
    if plan.Err? {
      return Fail(plan.error), keep, deleted, done, failed;
    }
    deleted := plan.value;
    o, done, failed := DeleteEach(db, plan.value);
  }
}
