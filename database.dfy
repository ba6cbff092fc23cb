/** CYLGame/Database.py, `GameDB`: the file-based store of users, games,
    schools, competitions and exception reports. Each top-level directory
    is a map from token to the record its subdirectories hold; the files
    any token directory may carry (the key/value sidecar `db.mp.gz`, the
    code versions, the code of the older flat layout) are kept per
    directory. Random token draws, clocks and content hashes are inputs,
    and so is the order of a directory listing where it matters. */
module Database {
  import opened Common
  import Panels

  const TokenLen: nat := 8
  const HexDigits := "0123456789ABCDEF"
  const ActiveCodeKey := "active_code"
  /** The competition whose game list `delete_game` also cleans. */
  const DefaultComp := "P00000000"

  /** Eight characters drawn from 0-9A-F. */
  predicate IsSuffix(s: string)
  {
    |s| == TokenLen && forall i :: 0 <= i < |s| ==> s[i] in HexDigits
  }

  /** A token as `__get_new_token(prefix=...)` mints it. */
  predicate Shaped(t: string, prefix: string)
  {
    |t| == |prefix| + TokenLen && t[..|prefix|] == prefix && IsSuffix(t[|prefix|..])
  }

  // ---------------------------------------------------------------------
  // The directory tree
  // ---------------------------------------------------------------------

  /** The top-level directories under the root. */
  datatype Kind = Data | Games | Schools | Competitions | Exceptions

  /** The directory of one token. */
  datatype Dir = Dir(kind: Kind, token: string)

  /** A code submission's options; an empty dict is what an absent options
      file reads as. */
  type Options = map<string, PyValue>

  /** One `code/CTIME_HASH` directory. */
  datatype Version = Version(code: string, options: Options)

  /** The files a token directory may carry: the sidecar's entries, the
      code versions by name, `code.lp`/`options.mp.gz` of the older
      flat layout, and the int whose decimal text `avg_score` holds. An
      absent sidecar or options file reads as empty. */
  datatype DirFiles = DirFiles(kv: map<string, PyValue>, versions: map<string, Version>, flatCode: Option<string>, flatOptions: Options, avgScore: Option<int>)

  const NoFiles := DirFiles(map[], map[], None, map[], None)

  /** `games/GTOKEN`: the players with their data, the frames, the ctime. */
  datatype GameRec = GameRec(players: map<string, PyValue>, frames: Option<PyValue>, ctime: Option<real>)

  /** `schools/STOKEN`: the name and the user tokens under `tokens`. */
  datatype SchoolRec = SchoolRec(name: string, members: set<string>)

  /** `competitions/PTOKEN`: the name and the game tokens under `games`. */
  datatype CompRec = CompRec(name: string, games: set<string>)

  /** The whole tree. `users` maps each user token to the games listed
      under `data/TOKEN/games`. */
  datatype Store = Store(
    users: map<string, set<string>>,
    games: map<string, GameRec>,
    schools: map<string, SchoolRec>,
    comps: map<string, CompRec>,
    exceptions: map<string, PyValue>,
    files: map<Dir, DirFiles>)

  const EmptyStore := Store(map[], map[], map[], map[], map[], map[])

  predicate DirExists(s: Store, d: Dir)
  {
    match d.kind
    case Data => d.token in s.users
    case Games => d.token in s.games
    case Schools => d.token in s.schools
    case Competitions => d.token in s.comps
    case Exceptions => d.token in s.exceptions
  }

  function FilesAt(s: Store, d: Dir): DirFiles
  {
    if d in s.files then s.files[d] else NoFiles
  }

  /** What every operation keeps: tokens have the shape they were minted
      with (so the five namespaces never overlap), every school member
      and every game player is a user, no user is in two schools, and
      files live only in directories that exist. */
  ghost predicate ValidStore(s: Store)
  {
    && (forall t :: t in s.users ==> IsSuffix(t))
    && (forall t :: t in s.games ==> Shaped(t, "G"))
    && (forall t :: t in s.schools ==> Shaped(t, "S"))
    && (forall t :: t in s.comps ==> Shaped(t, "P"))
    && (forall t :: t in s.exceptions ==> Shaped(t, "E"))
    && (forall sc :: sc in s.schools ==> s.schools[sc].members <= s.users.Keys)
    && (forall a, b :: a in s.schools && b in s.schools && a != b ==> s.schools[a].members !! s.schools[b].members)
    && (forall g :: g in s.games ==> s.games[g].players.Keys <= s.users.Keys)
    && (forall d :: d in s.files ==> DirExists(s, d))
  }

  // ---------------------------------------------------------------------
  // Recognising tokens and finding their directories
  // ---------------------------------------------------------------------

  predicate IsUserToken(s: Store, t: string) { t in s.users }

  predicate IsGameToken(s: Store, t: string) { t in s.games }

  /** Competition, school and exception tokens need their sigil as well as
      a directory. */
  predicate IsCompToken(s: Store, t: string) { |t| > 0 && t[0] == 'P' && t in s.comps }

  predicate IsSchoolToken(s: Store, t: string) { |t| > 0 && t[0] == 'S' && t in s.schools }

  predicate IsExceptionToken(s: Store, t: string) { |t| > 0 && t[0] == 'E' && t in s.exceptions }

  /** `__get_dir_for_token(token)`: user, then game, school, competition
      and exception directories are tried in turn. */
  function DirForToken(s: Store, t: string): (r: Option<Dir>)
    ensures r.Some? ==> r.value.token == t && DirExists(s, r.value)
    ensures r.None? <==> !IsUserToken(s, t) && !IsGameToken(s, t) && !IsSchoolToken(s, t) && !IsCompToken(s, t) && !IsExceptionToken(s, t)
  {
    if IsUserToken(s, t) then Some(Dir(Data, t))
    else if IsGameToken(s, t) then Some(Dir(Games, t))
    else if IsSchoolToken(s, t) then Some(Dir(Schools, t))
    else if IsCompToken(s, t) then Some(Dir(Competitions, t))
    else if IsExceptionToken(s, t) then Some(Dir(Exceptions, t))
    else None
  }

  lemma ShapedHead(t: string, prefix: string)
    requires Shaped(t, prefix) && |prefix| == 1
    ensures |t| == TokenLen + 1 && t[0] == prefix[0]
  {
    assert t[0] == t[..1][0];
  }

  /** In a valid store every registered token is recognised by its own
      kind and resolves to its own directory, whatever the order of
      tries. */
  lemma ResolvesToOwnDir(s: Store, t: string)
    requires ValidStore(s)
    ensures t in s.users ==> DirForToken(s, t) == Some(Dir(Data, t))
    ensures t in s.games ==> DirForToken(s, t) == Some(Dir(Games, t))
    ensures t in s.schools ==> IsSchoolToken(s, t) && DirForToken(s, t) == Some(Dir(Schools, t))
    ensures t in s.comps ==> IsCompToken(s, t) && DirForToken(s, t) == Some(Dir(Competitions, t))
    ensures t in s.exceptions ==> IsExceptionToken(s, t) && DirForToken(s, t) == Some(Dir(Exceptions, t))
  {
    if t in s.games { ShapedHead(t, "G"); }
    if t in s.schools { ShapedHead(t, "S"); }
    if t in s.comps { ShapedHead(t, "P"); }
    if t in s.exceptions { ShapedHead(t, "E"); }
  }

  // ---------------------------------------------------------------------
  // Minting tokens
  // ---------------------------------------------------------------------

  /** The list `__get_new_token` checks against: an empty list silently
      falls back to the user tokens. */
  function Taken(tokens: set<string>, users: set<string>): set<string>
  {
    if tokens == {} then users else tokens
  }

  /** Some draw gives a token that is not taken yet. */
  predicate SomeFresh(prefix: string, draws: seq<string>, taken: set<string>)
  {
    exists k :: 0 <= k < |draws| && prefix + draws[k] !in taken
  }

  /** The first draw, from `from` on, whose token is not taken. */
  function FirstFresh(prefix: string, draws: seq<string>, taken: set<string>, from: nat): (k: nat)
    requires from <= |draws|
    requires exists j :: from <= j < |draws| && prefix + draws[j] !in taken
    ensures from <= k < |draws| && prefix + draws[k] !in taken
    ensures forall j :: from <= j < k ==> prefix + draws[j] in taken
    decreases |draws| - from
  {
    if prefix + draws[from] !in taken then from
    else FirstFresh(prefix, draws, taken, from + 1)
  }

  /** The token minted from `draws`, the successive outcomes of eight
      `random.choice` calls. */
  function Minted(prefix: string, draws: seq<string>, taken: set<string>): string
    requires SomeFresh(prefix, draws, taken)
  {
    prefix + draws[FirstFresh(prefix, draws, taken, 0)]
  }

  /** A minted token carries its prefix and eight hex digits, and is not
      in the list it was checked against. */
  lemma MintedIsFresh(prefix: string, draws: seq<string>, taken: set<string>)
    requires SomeFresh(prefix, draws, taken)
    requires forall k :: 0 <= k < |draws| ==> IsSuffix(draws[k])
    ensures Shaped(Minted(prefix, draws, taken), prefix)
    ensures Minted(prefix, draws, taken) !in taken
  {
    var k := FirstFresh(prefix, draws, taken, 0);
    var t := prefix + draws[k];
    assert t[..|prefix|] == prefix;
    assert t[|prefix|..] == draws[k];
  }

  // ---------------------------------------------------------------------
  // The key/value sidecar
  // ---------------------------------------------------------------------

  /** `get_value(token, key, default_value)`: the saved value, or the
      default when the key (or the whole sidecar) is absent. A token with
      no directory makes `os.path.exists(None)` raise. */
  function GetValue(s: Store, t: string, key: string, default: PyValue): (r: Result<PyValue, PyError>)
    ensures r.Err? <==> DirForToken(s, t).None?
    ensures r.Err? ==> r.error == TypeError
  {
    var d := DirForToken(s, t);
    if d.None? then Err(TypeError)
    else
      var kv := FilesAt(s, d.value).kv;
      Ok(if key in kv then kv[key] else default)
  }

  /** The values `save_value` accepts. */
  predicate Storable(v: PyValue) { v.PyStr? || v.PyInt? || v.PyFloat? }

  /** `save_value(token, key, value)`: read the sidecar (or start from an
      empty dict), set one key, write it back. */
  function SaveValueSpec(s: Store, t: string, key: string, v: PyValue): (r: (Store, Outcome<PyError>))
    ensures r.1.Pass? <==> DirForToken(s, t).Some? && Storable(v)
    ensures r.1.Fail? ==> r.0 == s
    ensures DirForToken(s, t).None? ==> r.1 == Fail(TypeError)
    ensures DirForToken(s, t).Some? && !Storable(v) ==> r.1 == Fail(AssertionError)
    ensures ValidStore(s) ==> ValidStore(r.0)
  {
    var d := DirForToken(s, t);
    if d.None? then (s, Fail(TypeError))
    else if !Storable(v) then (s, Fail(AssertionError))
    else
      var f := FilesAt(s, d.value);
      PutFilesFacts(s, t, d.value, f.(kv := f.kv[key := v]));
      (s.(files := s.files[d.value := f.(kv := f.kv[key := v])]), Pass)
  }

  /** After `save_value(t, k, v)`, `get_value(t, k)` returns v whatever the
      default, and every other (token, key) reads as before. */
  lemma SaveThenGet(s: Store, t: string, key: string, v: PyValue, default: PyValue)
    requires ValidStore(s)
    requires SaveValueSpec(s, t, key, v).1.Pass?
    ensures GetValue(SaveValueSpec(s, t, key, v).0, t, key, default) == Ok(v)
    ensures forall t', k', dv :: DirForToken(s, t') != DirForToken(s, t) || k' != key ==>
      GetValue(SaveValueSpec(s, t, key, v).0, t', k', dv) == GetValue(s, t', k', dv)
  {
    var d := DirForToken(s, t).value;
    var f := FilesAt(s, d);
    var s' := s.(files := s.files[d := f.(kv := f.kv[key := v])]);
    assert SaveValueSpec(s, t, key, v).0 == s';
    DirIgnoresFiles(s, s'.files, t);
    forall t', k', dv | DirForToken(s, t') != DirForToken(s, t) || k' != key
      ensures GetValue(s', t', k', dv) == GetValue(s, t', k', dv)
    {
      DirIgnoresFiles(s, s'.files, t');
    }
  }

  /** `save_avg_score(token, score)`: a token without a directory fails the
      path check with TypeError; otherwise `avg_score` is overwritten with
      the score. */
  function SaveAvgScoreSpec(s: Store, t: string, score: int): (r: (Store, Outcome<PyError>))
    ensures r.1.Pass? <==> DirForToken(s, t).Some?
    ensures r.1.Fail? ==> r == (s, Fail(TypeError))
    ensures ValidStore(s) ==> ValidStore(r.0)
  {
    var d := DirForToken(s, t);
    if d.None? then (s, Fail(TypeError))
    else
      var f := FilesAt(s, d.value);
      PutFilesFacts(s, t, d.value, f.(avgScore := Some(score)));
      (s.(files := s.files[d.value := f.(avgScore := Some(score))]), Pass)
  }

  /** `get_avg_score(token, default)`: the saved score read back as a
      float, or the default when there is none; a token without a
      directory fails the path check with TypeError. */
  function GetAvgScore(s: Store, t: string, default: Option<real>): (r: Result<Option<real>, PyError>)
    ensures r.Err? <==> DirForToken(s, t).None?
    ensures r.Err? ==> r.error == TypeError
  {
    var d := DirForToken(s, t);
    if d.None? then Err(TypeError)
    else
      var a := FilesAt(s, d.value).avgScore;
      Ok(if a.Some? then Some(a.value as real) else default)
  }

  /** After `save_avg_score(t, n)`, `get_avg_score(t)` reads n back whatever
      the default; every other token's score and every stored value read
      as before. */
  lemma {:induction false} SaveAvgThenGet(s: Store, t: string, score: int, default: Option<real>)
    requires SaveAvgScoreSpec(s, t, score).1.Pass?
    ensures GetAvgScore(SaveAvgScoreSpec(s, t, score).0, t, default) == Ok(Some(score as real))
    ensures forall t', dv :: t' != t ==>
      GetAvgScore(SaveAvgScoreSpec(s, t, score).0, t', dv) == GetAvgScore(s, t', dv)
    ensures forall t', k, dv :: GetValue(SaveAvgScoreSpec(s, t, score).0, t', k, dv) == GetValue(s, t', k, dv)
  {
    var d := DirForToken(s, t).value;
    var f := FilesAt(s, d);
    var s' := s.(files := s.files[d := f.(avgScore := Some(score))]);
    assert SaveAvgScoreSpec(s, t, score).0 == s';
    DirIgnoresFiles(s, s'.files, t);
    forall t', dv | t' != t
      ensures GetAvgScore(s', t', dv) == GetAvgScore(s, t', dv)
    {
      DirIgnoresFiles(s, s'.files, t');
    }
    forall t', k, dv
      ensures GetValue(s', t', k, dv) == GetValue(s, t', k, dv)
    {
      DirIgnoresFiles(s, s'.files, t');
    }
  }

  /** Which directory a token names does not depend on the files stored. */
  lemma DirIgnoresFiles(s: Store, files: map<Dir, DirFiles>, t: string)
    ensures DirForToken(s.(files := files), t) == DirForToken(s, t)
  {
  }

  // ---------------------------------------------------------------------
  // Code versions and the active pointer
  // ---------------------------------------------------------------------

  /** `f"{ctime}_{code_hash}"`. */
  function VersionName(ctime: nat, codeHash: string): (n: string)
    ensures n != ""
  {
    Panels.Str(PyInt(ctime)) + "_" + codeHash
  }

  /** `save_code(token, code, options, set_as_active)` with the version
      named `name`: a name that exists raises ValueError("Duplicate
      Request!"); code that is None cannot be encoded. */
  function SaveCodeSpec(s: Store, t: string, code: Option<string>, options: Options, setAsActive: bool, name: string): (r: (Store, Outcome<PyError>))
    ensures r.1.Pass? <==> DirForToken(s, t).Some? && code.Some? && name !in FilesAt(s, DirForToken(s, t).value).versions
    ensures DirForToken(s, t).Some? && code.Some? && name in FilesAt(s, DirForToken(s, t).value).versions ==> r == (s, Fail(ValueError))
    ensures r.1.Fail? ==> r.0 == s
    ensures r.1.Pass? ==>
      var d := DirForToken(s, t).value;
      && DirForToken(r.0, t) == Some(d)
      && FilesAt(r.0, d).versions == FilesAt(s, d).versions[name := Version(code.value, options)]
      && FilesAt(r.0, d).kv == (if setAsActive then FilesAt(s, d).kv[ActiveCodeKey := PyStr(name)] else FilesAt(s, d).kv)
      && FilesAt(r.0, d).flatCode == FilesAt(s, d).flatCode
      && FilesAt(r.0, d).flatOptions == FilesAt(s, d).flatOptions
      && forall d' :: d' != d ==> FilesAt(r.0, d') == FilesAt(s, d')
    ensures ValidStore(s) ==> ValidStore(r.0)
  {
    var d := DirForToken(s, t);
    if d.None? then (s, Fail(TypeError))
    else if code.None? then (s, Fail(TypeError))
    else
      var f := FilesAt(s, d.value);
      if name in f.versions then (s, Fail(ValueError))
      else
        var f1 := f.(versions := f.versions[name := Version(code.value, options)]);
        var s1 := s.(files := s.files[d.value := f1]);
        PutFilesFacts(s, t, d.value, f1);
        if setAsActive then
          PutFilesFacts(s1, t, d.value, f1.(kv := f1.kv[ActiveCodeKey := PyStr(name)]));
          SaveValueSpec(s1, t, ActiveCodeKey, PyStr(name))
        else (s1, Pass)
  }

  /** Storing new files for t's directory changes nothing else. */
  lemma PutFilesFacts(s: Store, t: string, d: Dir, g: DirFiles)
    requires DirForToken(s, t) == Some(d)
    ensures var s' := s.(files := s.files[d := g]);
      && DirForToken(s', t) == Some(d)
      && FilesAt(s', d) == g
      && (forall d' :: d' != d ==> FilesAt(s', d') == FilesAt(s, d'))
      && (ValidStore(s) ==> ValidStore(s'))
  {
    DirIgnoresFiles(s, s.files[d := g], t);
  }

  /** `get_active_code_and_options(token)`: the code and options of the
      active version; with no active pointer, the flat layout is read and,
      when it holds anything, saved once as a new version named `name`. */
  function GetActiveCodeSpec(s: Store, t: string, name: string): (Store, Result<(Option<string>, Options), PyError>)
  {
    var active := GetValue(s, t, ActiveCodeKey, PyNone);
    if active.Err? then (s, Err(active.error))
    else
      var f := FilesAt(s, DirForToken(s, t).value);
      if Truthy(active.value) then
        if !active.value.PyStr? then (s, Err(TypeError))
        else if active.value.s in f.versions then
          var v := f.versions[active.value.s];
          (s, Ok((Some(v.code), v.options)))
        else (s, Ok((None, map[])))
      else
        var code := f.flatCode;
        var options := f.flatOptions;
        if (code.Some? && code.value != "") || options != map[] then
          var (s1, o) := SaveCodeSpec(s, t, code, options, true, name);
          if o.Fail? then (s1, Err(o.error)) else (s1, Ok((code, options)))
        else (s, Ok((code, options)))
  }

  /** Round trip: after `save_code(t, c, o)` with `set_as_active`,
      `get_active_code_and_options(t)` returns `(c, o)` and changes
      nothing. */
  lemma SaveCodeThenActive(s: Store, t: string, c: string, options: Options, ctime: nat, codeHash: string, name2: string)
    requires ValidStore(s)
    requires SaveCodeSpec(s, t, Some(c), options, true, VersionName(ctime, codeHash)).1.Pass?
    ensures var s1 := SaveCodeSpec(s, t, Some(c), options, true, VersionName(ctime, codeHash)).0;
      GetActiveCodeSpec(s1, t, name2) == (s1, Ok((Some(c), options)))
  {
  }

  /** Migration: with no active pointer, code in the flat layout is saved
      as a version and returned; a later call returns the same pair from
      the version and saves nothing. */
  lemma FlatCodeMigratesOnce(s: Store, t: string, ctime: nat, codeHash: string, name2: string)
    requires ValidStore(s)
    requires DirForToken(s, t).Some?
    requires var f := FilesAt(s, DirForToken(s, t).value);
      && ActiveCodeKey !in f.kv
      && f.flatCode.Some? && f.flatCode.value != ""
      && VersionName(ctime, codeHash) !in f.versions
    ensures var f := FilesAt(s, DirForToken(s, t).value);
      var (s1, r) := GetActiveCodeSpec(s, t, VersionName(ctime, codeHash));
      && r == Ok((f.flatCode, f.flatOptions))
      && GetActiveCodeSpec(s1, t, name2) == (s1, r)
  {
    var f := FilesAt(s, DirForToken(s, t).value);
    var name := VersionName(ctime, codeHash);
    SaveCodeThenActive(s, t, f.flatCode.value, f.flatOptions, ctime, codeHash, name2);
  }

  // ---------------------------------------------------------------------
  // Creating users, schools, competitions and exception reports
  // ---------------------------------------------------------------------

  /** `get_new_token(school_tk)` with the minted token t: the token is
      listed under the school's `tokens`, then its user directory (with an
      empty `games`) is made. */
  function GetNewTokenSpec(s: Store, school: string, t: string): (r: (Store, Result<string, PyError>))
    ensures !IsSchoolToken(s, school) ==> r == (s, Err(AssertionError))
    ensures IsSchoolToken(s, school) && t !in s.users ==>
      && r.1 == Ok(t)
      && r.0 == s.(users := s.users[t := {}], schools := s.schools[school := s.schools[school].(members := s.schools[school].members + {t})])
    ensures ValidStore(s) && IsSuffix(t) && t !in s.users ==> ValidStore(r.0)
  {
    if !IsSchoolToken(s, school) then (s, Err(AssertionError))
    else
      var s1 := s.(schools := s.schools[school := s.schools[school].(members := s.schools[school].members + {t})]);
      if t in s.users then (s1, Err(FileExistsError))
      else
        NewMemberKeepsValid(s, school, t);
        (s1.(users := s1.users[t := {}]), Ok(t))
  }

  /** A fresh user token joining a school keeps validity. */
  lemma NewMemberKeepsValid(s: Store, school: string, t: string)
    requires school in s.schools
    ensures ValidStore(s) && IsSuffix(t) && t !in s.users ==>
      ValidStore(s.(users := s.users[t := {}],
                    schools := s.schools[school := s.schools[school].(members := s.schools[school].members + {t})]))
  {
    var s' := s.(users := s.users[t := {}],
                 schools := s.schools[school := s.schools[school].(members := s.schools[school].members + {t})]);
    if ValidStore(s) && IsSuffix(t) && t !in s.users {
      forall a, b | a in s'.schools && b in s'.schools && a != b
        ensures s'.schools[a].members !! s'.schools[b].members
      {
        assert s.schools[a].members !! s.schools[b].members;
        assert t !in s.schools[a].members && t !in s.schools[b].members;
      }
      forall d | d in s'.files
        ensures DirExists(s', d)
      {
        assert DirExists(s, d);
      }
    }
  }

  /** `add_new_school(name)` with the minted token t. */
  function AddNewSchoolSpec(s: Store, t: string, name: string): (r: (Store, Result<string, PyError>))
    ensures t in s.schools <==> r.1.Err?
    ensures r.1.Ok? ==> r == (s.(schools := s.schools[t := SchoolRec(name, {})]), Ok(t))
    ensures ValidStore(s) && Shaped(t, "S") ==> ValidStore(r.0)
  {
    if t in s.schools then (s, Err(FileExistsError))
    else (s.(schools := s.schools[t := SchoolRec(name, {})]), Ok(t))
  }

  /** `add_new_competition(name)` with the minted (or given) token t. */
  function AddNewCompetitionSpec(s: Store, t: string, name: string): (r: (Store, Result<string, PyError>))
    ensures t in s.comps <==> r.1.Err?
    ensures r.1.Ok? ==> r == (s.(comps := s.comps[t := CompRec(name, {})]), Ok(t))
    ensures ValidStore(s) && Shaped(t, "P") ==> ValidStore(r.0)
  {
    if t in s.comps then (s, Err(FileExistsError))
    else (s.(comps := s.comps[t := CompRec(name, {})]), Ok(t))
  }

  /** `save_exception(report)` with the minted token t. */
  function SaveExceptionSpec(s: Store, t: string, report: PyValue): (r: (Store, Result<string, PyError>))
    ensures t in s.exceptions <==> r.1.Err?
    ensures r.1.Ok? ==> r == (s.(exceptions := s.exceptions[t := report]), Ok(t))
    ensures ValidStore(s) && Shaped(t, "E") ==> ValidStore(r.0)
  {
    if t in s.exceptions then (s, Err(FileExistsError))
    else (s.(exceptions := s.exceptions[t := report]), Ok(t))
  }

  // ---------------------------------------------------------------------
  // Games and their players
  // ---------------------------------------------------------------------

  /** The game list under `TOKEN/games`, for the directories that have one
      (users and competitions). */
  function GamesOf(s: Store, d: Dir): Option<set<string>>
  {
    if d.kind == Data && d.token in s.users then Some(s.users[d.token])
    else if d.kind == Competitions && d.token in s.comps then Some(s.comps[d.token].games)
    else None
  }

  function SetGamesOf(s: Store, d: Dir, gs: set<string>): Store
    requires GamesOf(s, d).Some?
  {
    if d.kind == Data then s.(users := s.users[d.token := gs])
    else s.(comps := s.comps[d.token := s.comps[d.token].(games := gs)])
  }

  /** `get_games_for_token(token)`: a user's or a competition's games. */
  function GetGamesForToken(s: Store, t: string): (r: Result<set<string>, PyError>)
    ensures r.Err? <==> !IsUserToken(s, t) && !IsCompToken(s, t)
    ensures r.Err? ==> r.error == ValueError
  {
    if IsUserToken(s, t) then Ok(s.users[t])
    else if IsCompToken(s, t) then Ok(s.comps[t].games)
    else Err(ValueError)
  }

  /** `set_game_player(gtoken, token, data)`: the game must have a
      `players` directory, the player must be a user and not yet listed;
      the data is stored and the game is linked from the user's games. */
  function SetGamePlayerSpec(s: Store, g: string, p: string, data: PyValue): (r: (Store, Outcome<PyError>))
    ensures r.1.Pass? <==> DirForToken(s, g) == Some(Dir(Games, g)) && p in s.users && p !in s.games[g].players
    ensures r.1.Fail? ==> r.0 == s
    ensures DirForToken(s, g).None? ==> r.1 == Fail(TypeError)
    ensures r.1.Pass? ==>
      && r.0.users == s.users[p := s.users[p] + {g}]
      && r.0.games == s.games[g := s.games[g].(players := s.games[g].players[p := data])]
      && r.0.schools == s.schools && r.0.comps == s.comps && r.0.exceptions == s.exceptions && r.0.files == s.files
    ensures ValidStore(s) ==> ValidStore(r.0)
  {
    var d := DirForToken(s, g);
    if d.None? then (s, Fail(TypeError))
    else if d.value.kind != Games then (s, Fail(AssertionError))
    else if p !in s.users then (s, Fail(AssertionError))
    else if p in s.games[g].players then (s, Fail(FileExistsError))
    else
      (s.(users := s.users[p := s.users[p] + {g}],
          games := s.games[g := s.games[g].(players := s.games[g].players[p := data])]), Pass)
  }

  /** The `set_game_player` loop of `add_new_game`, stopping at the first
      failure. */
  function SetPlayers(s: Store, g: string, ps: seq<(string, PyValue)>): (r: (Store, Outcome<PyError>))
    ensures r.0.games.Keys == s.games.Keys && r.0.users.Keys == s.users.Keys
    ensures ValidStore(s) ==> ValidStore(r.0)
    decreases |ps|
  {
    if ps == [] then (s, Pass)
    else
      var (s1, o) := SetGamePlayerSpec(s, g, ps[0].0, ps[0].1);
      if o.Fail? then (s1, o) else SetPlayers(s1, g, ps[1..])
  }

  /** One turn of the `set_game_player` loop. */
  lemma SetPlayersUnfold(s: Store, g: string, ps: seq<(string, PyValue)>, k: nat)
    requires k < |ps|
    ensures var (s1, o) := SetGamePlayerSpec(s, g, ps[k].0, ps[k].1);
      SetPlayers(s, g, ps[k..]) == if o.Fail? then (s1, o) else SetPlayers(s1, g, ps[k + 1..])
  {
    assert ps[k..][1..] == ps[k + 1..];
  }

  /** The tokens of a list of (token, data) pairs. */
  function Tokens(ps: seq<(string, PyValue)>): set<string>
    decreases |ps|
  {
    if ps == [] then {} else {ps[0].0} + Tokens(ps[1..])
  }

  /** When every `set_game_player` succeeds, the listed players were users
      not yet playing, they are added to the game's players (earlier
      entries keep their data), exactly they gain the game among their
      games, and no other game changes. */
  lemma SetPlayersLinks(s: Store, g: string, ps: seq<(string, PyValue)>)
    requires g in s.games
    requires SetPlayers(s, g, ps).1.Pass?
    ensures var r := SetPlayers(s, g, ps).0;
      && g in r.games
      && r.games[g].players.Keys == s.games[g].players.Keys + Tokens(ps)
      && s.games[g].players.Keys !! Tokens(ps)
      && Tokens(ps) <= s.users.Keys
      && (forall p :: p in s.games[g].players ==> r.games[g].players[p] == s.games[g].players[p])
      && (forall u :: u in s.users ==> r.users[u] == if u in Tokens(ps) then s.users[u] + {g} else s.users[u])
      && (forall h :: h in s.games && h != g ==> r.games[h] == s.games[h])
      && r.games[g].frames == s.games[g].frames && r.games[g].ctime == s.games[g].ctime
  {
    SetPlayersGames(s, g, ps);
    SetPlayersUsers(s, g, ps);
  }

  /** The game side of a successful player loop. */
  lemma {:induction false} SetPlayersGames(s: Store, g: string, ps: seq<(string, PyValue)>)
    requires g in s.games
    requires SetPlayers(s, g, ps).1.Pass?
    ensures var r := SetPlayers(s, g, ps).0;
      && g in r.games
      && r.games[g].players.Keys == s.games[g].players.Keys + Tokens(ps)
      && s.games[g].players.Keys !! Tokens(ps)
      && (forall p :: p in s.games[g].players ==> r.games[g].players[p] == s.games[g].players[p])
      && (forall h :: h in s.games && h != g ==> r.games[h] == s.games[h])
      && r.games[g].frames == s.games[g].frames && r.games[g].ctime == s.games[g].ctime
    decreases |ps|
  {
    if ps != [] {
      var (s1, o) := SetGamePlayerSpec(s, g, ps[0].0, ps[0].1);
      assert o.Pass? && SetPlayers(s, g, ps) == SetPlayers(s1, g, ps[1..]);
      assert Tokens(ps) == {ps[0].0} + Tokens(ps[1..]);
      SetPlayersGames(s1, g, ps[1..]);
    }
  }

  /** The user side of a successful player loop. */
  lemma {:induction false} SetPlayersUsers(s: Store, g: string, ps: seq<(string, PyValue)>)
    requires g in s.games
    requires SetPlayers(s, g, ps).1.Pass?
    ensures var r := SetPlayers(s, g, ps).0;
      && Tokens(ps) <= s.users.Keys
      && (forall u :: u in s.users ==> r.users[u] == if u in Tokens(ps) then s.users[u] + {g} else s.users[u])
    decreases |ps|
  {
    if ps != [] {
      var (s1, o) := SetGamePlayerSpec(s, g, ps[0].0, ps[0].1);
      assert o.Pass? && SetPlayers(s, g, ps) == SetPlayers(s1, g, ps[1..]);
      assert Tokens(ps) == {ps[0].0} + Tokens(ps[1..]);
      SetPlayersUsers(s1, g, ps[1..]);
    }
  }

  /** ... and each listed player's data is stored under the game. */
  lemma {:induction false} SetPlayersData(s: Store, g: string, ps: seq<(string, PyValue)>)
    requires g in s.games
    requires SetPlayers(s, g, ps).1.Pass?
    ensures var r := SetPlayers(s, g, ps).0;
      g in r.games && forall i :: 0 <= i < |ps| ==> ps[i].0 in r.games[g].players && r.games[g].players[ps[i].0] == ps[i].1
    decreases |ps|
  {
    if ps != [] {
      var s1 := SetGamePlayerSpec(s, g, ps[0].0, ps[0].1).0;
      SetPlayersLinks(s1, g, ps[1..]);
      SetPlayersData(s1, g, ps[1..]);
      forall i | 1 <= i < |ps|
        ensures ps[i] == ps[1..][i - 1]
      {
      }
    }
  }

  /** The players `add_new_game` links: the tokens (with data None) or the
      items of `per_player_data`, in order. */
  function PlayerList(perPlayerData: Option<seq<(string, PyValue)>>, playerTokens: Option<seq<string>>): (ps: seq<(string, PyValue)>)
    ensures playerTokens.Some? ==> |ps| == |playerTokens.value| && forall i :: 0 <= i < |ps| ==> ps[i] == (playerTokens.value[i], PyNone)
    ensures playerTokens.None? && perPlayerData.Some? ==> ps == perPlayerData.value
    ensures playerTokens.None? && perPlayerData.None? ==> ps == []
  {
    if playerTokens.Some? then seq(|playerTokens.value|, i requires 0 <= i < |playerTokens.value| => (playerTokens.value[i], PyNone))
    else if perPlayerData.Some? then perPlayerData.value
    else []
  }

  /** `add_new_game(frames, per_player_data, player_tokens)` with the minted
      token t and the clock reading `ctime`. */
  function AddNewGameSpec(s: Store, t: string, frames: Option<PyValue>, perPlayerData: Option<seq<(string, PyValue)>>,
                      playerTokens: Option<seq<string>>, ctime: real): (r: (Store, Result<string, PyError>))
    ensures perPlayerData.Some? && playerTokens.Some? ==> r == (s, Err(AssertionError))
  {
    if perPlayerData.Some? && playerTokens.Some? then (s, Err(AssertionError))
    else if t in s.games then (s, Err(FileExistsError))
    else
      var s1 := s.(games := s.games[t := GameRec(map[], frames, None)]);
      var (s2, o) := SetPlayers(s1, t, PlayerList(perPlayerData, playerTokens));
      if o.Fail? then (s2, Err(o.error))
      else (s2.(games := s2.games[t := s2.games[t].(ctime := Some(ctime))]), Ok(t))
  }

  /** Replacing a competition's game list keeps validity. */
  lemma SetCompGamesKeepsValid(s: Store, c: string, gs: set<string>)
    requires ValidStore(s) && c in s.comps
    ensures ValidStore(s.(comps := s.comps[c := s.comps[c].(games := gs)]))
  {
    var s1 := s.(comps := s.comps[c := s.comps[c].(games := gs)]);
    forall d | d in s1.files
      ensures DirExists(s1, d)
    {
      assert DirExists(s, d);
    }
  }

  /** Registering game t with players that are users keeps validity. */
  lemma PutGameKeepsValid(s: Store, t: string, rec: GameRec)
    requires ValidStore(s) && Shaped(t, "G") && rec.players.Keys <= s.users.Keys
    ensures ValidStore(s.(games := s.games[t := rec]))
  {
    var s1 := s.(games := s.games[t := rec]);
    forall d | d in s1.files
      ensures DirExists(s1, d)
    {
      assert DirExists(s, d);
    }
  }

  lemma AddNewGameKeepsValid(s: Store, t: string, frames: Option<PyValue>, perPlayerData: Option<seq<(string, PyValue)>>,
                             playerTokens: Option<seq<string>>, ctime: real)
    requires ValidStore(s) && Shaped(t, "G")
    ensures ValidStore(AddNewGameSpec(s, t, frames, perPlayerData, playerTokens, ctime).0)
  {
    var r := AddNewGameSpec(s, t, frames, perPlayerData, playerTokens, ctime);
    if (perPlayerData.Some? && playerTokens.Some?) || t in s.games {
      assert r.0 == s;
    } else {
      var s1 := s.(games := s.games[t := GameRec(map[], frames, None)]);
      PutGameKeepsValid(s, t, GameRec(map[], frames, None));
      var ps := PlayerList(perPlayerData, playerTokens);
      var (s2, o) := SetPlayers(s1, t, ps);
      assert ValidStore(s2) && t in s2.games;
      if o.Pass? {
        var rec := s2.games[t].(ctime := Some(ctime));
        PutGameKeepsValid(s2, t, rec);
        assert r.0 == s2.(games := s2.games[t := rec]);
      } else {
        assert r.0 == s2;
      }
    }
  }

  /** A new game: its frames and ctime are saved, it has
      exactly the listed players with their data, each of them gains the
      game among their games and no other user does, and earlier games
      are untouched. */
  lemma AddNewGameLinks(s: Store, t: string, frames: Option<PyValue>, perPlayerData: Option<seq<(string, PyValue)>>,
                        playerTokens: Option<seq<string>>, ctime: real)
    requires AddNewGameSpec(s, t, frames, perPlayerData, playerTokens, ctime).1.Ok?
    ensures var r := AddNewGameSpec(s, t, frames, perPlayerData, playerTokens, ctime).0;
      var ps := PlayerList(perPlayerData, playerTokens);
      && t !in s.games
      && t in r.games && r.games[t].frames == frames && r.games[t].ctime == Some(ctime)
      && r.games[t].players.Keys == Tokens(ps)
      && (forall i :: 0 <= i < |ps| ==> ps[i].0 in r.games[t].players && r.games[t].players[ps[i].0] == ps[i].1)
      && (forall u :: u in s.users ==> r.users[u] == if u in Tokens(ps) then s.users[u] + {t} else s.users[u])
      && (forall h :: h in s.games ==> r.games[h] == s.games[h])
  {
    var ps := PlayerList(perPlayerData, playerTokens);
    assert t !in s.games;
    var s1 := s.(games := s.games[t := GameRec(map[], frames, None)]);
    assert SetPlayers(s1, t, ps).1.Pass?;
    SetPlayersLinks(s1, t, ps);
    SetPlayersData(s1, t, ps);
    var s2 := SetPlayers(s1, t, ps).0;
    assert AddNewGameSpec(s, t, frames, perPlayerData, playerTokens, ctime).0 == s2.(games := s2.games[t := s2.games[t].(ctime := Some(ctime))]);
  }

  // ---------------------------------------------------------------------
  // Competitions' game lists, deleting games, replacing a list
  // ---------------------------------------------------------------------

  /** `add_game_to_comp(ctoken, gtoken)`: touches `ctoken/games/gtoken` in
      whatever directory the token resolves to. */
  function AddGameToCompSpec(s: Store, c: string, g: string): (r: (Store, Outcome<PyError>))
    ensures IsCompToken(s, c) && ValidStore(s) ==> r == (s.(comps := s.comps[c := s.comps[c].(games := s.comps[c].games + {g})]), Pass)
    ensures ValidStore(s) ==> ValidStore(r.0)
  {
    var d := DirForToken(s, c);
    if d.None? then (s, Fail(TypeError))
    else if GamesOf(s, d.value).None? then (s, Fail(FileNotFoundError))
    else (SetGamesOf(s, d.value, GamesOf(s, d.value).value + {g}), Pass)
  }

  /** `remove_game_from_comp(ctoken, gtoken)`: removing a file that is not
      there raises. */
  function RemoveGameFromCompSpec(s: Store, c: string, g: string): (r: (Store, Outcome<PyError>))
    ensures IsCompToken(s, c) && ValidStore(s) ==>
      r == if g in s.comps[c].games then (s.(comps := s.comps[c := s.comps[c].(games := s.comps[c].games - {g})]), Pass)
           else (s, Fail(FileNotFoundError))
    ensures ValidStore(s) ==> ValidStore(r.0)
  {
    var d := DirForToken(s, c);
    if d.None? then (s, Fail(TypeError))
    else if GamesOf(s, d.value).None? || g !in GamesOf(s, d.value).value then (s, Fail(FileNotFoundError))
    else (SetGamesOf(s, d.value, GamesOf(s, d.value).value - {g}), Pass)
  }

  /** Adding a game to a competition and removing it again restores the
      competition's list when the game was not on it. */
  lemma AddThenRemove(s: Store, c: string, g: string)
    requires ValidStore(s) && IsCompToken(s, c) && g !in s.comps[c].games
    ensures RemoveGameFromCompSpec(AddGameToCompSpec(s, c, g).0, c, g) == (s, Pass)
  {
    ResolvesToOwnDir(s, c);
    var s1 := AddGameToCompSpec(s, c, g).0;
    assert s1.comps[c].games - {g} == s.comps[c].games;
    assert s1.comps[c := s1.comps[c].(games := s.comps[c].games)] == s.comps;
  }

  /** Whether `delete_game(gtoken)` runs to the end: the game is registered,
      every player still lists it, and the default competition exists for
      `get_games_for_token` to look in. */
  ghost predicate Deletable(s: Store, g: string)
  {
    && g in s.games
    && (forall p :: p in s.games[g].players ==> p in s.users && g in s.users[p])
    && IsCompToken(s, DefaultComp)
  }

  /** What a `delete_game(g)` that fails part way leaves: r is s except
      that some users no longer list g. */
  ghost predicate PartlyUnlinked(s: Store, r: Store, g: string)
  {
    && r.games == s.games && r.comps == s.comps && r.schools == s.schools
    && r.exceptions == s.exceptions && r.files == s.files
    && r.users.Keys == s.users.Keys
    && forall u :: u in r.users ==> r.users[u] == s.users[u] || r.users[u] == s.users[u] - {g}
  }

  /** The games of D among those u plays in. */
  function PlayedIn(s: Store, D: set<string>, u: string): set<string>
  {
    set g | g in D && g in s.games && u in s.games[g].players
  }

  function GameDirs(D: set<string>): set<Dir>
  {
    set g | g in D :: Dir(Games, g)
  }

  /** The store after `delete_game` of every game in D: each is unlinked
      from its players and from the default competition, and its
      directory is gone. */
  function DeleteGames(s: Store, D: set<string>): Store
  {
    s.(users := map u | u in s.users :: s.users[u] - PlayedIn(s, D, u),
       games := s.games - D,
       comps := if DefaultComp in s.comps then s.comps[DefaultComp := s.comps[DefaultComp].(games := s.comps[DefaultComp].games - D)] else s.comps,
       files := s.files - GameDirs(D))
  }

  /** Deleted games are gone everywhere they were linked, every other game
      and every other competition is untouched, and validity is kept. */
  lemma DeleteGamesEffect(s: Store, D: set<string>)
    requires ValidStore(s)
    ensures var r := DeleteGames(s, D);
      && ValidStore(r)
      && (forall g :: g in D ==> g !in r.games && Dir(Games, g) !in r.files)
      && (forall g :: g in s.games && g !in D ==> g in r.games && r.games[g] == s.games[g])
      && (forall u, g :: u in s.users && g in D && g in s.games && u in s.games[g].players ==> g !in r.users[u])
      && (DefaultComp in s.comps ==> r.comps[DefaultComp].games == s.comps[DefaultComp].games - D)
      && (forall c :: c in s.comps && c != DefaultComp ==> r.comps[c] == s.comps[c])
  {
    DeleteGamesKeepsValid(s, D);
  }

  lemma DeleteGamesKeepsValid(s: Store, D: set<string>)
    requires ValidStore(s)
    ensures ValidStore(DeleteGames(s, D))
  {
    var r := DeleteGames(s, D);
    forall d | d in r.files
      ensures DirExists(r, d)
    {
      assert d in s.files && d !in GameDirs(D);
      if d.kind == Games {
        assert d.token !in D;
      }
    }
  }

  /** Deleting nothing changes nothing. */
  lemma DeleteNothing(s: Store)
    ensures DeleteGames(s, {}) == s
  {
    var r := DeleteGames(s, {});
    assert GameDirs({}) == {};
    forall u | u in s.users
      ensures r.users[u] == s.users[u]
    {
      assert PlayedIn(s, {}, u) == {};
    }
    assert r.users == s.users;
    if DefaultComp in s.comps {
      assert r.comps[DefaultComp] == s.comps[DefaultComp];
    }
  }

  /** Deleting the games of A and then g is deleting A + {g}. */
  lemma DeleteGamesStep(s: Store, A: set<string>, g: string)
    requires g !in A
    ensures DeleteGames(DeleteGames(s, A), {g}) == DeleteGames(s, A + {g})
  {
    var s1 := DeleteGames(s, A);
    var l := DeleteGames(s1, {g});
    var r := DeleteGames(s, A + {g});
    forall u | u in s.users
      ensures l.users[u] == r.users[u]
    {
      assert PlayedIn(s, A + {g}, u) == PlayedIn(s, A, u) + PlayedIn(s1, {g}, u);
    }
    assert l.users == r.users;
    assert GameDirs(A + {g}) == GameDirs(A) + GameDirs({g});
    assert l.files == r.files;
    assert l.games == r.games;
    if DefaultComp in s.comps {
      assert l.comps[DefaultComp].games == r.comps[DefaultComp].games;
    }
    assert l.comps == r.comps;
  }

  /** Deleting other games does not change whether g can be deleted. */
  lemma DeletableAfter(s: Store, D: set<string>, g: string)
    requires g !in D
    ensures Deletable(DeleteGames(s, D), g) <==> Deletable(s, g)
  {
    var r := DeleteGames(s, D);
    if g in s.games {
      forall p | p in s.games[g].players && p in s.users
        ensures g in r.users[p] <==> g in s.users[p]
      {
        assert g !in PlayedIn(s, D, p);
      }
    }
  }

  /** `get_school_for_token(token)` over the school directory listed in the
      order `listing`: the first school whose `tokens` holds the token. */
  function GetSchoolForToken(s: Store, t: string, listing: seq<string>): (r: Option<string>)
    ensures r.Some? ==> r.value in listing && IsSchoolToken(s, r.value) && t in s.schools[r.value].members
    ensures r.None? ==> forall i :: 0 <= i < |listing| && IsSchoolToken(s, listing[i]) ==> t !in s.schools[listing[i]].members
  {
    if listing == [] then None
    else if IsSchoolToken(s, listing[0]) && t in s.schools[listing[0]].members then Some(listing[0])
    else
      var r := GetSchoolForToken(s, t, listing[1..]);
      assert forall i :: 1 <= i < |listing| ==> listing[i] == listing[1..][i - 1];
      r
  }

  /** In a valid store a user belongs to at most one school, so the answer
      does not depend on the listing order: it is the school that lists the
      token, if any. */
  lemma SchoolForTokenUnique(s: Store, t: string, listing: seq<string>, sc: string)
    requires ValidStore(s)
    requires forall x :: x in s.schools ==> x in listing
    requires sc in s.schools
    ensures GetSchoolForToken(s, t, listing) == Some(sc) <==> t in s.schools[sc].members
  {
    ResolvesToOwnDir(s, sc);
    var r := GetSchoolForToken(s, t, listing);
    if t in s.schools[sc].members {
      var i :| 0 <= i < |listing| && listing[i] == sc;
      assert r.Some?;
    }
  }

  /** Which games a user lists does not bear on validity. */
  lemma UserGamesKeepValid(s: Store, users: map<string, set<string>>)
    requires ValidStore(s) && users.Keys == s.users.Keys
    ensures ValidStore(s.(users := users))
  {
  }

  /** Deleting the one game g unlinks it from exactly its players. */
  lemma DeleteOneGame(s: Store, g: string)
    requires g in s.games
    ensures var r := DeleteGames(s, {g});
      && r.users == (map u | u in s.users :: if u in s.games[g].players then s.users[u] - {g} else s.users[u])
      && r.files == s.files - {Dir(Games, g)}
  {
    var r := DeleteGames(s, {g});
    forall u | u in s.users
      ensures r.users[u] == if u in s.games[g].players then s.users[u] - {g} else s.users[u]
    {
      assert PlayedIn(s, {g}, u) == if u in s.games[g].players then {g} else {};
    }
    assert r.users == (map u | u in s.users :: if u in s.games[g].players then s.users[u] - {g} else s.users[u]);
    assert GameDirs({g}) == {Dir(Games, g)};
  }

  /** Deleting one game, from the state where its players are already
      unlinked: it leaves the default competition, the game map and the
      file tree, and validity is kept. */
  lemma DeleteOneGameState(s0: Store, g: string, s1: Store)
    requires ValidStore(s0) && g in s0.games && DefaultComp in s0.comps
    requires s1 == s0.(users := map u | u in s0.users :: if u in s0.games[g].players then s0.users[u] - {g} else s0.users[u])
    ensures ValidStore(DeleteGames(s0, {g}))
    ensures DeleteGames(s0, {g}) == s1.(games := s1.games - {g},
      comps := s1.comps[DefaultComp := s1.comps[DefaultComp].(games := s1.comps[DefaultComp].games - {g})],
      files := s1.files - {Dir(Games, g)})
  {
    DeleteOneGame(s0, g);
    DeleteGamesKeepsValid(s0, {g});
  }

  /** Writing the files of a token's own directory keeps validity. */
  lemma PutFilesKeepsValid(s: Store, t: string, f: DirFiles)
    requires ValidStore(s) && DirForToken(s, t).Some?
    ensures ValidStore(s.(files := s.files[DirForToken(s, t).value := f]))
  {
  }

  // ---------------------------------------------------------------------
  // The database object
  // ---------------------------------------------------------------------

  /** `GameDB(root_dir)` over the tree found on disk. */
  class GameDB {
    var users: map<string, set<string>>
    var games: map<string, GameRec>
    var schools: map<string, SchoolRec>
    var comps: map<string, CompRec>
    var exceptions: map<string, PyValue>
    var files: map<Dir, DirFiles>

    function State(): Store
      reads this
    {
      Store(users, games, schools, comps, exceptions, files)
    }

    ghost predicate Valid()
      reads this
    {
      ValidStore(State())
    }

    constructor (initial: Store)
      requires ValidStore(initial)
      ensures Valid() && State() == initial
    {
      users, games, schools := initial.users, initial.games, initial.schools;
      comps, exceptions, files := initial.comps, initial.exceptions, initial.files;
    }

    /** `__get_new_token(tokens, prefix)`: draws until the token is not in
        the list (the user tokens when the list is empty). */
    method NewToken(tokens: set<string>, prefix: string, draws: seq<string>) returns (t: string)
      requires SomeFresh(prefix, draws, Taken(tokens, users.Keys))
      ensures t == Minted(prefix, draws, Taken(tokens, users.Keys))
    {
      var taken := if tokens == {} then users.Keys else tokens;
      var k := 0;
      t := prefix + draws[0];
      while t in taken
        invariant 0 <= k < |draws| && t == prefix + draws[k]
        invariant forall j :: 0 <= j < k ==> prefix + draws[j] in taken
        decreases |draws| - k
      {
        k := k + 1;
        t := prefix + draws[k];
      }
    }

    /** `get_new_token(school_tk)`. */
    method GetNewToken(school: string, draws: seq<string>) returns (r: Result<string, PyError>)
      requires Valid()
      requires forall k :: 0 <= k < |draws| ==> IsSuffix(draws[k])
      requires SomeFresh("", draws, users.Keys)
      modifies this
      ensures Valid()
      ensures (State(), r) == GetNewTokenSpec(old(State()), school, Minted("", draws, old(users.Keys)))
    {
      if !IsSchoolToken(State(), school) {
        return Err(AssertionError);
      }
      ghost var s0 := State();
      var t := NewToken({}, "", draws);
      MintedIsFresh("", draws, users.Keys);
      schools := schools[school := schools[school].(members := schools[school].members + {t})];
      users := users[t := {}];
      r := Ok(t);
      assert (State(), r) == GetNewTokenSpec(s0, school, t);
    }

    /** `add_new_school(name)`. */
    method AddNewSchool(name: string, draws: seq<string>) returns (r: Result<string, PyError>)
      requires Valid()
      requires forall k :: 0 <= k < |draws| ==> IsSuffix(draws[k])
      requires SomeFresh("S", draws, Taken(schools.Keys, users.Keys))
      modifies this
      ensures Valid()
      ensures (State(), r) == AddNewSchoolSpec(old(State()), Minted("S", draws, Taken(old(schools.Keys), old(users.Keys))), name)
    {
      var t := NewToken(schools.Keys, "S", draws);
      MintedIsFresh("S", draws, Taken(schools.Keys, users.Keys));
      ghost var spec := AddNewSchoolSpec(State(), t, name);
      if t in schools {
        return Err(FileExistsError);
      }
      schools := schools[t := SchoolRec(name, {})];
      assert State() == spec.0;
      r := Ok(t);
    }

    /** `add_new_competition(name, _token)`: a given token is used as it
        is; validity is kept when it has the shape of a minted one. */
    method AddNewCompetition(name: string, token: Option<string>, draws: seq<string>) returns (r: Result<string, PyError>)
      requires Valid()
      requires forall k :: 0 <= k < |draws| ==> IsSuffix(draws[k])
      requires token.None? ==> SomeFresh("P", draws, Taken(comps.Keys, users.Keys))
      modifies this
      ensures token.None? || Shaped(token.value, "P") ==> Valid()
      ensures var t := if token.Some? then token.value else Minted("P", draws, Taken(old(comps.Keys), old(users.Keys)));
        (State(), r) == AddNewCompetitionSpec(old(State()), t, name)
    {
      var t;
      if token.None? {
        t := NewToken(comps.Keys, "P", draws);
        MintedIsFresh("P", draws, Taken(comps.Keys, users.Keys));
      } else {
        t := token.value;
      }
      ghost var spec := AddNewCompetitionSpec(State(), t, name);
      if t in comps {
        return Err(FileExistsError);
      }
      comps := comps[t := CompRec(name, {})];
      assert State() == spec.0;
      r := Ok(t);
    }

    /** `save_exception(exception_report)`. */
    method SaveException(report: PyValue, draws: seq<string>) returns (r: Result<string, PyError>)
      requires Valid()
      requires forall k :: 0 <= k < |draws| ==> IsSuffix(draws[k])
      requires SomeFresh("E", draws, Taken(exceptions.Keys, users.Keys))
      modifies this
      ensures Valid()
      ensures (State(), r) == SaveExceptionSpec(old(State()), Minted("E", draws, Taken(old(exceptions.Keys), old(users.Keys))), report)
    {
      var t := NewToken(exceptions.Keys, "E", draws);
      MintedIsFresh("E", draws, Taken(exceptions.Keys, users.Keys));
      if t in exceptions {
        return Err(FileExistsError);
      }
      exceptions := exceptions[t := report];
      r := Ok(t);
    }

    /** `save_value(token, key, value)`. */
    method SaveValue(t: string, key: string, v: PyValue) returns (o: Outcome<PyError>)
      requires Valid()
      modifies this
      ensures Valid()
      ensures (State(), o) == SaveValueSpec(old(State()), t, key, v)
    {
      var d := DirForToken(State(), t);
      if d.None? {
        return Fail(TypeError);
      }
      if !Storable(v) {
        return Fail(AssertionError);
      }
      ghost var s0 := State();
      var f := FilesAt(State(), d.value);
      files := files[d.value := f.(kv := f.kv[key := v])];
      o := Pass;
      assert (State(), o) == SaveValueSpec(s0, t, key, v);
    }

    /** `save_avg_score(token, score)`. */
    method SaveAvgScore(t: string, score: int) returns (o: Outcome<PyError>)
      requires Valid()
      modifies this
      ensures Valid()
      ensures (State(), o) == SaveAvgScoreSpec(old(State()), t, score)
    {
      var d := DirForToken(State(), t);
      if d.None? {
        return Fail(TypeError);
      }
      ghost var s0 := State();
      var f := FilesAt(State(), d.value);
      files := files[d.value := f.(avgScore := Some(score))];
      o := Pass;
      assert (State(), o) == SaveAvgScoreSpec(s0, t, score);
    }

    /** `save_code(token, code, options, set_as_active)` at clock reading
        `ctime` with content hash `codeHash`. */
    method SaveCode(t: string, code: Option<string>, options: Options, setAsActive: bool, ctime: nat, codeHash: string)
      returns (o: Outcome<PyError>)
      requires Valid()
      modifies this
      ensures Valid()
      ensures (State(), o) == SaveCodeSpec(old(State()), t, code, options, setAsActive, VersionName(ctime, codeHash))
    {
      var d := DirForToken(State(), t);
      if d.None? || code.None? {
        return Fail(TypeError);
      }
      ghost var s0 := State();
      var name := VersionName(ctime, codeHash);
      var f := FilesAt(State(), d.value);
      if name in f.versions {
        return Fail(ValueError);
      }
      PutFilesKeepsValid(s0, t, f.(versions := f.versions[name := Version(code.value, options)]));
      files := files[d.value := f.(versions := f.versions[name := Version(code.value, options)])];
      ghost var s1 := State();
      assert s1 == s0.(files := s0.files[d.value := f.(versions := f.versions[name := Version(code.value, options)])]);
      if setAsActive {
        o := SaveValue(t, ActiveCodeKey, PyStr(name));
        assert (State(), o) == SaveValueSpec(s1, t, ActiveCodeKey, PyStr(name));
      } else {
        o := Pass;
      }
      assert (State(), o) == SaveCodeSpec(s0, t, code, options, setAsActive, name);
    }

    /** `get_active_code_and_options(token)`; a migration saves at clock
        reading `ctime` with content hash `codeHash`. */
    method GetActiveCodeAndOptions(t: string, ctime: nat, codeHash: string) returns (r: Result<(Option<string>, Options), PyError>)
      requires Valid()
      modifies this
      ensures Valid()
      ensures (State(), r) == GetActiveCodeSpec(old(State()), t, VersionName(ctime, codeHash))
    {
      var active := GetValue(State(), t, ActiveCodeKey, PyNone);
      if active.Err? {
        return Err(active.error);
      }
      var f := FilesAt(State(), DirForToken(State(), t).value);
      if Truthy(active.value) {
        if !active.value.PyStr? {
          return Err(TypeError);
        }
        if active.value.s in f.versions {
          var v := f.versions[active.value.s];
          return Ok((Some(v.code), v.options));
        }
        return Ok((None, map[]));
      }
      var code := f.flatCode;
      var options := f.flatOptions;
      if (code.Some? && code.value != "") || options != map[] {
        var o := SaveCode(t, code, options, true, ctime, codeHash);
        if o.Fail? {
          return Err(o.error);
        }
      }
      r := Ok((code, options));
    }

    /** `set_game_player(gtoken, token, data)`. */
    method SetGamePlayer(g: string, p: string, data: PyValue) returns (o: Outcome<PyError>)
      requires Valid()
      modifies this
      ensures Valid()
      ensures (State(), o) == SetGamePlayerSpec(old(State()), g, p, data)
    {
      var d := DirForToken(State(), g);
      if d.None? {
        return Fail(TypeError);
      }
      if d.value.kind != Games || p !in users {
        return Fail(AssertionError);
      }
      if p in games[g].players {
        return Fail(FileExistsError);
      }
      ghost var s0 := State();
      games := games[g := games[g].(players := games[g].players[p := data])];
      users := users[p := users[p] + {g}];
      o := Pass;
      assert (State(), o) == SetGamePlayerSpec(s0, g, p, data);
    }

    /** The `set_game_player` loop of `add_new_game`. */
    method SetPlayersOp(g: string, ps: seq<(string, PyValue)>) returns (o: Outcome<PyError>)
      requires Valid()
      modifies this
      ensures Valid()
      ensures (State(), o) == SetPlayers(old(State()), g, ps)
    {
      ghost var s1 := State();
      var k := 0;
      while k < |ps|
        invariant 0 <= k <= |ps|
        invariant Valid()
        invariant SetPlayers(s1, g, ps) == SetPlayers(State(), g, ps[k..])
      {
        SetPlayersUnfold(State(), g, ps, k);
        o := SetGamePlayer(g, ps[k].0, ps[k].1);
        if o.Fail? {
          return;
        }
        k := k + 1;
      }
      assert ps[k..] == [];
      o := Pass;
    }

    /** `add_new_game(frames, per_player_data, player_tokens)` at clock
        reading `ctime`. */
    method AddNewGame(frames: Option<PyValue>, perPlayerData: Option<seq<(string, PyValue)>>, playerTokens: Option<seq<string>>,
                      draws: seq<string>, ctime: real) returns (r: Result<string, PyError>)
      requires Valid()
      requires forall k :: 0 <= k < |draws| ==> IsSuffix(draws[k])
      requires SomeFresh("G", draws, Taken(games.Keys, users.Keys))
      modifies this
      ensures Valid()
      ensures (State(), r) == AddNewGameSpec(old(State()), Minted("G", draws, Taken(old(games.Keys), old(users.Keys))), frames, perPlayerData, playerTokens, ctime)
    {
      if perPlayerData.Some? && playerTokens.Some? {
        return Err(AssertionError);
      }
      ghost var s0 := State();
      var t := NewToken(games.Keys, "G", draws);
      MintedIsFresh("G", draws, Taken(games.Keys, users.Keys));
      if t in games {
        return Err(FileExistsError);
      }
      var rec := GameRec(map[], frames, None);
      PutGameKeepsValid(s0, t, rec);
      games := games[t := rec];
      ghost var s1 := State();
      var ps := PlayerList(perPlayerData, playerTokens);
      var o := SetPlayersOp(t, ps);
      ghost var s2 := State();
      if o.Fail? {
        return Err(o.error);
      }
      var g := games[t].(ctime := Some(ctime));
      PutGameKeepsValid(s2, t, g);
      games := games[t := g];
      assert State() == s2.(games := s2.games[t := g]);
      r := Ok(t);
    }

    /** `add_game_to_comp(ctoken, gtoken)`. */
    method AddGameToComp(c: string, g: string) returns (o: Outcome<PyError>)
      requires Valid()
      modifies this
      ensures Valid()
      ensures (State(), o) == AddGameToCompSpec(old(State()), c, g)
    {
      ghost var r := AddGameToCompSpec(State(), c, g);
      var d := DirForToken(State(), c);
      if d.None? {
        return Fail(TypeError);
      }
      if d.value.kind == Data {
        users := users[c := users[c] + {g}];
      } else if d.value.kind == Competitions {
        comps := comps[c := comps[c].(games := comps[c].games + {g})];
      } else {
        return Fail(FileNotFoundError);
      }
      assert State() == r.0;
      o := Pass;
    }

    /** `remove_game_from_comp(ctoken, gtoken)`. */
    method RemoveGameFromComp(c: string, g: string) returns (o: Outcome<PyError>)
      requires Valid()
      modifies this
      ensures Valid()
      ensures (State(), o) == RemoveGameFromCompSpec(old(State()), c, g)
    {
      ghost var r := RemoveGameFromCompSpec(State(), c, g);
      var d := DirForToken(State(), c);
      if d.None? {
        return Fail(TypeError);
      }
      if d.value.kind == Data && g in users[c] {
        users := users[c := users[c] - {g}];
      } else if d.value.kind == Competitions && g in comps[c].games {
        comps := comps[c := comps[c].(games := comps[c].games - {g})];
      } else {
        return Fail(FileNotFoundError);
      }
      assert State() == r.0;
      o := Pass;
    }

    /** The player loop of `delete_game(gtoken)`: removes the game from the
        games of each player (in whatever order the `players` directory
        lists them), failing at a player that does not list it. */
    method UnlinkPlayers(g: string) returns (o: Outcome<PyError>)
      requires g in games && games[g].players.Keys <= users.Keys
      modifies this
      ensures games == old(games) && comps == old(comps) && schools == old(schools)
      ensures exceptions == old(exceptions) && files == old(files)
      ensures users.Keys == old(users.Keys)
      ensures forall u :: u in users ==> users[u] == old(users[u]) || users[u] == old(users[u]) - {g}
      ensures o.Pass? <==> forall p :: p in old(games[g].players) ==> g in old(users[p])
      ensures o.Pass? ==> users == map u | u in old(users) :: if u in old(games[g].players) then old(users[u]) - {g} else old(users[u])
    {
      ghost var before := users;
      var todo := games[g].players.Keys;
      ghost var done: set<string> := {};
      while todo != {}
        invariant games == old(games) && comps == old(comps) && schools == old(schools)
        invariant exceptions == old(exceptions) && files == old(files) && before == old(users)
        invariant todo !! done && todo + done == games[g].players.Keys
        invariant users == map u | u in before :: if u in done then before[u] - {g} else before[u]
        invariant forall p :: p in done ==> g in before[p]
        decreases todo
      {
        var p :| p in todo;
        if g !in users[p] {
          return Fail(FileNotFoundError);
        }
        users := users[p := users[p] - {g}];
        todo := todo - {p};
        done := done + {p};
      }
      o := Pass;
    }

    /** `delete_game(gtoken)`: unlinks the game from each player, from the
        default competition, then removes its directory. A failure part
        way leaves some players unlinked. */
    method DeleteGame(g: string) returns (o: Outcome<PyError>)
      requires Valid()
      modifies this
      ensures Valid()
      ensures o.Pass? <==> Deletable(old(State()), g)
      ensures o.Pass? ==> State() == DeleteGames(old(State()), {g})
      ensures !IsGameToken(old(State()), g) ==> o == Fail(AssertionError) && State() == old(State())
      ensures o.Fail? ==> games == old(games) && comps == old(comps) && schools == old(schools) && files == old(files)
      ensures o.Fail? ==> users.Keys == old(users.Keys) && forall u :: u in users ==> users[u] == old(users[u]) || users[u] == old(users[u]) - {g}
      ensures o.Fail? ==> PartlyUnlinked(old(State()), State(), g)
    {
      if g !in games {
        return Fail(AssertionError);
      }
      ghost var s0 := State();
      o := UnlinkPlayers(g);
      UserGamesKeepValid(s0, users);
      assert State() == s0.(users := users);
      if o.Fail? {
        assert !Deletable(s0, g);
        return;
      }
      var inDefault := GetGamesForToken(State(), DefaultComp);
      if inDefault.Err? {
        assert !IsCompToken(s0, DefaultComp);
        return Fail(ValueError);
      }
      assert |DefaultComp| == 9 && DefaultComp !in users;
      DropUnlinkedGame(g, g in inDefault.value, s0);
      assert Deletable(s0, g);
    }

    /** The rest of `delete_game` once every player is unlinked: the game
        leaves the default competition's list when it is there, then its
        record and directory go. */
    method DropUnlinkedGame(g: string, listed: bool, ghost s0: Store)
      requires ValidStore(s0) && g in s0.games && DefaultComp in s0.comps
      requires State() == s0.(users := map u | u in s0.users :: if u in s0.games[g].players then s0.users[u] - {g} else s0.users[u])
      requires listed <==> g in comps[DefaultComp].games
      modifies this
      ensures Valid() && State() == DeleteGames(s0, {g})
    {
      ghost var s1 := State();
      DeleteOneGameState(s0, g, s1);
      if listed {
        comps := comps[DefaultComp := comps[DefaultComp].(games := comps[DefaultComp].games - {g})];
      } else {
        assert comps[DefaultComp].(games := comps[DefaultComp].games - {g}) == comps[DefaultComp];
      }
      games := games - {g};
      files := files - {Dir(Games, g)};
      assert State() == s1.(games := s1.games - {g},
        comps := s1.comps[DefaultComp := s1.comps[DefaultComp].(games := s1.comps[DefaultComp].games - {g})],
        files := s1.files - {Dir(Games, g)});
    }

    /** `replace_games_in_comp(ctoken, new_gtokens, cleanup)` on a
        competition: its game list becomes `new_gtokens`, then, with
        `cleanup`, every game listed before is deleted (in whatever order the
        listing gives), stopping at the first failure. */
    method ReplaceGamesInComp(c: string, newGtokens: seq<string>, cleanup: bool) returns (o: Outcome<PyError>)
      requires Valid() && IsCompToken(State(), c)
      modifies this
      ensures Valid()
      ensures var mid := old(State()).(comps := old(comps)[c := old(comps[c]).(games := set g | g in newGtokens)]);
        var stale := if cleanup then old(comps[c].games) else {};
        && (o.Pass? <==> forall g :: g in stale ==> Deletable(mid, g))
        && (o.Pass? ==> State() == DeleteGames(mid, stale))
    {
      var stale := if cleanup then comps[c].games else {};
      var listed := set g | g in newGtokens;
      SetCompGamesKeepsValid(State(), c, listed);
      comps := comps[c := comps[c].(games := listed)];
      ghost var mid := State();
      var todo := stale;
      ghost var done: set<string> := {};
      DeleteNothing(mid);
      while todo != {}
        invariant todo !! done && todo + done == stale
        invariant Valid()
        invariant State() == DeleteGames(mid, done)
        invariant forall g :: g in done ==> Deletable(mid, g)
        decreases todo
      {
        var g :| g in todo;
        DeletableAfter(mid, done, g);
        o := DeleteGame(g);
        if o.Fail? {
          return;
        }
        DeleteGamesStep(mid, done, g);
        MoveOne(todo, done, stale, g);
        todo := todo - {g};
        done := done + {g};
      }
      o := Pass;
    }
  }
}
