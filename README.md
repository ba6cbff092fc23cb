# CYLGame core, modelled in Dafny

CYLGame is a framework for small console games that students play by
writing bots. A server keeps the students' code, the games played and the
scores in a directory-tree database, and runs competitions between the
bots of each school. This project models the logic underneath:

- **Database** (`database.dfy`, `cache.dfy`): the `GameDB` store as maps
  from tokens to records. It covers:
  - minting tokens and classifying them;
  - the per-token key/value sidecar;
  - versioned code with an active pointer, and the migration of the old
    flat layout;
  - creating games with back-links into each player's game set;
  - competitions' game sets, deleting games, and replacing a
    competition's games in bulk.

  `WWWCache.safe_replace_cache` is modelled over a map from directory
  names to contents.
- **Competitions** (`comp.dfy`, `utils.dfy`):
  - `Ranking` and the sampling of rooms, with filler bots;
  - folding rankings into per-bot running means, and the rolling
    variant that restores and saves its state through the sidecar;
  - picking the best bot per school;
  - the runner's clean-up cadence and `clean_up_old_games`;
  - `OnlineMean` and `choose`.
- **Maps and buffers**:
  - the two-dict `ConstMapping` (`const_mapping.dfy`);
  - the older symmetric-dict `ConstMapping`, `int2base` and the grid move
    constants (`game.dfy`);
  - the map panel's character index, the message and status panels
    (`panels.dfy`);
  - the grid frame buffer over a two-dimensional array (`frame.dfy`).
- **Index arithmetic**:
  - sprite-sheet recolouring: mixed-radix block layout, the colour
    replace loop over a pixel grid, char validity, `Char` arithmetic
    (`sprite.dfy`);
  - char/pixel conversions, the glyph crop and cache, and the
    single-display guard (`display.dfy`).
- **State machines**: the tic-tac-toe example game (`tic_tac_toe.dfy`)
  and the replay player's navigation controller from `player.js`
  (`replay_player.dfy`).

Python's semantics are spelled out where they matter: floor division and
modulo, truncating `int()`, negative indices and slices, and exceptions as
`Result`/`Outcome` values. These helpers live in `common.dfy`. Random
draws, clocks, content hashes and whether a compile or a rename succeeds
are inputs to the operations that use them.

Objects that the source updates in place are classes with `modifies`
clauses. Each state-changing method is proved equal to a specification
function on the state (`(State(), r) == XSpec(old(State()), ...)`), and
lemmas state what those functions promise.

## Model

| member | source | states |
|---|---|---|
| Utils.Step | CYLGame/Utils.py:14-21 | the first `add` sets the mean to x; a later one keeps `mean·(i+1) = old mean·i + x`; the count grows by one |
| Utils.AddAllFromRestored | CYLGame/Utils.py:14-21 | from a restored (i, m) with i > 0, adding xs gives count i+|xs| and a total (mean times count) of `m·i + sum(xs)` |
| Utils.AddAllFromFreshIsAverage | tests/utils/test_OnlineMean.py:5-24 | from a fresh accumulator, adding xs gives count |xs| and mean sum(xs)/|xs| |
| Utils.OnlineMean.constructor | CYLGame/Utils.py:4-7 | the accumulator starts at the given count and mean |
| Utils.OnlineMean.Add | CYLGame/Utils.py:14-21 | the object takes one `Step` in place and returns the new mean |
| Utils.OnlineMean.Plus | CYLGame/Utils.py:9-12 | `a + x` is a fresh accumulator one `Step` past a, and a is unchanged |
| Utils.OnlineMean.FlooredMean | CYLGame/Utils.py:23-25 | `int(mean)`: the floor for non-negative means, truncation toward zero for negative ones |
| Utils.FlooredMeanExamples | tests/utils/test_OnlineMean.py:35-47 | the floored means of [0,1], [1.15,1.33] and [1.75,1.80] are 0, 1 and 1 |
| Utils.RollingStep | tests/utils/test_OnlineMean.py:70-81 | with a rolling bound r, the count never passes r, stays at r once reached, and below r the step is the plain `Step` |
| Utils.RollingAgreesBeforeThreshold | tests/utils/test_OnlineMean.py:70-81 | for at most r values, the rolling mean equals the plain mean |
| Utils.RollingCountBounded | tests/utils/test_OnlineMean.py:70-81 | the rolling count stays at most r and equals r once r values have been added |
| Utils.RollingExamples | tests/utils/test_OnlineMean.py:70-81 | [0,100,100,100,100,100] with r=2 gives 96.875, and [0]+[100]×10 with r=10 gives 91 |
| Utils.AddAllSplit | CYLGame/Utils.py:14-21 | adding xs then ys is adding xs+ys |
| Utils.RollingAddAllSplit | tests/utils/test_OnlineMean.py:70-81 | the same split law for the rolling mean |
| Utils.ChooseAbsorption | tests/utils/test_choose.py:6-13 | k·C(n,k) = n·C(n−1,k−1), the recurrence that pins `choose` to the binomial coefficient |
| Utils.ChooseOne | tests/utils/test_choose.py:6-13 | C(n,1) = n |
| Utils.ChooseExamples | tests/utils/test_choose.py:6-13 | C(1,1)=1, C(2,2)=1, C(4,2)=6, C(52,5)=2598960 |
| ConstMappingStruct.Unbind | CYLGame/structures/const_mapping.py:57-60 | dropping a name keeps the two dicts exact inverses and removes exactly that name |
| ConstMappingStruct.SetSpec | CYLGame/structures/const_mapping.py:52-64 | `__setitem__` keeps the two dicts exact inverses, whether it succeeds or fails |
| ConstMappingStruct.UpdateSpec | CYLGame/structures/const_mapping.py:27-29 | `update` (each pair set in order) keeps the two dicts exact inverses |
| ConstMappingStruct.SetThenLookup | CYLGame/structures/const_mapping.py:52-64 | after a successful `m[k] = v`, `m[k]` is v, `m[v]` is k, and the names gain k |
| ConstMappingStruct.SetFailsIff | CYLGame/structures/const_mapping.py:52-64 | setting fails exactly when the key is not a str, the value is not an int, or the value is owned by another name |
| ConstMappingStruct.LookupRoundTrip | CYLGame/structures/const_mapping.py:45-50 | looking up the result of a lookup gives back the item |
| ConstMappingStruct.InverseSameSize | CYLGame/structures/const_mapping.py:71-72 | the two dicts always have the same size |
| ConstMappingStruct.EmptyInverse | CYLGame/structures/const_mapping.py:2-25 | no names means no values |
| ConstMappingStruct.ValsAreImage | CYLGame/structures/const_mapping.py:52-69 | the values dict's keys are exactly the values of the names dict |
| ConstMappingStruct.UnbindShrinks | CYLGame/structures/const_mapping.py:66-69 | deleting a bound name shrinks both dicts by one |
| ConstMappingStruct.ConstMapping.Empty | CYLGame/structures/const_mapping.py:2-22 | an empty mapping with both dicts empty |
| ConstMappingStruct.KeywordKeysSpec | CYLGame/structures/const_mapping.py:20-22 | iterating keyword names keeps both dicts inverse |
| ConstMappingStruct.KeywordNames | CYLGame/structures/const_mapping.py:20-22 | one name per keyword argument, in order |
| ConstMappingStruct.KeywordPairs | CYLGame/structures/const_mapping.py:11-12 | one (name, value) pair per keyword argument, in order |
| ConstMappingStruct.InitSpec | CYLGame/structures/const_mapping.py:2-25 | every outcome of the constructor as written leaves both dicts inverse |
| ConstMappingStruct.InitCorrectedSpec | CYLGame/structures/const_mapping.py:2-25 | every outcome of the intended constructor leaves both dicts inverse |
| ConstMappingStruct.KeywordKeysNeverBind | CYLGame/structures/const_mapping.py:20-22 | as written, keyword arguments never bind: the first name raises ValueError unless it has two characters, and then AssertionError, with nothing changed |
| ConstMappingStruct.KeywordArgsAsWritten | CYLGame/structures/const_mapping.py:20-22 | as written `ConstMapping(up=1)` raises AssertionError and `ConstMapping(left=2)` ValueError; as intended `ConstMapping(up=1)` binds "up" to 1 |
| ConstMappingStruct.ConstMapping.Create | CYLGame/structures/const_mapping.py:2-25 | as written: a dict argument wins; otherwise keyword names are unpacked into one-char pairs; otherwise the pairs are iterated, and no argument raises TypeError; success, error and contents are `InitSpec`'s |
| ConstMappingStruct.ConstMapping.UpdateKeywordKeys | CYLGame/structures/const_mapping.py:20-22 | the loop over keyword names ends in `KeywordKeysSpec`'s state and outcome |
| ConstMappingStruct.ConstMapping.CreateCorrected | CYLGame/structures/const_mapping.py:2-25 | as intended: keyword arguments bind each name to its value, no argument gives an empty mapping, and pairs behave as in `Create`; success, error and contents are `InitCorrectedSpec`'s |
| ConstMappingStruct.ConstMapping.Set | CYLGame/structures/const_mapping.py:52-64 | the state and outcome are `SetSpec`'s, and the dicts stay inverse |
| ConstMappingStruct.ConstMapping.Delete | CYLGame/structures/const_mapping.py:66-69 | deleting a bound name unbinds both directions; anything else raises KeyError and changes nothing |
| ConstMappingStruct.ConstMapping.Update | CYLGame/structures/const_mapping.py:27-29 | the state and outcome are `UpdateSpec`'s |
| ConstMappingStruct.ConstMapping.Get | CYLGame/structures/const_mapping.py:42-50 | a str or int index succeeds exactly when it is contained; any other index raises TypeError |
| ConstMappingStruct.ConstMapping.Len | CYLGame/structures/const_mapping.py:71-72 | the length is the number of names, which equals the number of values |
| Game.DigitIndexInverts | CYLGame/Game.py:14-35 | each of the 62 digit characters maps back to its index |
| Game.LowDigits | CYLGame/Game.py:26-30 | every digit is below the base, and there are no digits exactly for zero |
| Game.Render | CYLGame/Game.py:26-30 | one character per digit, namely that digit's character |
| Game.Int2Base | CYLGame/Game.py:14-35 | the loop-based method computes exactly `Int2BaseSpec` |
| Game.AppendDigits | CYLGame/Game.py:26-30 | the digit loop succeeds exactly when every digit is within the table, and then yields the least-significant-first rendering |
| Game.FormatOk | CYLGame/Game.py:31-35 | the result is the sign, then the reversed digits |
| Game.LowValueOfLowDigits | CYLGame/Game.py:26-30 | the digits evaluate back to the number |
| Game.ParseReversed | CYLGame/Game.py:31-35 | parsing the reversed rendering gives the digits' value |
| Game.Int2BaseRoundTrip | CYLGame/Game.py:14-35 | for 2 ≤ base ≤ 62, `int2base` succeeds and parsing its output in that base gives back x |
| Game.Int2BaseShape | CYLGame/Game.py:14-35 | for x ≠ 0: a leading "-" iff x < 0, then a non-empty body of in-base digits with no leading zero |
| Game.LeadingDigitNonZero | CYLGame/Game.py:26-30 | the most significant digit of a positive number is not zero |
| Game.Int2BaseSmallExamples | tests/utils/test_int2base.py:6-17 | 0→"0", 1→"1", −1→"−1" in base 2, and 1→"1" in base 32 |
| Game.Int2BaseHexExample | tests/utils/test_int2base.py:6-17 | 123789213 in base 16 is "760df9d" |
| Game.Int2Base32Example | tests/utils/test_int2base.py:6-17 | 123789213 in base 32 is "3m1nst" |
| Game.Int2BaseSeedExamples | tests/utils/test_int2base.py:6-17 | ±123789213 in base 36 is "21p8d9" and "−21p8d9" |
| Game.RenderExample | CYLGame/Game.py:14-35 | a positive number renders as its digits most significant first, and its negation gets a "-" in front |
| Game.DelSpec | CYLGame/Game.py:177-179 | deleting keeps the dict symmetric |
| Game.SetSpec | CYLGame/Game.py:169-175 | setting keeps the dict symmetric |
| Game.UpdateSpec | CYLGame/Game.py:144-167 | the constructor's pairwise `self[k] = v` keeps the dict symmetric |
| Game.SetThenGet | CYLGame/Game.py:169-175 | after `m[k] = v`, `m[k]` is v and `m[v]` is k |
| Game.SetKeepsOtherPairs | CYLGame/Game.py:169-175 | pairs touching neither k nor v survive, and nothing else is added |
| Game.SetFailsIff | CYLGame/Game.py:169-175 | setting raises KeyError exactly when k or v is paired with itself, because its partner was already deleted |
| Game.DelRemovesPair | CYLGame/Game.py:177-179 | deleting an entry that is not self-paired removes it together with its partner |
| Game.EvenWithoutSelfPairs | CYLGame/Game.py:181-182 | without self-pairs the dict has even size, so `len` counts pairs exactly |
| Game.RemovePair | CYLGame/Game.py:181-182 | removing one pair keeps the dict symmetric and shrinks it by two |
| Game.SelfPairHasNoLength | CYLGame/Game.py:169-182 | `m[k] = k` stores one entry, which `len` counts as zero |
| Game.UpdateFresh | CYLGame/Game.py:144-167 | pairs with fresh, distinct entries all succeed and each pair is stored both ways |
| Game.AddPairsKeeps | CYLGame/Game.py:144-167 | entries that no pair mentions keep their partner |
| Game.ConstMapping.Empty | CYLGame/Game.py:144-167 | an empty symmetric dict |
| Game.KeywordKeysSpec | CYLGame/Game.py:162-164 | iterating keyword names keeps the dict symmetric |
| Game.KeywordNames | CYLGame/Game.py:162-164 | one name per keyword argument, in order |
| Game.KeywordPairs | CYLGame/Game.py:154-155 | one (name, value) pair per keyword argument, in order |
| Game.InitSpec | CYLGame/Game.py:144-167 | every outcome of the constructor as written leaves the dict symmetric |
| Game.InitCorrectedSpec | CYLGame/Game.py:144-167 | every outcome of the intended constructor leaves the dict symmetric |
| Game.KeywordArgsAsWritten | CYLGame/Game.py:162-164 | as written `ConstMapping(up=1)` silently pairs "u" with "p" and `ConstMapping(left=2)` raises ValueError; as intended `ConstMapping(up=1)` pairs "up" with 1 |
| Game.ConstMapping.Create | CYLGame/Game.py:144-167 | as written: a dict argument wins; otherwise keyword names are unpacked into one-char pairs; otherwise the pairs are iterated, and no argument raises TypeError; success, error and contents are `InitSpec`'s |
| Game.ConstMapping.CreateCorrected | CYLGame/Game.py:144-167 | as intended: keyword arguments pair each name with its value, no argument gives an empty dict; success, error and contents are `InitCorrectedSpec`'s |
| Game.ConstMapping.UpdateKeywordKeys | CYLGame/Game.py:162-164 | the loop over keyword names ends in `KeywordKeysSpec`'s dict and outcome |
| Game.ConstMapping.Set | CYLGame/Game.py:169-175 | the new dict and outcome are `SetSpec`'s |
| Game.ConstMapping.Delete | CYLGame/Game.py:177-179 | the new dict and outcome are `DelSpec`'s |
| Game.ConstMapping.Update | CYLGame/Game.py:144-167 | the new dict and outcome are `UpdateSpec`'s |
| Game.ConstMapping.Get | CYLGame/Game.py:144-182 | a lookup succeeds exactly for stored entries, and the result maps back to the key |
| Game.ConstMapping.Len | CYLGame/Game.py:181-182 | the length is half the entries, rounded down |
| Game.MoveConstsTable | CYLGame/Game.py:247-249 | the eight direction names and the codes of w,s,a,d,e,c,q,z are stored both ways |
| Game.GridMoveConsts | CYLGame/Game.py:247-249 | `GridGame.get_move_consts` returns that table |
| Game.BaseMoveConsts | CYLGame/Game.py:121-122 | as written, the base `get_move_consts` raises TypeError |
| Game.BaseMoveConstsCorrected | CYLGame/Game.py:121-122 | corrected: an empty mapping of length 0 |
| Panels.RmPreservesValid | CYLGame/Panels.py:39-45 | `rm_char` keeps every indexed position pointing back at its char |
| Panels.AddPreservesValid | CYLGame/Panels.py:30-36 | `add` keeps every indexed position pointing back at its char |
| Panels.AddThenQuery | CYLGame/Panels.py:30-36 | after `add(c, pos)`: pos reads c, is in c's set and no other, the change is logged, and every other position reads as before |
| Panels.RmUnsetIsNoOp | CYLGame/Panels.py:39-45 | removing an unset position changes nothing |
| Panels.RmLogsIffIndexed | CYLGame/Panels.py:39-45 | a default-char change is logged when the position was indexed, and only then; the position reads as default afterwards |
| Panels.Map.constructor | CYLGame/Panels.py:9-13 | an empty index with the given default char |
| Panels.Map.GetDiff | CYLGame/Panels.py:24-27 | returns the changes so far and resets them to empty |
| Panels.Map.Add | CYLGame/Panels.py:30-36 | the new state is `AddSpec`'s |
| Panels.Map.RmChar | CYLGame/Panels.py:39-45 | the new state is `RmSpec`'s |
| Panels.Map.GetAllPos | CYLGame/Panels.py:48-49 | returns c's positions and inserts them into the char index |
| Panels.Map.GetCharAt | CYLGame/Panels.py:52-53 | returns pos's char or the default, and inserts it into the position index |
| Panels.Split | CYLGame/Panels.py:112-117 | splitting on "\n" gives at least one piece and no piece contains "\n" |
| Panels.FirstNewline | CYLGame/Panels.py:112-117 | the index of the first "\n" |
| Panels.JoinSplit | CYLGame/Panels.py:112-117 | joining the pieces with "\n" gives back the message |
| Panels.SplitJoin | CYLGame/Panels.py:112-117 | splitting a join of newline-free pieces gives back the pieces |
| Panels.LastRows | CYLGame/Panels.py:122-123 | `msgs[-rows:]`: for `rows > 0` the last `rows` messages (all of them when there are fewer); for `rows == 0` all messages; for `rows < 0` all but the first −`rows` messages (none when there are at most −`rows`) |
| Panels.MessagePanel.constructor | CYLGame/Panels.py:83-87 | no messages; h−2 rows and w−2 columns |
| Panels.MessagePanel.GetItem | CYLGame/Panels.py:93-95 | an int index reads with Python's negative indexing or raises IndexError; any other index fails the assertion |
| Panels.MessagePanel.SetItem | CYLGame/Panels.py:99-104 | fails with AssertionError exactly for a non-int key, a non-str value or a value containing "\n", changing nothing; otherwise an in-range key replaces that message and an out-of-range key changes nothing |
| Panels.MessagePanel.Add | CYLGame/Panels.py:112-117 | appends the newline-split pieces of each message in order; a non-iterable fails the assertion |
| Panels.MessagePanel.AppendLines | CYLGame/Panels.py:115-117 | the loop over the messages appends exactly `Lines(items)` and changes nothing else |
| Panels.MessagePanel.Clear | CYLGame/Panels.py:119-120 | empties the messages |
| Panels.MessagePanel.CurrentMessages | CYLGame/Panels.py:122-123 | `msgs[-rows:]` with `rows` = h−2: for h > 2 the last h−2 messages (all of them when there are fewer); for h == 2 all messages; for h < 2 all but the first 2−h messages (none when there are at most 2−h) |
| Panels.StrIntRoundTrip | CYLGame/Panels.py:146-147 | `str()` of an int parses back to the same int |
| Panels.StatusLines | CYLGame/Panels.py:152-156 | one "key: value" line per key, in key order |
| Panels.StatusPanel.constructor | CYLGame/Panels.py:139-141 | no messages, an empty info dict, h−2 rows |
| Panels.StatusPanel.GetItem | CYLGame/Panels.py:143-144 | succeeds exactly for a stored key, with its value |
| Panels.StatusPanel.SetItem | CYLGame/Panels.py:146-147 | stores `str(value)` under `str(key)`; a new key goes to the end of the insertion order |
| Panels.StatusPanel.CurrentMessages | CYLGame/Panels.py:152-156 | rebuilds the messages from the info dict in insertion order and returns the last rows |
| Frame.Resolve | CYLGame/Frame.py:38 | Python indexing: valid exactly for −len ≤ i < len, and a negative index counts from the end |
| Frame.Stored | CYLGame/Frame.py:35-37 | a one-character str is stored as its code, a longer or shorter one fails the assertion, and other values are stored as given |
| Frame.SetCellChangesOneCell | CYLGame/Frame.py:27-38 | `set` succeeds exactly for a storable value at in-range indices, writes exactly that one cell, and changes nothing on failure |
| Frame.GridFrameBuffer.Dump | CYLGame/Frame.py:49-55 | a row-by-row copy of the grid |
| Frame.GridFrameBuffer.Row | CYLGame/Frame.py:49-55 | a copy of one row |
| Frame.GridFrameBuffer.constructor | CYLGame/Frame.py:12-25 | a height × width grid filled with the initial value |
| Frame.GridFrameBuffer.Set | CYLGame/Frame.py:27-38 | the array afterwards and the outcome are those of `SetCell` on the grid before |
| Display.CharSizeToPix | CYLGame/Display.py:97-98 | pixels are chars times the char size |
| Display.PixSizeToChar | CYLGame/Display.py:94-95 | floor division by the char size: ZeroDivisionError for a zero size, otherwise the largest char count that fits |
| Display.CharPixRoundTrip | CYLGame/Display.py:94-98 | converting chars to pixels and back gives the chars |
| Display.PixCharRoundDown | CYLGame/Display.py:94-98 | pixels to chars and back rounds down by less than one char |
| Display.CreateCharImg | CYLGame/Display.py:78-87 | the glyph is one char in size, cropped at column c mod 16 and row c div 16 of the sheet |
| Display.CropInjective | CYLGame/Display.py:78-87 | different chars get different crops |
| Display.CharSet.constructor | CYLGame/Display.py:71-76 | an empty glyph cache |
| Display.CharSet.GetImg | CYLGame/Display.py:89-92 | returns c's glyph; it is created and cached only on the first request |
| Display.Screen.constructor | CYLGame/Display.py:38-51 | no display is open |
| Display.Screen.OpenDisplay | CYLGame/Display.py:38-51 | the first display opens; a second raises an exception and leaves the first |
| Display.SecondDisplayFails | CYLGame/Display.py:38-51 | opening two displays in a row fails the second time |
| Sprite.IsCharValid | CYLGame/Sprite.py:19-22 | an int, a float or a one-character str is valid exactly when it (or its code) is at least 0 and below rows × columns; a str of another length, None and other values raise TypeError |
| Sprite.CharValidByCode | CYLGame/Sprite.py:19-22 | a one-character str is valid exactly when its code is |
| Sprite.Lens | CYLGame/Sprite.py:55-63 | each mapping contributes its size plus one (the unrecoloured slot) |
| Sprite.ProdPositive | CYLGame/Sprite.py:50 | the height factor is at least one |
| Sprite.ReduceIsProd | CYLGame/Sprite.py:50 | the `reduce` of the lengths is their product |
| Sprite.HeightFactor | CYLGame/Sprite.py:50 | no mappings raises TypeError; otherwise the product of the lengths |
| Sprite.InnerSizes | CYLGame/Sprite.py:65-69 | the loop yields, per mapping, the product of the lengths after it |
| Sprite.ProductLength | CYLGame/Sprite.py:82-87 | `itertools.product` yields the product of the lengths many tuples |
| Sprite.ProductAt | CYLGame/Sprite.py:82-87 | tuple p starts with p div (product of the rest), followed by tuple p mod (product of the rest) |
| Sprite.ProductAddressesBlock | CYLGame/Sprite.py:72-87 | tuple p is in range and its weighted sum is p, so block p of the sheet is the recolouring its indices name |
| Sprite.InnerSizeSeq | CYLGame/Sprite.py:65-69 | the inner sizes as a sequence |
| Sprite.WeightIsDot | CYLGame/Sprite.py:65-87 | the block weight is the dot product with the inner sizes |
| Sprite.OffsetOfKey | CYLGame/Sprite.py:72-78 | each non-None key maps to inner size × (its position + 1), and only keys do |
| Sprite.KeyOffsets | CYLGame/Sprite.py:72-78 | the loop computes exactly those offsets |
| Sprite.NewColoring | CYLGame/Sprite.py:35-97 | a size mismatch fails the assertion, no mappings raise TypeError, and otherwise the new sheet is taller by the height factor with the offsets table |
| Sprite.GetMappingValue | CYLGame/Sprite.py:109-111 | succeeds exactly for a known index and key, with the offset times the original size; otherwise KeyError |
| Sprite.GeneratedSheetSize | CYLGame/Sprite.py:82-97 | the new sheet holds one copy of the original per product tuple |
| Sprite.RecolorIdempotent | CYLGame/Sprite.py:100-107 | recolouring twice is recolouring once |
| Sprite.Replace | CYLGame/Sprite.py:100-107 | every pixel of the old colour becomes the new one and every other pixel is unchanged |
| Sprite.TwoDimensionalMappings | CYLGame/Sprite.py:128-134 | a foreground and a background mapping, each from the base colour to the key's colour, in key order |
| Sprite.TwoDimensionalValues | CYLGame/Sprite.py:128-142 | the i-th foreground and j-th background key add up to the index of block (i+1, j+1) |
| Sprite.NewTwoDimensional | CYLGame/Sprite.py:128-134 | succeeds exactly when the image size matches; the sheet is (fg+1)·(bg+1) times taller |
| Sprite.ForegroundValue | CYLGame/Sprite.py:136-138 | the foreground offset exists exactly for a foreground key |
| Sprite.BackgroundValue | CYLGame/Sprite.py:140-142 | the background offset exists exactly for a background key |
| Sprite.FromStr | CYLGame/Sprite.py:150-151 | one character gives its code; anything else raises TypeError |
| Sprite.Plus | CYLGame/Sprite.py:156-162 | adding a Char, an int or a one-character str adds codes; a str of any other length raises TypeError (from `ord` in `Char.from_str`); any other operand gives None |
| Sprite.Equals | CYLGame/Sprite.py:167-174 | compares with a Char or an int by value and with a str by its text; comparing with a str raises ValueError when the value is outside the range `chr` accepts; any other operand raises TypeError |
| Sprite.PlusCommutes | CYLGame/Sprite.py:156-165 | Char addition commutes, and adding a str is adding its Char |
| Sprite.FromStrEquals | CYLGame/Sprite.py:150-174 | a Char made from a str equals that str and its code |
| Sprite.CharPlusValues | CYLGame/Sprite.py:156-162 | `base + fg + bg` with int operands succeeds and its code is the sum of the three |
| TicTacToe.CheckWin | example_game.py:36-47 | non-zero exactly when some line of three is filled by one player, and then it is that player |
| TicTacToe.CheckWinLines | example_game.py:36-47 | the row/column/diagonal scan finds a win exactly when one exists |
| TicTacToe.SpotOf | example_game.py:51-55 | a key names a cell only when it is all digits and in range |
| TicTacToe.DigitKeys | example_game.py:51-55 | "1".."9" name cells 0..8; "0", "Q" and "10" name none; "05" names cell 4 |
| TicTacToe.FirstEmpty | example_game.py:65-68 | the first empty cell, or none when the board is full |
| TicTacToe.InvalidKeyChangesNothing | example_game.py:49-74 | a key that names no empty cell changes neither the grid nor the winner |
| TicTacToe.QuitStops | example_game.py:56-57 | "Q" stops the game and changes nothing else |
| TicTacToe.ValidMove | example_game.py:49-74 | the player's move is placed; a win ends the turn, otherwise the AI moves and its win is recorded |
| TicTacToe.MoveFillsEmptyCells | example_game.py:49-74 | a move changes one or two cells, only empty ones, and never overwrites a filled cell |
| TicTacToe.SpotNamesDistinct | example_game.py:79-83 | different cells have different variable names |
| TicTacToe.TickTackToe.constructor | example_game.py:14-19 | an empty board, running, no winner |
| TicTacToe.TickTackToe.Winner | example_game.py:36-47 | `check_win` on the board |
| TicTacToe.TickTackToe.HandleKey | example_game.py:49-74 | the state and result are `HandleKeySpec`'s |
| TicTacToe.TickTackToe.AiPlays | example_game.py:65-68 | the AI fills the first empty cell |
| TicTacToe.TickTackToe.GetVarsForBot | example_game.py:79-83 | one variable per cell, holding that cell, and nothing else |
| ReplayPlayer.Player.constructor | CYLGame/www/static/player.js:6-22 | stopped at frame 0, 10 fps, 100 ms timeout, default speed |
| ReplayPlayer.Player.ResetSpeed | CYLGame/www/static/player.js:268-270 | the speed returns to the default and nothing else changes |
| ReplayPlayer.Player.Pause | CYLGame/www/static/player.js:233-235 | stops playing and nothing else changes |
| ReplayPlayer.Player.Play | CYLGame/www/static/player.js:237-246 | plays; with no loop running, a player at the last frame rewinds to the start |
| ReplayPlayer.Player.StartDrawLoop | CYLGame/www/static/player.js:279-282 | resets the frame clock |
| ReplayPlayer.Player.Stop | CYLGame/www/static/player.js:225-231 | paused at frame 0 with the default speed |
| ReplayPlayer.Player.OnPrevClick | CYLGame/www/static/player.js:196-204 | pauses and steps back one frame unless at the first |
| ReplayPlayer.Player.OnNextClick | CYLGame/www/static/player.js:206-214 | pauses and steps forward one frame unless at the last |
| ReplayPlayer.Player.OnFasterClick | CYLGame/www/static/player.js:188-246 | always ends up playing forward: twice the default after a backward speed, else twice the old speed; then `play`: with no loop running, a player at the last frame rewinds to frame 0 and the frame clock resets; otherwise the frame and clock are kept |
| ReplayPlayer.Player.OnSlowerClick | CYLGame/www/static/player.js:176-246 | at the last frame it first steps back one frame (unless at frame 0); always ends up playing backward: twice the backward default from the end or from a forward speed, else twice the old speed; then `play`'s rewind and clock reset apply to the stepped frame |
| ReplayPlayer.Player.OnTogglePlayClick | CYLGame/www/static/player.js:216-246 | resets the speed and flips between playing and paused; pausing keeps the frame and clock; playing with no loop running rewinds from the last frame and resets the clock |
| ReplayPlayer.Player.DrawFrames | CYLGame/www/static/player.js:272-277 | loads the replay and plays it from frame 0 at the default speed |
| ReplayPlayer.Player.DrawLoop | CYLGame/www/static/player.js:288-331 | paused: the loop stops and nothing else changes; before the timeout only the clock start is set; after it the exact frame advances by speed × elapsed seconds and the frame is its floor clamped into the variables; an unchanged frame keeps playing; a changed frame marks the loop running, stamps the clock and pauses exactly at the end it runs into or past the frames |
| ReplayPlayer.Clamp | CYLGame/www/static/player.js:298-301 | the frame is clamped into 0..last |
| ReplayPlayer.ClampIdempotent | CYLGame/www/static/player.js:298-301 | clamping twice is clamping once |
| Cache.SidePathsDistinct | CYLGame/Database.py:28-61 | the root, `_tmp` and `_old` paths are pairwise different |
| Cache.CopyTree | CYLGame/Database.py:28-61 | `copytree` succeeds exactly for an existing source and a missing destination, and copies it |
| Cache.RmTree | CYLGame/Database.py:28-61 | `rmtree` removes the tree and fails exactly when it is missing |
| Cache.Rename | CYLGame/Database.py:28-61 | `rename` moves the tree, and fails exactly on a missing source, an existing destination or a refusal |
| Cache.FirstInstall | CYLGame/Database.py:30-32 | with no cache yet, the cache becomes a plain copy of `www_dir`, whatever renames would be refused |
| Cache.SwapSucceeds | CYLGame/Database.py:33-61 | when neither rename is refused, the root holds `www_dir`'s contents, `_tmp` and `_old` are gone, and every other directory is as before |
| Cache.SwapRollsBack | CYLGame/Database.py:49-58 | a refused final rename whose rollback is not refused puts the old root back, leaves the copy in `_tmp`, and raises again |
| Cache.RootSurvives | CYLGame/Database.py:28-61 | an existing cache is at the root or, only when the rollback is refused and an error is raised, in `_old`; when the copy cannot be made the root is untouched |
| Cache.MoveRefused | CYLGame/Database.py:46-49 | a refused root→`_old` rename raises with the root untouched, the copy in `_tmp` and no `_old` |
| Cache.RollbackRefused | CYLGame/Database.py:52-58 | when the swap and the rollback are both refused, the root is missing, the old cache is in `_old`, the copy in `_tmp`, and an error is raised |
| Cache.FileSystem.constructor | CYLGame/Database.py:28-61 | the given directories |
| Cache.FileSystem.CopyTreeOp | CYLGame/Database.py:28-61 | the new directories and outcome are `CopyTree`'s |
| Cache.FileSystem.RmTreeOp | CYLGame/Database.py:28-61 | the new directories and outcome are `RmTree`'s |
| Cache.FileSystem.RenameOp | CYLGame/Database.py:28-61 | the new directories and outcome are `Rename`'s |
| Cache.WWWCache.constructor | CYLGame/Database.py:28-61 | the cache's root directory |
| Cache.WWWCache.SafeReplaceCache | CYLGame/Database.py:28-61 | the file-system calls in order, with the given refusals of the three renames, give `SafeReplace`'s directories and outcome |
| Database.DirForToken | CYLGame/Database.py:162-215 | a token resolves exactly when it is a user, game, school, competition or exception token, and then to an existing directory of its own |
| Database.ShapedHead | CYLGame/Database.py:151-160 | a minted token is the sigil plus eight characters |
| Database.ResolvesToOwnDir | CYLGame/Database.py:162-215 | each registered token resolves to its own kind's directory; school, competition and exception tokens carry their sigil |
| Database.FirstFresh | CYLGame/Database.py:151-160 | the first draw whose token is not taken, with all earlier ones taken |
| Database.MintedIsFresh | CYLGame/Database.py:151-160 | a minted token is well shaped and not already taken |
| Database.GetValue | CYLGame/Database.py:442-445 | fails with TypeError exactly for a token without a directory |
| Database.SaveValueSpec | CYLGame/Database.py:421-440 | succeeds exactly for a resolvable token and a str, int or float value; fails without change otherwise; keeps the store valid |
| Database.SaveThenGet | CYLGame/Database.py:421-445 | after `save_value`, `get_value` returns the saved value, and every other key of every directory reads as before |
| Database.SaveAvgScoreSpec | CYLGame/Database.py:410-419 | succeeds exactly for a resolvable token; fails with TypeError and no change otherwise; keeps the store valid |
| Database.GetAvgScore | CYLGame/Database.py:539-549 | fails with TypeError exactly for a token without a directory |
| Database.SaveAvgThenGet | CYLGame/Database.py:410-549 | after `save_avg_score(t, n)`, `get_avg_score(t)` is n as a float; other tokens' scores and all saved values read as before |
| Database.VersionName | CYLGame/Database.py:362-397 | a version directory name is never empty |
| Database.SaveCodeSpec | CYLGame/Database.py:362-397 | succeeds exactly for a resolvable token, some code and a new version name; an existing version raises ValueError; only that directory changes, gaining the version and, when asked, the active pointer |
| Database.SaveCodeThenActive | CYLGame/Database.py:362-397 | after saving active code, `get_active_code_and_options` returns that code and options |
| Database.FlatCodeMigratesOnce | CYLGame/Database.py:511-530 | flat-layout code with no active pointer is returned and migrated, and a later call returns the same pair without changing the store |
| Database.GetNewTokenSpec | CYLGame/Database.py:217-231 | a non-school raises AssertionError; otherwise a new user joins the school; the store stays valid |
| Database.AddNewSchoolSpec | CYLGame/Database.py:233-244 | fails exactly for an existing token; otherwise registers an empty named school |
| Database.AddNewCompetitionSpec | CYLGame/Database.py:246-258 | fails exactly for an existing token; otherwise registers an empty named competition |
| Database.SaveExceptionSpec | CYLGame/Database.py:586-594 | fails exactly for an existing token; otherwise stores the report |
| Database.GetGamesForToken | CYLGame/Database.py:504-509 | raises ValueError exactly for a token that is neither a user nor a competition |
| Database.SetGamePlayerSpec | CYLGame/Database.py:451-462 | succeeds exactly for a game, a user and a player not yet in it; adds the back-link and the player data and nothing else |
| Database.SetPlayers | CYLGame/Database.py:260-284 | setting players keeps the registries' keys and the store's validity |
| Database.SetPlayersLinks | CYLGame/Database.py:260-284 | after setting players, exactly those users gain the game and the game gains exactly those players |
| Database.SetPlayersData | CYLGame/Database.py:260-284 | each player's data is stored under that player |
| Database.PlayerList | CYLGame/Database.py:260-284 | `player_tokens` give None data each; otherwise `per_player_data` as given; otherwise nobody |
| Database.AddNewGameSpec | CYLGame/Database.py:260-284 | passing both `per_player_data` and `player_tokens` fails the assertion and changes nothing |
| Database.PutGameKeepsValid | CYLGame/Database.py:260-284 | a well-shaped game with registered players keeps the store valid |
| Database.AddNewGameKeepsValid | CYLGame/Database.py:260-284 | `add_new_game` keeps the store valid |
| Database.AddNewGameLinks | CYLGame/Database.py:260-284 | a new game gets a fresh token, its frames, its ctime and exactly its players, each player gains the game, and other games are unchanged |
| Database.AddGameToCompSpec | CYLGame/Database.py:464-466 | adds the game to the competition's set |
| Database.RemoveGameFromCompSpec | CYLGame/Database.py:468-469 | removes the game from the set, or raises when it is not there |
| Database.AddThenRemove | CYLGame/Database.py:464-469 | adding and then removing a game leaves the store as it was |
| Database.DeleteGamesEffect | CYLGame/Database.py:577-584 | deleted games and their directories are gone, their players lose them, P00000000 loses them, and nothing else changes |
| Database.DeleteNothing | CYLGame/Database.py:577-584 | deleting no games changes nothing |
| Database.DeleteGamesStep | CYLGame/Comp.py:561-562 | deleting games one at a time is deleting them together |
| Database.DeletableAfter | CYLGame/Comp.py:561-562 | deleting other games does not change whether a game can be deleted |
| Database.GetSchoolForToken | CYLGame/Database.py:551-555 | the first listed school that has the token as a member, or none if no listed school does |
| Database.SchoolForTokenUnique | CYLGame/Database.py:551-555 | with all schools listed, a token's school is the one that has it as a member |
| Database.UserGamesKeepValid | CYLGame/Database.py:577-584 | rewriting users' game sets keeps the store valid |
| Database.DeleteOneGame | CYLGame/Database.py:577-584 | deleting one game removes it from exactly its players' sets and removes its directory |
| Database.PutFilesKeepsValid | CYLGame/Database.py:421-440 | rewriting a resolvable directory's files keeps the store valid |
| Database.GameDB.constructor | CYLGame/Database.py:162-215 | the database holds a valid initial store |
| Database.GameDB.NewToken | CYLGame/Database.py:151-160 | the minted token for the given draws |
| Database.GameDB.GetNewToken | CYLGame/Database.py:217-231 | the state and result are `GetNewTokenSpec`'s for a fresh user token |
| Database.GameDB.AddNewSchool | CYLGame/Database.py:233-244 | the state and result are `AddNewSchoolSpec`'s for a fresh S token |
| Database.GameDB.AddNewCompetition | CYLGame/Database.py:246-258 | the state and result are `AddNewCompetitionSpec`'s for the given or a fresh P token |
| Database.GameDB.SaveException | CYLGame/Database.py:586-594 | the state and result are `SaveExceptionSpec`'s for a fresh E token |
| Database.GameDB.SaveValue | CYLGame/Database.py:421-440 | the state and outcome are `SaveValueSpec`'s |
| Database.GameDB.SaveAvgScore | CYLGame/Database.py:410-419 | the state and outcome are `SaveAvgScoreSpec`'s |
| Database.GameDB.SaveCode | CYLGame/Database.py:362-397 | the state and outcome are `SaveCodeSpec`'s |
| Database.GameDB.GetActiveCodeAndOptions | CYLGame/Database.py:511-530 | the state and result are `GetActiveCodeSpec`'s, including the flat-layout migration |
| Database.GameDB.SetGamePlayer | CYLGame/Database.py:451-462 | the state and outcome are `SetGamePlayerSpec`'s |
| Database.GameDB.AddNewGame | CYLGame/Database.py:260-284 | the state and result are `AddNewGameSpec`'s for a fresh G token |
| Database.GameDB.AddGameToComp | CYLGame/Database.py:464-466 | the state and outcome are `AddGameToCompSpec`'s |
| Database.GameDB.RemoveGameFromComp | CYLGame/Database.py:468-469 | the state and outcome are `RemoveGameFromCompSpec`'s |
| Database.GameDB.UnlinkPlayers | CYLGame/Database.py:577-584 | succeeds exactly when every player links back to the game, and then removes the game from exactly its players' sets |
| Database.GameDB.DeleteGame | CYLGame/Database.py:577-584 | succeeds exactly for a deletable game, with the state `DeleteGames` gives; an unregistered game fails the assertion and changes nothing; any other failure only removes the game from some players' lists |
| Database.GameDB.DropUnlinkedGame | CYLGame/Database.py:582-584 | once the players are unlinked, dropping the game from P00000000 (when listed) and removing its directory gives `DeleteGames` of the state before the unlinking, and keeps it valid |
| Database.GameDB.ReplaceGamesInComp | CYLGame/Database.py:471-494 | the competition's set becomes the new tokens; with cleanup, every game listed before is deleted, and the call succeeds exactly when all of them can be |
| Comp.RanksOfPlaces | CYLGame/Comp.py:126-135 | every bot is ranked, at its last position in the list |
| Comp.RanksOfDistinct | CYLGame/Comp.py:126-135 | with distinct bots, `bots[i]` is ranked i |
| Comp.SumWithKeywise | CYLGame/Comp.py:137-141 | `+` succeeds exactly when the other is a dict with all of self's keys, giving the key-wise sums over self's keys |
| Comp.SumWithCommutes | CYLGame/Comp.py:137-149 | on equal key sets, adding is symmetric |
| Comp.RankingsDoNotAdd | CYLGame/Comp.py:137-149 | a non-empty ranking plus another Ranking or a number raises TypeError |
| Comp.Ranking.constructor | CYLGame/Comp.py:126-135 | the ranks are the positions of the bots |
| Comp.Ranking.Add | CYLGame/Comp.py:137-141 | `__add__` is the key-wise sum |
| Comp.Ranking.RAdd | CYLGame/Comp.py:143-149 | `0 + r` is r itself; anything else is the key-wise sum |
| Comp.Ranking.AddRank | CYLGame/Comp.py:151-152 | adds to exactly one ranked bot; an unranked bot raises KeyError and changes nothing |
| Comp.Room.constructor | CYLGame/Player.py:33-38 | a room holds its seats |
| Comp.Entrants | CYLGame/Comp.py:197-199 | each sampled bot takes one seat |
| Comp.Fillers | CYLGame/Comp.py:200-201 | the default bots that pad the room to its size |
| Comp.RoomAsWrittenSize | CYLGame/Comp.py:197-202 | as written, a room has room_size+1 seats when there are more bots than that, else room_size |
| Comp.RoomOneTooMany | CYLGame/Comp.py:199 | three bots and room size 2 give a room of 3 |
| Comp.RoomOfShape | CYLGame/Comp.py:197-205 | corrected: exactly room_size distinct seats, the first bots of the shuffle, then fillers |
| Comp.FillRoom | CYLGame/Comp.py:199-202 | the padding loop builds those seats |
| Comp.ScoredCounts | CYLGame/Comp.py:176-185 | a ranking adds one score to each ranked bot that is scored, and no others |
| Comp.TenfoldRanks | CYLGame/Comp.py:184-185 | one score per ranking |
| Comp.ScoredAllIsMean | CYLGame/Comp.py:176-185 | after several rankings, a bot's mean is its old mean with rank×10 of each ranking added |
| Comp.FreshScoreIsAverage | CYLGame/Comp.py:169-185 | from a fresh score, a bot's mean is the average of its ranks×10 |
| Comp.TotalRuns | CYLGame/Comp.py:169 | `run_factor × choose(max(n,4), 4)` is at least `run_factor` for a positive factor |
| Comp.ChooseAtLeastOne | CYLGame/Comp.py:169 | C(n,k) ≥ 1 for k ≤ n |
| Comp.MultiplayerComp.constructor | CYLGame/Comp.py:156-171 | every bot starts with a fresh score, there are no rooms, and `total_runs` is set |
| Comp.MultiplayerComp.Get | CYLGame/Comp.py:187-188 | a bot's score, or KeyError |
| Comp.MultiplayerComp.Next | CYLGame/Comp.py:193-205 | StopIteration after `total_runs` rooms; otherwise a fresh room of the shuffle is recorded and the run count grows |
| Comp.MultiplayerComp.SetItem | CYLGame/Comp.py:176-185 | records the ranking and adds rank×10 to each ranked, scored bot |
| Comp.MultiplayerComp.PlayAll | CYLGame/Comp.py:190-205 | iterating yields exactly the remaining rooms, one per shuffle, and then stops |
| Comp.ScoreRoom | CYLGame/Comp.py:407-416 | the scoring loop computes `Scored` |
| Comp.RestoreUnsaved | CYLGame/Comp.py:387-392 | an unresolvable token fails; a bot with nothing saved restores to a fresh mean |
| Comp.RestoreOfSaved | CYLGame/Comp.py:387-398 | saving a mean and count and restoring gives them back |
| Comp.RollingMultiplayerComp.constructor | CYLGame/Comp.py:372-385 | no scores, no rooms, no bots |
| Comp.RollingMultiplayerComp.AddBot | CYLGame/Comp.py:387-392 | the bot's saved mean and count are restored and the token recorded; a failed read changes nothing |
| Comp.RollingMultiplayerComp.AddBotIfNeeded | CYLGame/Comp.py:400-402 | a recorded token is a no-op; otherwise as `add_bot` |
| Comp.RollingMultiplayerComp.SetItem | CYLGame/Comp.py:407-416 | records the ranking and adds rank×10 to each ranked, scored bot with the rolling bound |
| Comp.RollingMultiplayerComp.Next | CYLGame/Comp.py:421-429 | a fresh room of the shuffle is recorded; scores are unchanged |
| Comp.RollingMultiplayerComp.SaveRollingScores | CYLGame/Comp.py:394-398 | succeeds exactly when every bot resolves, and then each bot restores to its current score and its saved average score is its floored mean; other keys and other tokens' average scores are untouched |
| Comp.SaveScore | CYLGame/Comp.py:395-398 | one bot's mean and count are saved so that they restore, and its floored mean is saved as its average score; a bot without a directory fails with nothing changed, and nothing else changes |
| Comp.AvgUnchangedBySave | CYLGame/Database.py:421-440 | `save_value` leaves every token's average score as it was |
| Comp.SaveScoreSteps | CYLGame/Comp.py:395-398 | the three saves for one resolvable bot all succeed; the bot restores to its score and its average score is its floored mean; only files change, and every other value and average score is kept |
| Comp.SaveValuesStep | CYLGame/Comp.py:395-397 | the two `save_value` calls for one resolvable bot succeed, the bot restores to its score, and every other value and every average score is kept |
| Comp.MakeBot | CYLGame/Comp.py:254-271 | corrected: a bot exactly when the active code exists, is non-empty and compiles; otherwise None |
| Comp.MakeBotHandlerRaises | CYLGame/Comp.py:270-271 | as written, NameError exactly when reading the code fails or the code does not compile; otherwise as corrected |
| Comp.MakeBotNameErrorExamples | CYLGame/Comp.py:536-537 | a lookup error and the code "x = (" both raise NameError as written and give None when corrected |
| Comp.MakeBotFor | CYLGame/Comp.py:521-535 | follows the corrected `make_bot` (see Findings): the store is updated as `get_active_code_and_options` does, and the result is `MakeBot`'s |
| Comp.BestBot | CYLGame/Comp.py:279-292 | none exactly when no user has a score and a bot; otherwise the highest-scoring such user, and the earliest on ties |
| Comp.CleanupPlanKeeps | CYLGame/Comp.py:539-562 | only P00000000's games are deleted; a game is deleted exactly when no user keeps it; each user keeps min(n, their games) of them; games nobody played are deleted |
| Comp.NewestExists | CYLGame/Comp.py:553-555 | a non-empty set of games with ctimes has a newest one |
| Comp.Newest | CYLGame/Comp.py:553-555 | picks the n newest games by ctime |
| Comp.KeepOne | CYLGame/Comp.py:547-556 | one user's kept games: all of them when there are at most n, the n newest otherwise; fails exactly when a needed ctime is missing |
| Comp.KeepMembers | CYLGame/Comp.py:545-556 | the loop over a school's members keeps each member's newest games and removes them from the deletion set |
| Comp.GamesToDelete | CYLGame/Comp.py:539-556 | ValueError without P00000000; otherwise fails exactly when some member's games cannot be sorted, and else yields a `CleanupPlan` |
| Comp.DeleteEach | CYLGame/Comp.py:561-562 | succeeds exactly when every game can be deleted, and then deletes them all; on failure the games deleted before it stay deleted, and the failing, undeletable game is at most unlinked from some players |
| Comp.CleanUpOldGames | CYLGame/Comp.py:539-562 | on success the store is the plan's deletions applied; the two failures of the planning step leave the store unchanged; a failing `delete_game` leaves the plan's earlier deletions in place and the failing game at most partly unlinked |
| Comp.CleansOn | CYLGame/Comp.py:515 | `i % rolling_n == 0`, and ZeroDivisionError exactly for rolling_n = 0 |
| Comp.CleansEveryNPasses | CYLGame/Comp.py:459-519 | clean-up runs on the first pass and then exactly every rolling_n passes |
| Comp.RollingRunner.constructor | CYLGame/Comp.py:459-461 | the pass counter starts at −1 |
| Comp.RollingRunner.StartPass | CYLGame/Comp.py:473-519 | the counter grows by one, clean-up runs exactly on the cadence, and a pass without clean-up leaves the store unchanged |

## Left out

- Drawing and I/O: PIL images, pygame surfaces, the tic-tac-toe drawing, `draw_to_surface`, and the DOM and animation-frame scheduling of `player.js` are not modelled. Glyphs are crop rectangles and images are colour grids.
- Python values: Unicode `isdigit` is modelled as ASCII digits. `str()` of floats is not modelled.
- Floating point, ±inf and NaN: means are `real`. A mean saved to the sidecar is saved as a float value.
- Database encodings: gzip, msgpack, the content hash, the clock and random draws are inputs. Options are modelled as dicts. Creating an empty code directory is not modelled.
- Database.GameDB.GetNewToken: the `_token` parameter of `get_new_token` and `add_new_school` is left out. `add_new_competition` keeps it, and it must be well shaped for the store to stay valid.
- Database.GameDB.ReplaceGamesInComp: requires a registered competition token. It states nothing about the state after a failed clean-up. The rename steps of the on-disk replace cannot fail here.
- Database.GameDB.DeleteGame: on failure it states only that users' game lists are the only change, each at most losing the game. It does not say which players were unlinked before the failing one.
- `get_name`, `save_name` and the competition–school functions of `GameDB` are not modelled. The `avg_score` file is modelled as the int whose text `save_avg_score` writes, so the `ValueError` fallback of `get_avg_score` for a file that does not parse is not modelled.
- Panels.StatusPanel.SetItem: requires a str, int or None key and value, because `str()` of other values is not modelled.
- Comp.BestBot: `make_bot` is abstracted as a set of usable tokens with the corrected semantics. As written, a failing compile raises NameError out of `sim_comp` (see Findings). Code migration inside `make_bot` is not modelled there, and the school and member listings are inputs.
- Comp.RollingRunner.StartPass: only the pass counter and the clean-up are modelled. The scoring part of `__run` is not.
- Comp.Newest: ties in the ctime sort may be broken either way.
- Comp.RollingMultiplayerComp.AddBot: `Restored` refuses a saved `rolling_n` that is not a non-negative int (a float count or a negative count) and a saved `rolling_score` that is neither an int nor a float, and `AddBot` then fails with TypeError and changes nothing; `add_bot` (`CYLGame/Comp.py:387-392`) would build the `OnlineMean` from those values anyway.
- Comp.RollingMultiplayerComp.constructor: requires `rolling_n >= 1`. A bot is its token. A restored count that is not a non-negative int (a float count or a negative count included), or a mean that is not an int or a float, fails at restore time, where Python would build the `OnlineMean` anyway.
- Comp.RollingMultiplayerComp.SetItem: assumes that `self.scores[k.prog] += value.ranks[k] * 10` keeps each score's rolling bound. `OnlineMean.__add__` in `CYLGame/Utils.py:9-12` builds its copy from `(i, mean)` only and would drop the bound; that revision's `OnlineMean` takes no `roll_after_n` at all, so the bound-keeping `+=` is assumed from the tests of `roll_after_n`.
- Comp.MakeBotFor: follows the corrected `make_bot`. As written, the `except` handler at `CYLGame/Comp.py:536-537` names the unbound `s` and `gamedb` and raises NameError instead of returning None (see Findings).
- Panels.MessagePanel.Add: non-str items are not modelled. In `CYLGame/Panels.py:116-117` the items before a non-str one are appended, and then `message.split` raises AttributeError.
- Panels.Map.GetAllPos: returns the positions as a value. The source returns the live `char_to_ps[c]` set, so a caller that mutates it changes the map's index; that aliasing is not modelled.
- Game.ConstMapping.Set: keys are model values, so `1` and `1.0` are distinct keys here (and bools are not modelled). In a Python dict they are one key, and the first key object stored is kept. The same holds for `Game.SetSpec`, `Game.DelSpec` and `Game.UpdateSpec`.
- Utils.RollingStep: `OnlineMean(..., roll_after_n=)` is absent from this revision of `CYLGame/Utils.py`. Here it is specified from its tests as a separate function.
- Utils.ChooseAbsorption: `choose` is absent from this revision of `CYLGame/Utils.py`. Here it is specified from its tests.
- `rounded_mean`, `avg`, `sim_competition`, `sim_prog_for_score`, `create_room`, the run loops, `Process`/`Event`, `Pool` and `GameRunner` are not modelled. They are concurrency, or calls into game code that is not part of this model.
- Game.Int2Base: the tests expect ValueError for bases 1, 37 and 128. `CYLGame/Game.py`'s `int2base` loops forever on base 1 and indexes past its table above 62. The model requires base ≥ 2 and reports the out-of-table digit as an error value.
- Comp.MultiplayerComp.Next and Comp.RollingMultiplayerComp.Next use the corrected room shape (see Findings).

## Findings

| source | as written | input that shows it | evidently intended | confidence | as-written member | corrected member |
|---|---|---|---|---|---|---|
| CYLGame/Comp.py:199 | `next()` takes `room_size + 1` bots before padding, so a room can have one seat too many | bots ["a","b","c"], room size 2: the room has 3 seats | exactly `room_size` seats | high, not executed | Comp.RoomOneTooMany | Comp.RoomOfShape |
| CYLGame/Comp.py:270-271 | the `except` handler of `make_bot` formats an undefined name `s`, so any failure raises NameError instead of returning None | a token whose active code is "x = (" (does not compile) | the handler logs and `make_bot` returns None | high, not executed | Comp.MakeBotHandlerRaises | Comp.MakeBot |
| CYLGame/structures/const_mapping.py:23-25 | `ConstMapping()` iterates over `None` and raises TypeError | `ConstMapping()` with no argument | an empty mapping | medium, not executed | ConstMappingStruct.ConstMapping.Create | ConstMappingStruct.ConstMapping.CreateCorrected |
| CYLGame/Game.py:121-122 | the base `get_move_consts` returns `ConstMapping()`, whose constructor iterates over `None` | calling `Game.get_move_consts()` | an empty move table | medium, not executed | Game.BaseMoveConsts | Game.BaseMoveConstsCorrected |
| CYLGame/structures/const_mapping.py:20-22 | `for v, k in kwargs` iterates the keyword names and unpacks each name into two characters | `ConstMapping(up=1)` raises AssertionError ("p" is not an int); `ConstMapping(left=2)` raises ValueError | "up" bound to 1, as in `dict(**kwargs)` | high, not executed | ConstMappingStruct.KeywordArgsAsWritten | ConstMappingStruct.ConstMapping.CreateCorrected |
| CYLGame/Game.py:162-164 | the same loop over keyword names | `ConstMapping(up=1)` pairs "u" with "p" and stores nothing for "up" or 1 | "up" paired with 1 | high, not executed | Game.KeywordArgsAsWritten | Game.ConstMapping.CreateCorrected |
