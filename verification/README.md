# Hengband core routines in Dafny

This project models six small, self-contained parts of the Hengband roguelike
and proves properties of each:

- **`projection_path`**: the integer-only line rasteriser that decides which grid cells a
  bolt, beam or ball crosses. It has three regimes (steep, shallow, diagonal) and
  a fixed order of flag-driven stop rules. A cell is encoded as `y * 256 + x`
  truncated to 16 bits, as `u16b` does. The model is in `projection_path.dfy`.
- **The tile-set list parser** (`graf_mode.dfy`, with the `sscanf("%u…")` scanner in
  `graf_scan.dfy`):
  - `parse_line` with its stage bitmask;
  - `check_last_mode`;
  - the assembly of the published mode array with its "Classic ASCII" sentinel;
  - `get_graphics_mode`;
  - the line loop of `init_graphics_modes`.
- **Hex-spell bookkeeping** (`spells_hex.dfy`):
  - the casting word `magic_num1[0]`, the spell count `magic_num2[0]`, the restart word, the
    revenge accumulator and the mana charge;
  - the `SpellHex` constructor's bit scan.
- **Monster-table helpers** (`monster2.dfy`):
  - target set/reset;
  - `m_pop` slot allocation;
  - the neighbour count;
  - `update_smart_learn`;
  - the pain-message tier;
  - the speed cap.
- **The flag-array bitset macros** of `defines.h` (`flag_array.dfy`).
- **The class-selection menu** of character birth (`birth_select_class.dfy`):
  - symbols and key decoding;
  - cursor moves;
  - entry placement, label and colour;
  - the effect of one key press.

Two shared modules are supporting code rather than game logic. `Wrappers` supplies
`Option`. `CArith` gives C's truncating division `CDiv`, which every C `/` on
possibly negative operands uses.

The imperative routines keep their shape:

- `projection_path`'s three loops write into an `array`.
- `add_flag`/`remove_flag` update a word of an `array`.
- `m_pop` updates a `Floor` object.
- The hex bookkeeping methods update `Player` fields.
- The tile-set parser is a class whose methods update its list, stage and result.

Each such method is proved either against a specification function, with the
properties then proved about that function, or by a postcondition that gives its new
state field by field. The second kind are `SpellHex.SetRevengePower`,
`SpellHex.StoreVengefulDamage`, `SpellHex.CheckRestart`, `SpellHex.StopAllSpells`,
`Monster.SetTarget` and `Monster.ResetTarget`.

## Model

| member | source | states |
|---|---|---|
| ProjectionPathCalculator.LocationToGrid | src/target/projection-path-calculator.c:33 | the encoded grid is a 16-bit value; for coordinates 0..255 it decodes back to (y, x) |
| ProjectionPathCalculator.SetAsxy | src/target/projection-path-calculator.c:44-61 | sy, sx are ±1, negative exactly when the target lies before the origin on that axis; origin + s·a is the target on each axis |
| ProjectionPathCalculator.Walk | src/target/projection-path-calculator.c:131-138 | the (minor offset, error) pair after i major steps, each adding 2a and moving the minor axis when the error passes b |
| ProjectionPathCalculator.PathCell | src/target/projection-path-calculator.c:90-240 | cell i of the line: the major axis advances every step, the minor axis by the walk's offset; both advance on a diagonal |
| ProjectionPathCalculator.MinorMoves | src/target/projection-path-calculator.c:103-105 | the diagonal-move count the range test halves: k in the steep and shallow loops, n in the diagonal loop |
| ProjectionPathCalculator.RangeStop | src/target/projection-path-calculator.c:103-105 | the loop breaks once the cells written plus half the diagonal moves reach the range |
| ProjectionPathCalculator.TerrainStop | src/target/projection-path-calculator.c:112-121 | exactly one terrain test runs: disintegration with PROJECT_DISI, else line of sight with PROJECT_LOS, else projectability unless PROJECT_PATH |
| ProjectionPathCalculator.StopAt | src/target/projection-path-calculator.c:104-129 | a loop stops after cell i on range, on reaching the target without PROJECT_THRU, on terrain, on an occupant with PROJECT_STOP or out of bounds |
| ProjectionPathCalculator.StopIndex | src/target/projection-path-calculator.c:102-129 | the first index from i on at which a stop rule fires; it exists within max(range, 1) |
| ProjectionPathCalculator.Trace | src/target/projection-path-calculator.c:76-79 | the written path has at most max(range, 1) cells and is empty exactly when origin equals target |
| ProjectionPathCalculator.WalkError | src/target/projection-path-calculator.c:131-138 | after i major steps the error term equals 2·i·a − 2·k·b, k being the number of minor moves |
| ProjectionPathCalculator.WalkBounded | src/target/projection-path-calculator.c:131-138 | the error term stays in (−b, b] for a shallow slope a < b |
| ProjectionPathCalculator.MinorOffsetNearest | src/target/projection-path-calculator.c:90-140 | k is the minor offset after i steps iff k is the nearest integer to i·a/b (ties towards the origin) |
| ProjectionPathCalculator.MinorOffsetClosedForm | src/target/projection-path-calculator.c:90-140 | the minor offset is ⌊(2·i·a + b − 1) / 2b⌋ |
| ProjectionPathCalculator.MinorOffsetEnds | src/target/projection-path-calculator.c:92-99 | the minor offset is 0 at the origin and a after b major steps |
| ProjectionPathCalculator.MinorOffsetUnit | src/target/projection-path-calculator.c:131-138 | each major step moves the minor axis by 0 or 1 |
| ProjectionPathCalculator.AccumulatorStep | src/target/projection-path-calculator.c:84-91 | with frac = a·e, half = a·b, full = 2·half, the C test `frac > half` and the update `frac -= full` match the scaled error |
| ProjectionPathCalculator.PathEnds | src/target/projection-path-calculator.c:92-99 | cell 0 is the origin and cell max(ay, ax) is the target |
| ProjectionPathCalculator.PathStepAdjacent | src/target/projection-path-calculator.c:131-140 | consecutive cells are distinct and Chebyshev-adjacent |
| ProjectionPathCalculator.PathCellGeometry | src/target/projection-path-calculator.c:147-201 | steep: row is y1 + i·sy and the column is within half a cell of the true line; shallow: the same with the axes swapped; diagonal: both axes move every step |
| ProjectionPathCalculator.PathCellStraight | src/target/projection-path-calculator.c:90-201 | a line along a row or column never leaves it and makes no diagonal moves |
| ProjectionPathCalculator.PathHitsTargetOnlyAtDistance | src/target/projection-path-calculator.c:107-110 | the line is on the target at step max(ay, ax) and at no other step |
| ProjectionPathCalculator.StopIndexIsFirst | src/target/projection-path-calculator.c:102-129 | any index at which a stop fires with none firing before is the stop index |
| ProjectionPathCalculator.TraceLength | src/target/projection-path-calculator.c:103-105 | with distinct endpoints at least one and at most max(range, 1) cells are written |
| ProjectionPathCalculator.TraceAdjacent | src/target/projection-path-calculator.c:203-240 | the first cell is adjacent to the origin and every cell to its predecessor |
| ProjectionPathCalculator.TraceStopsAtFirstRule | src/target/projection-path-calculator.c:112-129 | the cell that triggers a stop is the last one written and no earlier cell triggered any rule |
| ProjectionPathCalculator.TraceEndsAtTarget | src/target/projection-path-calculator.c:107-110 | without PROJECT_THRU and with no other rule firing first, the path ends exactly at the target after max(ay, ax) cells |
| ProjectionPathCalculator.TraceThruPassesTarget | src/target/projection-path-calculator.c:107-110 | with PROJECT_THRU reaching the target is not a stop: the path goes past it |
| ProjectionPathCalculator.StopsHere | src/target/projection-path-calculator.c:104-129 | the in-loop tests (range, target, one terrain test by DISI/LOS/PATH precedence, STOP occupant, bounds) decide exactly StopAt |
| ProjectionPathCalculator.StepMinor | src/target/projection-path-calculator.c:131-138 | one accumulator step advances k, frac and the minor coordinate to the next closed-form values |
| ProjectionPathCalculator.TraceSteep | src/target/projection-path-calculator.c:90-144 | the steep loop writes the encoded cells of the path up to the stop index and returns their count; nothing else changes |
| ProjectionPathCalculator.TraceShallow | src/target/projection-path-calculator.c:147-201 | the shallow loop writes the encoded path cells up to the stop index and returns their count |
| ProjectionPathCalculator.TraceDiagonal | src/target/projection-path-calculator.c:203-240 | the diagonal loop, with range charged as n + n/2, writes the encoded path cells and returns their count |
| ProjectionPathCalculator.ProjectionPath | src/target/projection-path-calculator.c:76-241 | returns the number of cells written, which is the length of Trace; gp[i] encodes the i-th cell of Trace; the rest of gp is unchanged |
| ProjectionPathCalculator.TraceIs | src/target/projection-path-calculator.c:102-129 | a cell list that follows the line and stops at the first rule firing is the trace |
| ProjectionPathCalculator.RowLine | src/target/projection-path-calculator.c:147-201 | a horizontal line from (5,5) steps one column at a time with no diagonal moves |
| ProjectionPathCalculator.HorizontalTrace | src/target/projection-path-calculator.c:147-201 | (5,5)→(5,10) over open floor writes (5,6)…(5,10) |
| ProjectionPathCalculator.DiagonalTrace | src/target/projection-path-calculator.c:203-240 | (0,0)→(3,3) over open floor writes (1,1), (2,2), (3,3) |
| ProjectionPathCalculator.SteepLine | src/target/projection-path-calculator.c:90-144 | (0,0)→(4,1) moves its column once, at the third step |
| ProjectionPathCalculator.OccupantStopsTrace | src/target/projection-path-calculator.c:123-126 | with PROJECT_STOP a monster at (5,7) ends the path there, the occupied cell included |
| ProjectionPathCalculator.SightStopsTrace | src/target/projection-path-calculator.c:112-121 | with PROJECT_LOS a wall at (5,8) ends the path there, the wall cell included |
| FlagArray.WithFlag | src/defines.h:128 | the word array keeps its length |
| FlagArray.SetBit | src/defines.h:128 | the word with bit b or-ed in; SetBitHas, SetSame and SetOther state its effect |
| FlagArray.ClearBit | src/defines.h:129 | the word with bit b masked off; ClearBitHas, ClearSame and ClearOther state its effect |
| FlagArray.HaveFlag | src/defines.h:127 | have_flag(A, i) holds iff bit i mod 32 of word i / 32 is set |
| FlagArray.WithoutFlag | src/defines.h:129 | the word array keeps its length |
| FlagArray.AddFlag | src/defines.h:128 | the array after add_flag is WithFlag of the array before |
| FlagArray.RemoveFlag | src/defines.h:129 | the array after remove_flag is WithoutFlag of the array before |
| FlagArray.BitDistinct | src/defines.h:127 | masks of different bit positions do not overlap |
| FlagArray.SetBitHas | src/defines.h:128 | after setting bit b a word has bit c iff it had it or c = b |
| FlagArray.SetSame | src/defines.h:128 | setting bit b leaves bit b set |
| FlagArray.SetOther | src/defines.h:128 | setting bit b leaves every other bit as it was |
| FlagArray.ClearBitHas | src/defines.h:129 | after clearing bit b a word has bit c iff it had it and c ≠ b |
| FlagArray.ClearSame | src/defines.h:129 | clearing bit b leaves bit b clear |
| FlagArray.ClearOther | src/defines.h:129 | clearing bit b leaves every other bit as it was |
| FlagArray.SlotDistinct | src/defines.h:127 | two different flags in the same word use different bit positions |
| FlagArray.HaveAfterAdd | src/defines.h:127-128 | after add_flag(i), have_flag(j) iff it held before or j = i |
| FlagArray.HaveAfterRemove | src/defines.h:127-129 | after remove_flag(i), have_flag(j) iff it held before and j ≠ i |
| FlagArray.AddFlagSet | src/defines.h:127-128 | the set of present flags grows by exactly {i} |
| FlagArray.RemoveFlagSet | src/defines.h:127-129 | the set of present flags shrinks by exactly {i} |
| FlagArray.AddIdempotent | src/defines.h:128 | adding a flag twice is the same as adding it once |
| FlagArray.RemoveUndoesAdd | src/defines.h:128-129 | removing a flag after adding it gives the same array as only removing it |
| FlagArray.AddPresent | src/defines.h:127-128 | adding a flag that is present changes nothing |
| FlagArray.PvalMaskBits | src/defines.h:130-131 | the 0x3f7f mask holds exactly the bits that is_pval_flag accepts |
| FlagArray.IsPvalFlag | src/defines.h:130 | i lies in TR_STR..TR_MAGIC_MASTERY or in TR_STEALTH..TR_BLOWS |
| FlagArray.HavePvalFlags | src/defines.h:131 | word 0 meets the mask 0x3f7f; HavePvalFlagsMeaning relates it to IsPvalFlag |
| FlagArray.MaskSplit | src/defines.h:131 | a word misses the mask iff it misses each of the mask's bits |
| FlagArray.PvalPresent | src/defines.h:131 | when have_pval_flags holds, some pval flag below 32 is present |
| FlagArray.PvalBit | src/defines.h:131 | a word that meets the mask has a set bit that is a pval flag |
| FlagArray.PvalAbsent | src/defines.h:130-131 | when have_pval_flags fails, no pval flag is present |
| FlagArray.HavePvalFlagsMeaning | src/defines.h:130-131 | have_pval_flags iff some flag accepted by is_pval_flag is present |
| BirthSelectClass.ClassSymbol | src/birth/birth-select-class.cpp:31-34 | class n gets a lower-case letter iff n < 26, else an upper-case one |
| BirthSelectClass.DecodeClassKey | src/birth/birth-select-class.cpp:153-164 | a decoded key is always a class index below MAX_CLASS |
| BirthSelectClass.SymbolRoundTrip | src/birth/birth-select-class.cpp:31-34 | decoding class n's symbol gives n back when n < MAX_CLASS, nothing otherwise |
| BirthSelectClass.DecodeIsSymbol | src/birth/birth-select-class.cpp:153-164 | every key that decodes is the symbol of the class it decodes to |
| BirthSelectClass.SymbolInjective | src/birth/birth-select-class.cpp:31-34 | different classes have different symbols |
| BirthSelectClass.MenuPositionInjective | src/birth/birth-select-class.cpp:42 | no two entries are drawn at the same row and column |
| BirthSelectClass.MenuBelow | src/birth/birth-select-class.cpp:87 | entry n + 4 is drawn directly below entry n |
| BirthSelectClass.MenuRight | src/birth/birth-select-class.cpp:51 | entry n + 1 is 19 columns right of entry n, or starts the next row after the fourth column |
| BirthSelectClass.ClassColor | src/birth/birth-select-class.cpp:14-23 | retired gives dark grey; otherwise a winner gives slate; everything else, the Random slot included, gives white |
| BirthSelectClass.Suitable | src/birth/birth-select-class.cpp:37 | the race's choice mask has bit n set |
| BirthSelectClass.MenuRow | src/birth/birth-select-class.cpp:42 | entry n is on row 13 + n / 4 |
| BirthSelectClass.MenuCol | src/birth/birth-select-class.cpp:42 | entry n is at column 2 + 19·(n mod 4) |
| BirthSelectClass.Entry | src/birth/birth-select-class.cpp:31-42 | class n is drawn in its colour, with its label, at its menu row and column |
| BirthSelectClass.Label | src/birth/birth-select-class.cpp:37-40 | the label is symbol, ')' and the title, with the title in parentheses iff the class is unsuitable |
| BirthSelectClass.EnumerateClassList | src/birth/birth-select-class.cpp:25-44 | sym[n] is class n's symbol for every class, the rest of sym is unchanged, and the entries drawn are Entry(n) in order |
| BirthSelectClass.ListClass | src/birth/birth-select-class.cpp:31-42 | one loop pass stores sym[n] and builds entry n, changing no other slot |
| BirthSelectClass.InterpretClassSelectKeyMove | src/birth/birth-select-class.cpp:91-112 | the cursor after the four key tests is KeyMove(c, cs) |
| BirthSelectClass.KeyMove | src/birth/birth-select-class.cpp:91-112 | '8' moves up a row and '2' down a row when the result stays in 0..MAX_CLASS, '4'/'6' move one entry left/right within 0..MAX_CLASS, other keys do nothing |
| BirthSelectClass.KeyMoveInRange | src/birth/birth-select-class.cpp:91-112 | the cursor stays in [0, MAX_CLASS], and keys other than 8/4/6/2 leave it unchanged |
| BirthSelectClass.VerticalMovesUndo | src/birth/birth-select-class.cpp:93-111 | a '2' move (lines 108-111) that happens is undone by '8' (lines 93-96), and the other way round |
| BirthSelectClass.HorizontalMovesUndo | src/birth/birth-select-class.cpp:98-106 | a '6' move that happens is undone by '4', and the other way round |
| BirthSelectClass.VerticalMovesOnScreen | src/birth/birth-select-class.cpp:108-111 | a vertical move keeps the column and changes the row by one |
| BirthSelectClass.OutcomeInRange | src/birth/birth-select-class.cpp:114-170 | a key press either chooses an existing class or leaves the cursor in range |
| BirthSelectClass.ClassKeyOutcome | src/birth/birth-select-class.cpp:128-166 | one key press: Q quits, S goes back, Enter or space chooses the class under the cursor (a random one on the Random slot), '*' chooses at random, a class symbol chooses that class, anything else moves the cursor |
| BirthSelectClass.SymbolKeyChooses | src/birth/birth-select-class.cpp:153-162 | pressing class n's symbol chooses class n |
| BirthSelectClass.EnterChooses | src/birth/birth-select-class.cpp:135-144 | Enter chooses the class under the cursor, or the random one on the Random slot |
| Monster2.Monster.SetTarget | src/monster/monster2.c:60-64 | the target becomes (y, x) and the learned flags are kept |
| Monster2.Monster.ResetTarget | src/monster/monster2.c:71 | the target becomes (0, 0) and the learned flags are kept |
| Monster2.FirstFree | src/monster/monster2.c:91-95 | the scan result lies in [lo, hi] |
| Monster2.FirstFreeLeast | src/monster/monster2.c:91-99 | the scan stops at the smallest free slot, and none before it is free |
| Monster2.PopSlot | src/monster/monster2.c:79-104 | m_max while below max_m_idx, else the least free slot in [1, m_max), else 0 |
| Monster2.PopSlotFree | src/monster/monster2.c:79-104 | in the recycling case a non-zero slot is the least free one in [1, m_max); 0 means none is free |
| Monster2.Floor.MPop | src/monster/monster2.c:79-104 | fresh case: returns old m_max, bumping m_max and m_cnt; recycle: returns the least free slot, bumping m_cnt; failure: 0, counters unchanged |
| Monster2.CrowdCount | src/monster/monster2.c:1156-1174 | the number of the first n offsets that land on an in-bounds, occupied square |
| Monster2.CrowdCountBounds | src/monster/monster2.c:1156-1174 | the crowd count over n offsets is in 0..n; it is 0 when no neighbour is occupied and n when all are |
| Monster2.GetMonsterCrowdNumber | src/monster/monster2.c:1156-1174 | the loop counts the occupied in-bounds cells among the first 7 offsets; the result is in 0..7 |
| Monster2.Learned | src/monster/monster2.c:1005-1117 | the flags one observation teaches, per defence kind as the switch lists them |
| Monster2.LearnsNow | src/monster/monster2.c:998-1003 | learning happens only with the smart_learn option, for a race that is not STUPID, and for a non-SMART race only when the roll is at least 50 |
| Monster2.LearnedExactly | src/monster/monster2.c:1005-1117 | a flag is learned iff it concerns the observed defence and the player holds it |
| Monster2.UpdateSmartLearn | src/monster/monster2.c:993-1118 | when the learning gates pass the learned flags are added to smart, else smart is unchanged; the target is kept |
| Monster2.LearningMonotone | src/monster/monster2.c:1005-1117 | learning never removes a flag |
| Monster2.LearningSound | src/monster/monster2.c:1005-1117 | every newly learned flag is one the player holds |
| Monster2.PainGroup | src/monster/monster2.c:486-954 | the wording group, by display character in the source's test order |
| Monster2.GroupMatches | src/monster/monster2.c:486-952 | group g matches a display character in its list, and group 3 also every non-letter (the `!isalpha` test at line 594) |
| Monster2.PainTier | src/monster/monster2.c:486-500 | the tier by the thresholds 95, 75, 50, 35, 20, 10 of remaining health |
| Monster2.PainGroupFirstMatch | src/monster/monster2.c:486-954 | the wording group is the first whose characters match, or the default group |
| Monster2.TreeGroupShadows | src/monster/monster2.c:522 | 'l' appears in the last group too, but the earlier "l" group wins |
| Monster2.PainTierInterval | src/monster/monster2.c:954-984 | tier t is chosen iff the percentage is at most threshold t − 1 and above threshold t |
| Monster2.PainTierMonotone | src/monster/monster2.c:954-984 | more health left never gives a more severe tier |
| Monster2.MessagePain | src/monster/monster2.c:476-484 | the message is "unharmed" iff dam = 0 |
| Monster2.MessagePainEnds | src/monster/monster2.c:481-484 | the tier comes from hp·100/(hp + dam); above 96% left is tier 0, below 11% tier 6 |
| Monster2.MSpeed | src/monster/monster2.c:442-456 | the speed never exceeds 199; without variation it is min(speed, 199) |
| Monster2.MSpeedWithinSpread | src/monster/monster2.c:445-453 | for a non-unique race outside the arena the speed is at most speed + i and, unless capped at 199, at least speed − i, i being energy/3 or energy/10 |
| SpellsHex.SpellsFrom | src/spell-realm/spells-hex.cpp:42-48 | every spell number listed is in [s, 32) |
| SpellsHex.Spelling | src/spell-realm/spells-hex.cpp:380-384 | spell h is chanted iff the first realm is hex and bit h of the casting word is set |
| SpellsHex.SpellingAny | src/spell-realm/spells-hex.cpp:386-389 | some spell is chanted iff the first realm is hex and the casting word is non-zero |
| SpellsHex.SpellHex.IsSpellingSpecific | src/spell-realm/spells-hex.cpp:380-384 | is_spelling_specific on the player's realm and casting word |
| SpellsHex.SpellHex.IsSpellingAny | src/spell-realm/spells-hex.cpp:386-389 | is_spelling_any on the player's realm and casting word |
| SpellsHex.SpellHex.IsCastingFullCapacity | src/spell-realm/spells-hex.cpp:326-331 | the spell count has reached the capacity of the player's level |
| SpellsHex.SpellsAscending | src/spell-realm/spells-hex.cpp:42-48 | the list of spells is strictly ascending |
| SpellsHex.SpellsMembership | src/spell-realm/spells-hex.cpp:42-48 | h is listed iff it is in range and being chanted |
| SpellsHex.NoSpellsOutsideHex | src/spell-realm/spells-hex.cpp:380-384 | a non-hex caster has no spells listed |
| SpellsHex.SpellingAnyMeaning | src/spell-realm/spells-hex.cpp:386-389 | is_spelling_any iff some is_spelling_specific holds |
| SpellsHex.SpellingAfterSet | src/spell-realm/spells-hex.cpp:440-445 | after set_casting_flag(t), spell h is chanted iff it was, or h = t for a hex caster |
| SpellsHex.SpellingAfterReset | src/spell-realm/spells-hex.cpp:447-452 | after reset_casting_flag(t), spell h is chanted iff it was and h ≠ t |
| SpellsHex.KeepLimit | src/spell-realm/spells-hex.cpp:326-331 | the capacity never exceeds MAX_KEEP |
| SpellsHex.KeepLimitSteps | src/spell-realm/spells-hex.cpp:326-331 | the capacity is 1, 2, 3, 4 for levels below 15, 30, 45 and from 45 on |
| SpellsHex.KeepLimitMonotone | src/spell-realm/spells-hex.cpp:326-331 | a higher level never lowers the capacity |
| SpellsHex.NextCastingNum | src/spell-realm/spells-hex.cpp:463-470 | the byte count goes up or down by exactly one; 255 counts up to 0 and 0 counts down to 255 |
| SpellsHex.CastingNumUndo | src/spell-realm/spells-hex.cpp:463-470 | counting up then down (or down then up) restores the count |
| SpellsHex.SumCostBounds | src/spell-realm/spells-hex.cpp:236-245 | with non-negative costs the sum is non-negative and at least each single cost |
| SpellsHex.ManaNeed | src/spell-realm/spells-hex.cpp:199-202 | the charge is the summed cost divided by 3, truncated, plus the spell count less one |
| SpellsHex.SumCost | src/spell-realm/spells-hex.cpp:236-245 | the total of the per-spell costs over the list of chanted spells |
| SpellsHex.ManaNeedPerSpell | src/spell-realm/spells-hex.cpp:202 | each extra spell chanted costs one more mana; for non-negative cost the need is cost/3 + count − 1 |
| SpellsHex.CollectSpells | src/spell-realm/spells-hex.cpp:42-48 | the scan over bits 0..31 builds exactly the ascending list of chanted spells |
| SpellsHex.SpellHex.Create | src/spell-realm/spells-hex.cpp:39-52 | construction fails iff more than MAX_KEEP spells are chanted; otherwise the list is the chanted spells |
| SpellsHex.SpellHex.SetCastingFlag | src/spell-realm/spells-hex.cpp:440-445 | the casting word gets exactly bit t set |
| SpellsHex.SpellHex.ResetCastingFlag | src/spell-realm/spells-hex.cpp:447-452 | the casting word gets exactly bit t cleared |
| SpellsHex.SpellHex.AddCastingNum | src/spell-realm/spells-hex.cpp:463-470 | the count becomes NextCastingNum of the old count |
| SpellsHex.SpellHex.SetRevengePower | src/spell-realm/spells-hex.cpp:477-484 | the accumulator is replaced when substituting, else increased by power |
| SpellsHex.SpellHex.StoreVengefulDamage | src/spell-realm/spells-hex.cpp:353-360 | damage is added only while a hex revenge is running |
| SpellsHex.SpellHex.CheckRestart | src/spell-realm/spells-hex.cpp:225-234 | with a waiting restart word it moves into the casting word, is zeroed and true is returned; otherwise nothing changes and false is returned |
| SpellsHex.SpellHex.StopAllSpells | src/spell-realm/spells-hex.cpp:63-78 | casting word and count become 0; a chanting action becomes none |
| SpellsHex.SpellHex.CalcNeedMana | src/spell-realm/spells-hex.cpp:236-245 | the result is the summed per-spell cost of the list |
| SpellsHex.SpellHex.ProcessManaCost | src/spell-realm/spells-hex.cpp:197-223 | mana suffices iff csp ≥ cost/3 + count − 1; then it is paid and chanting may resume; otherwise every spell stops and nothing is paid |
| GrafScan.SkipSpace | src/system/grafmode.cpp:168 | the scan skips exactly the leading isspace characters |
| GrafScan.DigitsEnd | src/system/grafmode.cpp:168 | the scan stops at the first non-digit |
| GrafScan.ScanUnsigned | src/system/grafmode.cpp:168 | a %u match yields a value below 2^32 and ends right after a run of digits |
| GrafScan.Decimal | src/system/grafmode.cpp:168 | a decimal rendering is a non-empty run of digits |
| GrafScan.ValueOfDecimal | src/system/grafmode.cpp:168 | reading back a number's decimal digits gives the number |
| GrafScan.ScanDecimal | src/system/grafmode.cpp:168 | %u on a number's digits followed by a non-digit reads that number and stops after its digits |
| GrafScan.ScanDecimalAt | src/system/grafmode.cpp:257 | the same from any position where a number's digits start |
| GrafScan.DigitsRun | src/system/grafmode.cpp:168 | any maximal digit run is the one DigitsEnd finds |
| GrafScan.ScanFrom | src/system/grafmode.cpp:168 | the conversion count equals the number of values and never exceeds the format's conversions; every value read is below 2^32; %n records a position within the line |
| GrafScan.ColonStep | src/system/grafmode.cpp:168 | a literal ':' in the format either matches and scanning goes on after it, or stops the scan with nothing converted |
| GrafScan.FirstValue | src/system/grafmode.cpp:168 | a format opening with %u stores the number read at the start of the line as its first value |
| GrafScan.NameFormatCount | src/system/grafmode.cpp:168 | with "%u:%n", %n is reached iff a number and a colon were read |
| GrafScan.NameFieldAsWritten | src/system/grafmode.cpp:168 | the name: guard as written: it proceeds whenever one number was converted and reads the %n count, which may be unset |
| GrafScan.ExtraFormatCount | src/system/grafmode.cpp:318-319 | three conversions for "extra:" always reach the trailing %n |
| GrafScan.NameWithoutColon | src/system/grafmode.cpp:168-197 | as written, "name:5" converts one value and leaves the name offset unset |
| GrafScan.NameField | src/system/grafmode.cpp:168-197 | a name field found starts right after a colon following the ID |
| GrafScan.NameFieldReads | src/system/grafmode.cpp:168-197 | "ID:name" yields the ID and the offset just past its colon |
| GrafScan.NameFieldAfter | src/system/grafmode.cpp:168-197 | any line opening with a number and a colon yields that number and the offset just past the colon |
| GrafScan.SizeWithoutColon | src/system/grafmode.cpp:257-274 | as written, "size:8:8" converts two values and leaves the file offset unset |
| GrafScan.SizeField | src/system/grafmode.cpp:257-274 | a size field found holds two 32-bit values and a file offset just past a colon |
| GrafScan.NameFormatAt | src/system/grafmode.cpp:257 | the "%u:%n" tail of the size format, on a number followed by a colon, converts that number and stores the offset past the colon |
| GrafScan.SizeScanSplit | src/system/grafmode.cpp:257 | the size format converts the first number, matches its colon and then adds the tail's conversions and count |
| GrafScan.SizeScanAfter | src/system/grafmode.cpp:257 | two numbers each followed by a colon: sscanf converts both and stores the count just past the second colon |
| GrafScan.SizeFieldOfScan | src/system/grafmode.cpp:257-274 | two conversions with the count stored are exactly what the intended guard accepts |
| GrafScan.SizeFieldAfter | src/system/grafmode.cpp:257-274 | any line opening with number, colon, number, colon yields both numbers and the offset of the file name |
| GrafScan.SizeFieldExample | src/system/grafmode.cpp:257-274 | "8:16:x" yields width 8, height 16 and the offset of x |
| GrafScan.SizeFormatCount | src/system/grafmode.cpp:257 | a reached %n means both sizes were read and sits, at offset 4 or later, just past a colon |
| GrafScan.SizeFieldAsWritten | src/system/grafmode.cpp:257 | the size: guard as written: it proceeds whenever two numbers were converted and reads the %n count, which may be unset |
| GrafScan.NameFormatFrom | src/system/grafmode.cpp:257 | the "%u:%n" tail of the size format, from any position, reaches %n only past a number and a colon |
| GrafScan.SizeAsWrittenAfter | src/system/grafmode.cpp:257-274 | as written, any line made of a number, a colon and a number passes the guard with the count unset |
| GrafScan.ExtraField | src/system/grafmode.cpp:318-319 | the end offset lies within the line |
| GrafScan.ExtraTailAt | src/system/grafmode.cpp:318 | the final "%u%n" of the extra format, on a number, converts it and stores the offset just past its last digit |
| GrafScan.ExtraMidAt | src/system/grafmode.cpp:318 | a number and its colon in front of that tail add the number before the tail's conversion and keep its count |
| GrafScan.ExtraRestAt | src/system/grafmode.cpp:318 | "%u:%u%n" on two numbers separated by a colon converts both and stores the offset past the second |
| GrafScan.UnsignedColonStep | src/system/grafmode.cpp:318 | a "%u:" that converts a number followed by a colon puts that number in front of whatever the rest of the format scans after the colon |
| GrafScan.ExtraScanSplit | src/system/grafmode.cpp:318 | the whole extra format converts the first number, matches its colon and then adds the conversions and count of the rest |
| GrafScan.ExtraFieldOfScan | src/system/grafmode.cpp:318-319 | three conversions with the count stored are what the extra: guard accepts |
| GrafScan.ExtraFieldAfter | src/system/grafmode.cpp:318-319 | any line opening with number, colon, number, colon, number yields alpha, overdraw row and overdraw max and the offset just past the third number |
| GrafScan.ExtraFieldExample | src/system/grafmode.cpp:318-319 | "1:0:2" yields alpha 1, overdraw row 0, overdraw max 2 and offset 5 |
| GrafMode.SkipBlanks | src/system/grafmode.cpp:85-90 | the offset skips exactly the leading space, tab, VT and FF characters |
| GrafMode.MatchDirective | src/system/grafmode.cpp:92-116 | a matched directive's body starts after the keyword, within the line |
| GrafMode.ApplyName | src/system/grafmode.cpp:162-214 | a line without a well-formed "ID:" is rejected with the mode unchanged; otherwise it is accepted iff the ID is ≤ 255, not GRAPHICS_NONE and unused earlier and the name after the colon fits; then grafID and menuname become the parsed ID and name; on rejection the ID is still stored when it is ≤ 255 and not GRAPHICS_NONE, and the name when it fits; no other field changes |
| GrafMode.NameLineAccepted | src/system/grafmode.cpp:168-208 | the body "ID:name" with a fresh valid ID and a name that fits is accepted and stores exactly that ID and name |
| GrafMode.NameAccepted | src/system/grafmode.cpp:168-208 | any body whose name field reads (id, n) with a fresh valid id and a fitting name from n on is accepted and stores them |
| GrafMode.DigitsColonAccepted | src/system/grafmode.cpp:168-208 | the same for any digits the name field reads as the ID: the name after the colon is stored with the ID |
| GrafMode.ApplyDir | src/system/grafmode.cpp:216-247 | accepted iff the directory is non-empty and the built path fits; then path is the built path, else the mode is unchanged |
| GrafMode.ApplySize | src/system/grafmode.cpp:249-294 | a line without two sizes and a colon is rejected with the mode unchanged; otherwise it is accepted iff both sizes are non-zero and the file name after the colon fits; then cell width, height and file become the parsed values; on rejection each size is still stored when it is non-zero, and the file name when it fits; no other field changes |
| GrafMode.ApplyPref | src/system/grafmode.cpp:296-310 | accepted iff the pref name fits; then pref is set, else unchanged |
| GrafMode.ApplyGraf | src/system/grafmode.cpp:349-362 | accepted iff the graf name fits; then graf is set, else unchanged |
| GrafMode.ApplyExtra | src/system/grafmode.cpp:312-347 | accepted iff three numbers are read and end the line with overdraw row ≤ max ≤ 255; then alphablend is alpha ≠ 0 and the overdraw row and max are the parsed values; a rejection changes nothing |
| GrafMode.ApplyDirective | src/system/grafmode.cpp:162-363 | the switch of parse_line: each directive is handled by its own Apply function on the newest mode |
| GrafMode.ParseLine | src/system/grafmode.cpp:80-368 | parsing a line keeps the parser state well formed |
| GrafMode.NameLine | src/system/grafmode.cpp:118-147 | a name: line pushes exactly one new mode in front of the list |
| GrafMode.OtherLine | src/system/grafmode.cpp:155-367 | any other directive only rewrites the newest mode |
| GrafMode.CommentLineNoop | src/system/grafmode.cpp:81-90 | a line that is blank, or whose first non-blank character is '#', leaves the state unchanged |
| GrafMode.UnknownDirective | src/system/grafmode.cpp:110-115 | an unrecognised directive sets result to 1 and changes nothing else |
| GrafMode.DirectiveBeforeName | src/system/grafmode.cpp:149-154 | a directive before the first name: sets result to 1 and changes nothing else |
| GrafMode.ModeComplete | src/system/grafmode.cpp:53-77 | check_last_mode succeeds iff the directory, size, pref and graf stages were all seen |
| GrafMode.StageAndResult | src/system/grafmode.cpp:365-367 | result never goes back to 0; a stage bit is added only while result stays 0; a line other than a name: directive that ends with an error leaves the stage as it was |
| GrafMode.IncompleteModeRejected | src/system/grafmode.cpp:53-77 | a name: line after a mode missing a required stage sets result to 1 |
| GrafMode.ParseLineKeepsIds | src/system/grafmode.cpp:162-214 | while no error occurs, IDs stay ≤ 255, distinct and not GRAPHICS_NONE |
| GrafMode.NameLineKeepsIds | src/system/grafmode.cpp:163-214 | a name: line that raises no error gives the new tile set an ID ≤ 255, not GRAPHICS_NONE and unlike every earlier one |
| GrafMode.OtherLineKeepsIds | src/system/grafmode.cpp:217-363 | the other directives leave every tile set's ID unchanged |
| GrafMode.ParseLines | src/system/grafmode.cpp:473-479 | the line loop keeps the parser state well formed |
| GrafMode.ParseLinesKeepsIds | src/system/grafmode.cpp:473-479 | across a whole error-free file the IDs stay valid |
| GrafMode.GrafModeParser.ParseLineInPlace | src/system/grafmode.cpp:80-368 | the parser's state after a line is ParseLine of its state before |
| GrafMode.GrafModeParser.StartMode | src/system/grafmode.cpp:118-147 | the name: branch updates the parser to NameLine of its old state |
| GrafMode.GrafModeParser.ApplyToCurrent | src/system/grafmode.cpp:155-367 | the other-directive branch updates the parser to OtherLine of its old state |
| GrafMode.GrafModeParser.FinishParse | src/system/grafmode.cpp:371-454 | on success the published array is the modes in file order plus the sentinel, high ID and current mode are set; the list is released |
| GrafMode.FileOrder | src/system/grafmode.cpp:405-412 | the copy reverses the newest-first list into file order |
| GrafMode.Published | src/system/grafmode.cpp:405-432 | the published array is the modes in file order followed by the sentinel |
| GrafMode.Sentinel | src/system/grafmode.cpp:414-432 | the closing entry has ID GRAPHICS_NONE, empty path and file, and strings that fit their buffers under ConfigOk |
| GrafMode.HighId | src/system/grafmode.cpp:388-400 | the running maximum of the IDs starting from GRAPHICS_NONE; HighIdIsMax states its properties |
| GrafMode.Transfers | src/system/grafmode.cpp:377-388 | results are published iff the caller asks and the file has no mode, no stage, or a complete last mode |
| GrafMode.FinishResult | src/system/grafmode.cpp:377-386 | the error flag becomes 1 when publication was asked for but the last mode is incomplete, and is kept otherwise |
| GrafMode.HighIdIsMax | src/system/grafmode.cpp:388-402 | the high ID is at least GRAPHICS_NONE, bounds every ID and is one of them or GRAPHICS_NONE |
| GrafMode.GraphicsModes.GetGraphicsMode | src/system/grafmode.cpp:499-508 | the lookup returns the first entry with the ID, or nothing when no array is published |
| GrafMode.FirstWithIdFrom | src/system/grafmode.cpp:499-508 | a hit is the first matching entry; a miss means no entry matches |
| GrafMode.LookupDistinct | src/system/grafmode.cpp:499-508 | with distinct IDs every entry is found by its own ID |
| GrafMode.PublishedLookup | src/system/grafmode.cpp:414-444 | in the published array every parsed mode and the sentinel are found by their IDs, and unknown IDs are not |
| GrafMode.InitGraphicsModes | src/system/grafmode.cpp:457-487 | succeeds iff the file opens, every line parses and the last mode is complete; then the modes are published, the high ID is the largest ID or GRAPHICS_NONE and the current mode is the sentinel; on failure the published array, high ID and current mode are as before |
| GrafMode.InitResult | src/system/grafmode.cpp:457-487 | loading succeeds iff the file opens, no line sets the error flag and finishing keeps it clear |
| GrafMode.InitPublishesFindable | src/system/grafmode.cpp:457-487 | after a successful load every mode in the file can be found by its ID |
| CArith.CDiv | src/monster/monster2.c:483 | C division truncates toward zero: the remainder a − q·b is smaller than b in magnitude and never of the opposite sign to a; it agrees with floor division for non-negative operands and q has the sign of the exact quotient |

## Left out

- Screen output, messages (`msg_format`, `c_put_str`, `monster_desc`), file reading and `malloc`/`free` are not modelled. A file is a list of lines; an unopenable file is `None`.
- `path_build` is a function parameter of `Config`. The sizes from `grafmode.h` and the value of `GRAPHICS_NONE` are `Config` fields, since that header is not part of this model.
- The parser's line number and file name serve only in messages and are not kept.
- The stage bitmask of the tile-set parser is a set of stages.
- The `malloc` failure branch of `finish_parse_grafmode` is not modelled; allocation in the model cannot fail.
- GrafMode.Sentinel: the sentinel's cell width and height are left unset in the C code and are 0 in the model.
- GrafScan.ScanUnsigned: C leaves an out-of-range `%u` conversion undefined; the model reduces the value modulo 2^32. `sscanf`'s EOF return on an empty line folds into a count of 0; both make a directive fail the same way.
- The terrain and occupancy queries of `projection_path` are abstract predicates.
- The `int` products `half = ay * ax`, `full = half << 1` and `m = ax * ax * 2` (or `ay * ay * 2`) of `projection-path-calculator.c` are unbounded integers in the model; they cannot overflow 32 bits for coordinates of dungeon size.
- The monster speed variation and the smart-learning roll depend on the random number generator. They are parameters (`spread`, `oneIn4`, `roll`).
- `SPEED_TO_ENERGY` is read through the `energy` parameter.
- The global race and monster tables are parameters; this covers the `STUPID`/`SMART` race flags, `m_list` as `rIdx` and `ddx_ddd`/`ddy_ddd` as offset sequences.
- The SM_* and DRS_* values are enumerations, not their header bit values.
- The flag numbers `TR_STR = 0`, `TR_MAGIC_MASTERY = 6`, `TR_STEALTH = 8` and `TR_BLOWS = 13` come from a header that is not part of this model; they are the values consistent with the `0x3f7f` mask of `have_pval_flags`.
- `get_mon_num`, `choose_new_monster`, `monster_drop_carried_objects` and the rest of `monster2.c` are not modelled.
- Monster2.MessagePain: the wording of each group and tier is not modelled; the result is a (group, tier) pair.
- Hex mana fractions (`csp_frac`, the `s64b_*` helpers) are not modelled; mana is a single integer.
- `exe_spell` and the per-spell costs are not modelled; the costs are a function parameter.
- `stop_one_spell`, `continue_revenge`, `check_hex_barrier`, `display_casting_spells_list` and the experience gains in `spells-hex.cpp` are not modelled.
- The `get_casting_num`, `get_revenge_power` and `get_revenge_turn` getters are plain field reads of `Player`.
- `REALM_HEX` comparison is the boolean `isHex`.
- SpellsHex.SpellHex.SetRevengePower: the 32-bit overflow of `magic_num1[2]` is not modelled; the accumulator is an unbounded integer.
- SpellsHex.SpellHex.ProcessManaCost: the side effects of `set_action` beyond the action value itself are not modelled.
- The `select_class` input loop, `inkey`, `birth_quit`, the help keys and `display_class_stat` drawing are not modelled. One key press is `ClassKeyOutcome`; the random class is a parameter.
- BirthSelectClass.ClassSymbol: the symbol scheme covers 52 classes; MAX_CLASS is assumed not to exceed 52, as the C code's letters would otherwise run past 'Z'.
- `I2A`/`A2I` come from a header that is not part of this model; they are written out as `'a' + n` and `c - 'a'`.
- `angband-initializer.cpp`, `osx_bmp2png.py`, the Cocoa headers, `pattern-walk.c` and the declaration-only headers are not part of this model.

## Findings

| source | as written | input that shows it | evidently intended | confidence | as-written member | corrected member |
|---|---|---|---|---|---|---|
| src/system/grafmode.cpp:168-197 | `sscanf(.., "%u:%n", &id, &nscan) == 1` holds as soon as the ID is converted, even when no colon follows; `offset += nscan` then reads `nscan` unset | `name:5` | reject the line unless `%n` was reached, so the name offset is always defined | not executed | GrafScan.NameWithoutColon | GrafScan.NameField |
| src/system/grafmode.cpp:257-274 | `sscanf(.., "%u:%u:%n", ..) == 2` holds as soon as both sizes are converted, even when no colon follows; `offset += nscan` then reads `nscan` unset | `size:8:8` | reject the line unless `%n` was reached | not executed | GrafScan.SizeWithoutColon | GrafScan.SizeField |
