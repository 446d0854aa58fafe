# Junior_Naver arcade: falling blocks and leaderboard, modelled in Dafny

This project models two pieces of the React arcade app in Dafny and proves
properties of the model.

**Falling blocks.** One animation-frame tick of the "dodge the falling
blocks" game does the following:
- it moves and clamps the player;
- it accumulates the spawn timer and may push a new block;
- it walks the blocks with a `forEach`, which moves each block, hit-tests
  it and splices it out once it passes the bottom edge;
- it applies the difficulty ramp.

Around the tick sit a three-phase state machine
(ready → running → game over → running) and the guard that decides whether
the final score is submitted.

**Leaderboard.** The leaderboard filters each game's ranking list by a
trimmed, lower-cased nickname. It ranks every shown entry by its first
position in the unfiltered list and highlights the top three. The edit
and filter controls form a small state machine.

Files:
- `wrappers.dfy`: `Option`, which stands for a JavaScript `null` and for
  "no call is made".
- `text.dfy`: `String.prototype.trim` and `toLowerCase` as functions, with
  their lemmas (idempotence, "empty iff all white space", trim and lower
  commute).
- `falling_blocks.dfy`: the tick and its parts as pure functions
  (`MovePlayer`, `Spawn`, `Sweep`, `Ramp`, `Tick`), with lemmas about them.
  - The class `Game` holds the mutable state.
  - `Game.Step` performs the tick in place: it walks the blocks with an
    index loop and splices them as `forEach` does. It is proved equal to
    `Tick`.
- `leaderboard.dfy`: the filter and rank computation as functions, and the
  class `Board` with the handlers as methods.

Modelling decisions:
- **The splice quirk is reproduced.** `splice(i, 1)` inside `forEach`
  shifts the array, so the block right after a removed one is neither
  moved nor hit-tested in that pass (`Sweep`, `SweepSkipsNext`).
  `forEach` also does not visit indices past the shrunken end of the array.
  `Game.MoveBlocks` keeps the length the pass started with as its loop
  bound, and skips indices that no longer exist.
- **A hit does not stop the pass.** Removal and scoring still happen in
  the tick that ends the game.
- **State updates are applied at the end of the tick.** This follows
  React's batching of the `setX` calls. As a result:
  - the ramp tests the score the tick started with;
  - a spawned block gets the `blockSpeed` the tick started with;
  - all the points of one tick arrive together.
- **The ramp fires on every tick its condition holds.** This is how the
  code is written: the score stays at the multiple of 10 until the next
  removal, and each of those ticks ramps again.
- **The spawn timer restarts.** The loop's effect depends on `isGameOver`,
  `score`, `blockSpeed` and `spawnInterval`. A tick that changes any of
  them therefore starts a new loop, whose timer begins at 0. `Tick`
  models this with `RestartsLoop`.
- **The spawn test is strict.** A timer of exactly 700 ms does not spawn;
  the next frame does (`SpawnScenario`).
- **The ramp can stall the game.** The ramp repeats while the score sits at
  a positive multiple of 10, and each ramp restarts the loop with its spawn
  timer at 0. So while no block is in flight, no block spawns unless a
  single frame lasts longer than the interval. The score then cannot leave
  that multiple, and the speed rises on every frame (`RampStalls`). This is
  read from the code as written; the model reproduces it.
- **A null nickname can be edited.** `handleEditClick` copies an entry's
  nickname, which may be null, into the edit state. Saving with that null
  then throws in `trim`, before any call is made. `SaveOutcome.ThrewOnNull`
  models this case.
- **The phases.** The `Phase` value combines the flags `isReady` and
  `isGameOver`. Outside `Running`, the tick changes nothing.

## Model

| member | source | states |
|---|---|---|
| FallingBlocks.MovePlayer | src/Games/FallingBlocks.js:88-92 | The new x lies in [0, 360]. Inside the field it is x plus the key step; otherwise it is clamped to 0 or 360. Both keys (or neither) leave an in-field x unchanged. |
| FallingBlocks.Overlaps | src/Games/FallingBlocks.js:116-120 | No contract of its own: the strict four-part rectangle test. OverlapsIffCommonPoint characterizes it. |
| FallingBlocks.Hits | src/Games/FallingBlocks.js:116-120 | No contract of its own: the block-against-player test at the player's fixed y. HitsIffCommonPoint characterizes it. |
| FallingBlocks.OverlapsIffCommonPoint | src/Games/FallingBlocks.js:116-120 | For rectangles of positive size, the strict overlap test holds iff some point lies inside both. The test is symmetric. |
| FallingBlocks.HitsIffCommonPoint | src/Games/FallingBlocks.js:116-120 | A block hits the player iff their rectangles share an interior point. Swapping the player and block rectangles gives the same answer. |
| FallingBlocks.Spawn | src/Games/FallingBlocks.js:99-105 | The existing blocks are kept as they are. When the timer exceeds the interval: the timer resets to 0 and exactly one block is appended, with y = -20, x in [0, 360) and the current speed. Otherwise nothing changes. |
| FallingBlocks.Sweep | src/Games/FallingBlocks.js:109-131 | No contract of its own: the definition of the `forEach` pass, including the splice skip. Its properties are carried by the Sweep lemmas below and Game.MoveBlocks. |
| FallingBlocks.SweepConserves | src/Games/FallingBlocks.js:109-131 | The kept and removed blocks together number as many as the blocks the pass started with. |
| FallingBlocks.SweepPermutesLanes | src/Games/FallingBlocks.js:109-131 | The pass is one-to-one and changes only y. The kept and removed blocks together carry exactly the (x, speed) pairs of the starting blocks, each as often as it occurred. |
| FallingBlocks.SweepRemovesOnlyBelow | src/Games/FallingBlocks.js:127-128 | Only blocks whose moved y exceeds H are removed. |
| FallingBlocks.SweepHitWitness | src/Games/FallingBlocks.js:116-124 | A hit is reported only if some block, after moving, overlaps the player. |
| FallingBlocks.SweepKeepsXAndSpeed | src/Games/FallingBlocks.js:109-110 | Every kept block has the x and the speed of some block the pass started with. SweepPermutesLanes states the one-to-one version. |
| FallingBlocks.SweepWithoutRemoval | src/Games/FallingBlocks.js:109-124 | When no block leaves the field, every block falls by its own speed, none is removed, and the hit flag holds iff some moved block overlaps the player. |
| FallingBlocks.SweepSkipsNext | src/Games/FallingBlocks.js:127-128 | After a block is spliced out, the block behind it is kept exactly as it was, unmoved. It is also untested: the hit flag comes from the removed block and the rest only. |
| FallingBlocks.SweepSkipExample | src/Games/FallingBlocks.js:109-131 | Two blocks about to leave the field: only the first is removed in this tick, and the second stays at its old y. |
| FallingBlocks.Ramp | src/Games/FallingBlocks.js:134-136 | When the score is a positive multiple of 10: speed + 0.5, and interval max(interval - 100, 300). Otherwise the difficulty is unchanged. The speed never drops, and an interval of at least 300 stays in [300, its old value]. |
| FallingBlocks.RampRepeats | src/Games/FallingBlocks.js:134-136 | The ramp fires on every tick the condition holds. k such ticks add 0.5k to the speed and take 100k off the interval, floored at 300. |
| FallingBlocks.Tick | src/Games/FallingBlocks.js:78-142 | No contract of its own: the definition of one tick. Its properties are carried by TickKeepsValid, TickScore, TickGameOver, TickTimer, TickHalted and RampStalls, and Game.Step is proved equal to it. |
| FallingBlocks.RampStalls | src/Games/FallingBlocks.js:76-152 | At a positive multiple of 10 with no block in flight and the timer at 0, a frame no longer than 300 ms leaves no blocks, the same score and the timer at 0, and raises the speed by 0.5 again. |
| FallingBlocks.TickTimer | src/Games/FallingBlocks.js:76-81 | The spawn timer survives a tick only if the phase, score and difficulty are unchanged. Any change to them restarts the loop's effect, and the timer starts at 0. |
| FallingBlocks.TickKeepsValid | src/Games/FallingBlocks.js:78-142 | Every tick keeps the invariant. The player is in [0, 360]. Every block is inside the field horizontally, at or above the bottom edge, and at least as fast as the initial speed. The speed never falls below the initial speed, and the interval stays in [300, 700]. |
| FallingBlocks.TickScore | src/Games/FallingBlocks.js:127-130 | A running tick adds exactly one point per removed block. The score grows by the blocks present after spawning minus the blocks kept, that is, by the removed ones. It never decreases, and it changes only when some block was removed. |
| FallingBlocks.TickGameOver | src/Games/FallingBlocks.js:116-124 | A running tick ends in GameOver iff the sweep reports a hit. A hit comes from a moved block overlapping the player. Otherwise the game keeps running. |
| FallingBlocks.TickHalted | src/Games/FallingBlocks.js:61-68 | Outside Running the tick changes nothing. |
| FallingBlocks.SpawnScenario | src/Games/FallingBlocks.js:99-110 | Ticks that bring the timer to exactly 700 ms spawn nothing. The next tick spawns one block at y = -20, which falls to y = -17 in the same tick with its x unchanged. |
| FallingBlocks.CollisionScenario | src/Games/FallingBlocks.js:109-124 | A block falling onto a player at x = 0 ends the game, stays in the list and scores nothing. |
| FallingBlocks.Game.constructor | src/Games/FallingBlocks.js:17-39 | A fresh game shows the start overlay. The player is at (180, 570), with no blocks and score 0. The speed is the initial speed, drawn from [2, 4), and the interval is 700. |
| FallingBlocks.Game.Start | src/Games/FallingBlocks.js:171-178 | Running, score 0, no blocks, timer 0, initial speed, interval 700. The player's x is unchanged. |
| FallingBlocks.Game.Restart | src/Games/FallingBlocks.js:181-188 | Exactly the same new state as Start, from any state. |
| FallingBlocks.Game.Step | src/Games/FallingBlocks.js:78-142 | The in-place tick keeps the invariant, and its new state equals Tick of the old state and the inputs. |
| FallingBlocks.Game.BeginFrame | src/Games/FallingBlocks.js:79-106 | dt is added to the timer, the player moves by MovePlayer, and the blocks and timer become as Spawn gives them. |
| FallingBlocks.Game.MovePlayerStep | src/Games/FallingBlocks.js:88-92 | The in-place move and clamp yields MovePlayer of the old x. |
| FallingBlocks.Game.SpawnStep | src/Games/FallingBlocks.js:99-106 | The in-place push and timer reset yield Spawn of the old blocks and timer. |
| FallingBlocks.Game.MoveBlocks | src/Games/FallingBlocks.js:109-131 | The index loop, with its in-place moves and splices, leaves exactly the blocks Sweep keeps. It returns Sweep's hit flag and the number of removed blocks. |
| FallingBlocks.Game.VisitBlock | src/Games/FallingBlocks.js:110-130 | One forEach callback. The block falls by its speed and is hit-tested. It is spliced out iff it is past the bottom; otherwise it is written back moved. The rest of the pass is unaffected. |
| FallingBlocks.Game.EndFrame | src/Games/FallingBlocks.js:123-137 | The batched updates. The difficulty becomes Ramp of the old score, the score gains the removed blocks, and the phase is GameOver on a hit. On any such change the loop restarts, with its timer at 0. |
| FallingBlocks.Game.ScoreToSubmit | src/Games/FallingBlocks.js:155-163 | A submission is made iff the game is over, the score is positive and the nickname is non-empty. It carries "FallingBlocks", the nickname and the score. |
| Text.SkipForward | src/Games/Leaderboard.js:127 | Returns the first index at or after i that is not white space. Everything skipped is white space. |
| Text.SkipBackward | src/Games/Leaderboard.js:127 | Returns where the trailing white space before j begins, going no further back than lo. |
| Text.Trim | src/Games/Leaderboard.js:127 | The result is a contiguous middle of s. Everything cut off at either end is white space, and the result neither starts nor ends with white space. |
| Text.TrimEmptyIffAllSpace | src/Games/Leaderboard.js:55-56 | A string trims to empty iff it is all white space. |
| Text.TrimIdempotent | src/Games/Leaderboard.js:95 | Trimming twice is trimming once. |
| Text.Lower | src/Games/Leaderboard.js:127 | Lower-casing keeps the length. |
| Text.LowerIdempotent | src/Games/Leaderboard.js:127-129 | Lower-casing twice is lower-casing once. |
| Text.LowerCharKeepsSpace | src/Games/Leaderboard.js:127 | Lower-casing a character never changes whether it is white space. |
| Text.SkipForwardLower | src/Games/Leaderboard.js:127 | Lower-casing does not move the leading trim boundary. |
| Text.SkipBackwardLower | src/Games/Leaderboard.js:127 | Lower-casing does not move the trailing trim boundary. |
| Text.LowerSlice | src/Games/Leaderboard.js:127 | Lower-casing a slice is slicing the lower-cased string. |
| Text.LowerTrimCommute | src/Games/Leaderboard.js:127 | Trimming and lower-casing commute. |
| Leaderboard.SubsequenceReflexive | src/Games/Leaderboard.js:130 | The unfiltered list is a subsequence of itself. |
| Leaderboard.FilterByNickname | src/Games/Leaderboard.js:129 | The result is an order-preserving subsequence of the list. Every element matches the name, and an entry is in it iff it is in the list and matches. A null nickname counts as "". |
| Leaderboard.FilterByNicknameCounts | src/Games/Leaderboard.js:129 | Each entry occurs in the filtered list as often as in the full list if it matches, and not at all otherwise. |
| Leaderboard.FilterKey | src/Games/Leaderboard.js:127 | No contract of its own: the trimmed, lower-cased filter name. Displayed, FilterCaseInsensitive and BlankFilterShowsAll state what it does to the shown entries. |
| Leaderboard.Displayed | src/Games/Leaderboard.js:126-130 | The shown entries are a subsequence of the list. With a blank filter they are the whole list; otherwise they are exactly the entries whose lower-cased nickname equals the filter key. |
| Leaderboard.FilterCaseInsensitive | src/Games/Leaderboard.js:127-129 | Filter names that differ only in letter case show the same entries. |
| Leaderboard.BlankFilterShowsAll | src/Games/Leaderboard.js:127-130 | A filter made only of white space shows the whole list. |
| Leaderboard.ConfirmedFilterShowsSame | src/Games/Leaderboard.js:95-101 | The confirmed, trimmed filter name shows the same entries as the raw input. |
| Leaderboard.FindIndex | src/Games/Leaderboard.js:137 | Returns the first index holding the id, or -1 when no entry has it. |
| Leaderboard.RankClass | src/Games/Leaderboard.js:142-144 | No contract of its own: "rank-k" for original index k - 1 in 0..2, otherwise "". RowRank states the resulting class. |
| Leaderboard.MakeRow | src/Games/Leaderboard.js:137-146 | No contract of its own: one row, ranked against the unfiltered list. RowRank and FilterKeepsRanks state its rank and class. |
| Leaderboard.RowRank | src/Games/Leaderboard.js:137-143 | An entry of the list is ranked n, the first position of its id, so 1 <= n <= |list|. Its class is "ranking-item rank-n" iff n <= 3, and otherwise "ranking-item ". |
| Leaderboard.RowsOf | src/Games/Leaderboard.js:136-146 | There is one row per shown entry, in order, each ranked against the unfiltered list. |
| Leaderboard.RenderCard | src/Games/Leaderboard.js:123-133 | A card with no list, or an empty one, shows no scores. The no-match message appears only under a non-blank filter that leaves nothing. Otherwise there is one ranked row per shown entry. |
| Leaderboard.RowsOfSubsequence | src/Games/Leaderboard.js:136-146 | Rows of a subsequence of the entries form a subsequence of the rows. |
| Leaderboard.FilterKeepsRanks | src/Games/Leaderboard.js:126-146 | Filtering never changes a rank. The filtered card's rows are a subsequence of the unfiltered card's rows, and each row is its entry's row in the full list. |
| Leaderboard.SubsequenceMembers | src/Games/Leaderboard.js:129 | Every element of a subsequence is an element of the list. |
| Leaderboard.SaveRequest | src/Games/Leaderboard.js:55-61 | No update call is made iff the edited nickname is null or only white space. Otherwise the call carries the item's id, game and score, and the trimmed name, which is non-empty and has no white space at its ends. |
| Leaderboard.Board.constructor | src/Games/Leaderboard.js:11-16 | Nothing is being edited, the edit text is "", and both filter fields are "". |
| Leaderboard.Board.EditClick | src/Games/Leaderboard.js:44-47 | Editing starts on the item's id with its nickname. The filter fields are unchanged. |
| Leaderboard.Board.EditInput | src/Games/Leaderboard.js:153 | Only the edit text changes. |
| Leaderboard.Board.EditCancel | src/Games/Leaderboard.js:49-52 | Editing stops and the edit text becomes "". The filter fields are unchanged. |
| Leaderboard.Board.EditSave | src/Games/Leaderboard.js:54-71 | The outcomes are: a throw on a null name; a rejection of a blank name with no call made; a call that fails; or a call that succeeds. The editing state is cleared only on success and unchanged otherwise. |
| Leaderboard.Board.Delete | src/Games/Leaderboard.js:29-42 | No call is made unless the delete is confirmed. The editing state is cleared iff the delete succeeded on the entry being edited; otherwise it is unchanged. |
| Leaderboard.Board.FilterInput | src/Games/Leaderboard.js:93 | Only the filter text box changes. |
| Leaderboard.Board.ConfirmFilter | src/Games/Leaderboard.js:95-101 | The confirmed filter name becomes the trimmed input. Nothing else changes. |
| Leaderboard.Board.ClearFilter | src/Games/Leaderboard.js:108-111 | Both filter fields become "". The editing state is unchanged. |

## Left out

- Canvas drawing (`fillStyle`/`fillRect`), all JSX rendering and CSS: they are output only. The model covers what a card shows (`RenderCard`), but not the markup.
- The `requestAnimationFrame` / `cancelAnimationFrame` lifecycle and `performance.now()`: a tick takes the elapsed time `dt` as an input.
- While a game is running, the effect restarts only as part of a tick (`RestartsLoop`). The model does not say when React re-renders between two frames.
- React's asynchronous state batching is not modelled as such. The `setX` calls of one tick are applied together at its end.
- `Math.random()`: the module-level initial speed is a constructor parameter in [2, 4), and each spawn's random value is a tick input in [0, 1).
- IEEE floating point: all positions and speeds are exact reals.
- Key-event listener registration: the two held-key flags are tick inputs.
- The network calls (`saveScore`, `fetchAllRankings`, `deleteScore`, `updateNickname`): their module is not part of this model. The success of each call is a boolean input, and the reload after a change, which refetches the rankings, is not modelled.
- `window.confirm` and `alert`, and the `loading` flag: the answer to the confirm dialog is a boolean input, and the alerts only report outcomes (`SaveOutcome`).
- The interleaving of the asynchronous handlers with other events.
- The clear-filter button's visibility (`filterName || filterInput`): it is only a render condition.
- The loop over the four game names: the model works on one card at a time, through `RenderCard`.
- `src/App.js`: routing and the controlled nickname input are not part of this model.
- Text.Lower: maps only the ASCII letters A-Z. JavaScript's full Unicode case mapping is not modelled.
- Text.Trim: the white-space set is the ECMAScript WhiteSpace and LineTerminator code points, written out as constants. The Unicode database itself is not consulted.
