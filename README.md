# Memylon in Dafny

Memylon is a browser memory game. The board has 6 × 4 cards that show 12
programming-language logos, two of each. After an opening "flash" shows
every card for a few seconds, the player turns over two cards at a time:

- A matching pair dissolves, and the language's name flies across the board.
- A mismatch flips both cards back and counts a miss.
- Removing the last pair plays a short final scene.

Everything on screen is driven by *animation sequences*. Each one is a list
of timed steps (`pose`, `flip`, `hide`, `text`, `exec`, `wait`) that a
50 ms frame clock advances.

The model follows the structure of `memylon.js`:

- `Animation` covers `AnimSequence`, whose `add` and `update` change its
  fields in place, and the `anim` builder. `Advance` is the pure
  specification of one tick: it returns the step call it would make as an
  `Invocation` (step kind, progress, parameter), not calling a closure.
- `Utils` covers `shuffleArray` (an in-place loop over an `array`), `every`,
  `lerp` and `setDefaults`. The random draws are supplied by the caller.
- `AnimFunctions` states what each step function draws or does for a call,
  including how a caption fills its defaults.
- `Schedules` holds the step lists the game attaches:
  - the opening flash;
  - first pick, match and mismatch;
  - the match caption;
  - the final scene.

  It also proves how those lists play out tick by tick.
- `Board` is the turn state machine as values:
  - signed ids (positive is face up, negative face down, 0 removed);
  - the first pick, the miss counter and the interaction gate;
  - the pixel-to-cell mapping, the click transitions, the board invariant;
  - the board `resetGame` deals.
- `Game` is the `Memylon` class, whose fields `cards`, `anims`, `prevIdx`,
  `numMisses` and `canInteract` its methods update in place:
  - `resetGame` and `flashCards`;
  - `onMouseClick` with its three transitions;
  - `playFinalScene` and `updateBoard`.

  Each method is specified against the `Board` functions through `View()`.
- `Constants` holds the game's constants.

## Model

| member | source | states |
|---|---|---|
| Animation.AnimSequence.constructor | memylon.js:2-6 | a new sequence has no steps, is at step 0 and has time 0 |
| Animation.AnimSequence.Add | memylon.js:8-10 | appends exactly one step, with its function, duration and parameter; index and time are unchanged |
| Animation.Advance | memylon.js:12-24 | one tick makes exactly one call, of the current step with its own parameter. Progress is 1 exactly when the step has a truthy duration and its time has run out. Otherwise progress is in [0, 1], or undefined exactly for an undefined duration. A 0 duration gives progress 0. The index moves up by one exactly when the time ran out and a next step exists, otherwise it stays. When the step is not left, or is the parked last step, the clock only gains `dt`. The sequence stays ready (index in range) |
| Animation.MidStepProgress | memylon.js:14-22 | while a truthy duration has not run out, the call's progress is exactly (curTime + dt) / duration, which is in [0, 1), and the tick only adds `dt` to the clock |
| Animation.AnimSequence.Update | memylon.js:12-24 | the new fields and the returned call are what `Advance` gives for the old fields |
| Animation.Anim | memylon.js:187-198 | returns a fresh sequence holding exactly the given steps in order, at step 0 and time 0 |
| Animation.Run | memylon.js:12-24 | n ticks keep the sequence ready and its steps unchanged, and move the index up by at most n |
| Animation.RunSplit | memylon.js:12-24 | a + b ticks are a ticks followed by b ticks |
| Animation.UntimedStepHolds | memylon.js:15-22 | a step with an undefined or 0 duration is never left, and every call it gets has progress undefined (or 0) |
| Animation.ParkedStepRefires | memylon.js:15-21 | once the last step's time has run out, it is called again at progress 1 on every later tick |
| Animation.NoCatchUp | memylon.js:15-20 | however large dt is, a tick leaves at most one step, and the next step starts at time 0 (the excess is discarded) |
| Utils.Shuffled | memylon.js:28-35 | the array after the loop has visited positions 0 .. n-1: position j swapped with the index drawn from the j-th draw; the result has the input's length. Its partners are ShuffleArray, ShuffledPermutation and ShuffleMovesEveryElement |
| Utils.DrawIndexIsFloor | memylon.js:30 | the drawn index is exactly Math.floor(r * i) |
| Utils.DrawIndex | memylon.js:30 | the index drawn for position i is below i, or 0 when i is 0 |
| Utils.ShuffleArray | memylon.js:28-35 | the array ends as the specified sequence of swaps made, and as a permutation (same multiset) of its input |
| Utils.SwapPermutes | memylon.js:31-33 | one exchange of two cells keeps the multiset |
| Utils.ShuffledPermutation | memylon.js:28-35 | for any draws, the shuffle's result is a permutation of its input |
| Utils.ShuffledDistinct | memylon.js:28-35 | shuffling pairwise different values keeps them pairwise different |
| Utils.ShuffledMap | memylon.js:28-35 | shuffling commutes with projecting the elements (the loop never looks at the values) |
| Utils.ShuffledFirstTwo | memylon.js:28-35 | the first two iterations always exchange positions 0 and 1 |
| Utils.ShuffledIndicesMove | memylon.js:28-35 | after positions 0 .. n-1 (n >= 2) are visited, none of them holds its own original element, and later positions are untouched |
| Utils.ShuffleMovesEveryElement | memylon.js:28-35 | for two or more different values, no element ends where it started: the loop draws from [0, i), not [0, i] |
| Utils.Every | memylon.js:38-43 | true exactly when the predicate holds of every element |
| Utils.Lerp | memylon.js:46-48 | gives a at t = 0, b at t = 1, and a for every t when a = b |
| Utils.WithDefaults | memylon.js:51-57 | the keys are those of params and defaults together; defined keys keep their values; missing keys get the default |
| Utils.SetDefaults | memylon.js:51-57 | the loop over the default keys produces exactly `WithDefaults` |
| Utils.WithDefaultsIdempotent | memylon.js:51-57 | filling a second time with the same defaults changes nothing |
| AnimFunctions.Glyph | memylon.js:106 | the face of a positive id, the back (glyph 0) otherwise; FlipTurnsOver and MismatchShowsBacks use it |
| AnimFunctions.FlipFace | memylon.js:142-143 | `flip` shows one of the card's two sides, the given one up to t = 1/2; an undefined t shows the other side |
| AnimFunctions.Draw | memylon.js:137-184 | only `pose`, `flip` and `hide` draw a sprite, always of one of the card's two sides. `pose` and `flip` draw it opaque, and a sprite's opacity is in (0, 1] for t >= 0. Only `text` draws a caption, and `exec` and `wait` draw nothing |
| AnimFunctions.Fires | memylon.js:177-181 | `exec` runs its callback when t is exactly 1; ExecFiresWhenElapsed ties this to the step's time running out |
| AnimFunctions.CaptionAt | memylon.js:155-175 | `text` at progress t: size, position and opacity interpolated between the filled `*From` and `*To`; its properties are CaptionEndpoints, StaticCaption, CaptionRestsAt and FromOnlyCaption |
| AnimFunctions.AtlasCells | memylon.js:106-110 | different glyphs have different atlas cells, and every face lies within 9 columns and 6 rows |
| AnimFunctions.FillCaption | memylon.js:157-160 | after both fills, every base default key and every `*To` key is present |
| AnimFunctions.FillCaptionKeeps | memylon.js:157-160 | given fields are kept. Missing base fields get the base defaults. Each missing `*To` equals the filled `*From` |
| AnimFunctions.FillCaptionIdempotent | memylon.js:155-160 | filling an already filled caption changes nothing, so every tick of `text` sees the first tick's caption |
| AnimFunctions.StaticCaption | memylon.js:157-165 | a caption with no `*To` field does not move, grow or fade |
| AnimFunctions.CaptionRestsAt | memylon.js:157-173 | at progress 1 a caption is at its `xTo`, or at its `xFrom` when it has none, and shows its text |
| AnimFunctions.CaptionEndpoints | memylon.js:162-165 | size, x, y and opacity start at the filled `*From` values and end at the `*To` values |
| AnimFunctions.FromOnlyCaption | memylon.js:157-165 | a caption given only text, xFrom and sizeFrom is drawn at those values and the default y and opacity, at every progress |
| AnimFunctions.ExecFiresWhenElapsed | memylon.js:177-181 | an `exec` fires on a tick exactly when its step's time runs out on that tick |
| AnimFunctions.FlipTurnsOver | memylon.js:141-145 | `flip` shows the given id at t = 0 and the opposite side at t = 1 |
| AnimFunctions.HideFades | memylon.js:147-153 | `hide` draws exactly while t < 1, and nothing on the completing call |
| Schedules.FlashSteps | memylon.js:122-128 | a card's flash: wait (column + 1) × 80 ms, flip up, stay up 6000 ms, flip down; its timing is FlashCardFinishes |
| Schedules.FlashExecSteps | memylon.js:130-131 | the one `exec` turning interaction on, lasting 6 × 80 + 2 × 500 + 6000 ms, undefined without cards; its timing is FlashExecFires |
| Schedules.FirstPickSteps | memylon.js:243 | first pick: one 500 ms flip of the clicked card |
| Schedules.MatchPrevSteps | memylon.js:251-253 | match, first card: pose 500 ms, then hide 500 ms |
| Schedules.MatchCardSteps | memylon.js:255-257 | match, clicked card: flip 500 ms, then hide 500 ms |
| Schedules.CaptionSteps | memylon.js:259-262 | the 2000 ms flying caption followed by an endless wait; MatchCaptionFlies gives its endpoints |
| Schedules.MismatchPrevSteps | memylon.js:271-274 | mismatch, first card: pose 800 ms, flip 500 ms, rest face down; MismatchFrames and MismatchSettlesTogether give its timing |
| Schedules.MismatchCardSteps | memylon.js:276-280 | mismatch, clicked card: flip 500, pose 300, flip 500, rest face down; same partners |
| Schedules.FinalScene | memylon.js:201-234 | the final scene is five sequences of two steps each |
| Schedules.MatchCaptionFilled | memylon.js:157-160 | the filled match caption names the card, grows from 10 to 300, fades from 1 to 0.01 and stays at (182, 150) |
| Schedules.MatchCaptionFlies | memylon.js:259-262 | the match caption starts as (name, 10, 182, 150, 1) and ends as (name, 300, 182, 150, 0.01) |
| Schedules.FinalSceneLinesLand | memylon.js:201-234 | every final-scene line comes to rest at x = 190, the last one names the winning card, and the lines start one after another |
| Schedules.FramesBound | memylon.js:15 | a positive duration runs out on tick ceil(ms / 50) and not before |
| Schedules.WithinStep | memylon.js:12-24 | ticks that do not exhaust the current step only add to its clock |
| Schedules.FinishStep | memylon.js:15-20 | a step entered at time 0 is called at progress 1 on its ceil(ms / 50)-th tick, and the next step then starts at time 0 |
| Schedules.ReachStep | memylon.js:15-20 | a fresh sequence of positive steps enters step k at time 0 after the sum of the earlier steps' tick counts |
| Schedules.IndexDuring | memylon.js:12-24 | between entering step k and entering step k+1, step k is current with the elapsed time on its clock |
| Schedules.StopsAtUntimed | memylon.js:15-22 | once a sequence reaches a step without a truthy duration, it stays on it and calls it on every tick |
| Schedules.LastStepCompletes | memylon.js:15-21 | the last step is called at progress 1 exactly from the tick its time runs out, and on every tick after |
| Schedules.MismatchFrames | memylon.js:272-280 | the mismatch step lists reach their last steps after 26 ticks, which is 2 × FLIP_TIME + SHOW_TIME |
| Schedules.MismatchSettlesTogether | memylon.js:270-280 | both mismatched cards reach their resting step on the same tick, exactly when 2 × FLIP_TIME + SHOW_TIME has passed |
| Schedules.MismatchShowsBacks | memylon.js:270-280 | once settled, both mismatched cards are drawn face down |
| Schedules.FlashCardFinishes | memylon.js:118-131 | every card's flash ends no later than the `exec` fires, and the last column's ends on exactly that tick; the card is then drawn face down |
| Schedules.FlashExecFires | memylon.js:130-131 | the flash `exec` fires exactly from its tick on; without cards its duration is NaN and it never fires |
| Board.CardX | memylon.js:309 | the cached x of card i, (i mod 6) × 64; CellRoundTrip and CellCovers are its partners |
| Board.CardY | memylon.js:310 | the cached y of card i, floor(i / 6) × 60; same partners |
| Board.CellIndex | memylon.js:237 | the cell a click at pixel (x, y) selects; CellRoundTrip and CellCovers prove it inverts CardX and CardY |
| Board.CellRoundTrip | memylon.js:308-311 | a click inside card i's cached cell selects index i |
| Board.CellCovers | memylon.js:308-311 | every point of the board lies in the cell of the index the click computes |
| Board.Classify | memylon.js:239-247 | a pick that is not ignored names an existing, not removed card other than the first pick. A second pick happens only when there is a first pick |
| Board.ClassifyCases | memylon.js:239-247 | while interaction is off every click is ignored. A click is ignored exactly when one of the guard's four tests fails. Otherwise the pick names the clicked index, is a first pick exactly when none is remembered, and a match exactly when the magnitudes agree |
| Board.FirstPickEffect | memylon.js:240-245 | the first-pick transition; FirstPickShowsCard and FirstPickKeepsInv are its properties |
| Board.MatchEffect | memylon.js:247-284 | the match transition; MatchCounts, MatchRemovesPair, MatchKeepsInv and FinalSceneWhenCleared are its properties |
| Board.MismatchEffect | memylon.js:269-284 | the mismatch transition; MismatchHidesBoth and MismatchKeepsInv are its properties |
| Board.AllCleared | memylon.js:265 | every id is 0; NoCardsLeft computes it and FinalSceneWhenCleared ties the final scene to it |
| Board.Outcome | memylon.js:239-285 | the outcome of a click keeps prevIdx well-formed, the number of cards and the interaction gate |
| Board.Click | memylon.js:236-287 | the same for a click at a pixel |
| Board.TurnKeepsCount | memylon.js:244 | turning one card over keeps how many cards show each face |
| Board.ClearPairCount | memylon.js:264 | clearing a card and its partner removes their face from both cards and keeps every other face's count |
| Board.MatchCounts | memylon.js:247-268 | a match removes exactly the matched face's pair, keeps every other count and removes two more cards |
| Board.MatchRemovesPair | memylon.js:247-284 | a matching click removes the pair, counts no miss and forgets the first pick |
| Board.MatchIffPartner | memylon.js:247 | under the invariant, a second pick matches exactly when its id is the negation of the first pick's; otherwise it is a mismatch |
| Board.MismatchHidesBoth | memylon.js:269-284 | a mismatch leaves every card face down with its face unchanged, adds exactly one miss and forgets the first pick |
| Board.ClickIsLocal | memylon.js:236-287 | a click changes only the clicked card and the first pick, and restarts only their sequences; an ignored click changes nothing |
| Board.FirstPickShowsCard | memylon.js:240-245 | under the invariant, a first pick remembers the clicked index and turns that card face up with the same face; no other card changes and no miss is counted |
| Board.FirstPickKeepsInv | memylon.js:240-245 | a first pick keeps the invariant (pairs, names, only the first pick face up) |
| Board.MatchKeepsInv | memylon.js:247-268 | a match keeps the invariant |
| Board.MismatchKeepsInv | memylon.js:269-284 | a mismatch keeps the invariant |
| Board.ClickPreservesInv | memylon.js:236-287 | every click keeps the invariant |
| Board.FinalSceneWhenCleared | memylon.js:259-268 | the ambient sequences change exactly on a match. The final scene plays exactly when the match leaves every id 0, otherwise the caption flies. Both name the clicked card |
| Board.MatchNameInRange | memylon.js:260 | under the invariant, the name index abs(id) - 1 of a matched card is within CARD_NAMES |
| Board.ClearedBoardIgnoresClicks | memylon.js:239 | once every card is removed, no click changes anything |
| Board.FaceIds | memylon.js:295 | the ids array holds 1 .. 53 in order |
| Board.Deal | memylon.js:299-304 | card i holds the negated face i / 2 |
| Board.ShuffledFaces | memylon.js:295-296 | the shuffled faces are pairwise different and each is in 1 .. 53 |
| Board.DealtCounts | memylon.js:299-305 | after the card shuffle, every face is on 0 or 2 cards and every card is face down with a face in 1 .. 53 |
| Board.DealtMagnitudes | memylon.js:299-305 | the shuffled deck shows exactly 12 different faces |
| Board.ResetBoard | memylon.js:290-318 | the turn state resetGame leaves for the draws of its two shuffles; ResetDealsPairs states its properties |
| Board.ResetDealsPairs | memylon.js:290-318 | the dealt board has 24 face-down cards with 12 different faces, twice each, in 1 .. 53. Nothing is picked, no miss is counted, interaction is off, and the invariant holds |
| Game.Memylon.constructor | memylon.js:78-82 | no cards, no ambient sequences, no first pick, no misses, interaction off |
| Game.Memylon.FlashCards | memylon.js:118-132 | interaction is off. Every card keeps its id and position and gets a fresh flash sequence delayed by its column. The ambient sequences become the single `exec` |
| Game.Memylon.FlashEach | memylon.js:120-129 | the loop gives every card its own fresh flash sequence and keeps ids and positions |
| Game.Memylon.ResetGame | memylon.js:290-318 | the new turn state is `ResetBoard` for the draws. Cards have their row-major positions and flash sequences. The ambient sequences are the single `exec` |
| Game.Memylon.DealBoard | memylon.js:294-311 | the card ids are the shuffled deal, every card sits at its row-major position, and every card holds a fresh one-step `pose` sequence without a duration |
| Game.Memylon.PlaceCards | memylon.js:308-311 | every card gets its row-major position; ids and sequences are unchanged |
| Game.Memylon.PlayFinalScene | memylon.js:201-234 | the ambient sequences become five fresh sequences of the final scene's lines |
| Game.Memylon.PickFirst | memylon.js:240-245 | the first pick does what `FirstPickEffect` says |
| Game.Memylon.NoCardsLeft | memylon.js:265 | true exactly when every card has been removed |
| Game.Memylon.AnnounceMatch | memylon.js:259-267 | the ambient sequences become the final scene when no card is left, and the flying caption otherwise |
| Game.Memylon.PickMatch | memylon.js:247-284 | a match does what `MatchEffect` says |
| Game.Memylon.PickMismatch | memylon.js:269-284 | a mismatch does what `MismatchEffect` says |
| Game.Memylon.OnMouseClick | memylon.js:236-287 | the board state, the restarted cards and the ambient sequences are exactly what `Click` gives for the old state, and the class invariant holds |
| Game.Memylon.AdvanceEach | memylon.js:324-330 | each sequence advances by exactly one `Advance` of FRAME_TIME, in order. Interaction turns on exactly when a game callback fires |
| Game.Memylon.UpdateBoard | memylon.js:321-331 | every card's sequence and then every ambient sequence advances by one frame. No card, id or ambient list changes. Interaction turns on exactly when an `exec` of the callback fires |
| Game.AnimAll | memylon.js:203-233 | one fresh, separate sequence per step list |
| Game.DrawFaces | memylon.js:294-296 | the ids array is 1 .. 53, shuffled by the name draws |
| Game.DealCards | memylon.js:299-304 | card j gets id -faces[j / 2] and a fresh one-step `pose` sequence |
| Game.ShuffleCards | memylon.js:305 | the cards are shuffled by the card draws as `shuffleArray` does, so every shuffled card is one of the dealt cards |

## Left out

- Rendering is not modelled: canvas drawing, pixel scaling, fonts, colours
  and `globalAlpha`. `Draw` keeps what is drawn (glyph, opacity, caption
  geometry) and the glyph's atlas cell.
- `Math.cos(Math.PI * t)` in `flip` is replaced by its sign on [0, 1]: the
  given face shows for t <= 1/2 and the other face after. The squash width
  is not modelled.
- `Math.random` is not modelled. Both shuffles take their draws (reals in
  [0, 1)) as arguments. Uniformity of the shuffle is statistical and is not
  stated.
- The DOM and timers are not modelled: `init`, `Utils.$`, the event
  listeners and `setInterval`. `UpdateBoard` is one frame, and
  `OnMouseClick` takes the canvas-relative pixel.
- `setNumMisses` writes the counter into the page. Only the counter value is
  kept (`numMisses`).
- The contents of `CARD_NAMES` are not modelled, only its length, 53. A
  caption's text is the index `abs(id) - 1`.
- A caption field holding a non-number (NaN arithmetic) is not modelled:
  `NumField` reads such a field as 0. The game only stores numbers there.
  Caption keys are limited to the fields the game uses.
- Utils.Lerp: no betweenness bound is stated for t in (0, 1); only the
  endpoints and the constant case are.
- Numbers: JavaScript doubles are modelled as exact reals (progress,
  `lerp`, the random draws, caption values) and pixel coordinates and
  times as integers. Rounding is not modelled, so a value such as the match
  caption's final opacity is the exact 0.01 (`Schedules.MatchCaptionFlies`),
  where doubles give 1 + 1 × (0.01 - 1) = 0.010000000000000009.
- The order of statements is changed in three places; the resulting state
  is the same:
  - Game.Memylon.PickMatch and Game.Memylon.PickMismatch clear the ids or
    count the miss before they make the card sequences, and forget the first
    pick first.
  - Game.Memylon.AnnounceMatch runs the `every` test before it makes the
    caption sequence; making it does not touch the cards.
  - Game.DealCards fills the cards upward, not from the last index down.
- The comment on `shuffleArray` (memylon.js:27) calls it Fisher-Yates. The
  code walks upward and draws from [0, i), not [0, i], and the model follows
  the code: for two or more pairwise different elements, no element stays in
  place (`Utils.ShuffleMovesEveryElement`).
