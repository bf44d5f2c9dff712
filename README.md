# YangTheSheep board and slot engine, in Dafny

This project models the game logic of the tile-matching game YangTheSheep. It
covers three source files:

- js/utils/level.js: the level generator, the occlusion check and the
  Fisher–Yates shuffle.
- js/entities/Card.js: the card entity. A card has an id, a symbol, a position,
  a layer, a lifecycle state (0 board, 1 slot, 2 matching/cleared, 3 in flight,
  4 staged) and a cover flag. It also has a small animation machine and a
  point hit test.
- js/scenes/GameScene.js: the round controller. It owns:
  - the seven-card slot (`slotCards`);
  - the stage of cards moved out by the remove tool (`holdingCards`);
  - the counters of the undo, shuffle and remove tools;
  - the one-step undo record (`lastCard`).

  It also does tap routing, grouped slot insertion, match detection, and the
  win and loss checks.

The code changes its state step by step, so the model does too.

- A card is a `class` whose methods update its fields.
- The controller is a `class` whose methods splice the `slotCards` and
  `holdingCards` sequences and update card states, animations and cover flags.
- Every method is proved against specification functions:
  - `InsertionPoint` for the slot index of a tapped card;
  - `MatchedCards` and `MatchSymbol` for the cards a match check takes;
  - `Covered` for the occlusion rule;
  - `Advance` for one animation frame;
  - `RelaidAnim` for the slot re-layout.
- Lemmas state what those functions mean.
- The controller keeps an invariant, `Valid`, through every step:
  - the slot holds at most seven cards of the round, each once;
  - every slot card is in flight, settled or being cleared;
  - the slot is grouped by symbol;
  - the stage is disjoint from the slot;
  - every animation has a positive duration.

The modules follow the program:

| module | file | models |
|---|---|---|
| `Seqs` | seqs.dfy | `indexOf`, `splice`, filtering |
| `Cards` | card.dfy | Card.js |
| `SymbolPools` | symbol_pools.dfy | the symbol pools of `generateLevel` |
| `Level` | level.dfy | level.js |
| `SlotRules` | slot_rules.dfy | the slot's insertion and match rules, on symbol sequences |
| `Scene` | game_scene.dfy | GameScene.js |

Each `setTimeout` callback is an explicit step method. The step that
schedules a callback returns what the callback captures.

| callback | step method |
|---|---|
| the settle of a tap | `Settle` |
| the match animation | `ClearStart` |
| the removal of the matched cards | `ClearRemove` |
| the cover refresh after a shuffle | `RefreshCover` |

Several external calls become fields or parameters:

| source | model |
|---|---|
| `wx.setStorageSync('maxLevel', …)` | the field `storedMaxLevel` |
| switching to the result scene | the field `outcome` |
| `game.toPx`, the screen width and the screen height | fields of the controller |
| `Math.random` | a stream `rand` of draws in [0, 1) with a cursor; every drawing method takes the cursor and returns the one after its last draw |

The model keeps these behaviours of the code, which a reader of the game's rules might not expect:

- A win stores `currentLevel + 1` unconditionally. It does not store the
  maximum of that and the stored level (GameScene.js:615 and :640).
- The cover flags are not recomputed when the matched cards leave the slot
  (GameScene.js:594-602).
- Undo needs the recorded card to still be in the slot. The record is cleared
  only then (GameScene.js:336-344).
- A staged card leaves the stage before the capacity check of
  `handleCardClick` runs (GameScene.js:452-454 against :478). On a full slot
  it is therefore dropped from the stage without entering the slot.
- `checkGameStatus` sets `isGameOver` on a cleared board. Only `checkWin`
  switches to the winning result scene.

## Model

| member | source | states |
|---|---|---|
| Level.RandomIndex | js/utils/level.js:148 | `Math.floor(r * m)` for a draw `r` in [0, 1) is an index below `m` |
| Level.CardCount | js/utils/level.js:56-68 | the card count of a level of 2 or more is a multiple of 3, is 66 at level 2 and never exceeds 150 |
| Level.TypeCount | js/utils/level.js:57-65 | a level uses between 1 and 12 symbols |
| Level.CardCountGrowth | js/utils/level.js:63-68 | from level 3 on, the count is 60 + 21·(level − 2) up to level 6 and 150 from level 7 on; each level adds 21 cards until 150 is reached |
| Level.CoveredByOther | js/utils/level.js:124-141 | the cover rule is the source's test over the other indices (`i !== j`): an eligible card is covered exactly when another eligible card on a strictly higher layer overlaps its shrunk box |
| Level.CoveredBySameSpot | js/utils/level.js:130-138 | two eligible cards on the same spot: the one on the lower layer is covered |
| Level.UpdateCoverState | js/utils/level.js:115-144 | returns the same cards; afterwards each card's flag is `Covered`, so a card neither on the board nor on the stage is uncovered; it changes only the cover flags |
| Level.UpdateCoverStateAgain | js/utils/level.js:115-144 | on cards whose flags are already those the check computes, running it again changes no flag: the check is idempotent |
| Level.Shuffle | js/utils/level.js:146-152 | the in-place Fisher–Yates shuffle permutes the array (same multiset) and makes one draw per index above 0 |
| Level.BuildTutorialPool | js/utils/level.js:17-24 | the tutorial pool is six copies of each of the first three symbols, 18 entries |
| Level.BuildTriplePool | js/utils/level.js:70-75 | the pool pushes triple `i` of symbol `i mod typeCount` for every triple of the level |
| Level.ShufflePool | js/utils/level.js:25 | the shuffled pool is a permutation of the pool |
| Level.PlaceTutorial | js/utils/level.js:27-50 | tutorial card `i` has id `i`, the `i`-th pool symbol, layer `i / 9` and its grid position; layer 0 is shifted down by 12; every card is new, on the board and at rest |
| Level.TutorialSpot | js/utils/level.js:27-50 | tutorial slot `i` is on layer `i / 9`, inside the 3×3 grid starting at (160, 240), with layer 0 shifted down by 12 |
| Level.ScaledSpot | js/utils/level.js:79-103 | the five draws from cursor `k` give a layer in [0, maxLayers) and a position in [80, 570) × [160, 600), the jittered 6×6 grid |
| Level.PlaceScaled | js/utils/level.js:78-104 | scaled card `i` has id `i`, the `i`-th pool symbol, and exactly the position and layer that the five draws from cursor `next + 5·i` give; the cursor advances by five per card |
| Level.DealtCover | js/utils/level.js:115-144 | on a freshly dealt board, a card is covered exactly when the spot of some other card of the deal is on a higher layer and overlaps its spot |
| Level.TutorialCover | js/utils/level.js:33-51 | in the tutorial layout, a card is covered exactly when it is on layer 0 |
| Level.ShuffledTutorialPool | js/utils/level.js:17-25 | the shuffled tutorial pool has 18 entries, six of each of the first three symbols |
| Level.ShuffledTriplePool | js/utils/level.js:56-76 | the shuffled pool of a scaled level has the level's card count, uses only the level's symbols, and holds every symbol a multiple of 3 times; the cursor moves past exactly the shuffle's draws |
| Level.GenerateTutorial | js/utils/level.js:16-51 | level 1 yields 18 new cards with ids 0..17, six of each of the first three symbols, computed cover flags, and exactly layer 0 covered |
| Level.GenerateScaled | js/utils/level.js:54-106 | a scaled level yields its card count of new cards. Card `i` has exactly the position and layer of the five draws that follow the shuffle's draws and the draws of the cards before it. Every symbol occurs a multiple of 3 times, the cover flags are computed, and the cursor ends after all these draws |
| Level.GenerateLevel | js/utils/level.js:12-107 | `generateLevel` on both branches: size, ids, initial state, every symbol a multiple of 3 times, card `i` at exactly its dealt spot (tutorial grid or scaled draws), the cover flag set exactly when another dealt spot on a higher layer overlaps it, and the exact cursor after the draws |
| SymbolPools.TutorialPoolCount | js/utils/level.js:17-24 | the tutorial pool of `m` symbols holds six of each symbol below `m` and nothing else |
| SymbolPools.TriplePoolCounts | js/utils/level.js:70-75 | every symbol occurs in the triple pool three times per triple it is given |
| SymbolPools.CountIsMultiplicity | js/utils/level.js:70-76 | counting occurrences is the multiset multiplicity, which a shuffle preserves |
| Cards.EaseInOutQuad | js/entities/Card.js:99 | the fly easing is 0 at t = 0, 1 at t = 1, and in [0, 1] on [0, 1] |
| Cards.EaseOutCubic | js/entities/Card.js:111 | the match easing is 0 at t = 0, 1 at t = 1, and in [0, 1] on [0, 1] |
| Cards.EaseInOutCubic | js/entities/Card.js:120 | the shuffle easing is 0 at t = 0, 1 at t = 1, and in [0, 1] on [0, 1] |
| Cards.Lerp | js/entities/Card.js:100 | interpolation with easing 0 is the start and with easing 1 is the target |
| Cards.MatchScale | js/entities/Card.js:116 | under a match the scale is 1 while t < 0.5, 0 at t = 1, and in [0, 1] |
| Cards.MatchAlpha | js/entities/Card.js:117 | under a match the opacity 1 − t² is 1 at t = 0, 0 at t = 1, and in [0, 1] |
| Cards.Advance | js/entities/Card.js:80-132 | one frame. At rest, only the click pulse decays, by 2·dt and never below 1. Animating, progress grows by dt / duration clamped to 1, and the animation stops exactly when progress reaches 1. On the final frame x is the target x, and y is the target y for match and shuffle (in exact real arithmetic; see "Left out"). Under a match, scale and opacity stay in [0, 1] |
| Cards.Card.constructor | js/entities/Card.js:5-28 | a new card takes its data's fields, scale 1, rotation 0, opacity 1, and an idle animation of duration 0.3 |
| Cards.Card.StartFlyAnimation | js/entities/Card.js:33-42 | the card animates from its current position to the target with progress 0 and duration 0.35 |
| Cards.Card.StartShuffleAnimation | js/entities/Card.js:47-56 | the same, with duration 0.6 |
| Cards.Card.StartMatchAnimation | js/entities/Card.js:61-70 | the same, with duration 0.3 |
| Cards.Card.TriggerClickEffect | js/entities/Card.js:75-78 | the scale becomes 1.15 |
| Cards.Card.UpdateAnimation | js/entities/Card.js:80-132 | the new animation fields and pose are `Advance` of the old ones; the result is true exactly on the frame on which the animation stops; state, symbol and cover flag are unchanged |
| Cards.Card.HitTest | js/entities/Card.js:211-215 | a hit, in both directions, is a visible, uncleared card whose inclusive box contains the point |
| SlotRules.RunEnd | js/scenes/GameScene.js:493-499 | the scan from `i` stops at the first index past a run of the symbol |
| SlotRules.InsertionPoint | js/scenes/GameScene.js:489-500 | the insertion index is one past the end of the first run of the symbol, or the end of the slot when the symbol is absent |
| SlotRules.InsertKeepsGrouped | js/scenes/GameScene.js:489-503 | inserting at the insertion index keeps every symbol's cards contiguous |
| SlotRules.RemoveKeepsGrouped | js/scenes/GameScene.js:335-337 | splicing one card out keeps the slot grouped |
| SlotRules.DropKeepsGrouped | js/scenes/GameScene.js:400 | taking the front cards off keeps the slot grouped |
| SlotRules.Dedup | js/scenes/GameScene.js:566-575 | the keys of `counts` are the distinct symbols, each once, in order of first occurrence |
| SlotRules.FirstReaching | js/scenes/GameScene.js:575-576 | the first key whose count reaches 3: it reaches 3 and every earlier key does not, or no key reaches 3 |
| SlotRules.DedupOrder | js/scenes/GameScene.js:566-575 | a symbol first seen earlier precedes later ones among the keys |
| SlotRules.MatchSymbolMeaning | js/scenes/GameScene.js:566-577 | the chosen symbol is settled at least three times and every symbol first settled before it fewer; no symbol is chosen exactly when none is settled three times |
| SlotRules.CountBound | js/scenes/GameScene.js:564 | a count never exceeds the length, so fewer than three settled cards never match |
| Seqs.IndexOf | js/scenes/GameScene.js:335 | `indexOf` is -1 exactly for an absent element, and otherwise the first index holding it |
| Seqs.InsertAt | js/scenes/GameScene.js:503 | `splice(k, 0, x)` puts `x` at `k` and shifts the rest right |
| Seqs.RemoveAt | js/scenes/GameScene.js:337 | `splice(k, 1)` drops index `k` and shifts the rest left |
| Seqs.Except | js/scenes/GameScene.js:595-598 | the kept elements are exactly those not dropped, at most as many as before |
| Seqs.ExceptTwice | js/scenes/GameScene.js:595-598 | dropping one list and then another is dropping both |
| Seqs.RemoveIsExcept | js/scenes/GameScene.js:596-597 | in a list without repeats, splicing out the first occurrence is dropping the element |
| Seqs.InsertRemoveRoundTrip | js/scenes/GameScene.js:335-337 | splicing an element in and then splicing out its first occurrence restores the list |
| Scene.CardHitIsRectHit | js/scenes/GameScene.js:471-474 | a card hit is a visible, uncleared card whose box passes the button rectangle test |
| Scene.CountStateMeaning | js/scenes/GameScene.js:621-628 | a filter count is 0 exactly when no card has the state, and the full length exactly when all do |
| Scene.WithState | js/scenes/GameScene.js:359 | the filter keeps exactly the cards in the state, and as many as are counted |
| Scene.SettledOfSymbolCount | js/scenes/GameScene.js:567-577 | the settled cards of a symbol are as many as the count of that symbol among the settled symbols |
| Scene.MatchedCardsMeaning | js/scenes/GameScene.js:564-577 | the matched cards are three distinct settled slot cards of one symbol, the first three of it in slot order; that symbol is settled at least three times and every symbol first settled before it fewer; there is no match exactly when no symbol is settled three times |
| Scene.ShuffleBoth | js/scenes/GameScene.js:367-374 | the positions and the types are each permuted, with one draw per index above 0 |
| Scene.ApplyShuffle | js/scenes/GameScene.js:377-383 | card `i` takes type `i` and a shuffle animation to position `i` |
| Scene.StageAll | js/scenes/GameScene.js:405-410 | moved card `i` is staged and flies to `startX + i·step` |
| Scene.SymbolsInsert | js/scenes/GameScene.js:503 | the symbols of the slot after an insertion are the old symbols with the card's symbol inserted at the same index |
| Scene.SpliceOut | js/scenes/GameScene.js:595-598 | splicing out each matched card by `indexOf` leaves the slot minus the matched cards, in order |
| Scene.ScalePositions | js/scenes/GameScene.js:36-41 | every card's position is multiplied by the pixel factor |
| Scene.AdvanceAll | js/scenes/GameScene.js:47-48 | every card of the list advances by one `Advance` frame |
| Scene.RoundCards | js/scenes/GameScene.js:29-41 | the round's cards are new, as many as the level's size, with ids equal to indices, on the board, at rest, and with every symbol a multiple of 3 times; card `i` is at its dealt spot times the pixel factor, on the dealt layer, with the cover flag of the dealt board |
| Scene.CountSettled | js/scenes/GameScene.js:566-573 | the loop builds the keys in first-occurrence order and the count of every settled symbol |
| Scene.FirstReachingKey | js/scenes/GameScene.js:575-576 | the scan of the keys returns the first key whose count reaches 3 |
| Scene.SettledOf | js/scenes/GameScene.js:577 | the filter returns the settled slot cards of the symbol, in slot order |
| Scene.FindMatch | js/scenes/GameScene.js:564-577 | the match search returns `MatchedCards` of the slot |
| Scene.MarkCleared | js/scenes/GameScene.js:580 | every matched card gets state 2 |
| Scene.GameScene.SlotGeometry | js/scenes/GameScene.js:507-512 | neighbouring slot positions are one cell plus one gap apart, and the row of seven cells is centred |
| Scene.GameScene.RelaidAnimMeaning | js/scenes/GameScene.js:550-560 | a relaid card flies to its slot position or keeps its animation; a card still animating or not settled, or within one pixel of its target horizontally, keeps it |
| Scene.GameScene.constructor | js/scenes/GameScene.js:8-44 | a new round: the level's cards as `initGame` builds them, each at its dealt spot scaled to pixels, on its dealt layer and with the dealt cover flag; an empty slot, stage and undo record; two uses of each tool; not over; card sizes `toPx(90)` by `toPx(110)` |
| Scene.GameScene.Update | js/scenes/GameScene.js:46-49 | every card of the round advances one `Advance` frame, and a staged card two, as it is in both lists; the invariant is kept |
| Scene.GameScene.UpdateSlotLayout | js/scenes/GameScene.js:537-561 | each slot card's animation becomes `RelaidAnim` of its old one at its index; the invariant is kept, and so is whether the cover flags are current |
| Scene.GameScene.FirstTappable | js/scenes/GameScene.js:449-450 | the first uncovered, hit stage card; nothing before it is tappable; nothing is returned exactly when no stage card is tappable |
| Scene.GameScene.TopCandidate | js/scenes/GameScene.js:460-468 | the board or stage card that is uncovered and hit on the highest layer, the first in round order among equals; nothing exactly when no card qualifies |
| Scene.GameScene.PickHolding | js/scenes/GameScene.js:449-457 | the stage scan returns `FirstTappable` of the stage |
| Scene.GameScene.PickBoard | js/scenes/GameScene.js:460-468 | the scan in layer order returns the card `TopCandidate` picks |
| Scene.GameScene.FindInsertionIndex | js/scenes/GameScene.js:489-500 | the two loops compute `InsertionPoint` of the slot's symbols |
| Scene.GameScene.HandleCardClick | js/scenes/GameScene.js:476-532 | on a full slot nothing changes: slot, undo record and every card's state, scale, animation and cover flag. Otherwise the card is inserted at the insertion index, is in flight with scale 1.15 and flies to that slot position, and becomes the undo record at its pre-tap position. The other slot cards are relaid, the other cards keep state and scale, every card outside the slot keeps its animation, the cover flags are recomputed, and the settle step is scheduled for the card |
| Scene.GameScene.InsertSlot | js/scenes/GameScene.js:489-504 | the card is spliced in at `InsertionPoint` and marked in flight, keeping the invariant |
| Scene.GameScene.Launch | js/scenes/GameScene.js:507-525 | the card flies to its slot position, the cover flags are recomputed, the other slot cards are relaid, and the undo record holds the card and its position |
| Scene.GameScene.UndoRestoresSlot | js/scenes/GameScene.js:335-337 | undoing a tap before anything else changes the slot restores the slot as it was before the tap |
| Scene.GameScene.OnTouchEnd | js/scenes/GameScene.js:448-468 | a tap on the stage takes the first tappable staged card off the stage and then clicks it; only otherwise is a tap on the board routed, to the top candidate. Each click has the full effect `HandleCardClick` states, or on a full slot changes no slot, record or card; no candidate changes nothing |
| Scene.GameScene.TapBoard | js/scenes/GameScene.js:460-468 | the top candidate, if any, is clicked with the full effect `HandleCardClick` states, or on a full slot nothing changes; no candidate changes nothing |
| Scene.GameScene.TapStaged | js/scenes/GameScene.js:449-456 | the staged card leaves the stage before the click, whose capacity check may then refuse it; otherwise the click has the full effect `HandleCardClick` states, and on refusal no slot, record or card changes |
| Scene.GameScene.CheckMatch | js/scenes/GameScene.js:563-608 | the matched cards are `MatchedCards` of the slot as it was; exactly they become state 2; with no match no symbol is settled three times |
| Scene.GameScene.JammedMeansFull | js/scenes/GameScene.js:619-633 | a slot that loses holds exactly seven cards, all settled |
| Scene.GameScene.ClearedIsNotJammed | js/scenes/GameScene.js:613-629 | a cleared board is never a loss |
| Scene.GameScene.CheckGameStatus | js/scenes/GameScene.js:610-634 | `isGameOver` is set and `currentLevel + 1` stored exactly for a cleared board; the loss is declared exactly on a slot with nothing in flight, seven or more settled cards and nothing being cleared, and then the slot is full of settled cards |
| Scene.GameScene.CheckJam | js/scenes/GameScene.js:619-633 | the loss is declared exactly on a jammed slot, which is then full of settled cards |
| Scene.GameScene.CheckWin | js/scenes/GameScene.js:636-644 | on a cleared board `currentLevel + 1` is stored and the round is won; otherwise nothing changes |
| Scene.GameScene.Settle | js/scenes/GameScene.js:527-531 | the settle step keeps slot and stage; `isGameOver` is set and `currentLevel + 1` stored exactly for a cleared board; the loss is declared exactly on a jammed slot, and only when nothing matched and the slot is full of settled cards |
| Scene.GameScene.SettleAndMatch | js/scenes/GameScene.js:528-529 | the card is settled, then exactly the matched cards become state 2, three of one symbol; with no match no symbol is settled three times |
| Scene.GameScene.MatchedCardsMeaningAfter | js/scenes/GameScene.js:626-629 | after a match the slot holds cards being cleared, so no loss is declared |
| Scene.GameScene.ClearStart | js/scenes/GameScene.js:583-593 | each matched card starts a match animation towards the point `toPx(200)` above the middle card |
| Scene.GameScene.ClearRemove | js/scenes/GameScene.js:594-602 | the slot loses exactly the matched cards and keeps the order of the rest; a cleared board is won and stores `currentLevel + 1`; otherwise a jammed slot is lost |
| Scene.GameScene.RemoveAndRelay | js/scenes/GameScene.js:595-599 | the slot loses exactly the matched cards, and the rest are relaid |
| Scene.GameScene.FinishClear | js/scenes/GameScene.js:600-601 | a cleared board is won, sets `isGameOver` and stores `currentLevel + 1`, and is never lost; a jammed slot is lost |
| Scene.GameScene.RefreshCover | js/scenes/GameScene.js:386-388 | every cover flag is recomputed from the round's cards |
| Scene.GameScene.UseUndo | js/scenes/GameScene.js:329-350 | without uses, without a record, or with the recorded card gone from the slot, nothing changes. Otherwise the card leaves the slot, is on the board and flies back to its recorded origin, one use is spent and the record is cleared, the slot is relaid and the cover flags are recomputed; no other card changes state, and no other card outside the slot changes animation |
| Scene.GameScene.UndoStep | js/scenes/GameScene.js:336-344 | the recorded card is spliced out and sent back, one use is spent, and the record is cleared, so a second undo is a no-op |
| Scene.GameScene.UseShuffle | js/scenes/GameScene.js:355-391 | without uses or without board cards nothing changes. Otherwise one use is spent, the board cards' types are permuted, their animation targets are a permutation of their old positions, each starts a shuffle animation, two shuffles' draws are made, and no other card changes |
| Scene.GameScene.ShuffleBoard | js/scenes/GameScene.js:362-390 | the board cards' types and targets are permutations of their old types and positions, and one use is spent |
| Scene.GameScene.Reassign | js/scenes/GameScene.js:377-383 | board card `i` takes type `i` and flies, shuffling, to position `i`, keeping the invariant |
| Scene.GameScene.UseRemove | js/scenes/GameScene.js:396-414 | without uses or on an empty slot nothing changes. Otherwise the first min(3, n) slot cards move, in order, to the end of the stage, staged and flying to their stage positions; the rest of the slot keeps its order and its states and is relaid; one use is spent; no card outside the old slot changes |
| Scene.GameScene.MoveToStage | js/scenes/GameScene.js:400-412 | the first `m` slot cards leave the slot for the end of the stage, staged and flying to their stage positions, and the remaining slot cards keep their states and animations |

## Left out

- Drawing is not modelled: `render` in both files, the header, footer, tool, slot and stage rendering, `roundRect`, `drawButton`, `drawCircleTool`, `drawGrassTufts` and `getDarkerColor`. It is canvas output with no game logic.
- The trigonometric terms of `updateAnimation` are parameters. These are the fly arc and fly scale, and the shuffle rotation and scale. `Math.sin(Math.PI * t)` is a function `sinPi` and `Math.PI` is a value `pi`. Nothing is proved about their values.
- The timers' delays (350, 200, 300 and 650 ms) are not modelled. Each callback is a step method that the caller may run at any later time, so a tap, an undo or a tool use can come between a tap and its settle step, as in the game.
- Storage and scene switching are not modelled. `wx.setStorageSync` and `switchScene` are the fields `storedMaxLevel` and `outcome`; the persisted value is not read back.
- The back button and the three tool buttons of `onTouchEnd` (GameScene.js:427-446) are not modelled; they only dispatch to `useUndo`, `useShuffle` and `useRemove`, which are modelled.
- `Math.random` gives an arbitrary draw in [0, 1) at each cursor index; no distribution is modelled.
- Screen sizes and `rpx2px` are fields of the controller. Their values come from the host game object, whose code (js/core/Game.js) is not part of this model.
- Scene.GameScene.PickBoard: the scan is specified by the card it finds, `TopCandidate`. It does not model the sorted copy `[...this.cards].sort(…)` itself. With a stable sort this is the same card: the highest layer, and the first in round order among equals.
- Scene.GameScene.Settle: its contract does not repeat the card-state facts of the match. `SettleAndMatch` states them.
- Scene.GameScene.ClearRemove: its contract does not repeat the re-layout of the remaining slot cards. `RemoveAndRelay` states it.
- Scene.GameScene.UseRemove: the remove tool's counter is decremented before the loop that stages the cards, not after it. No step can observe the difference.
- The controller's longer methods are split into sub-steps. Examples are `ClickIn`, `TakeCard`, `PlaceCard`, `FlyIn`, `RefreshAndRelay`, `Record`, `FlyAndRelay`, `TakeBack`, `Detach`, `StageMoved`, `Redeal`, `ScaleDealt` and, in the level generator, `DealScaled`. Each sub-step runs a contiguous part of the source function in the source's order.
- Numbers are exact reals, not IEEE-754 doubles. Positions, progress, easing and durations have no rounding in the model. So `Cards.Advance` puts a card on its target on the final frame exactly, where JavaScript may land within rounding error of it. No modelled decision tests two computed numbers for exact equality: the re-layout compares with a one-pixel tolerance, and the progress clamp compares with 1.
