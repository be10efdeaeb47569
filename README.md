# Rhythm-game judgement engine, modelled in Dafny

This project models the judgement, timing and scoring core of a small
four-lane rhythm game written in Go. A chart lists notes, each due in one lane
at a song time in milliseconds. A key press in a lane targets the first
unresolved note of that lane in chart order. The press is classified by its
distance from that note:

- within 50 ms it is Perfect, within 80 ms Great, within 100 ms Good;
- within 120 ms it is Miss;
- beyond 120 ms it is discarded.

A judged press marks the note hit, and that includes a Miss. It also updates
the combo, the last judgement shown and the score. Each tick, after the
presses, a sweep marks missed every unresolved note more than 120 ms in the
past and resets the combo. When the song time passes the chart's end (its
last note plus 3000 ms), the game returns to the title screen.

Modules:

- `Charts` (`chart.dfy`): the `Note` and `Chart` records and the demo chart.
- `Judging` (`judging.dfy`): the rules as functions over a `Play` snapshot
  (notes, combo, last judgement, score), and the properties proved about them.
  - `Classify` and `Weight` give a press's tier and weight.
  - `FirstTarget` finds the note a press targets.
  - `Judged` is one press, `Swept` the miss sweep, `Tick` one tick.
- `Engine` (`game.dfy`): the `Game` class with the source's play-state fields.
  The score is kept as `points` (see below), the chart as its `notes`, and the
  start time is not kept.
  - Its notes are an `array<Note>` resolved in place.
  - Its methods loop over that array like the source does.
  - Each play-state method (`JudgeLane`, `UpdateAutoMiss`,
    `ProcessInputAndJudgement`, `UpdatePlaying`) is proved to leave the state
    that the matching `Judging` function describes
    (`State() == Judged(old(State()), lane, songTimeMs)` and so on).
  - The constructor, `Start` and `StartNewChart` are specified field by
    field, and `FindTarget` returns the index `FirstTarget` describes.
- `Scenarios` (`scenarios.dfy`): worked play-throughs.
  - It includes a client that plays the demo chart using only the class
    contracts.

Modelling choices:

- **Windows in milliseconds.** The source compares `|delta| / 1000` as a
  float with 0.05, 0.08, 0.10 and 0.12. Division is correctly rounded and
  rounding is monotonic, so these comparisons equal the integer comparisons
  `|delta| <= 50, 80, 100, 120`.
- **Score in tenths.** The score is kept as the integer `points`, counted in
  tenths of a note's share: Perfect adds 10, Great 8, Good 5, Miss 0. The
  shown score is `points * scorePerNote / 10`, with `scorePerNote =
  1000000 / n` as an exact `real`.
- **Last judgement.** The judgement string (empty before the first
  judgement) is `Option<Tier>`.
- **Input as parameters.** The song time and the keys pressed in a tick are
  parameters of `Update` and `UpdatePlaying`.
  - `pressed` has one flag per lane key. Lanes are judged in lane order 0..3,
    as the key loop does.
  - A click on the start button is the flag `startClicked`.

Behaviours of the code worth stating:

- **Target.** The target is the first unresolved note of the lane in chart
  order, not the one with the smallest time.
  - `FirstTargetIsEarliestWhenSorted` proves that the two agree on a chart
    sorted by time, such as the demo chart.
  - `FirstTargetFollowsChartOrder` shows an unsorted chart where they differ.
- **Tick order.** Within a tick, presses are judged before the sweep. A press
  can therefore target a stale note that the sweep of the same tick would have
  marked missed (`StaleNoteSwallowsPress`).
- **End of chart.** The chart's end is its last note in chart order plus
  3000 ms. When a tick passes it, the mode goes back to the title screen. There
  is no separate finished state. On an unsorted chart this end can come while
  a note is still pending (`UnsortedChartEndsWithPendingNote`).
- **What Start resets.** `Start` resets the score but not the combo, the last
  judgement or the song time, so the combo carries over into the next chart.
- **No checks.** There is no empty-chart error and no check that the song
  time never goes back. The judgement code does no lane validation: a note in
  a lane outside [0, 4) is never targeted and is swept missed once its window
  passes (`OutOfRangeLaneIsSwept`). Only the drawing helper `laneX` checks the
  lane, and it ends the program with `log.Fatal`.

## Model

| member | source | states |
|---|---|---|
| `Charts.DemoChart` | engine/chart.go:19-31 | the demo chart is song "Demo" at 120 BPM and offset 0, with exactly four notes; note i is in lane i, all start with neither flag set, and their times strictly increase from 1000 to 2500 |
| `Judging.Classify` | engine/game.go:188-214 | a press is judged (given a tier) exactly when it is within 120 ms of its note, and keeps the combo (a tier other than Miss) exactly when it is within 100 ms |
| `Judging.Weight` | engine/game.go:190-211 | a tier's score weight is at most a full share, and is zero exactly for Miss |
| `Judging.ClassifyFollowsTable` | engine/game.go:188-214 | a press within 50 ms of its note is Perfect, within 80 ms Great, within 100 ms Good, within 120 ms Miss, and farther away it is discarded |
| `Judging.ClassifyIsSymmetric` | engine/game.go:188-189 | early and late presses the same distance away get the same tier |
| `Judging.CloserPressScoresNoLess` | engine/game.go:192-211 | a press closer to its note is judged whenever a farther one is and never earns a smaller weight |
| `Judging.FirstTarget` | engine/game.go:176-186 | the result is the first index, in chart order, of a note in the lane with neither flag set; it is None exactly when the lane has no such note |
| `Judging.FirstTargetIsEarliestWhenSorted` | engine/game.go:176-183 | on a chart sorted by time, the first target in chart order has the smallest time among the lane's unresolved notes |
| `Judging.FirstTargetFollowsChartOrder` | engine/game.go:176-183 | on an unsorted chart the target is chosen by chart order: a note due at 1500 is targeted while one due at 1000 in the same lane is unresolved |
| `Judging.Judged` | engine/game.go:175-218 | a press keeps the number of notes, adds between 0 and a full share (10 tenths) to the score, and changes the state only when its lane has a first target within 120 ms of the press |
| `Judging.JudgedWithoutTargetChangesNothing` | engine/game.go:184-186 | a press in a lane with no unresolved note changes no note, combo, judgement or score |
| `Judging.JudgedFollowsTable` | engine/game.go:188-217 | for the first target at distance d: d<=50 Perfect, d<=80 Great, d<=100 Good (each combo+1, score +10/+8/+5 tenths); d<=120 Miss (combo 0, score unchanged); in all four only that note changes and it is marked hit; d>120 changes nothing |
| `Judging.SweptNotes` | engine/game.go:246-253 | the swept notes keep their number, lanes and times, and none of them is left unresolved more than 120 ms in the past |
| `Judging.Swept` | engine/game.go:245-257 | the sweep keeps the number of notes and the score; it either changes nothing or leaves combo 0 and judgement Miss |
| `Judging.SweptMarksExactlyExpired` | engine/game.go:245-257 | the sweep sets the miss flag on exactly the unresolved notes more than 120 ms in the past and leaves every other note as it was; it sets combo 0 and judgement Miss exactly when it marks one; the score is unchanged |
| `Judging.SweptLeavesNothingExpired` | engine/game.go:245-257 | after the sweep no unresolved note is more than 120 ms in the past |
| `Judging.SweptIsIdempotent` | engine/game.go:246-249 | a second sweep at the same time changes nothing |
| `Judging.PressedLanes` | engine/game.go:162-168 | at most one lane is judged per key, and every lane judged is a valid key index |
| `Judging.JudgeEach` | engine/game.go:162-168 | judging a run of presses keeps the number of notes and adds between 0 and one full share per press to the score |
| `Judging.Tick` | engine/game.go:269-277 | a tick (presses, then the sweep) keeps the number of notes and adds between 0 and one full share per key to the score |
| `Judging.PressedLanesAreThePressedOnesInOrder` | engine/game.go:162-168 | the lanes judged in a tick are exactly those whose key went down, each once, in increasing lane order |
| `Judging.AdvancesKeepsFlags` | engine/game.go:178 | when notes only advance, no lane or time changes, no flag is cleared, no resolved note changes, and no note gets both flags |
| `Judging.JudgedAdvances` | engine/game.go:178-216 | a press only sets the hit flag of a note that had neither flag |
| `Judging.SweptAdvances` | engine/game.go:247-252 | the sweep only sets the miss flag of notes that had neither flag |
| `Judging.JudgeEachAdvances` | engine/game.go:162-168 | a run of presses only resolves unresolved notes |
| `Judging.TickAdvances` | engine/game.go:269-277 | a whole tick only resolves unresolved notes, each with exactly one flag |
| `Judging.JudgedKeepsConsistent` | engine/game.go:196-217 | a press keeps the combo non-negative and the score within a full share per hit note, and never lowers the score |
| `Judging.SweptKeepsConsistent` | engine/game.go:245-257 | the sweep keeps the state consistent and leaves the score unchanged |
| `Judging.JudgeEachKeepsConsistent` | engine/game.go:162-168 | a run of presses keeps the state consistent and never lowers the score |
| `Judging.TickKeepsConsistent` | engine/game.go:269-277 | a tick keeps the state consistent and never lowers the score |
| `Judging.ScoreValue` | engine/game.go:217 | with `points` at most a full share per note, the shown score lies between 0 and 1000000; it is zero exactly when no points were earned |
| `Judging.ScoreWithinFullScore` | engine/game.go:106 | with a share of 1000000/n per note, the score of a consistent state lies between 0 and 1000000 |
| `Judging.ChartEnd` | engine/game.go:282-283 | on a chart sorted by time, every note is due at least 3000 ms before the chart's end |
| `Judging.TickPastEndResolvesAll` | engine/game.go:269-283 | on a chart sorted by time, a tick past the last note plus 3000 ms leaves no note unresolved, because the sweep runs before the end check |
| `Judging.DemoChartFacts` | engine/chart.go:24-29 | the demo chart's lanes are within [0, 4), no note has both flags, its times are sorted, and its end is 2500 + 3000 = 5500 |
| `Engine.Game.Score` | engine/game.go:217 | the score shown is never negative and never above 1000000 |
| `Engine.Game.constructor` | engine/game.go:72-98 | a new game is on the title screen with no notes, combo 0, no judgement and score 0 |
| `Engine.Game.Start` | engine/game.go:101-108 | the game takes the chart's notes in order, sets the score to 0 and the share to 1000000 / n; combo, judgement, song time, mode and end time are kept |
| `Engine.Game.StartNewChart` | engine/game.go:279-286 | the game plays the demo chart, ends at its last note plus 3000 ms (5500), with score 0 and a share of 250000 |
| `Engine.Game.Update` | engine/game.go:110-119 | on the title screen, nothing changes without a click, and a click starts the demo chart with score 0, keeping the combo, judgement and song time; while playing, the song time becomes the given time, the state advances by one tick, and the mode becomes Title exactly when the time is past the chart's end |
| `Engine.Game.UpdatePlaying` | engine/game.go:269-277 | the song time becomes the given time, the notes and score state become `Tick` of the old state (presses, then the sweep), and the mode becomes Title exactly when the time is past the chart's end |
| `Engine.Game.ProcessInputAndJudgement` | engine/game.go:162-168 | the state becomes the result of judging each pressed lane in lane order |
| `Engine.Game.FindTarget` | engine/game.go:176-183 | the scan returns the index `FirstTarget` describes |
| `Engine.Game.JudgeLane` | engine/game.go:175-218 | the notes, combo, judgement and score become `Judged` of the old state at the current song time; nothing else changes |
| `Engine.Game.UpdateAutoMiss` | engine/game.go:245-257 | the notes, combo and judgement become `Swept` of the old state at the current song time; the score and everything else are unchanged |
| `Scenarios.OneNotePresses` | engine/game.go:188-217 | a one-note chart at 1000 ms: a press at 1000 is Perfect (combo 1, a full share), at 1090 Good (half a share), at 1130 discarded |
| `Scenarios.OneNoteSwept` | engine/game.go:250-255 | a one-note chart at 1000 ms is swept missed at 1121 ms but not at 1120 ms |
| `Scenarios.TwoNotesInOneLane` | engine/game.go:176-183 | with two notes in a lane, the first press resolves the first note only and the second press the second |
| `Scenarios.DemoChartTicks` | engine/game.go:269-277 | on the demo chart a press in lane 0 at 1000 ms is Perfect, and an idle tick at 5501 ms marks the other three notes missed, keeps the hit note, and resets the combo and shows Miss |
| `Scenarios.OutOfRangeLaneIsSwept` | engine/game.go:162-257 | a note in lane 7 is never targeted by any of the four keys, and the tick at 1121 ms marks it missed with combo 0 and judgement Miss |
| `Scenarios.StaleNoteSwallowsPress` | engine/game.go:269-272 | with lane-0 notes at 1000 and 1150 ms, a press at 1140 ms targets the stale note and is discarded, and the sweep of the same tick then marks that note missed while the note at 1150 stays pending |
| `Scenarios.UnsortedChartEndsWithPendingNote` | engine/game.go:282-283 | on a chart whose last note in chart order is not its latest, a tick past the chart's end leaves a note pending |

## Left out

- Rendering is not modelled. This covers `Draw`, `drawTitle`, `drawPlaying`,
  `drawNotes`, `noteY`, `laneX`, `Layout`, `Note.Draw` and the image creation
  in `NewGame`. They are drawing calls and float pixel geometry.
- Input polling is not modelled. Key presses become the `pressed` flags, and a
  click inside the start button becomes `startClicked`. `Button.Contains`, a
  float hit-test, is left out.
- The clock is not modelled. `time.Now` and `time.Since` are replaced by the
  song time passed to `Update`, and `startTime` is not kept.
- Logging (`log.Printf`) is not modelled.
- The crash on a lane outside [0, 4) is not modelled. `laneX` calls
  `log.Fatal` when `drawNotes` reaches such a note on screen, and drawing is
  left out, so the model keeps playing and sweeps that note missed.
- Engine.Game.Score: the score is the exact value `points * scorePerNote /
  10`. The source adds floating-point products one press at a time, so its
  rounding is not modelled.
- Integer widths are not modelled. The source's `int64` song time, note times
  and combo are unbounded integers here, so wrap-around on overflow is not
  captured.
- Engine.Game.Start: requires a non-empty chart. On an empty chart the source's
  float division gives a share of +Inf without a panic, which has no `real`
  counterpart; `startNewChart` would index the last note out of range first.
- Chart loading is not modelled. The source ignores the chart path and always
  loads the demo chart, and so does the model.
- The chart's `song`, `bpm` and `offsetMs` are carried but have no behaviour.
  `Game` does not keep the chart record, only its notes.
- The fields `velocity`, `laneAreaX`, `laneAreaWidth`, `startButton` and the
  images are not modelled. They serve only drawing.
- `cmd/main.go` is not modelled. It only sets up the window.
