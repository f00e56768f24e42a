# Panda desk-pet: a verified model of its game logic

The program is a small desk-pet game for the Ebiten engine. Each frame it
counts a tick, lets Escape return to the mode directory, and runs one of five
modes:

- a relax screen;
- a pomodoro-style focus timer, with a gopher that appears near the end and
  celebrates at zero;
- a fishing mini-game;
- "Panda-Man", a maze chase on a 15 x 20 grid;
- a settings screen that cycles colour profiles.

Play statistics and settings are loaded once at start-up, with a day boundary
that clears the "today" counters. A second prototype adds an animated panda
sprite that steps through GIF frames and a focus mode with Idle, Running and
Break states.

The Dafny project models this integer-valued logic, as follows.

- **Game state** (`PandaGame.Game`, game.dfy) is a class whose fields the
  per-frame methods update in place, as the Go `Game` methods do. What one
  frame does to each part of the state is stated by a function of the mode
  whose branch ran: `ModeAfter`, `TimerAfter`, `FishingAfter`,
  `SettingsAfter` and `ColorsAfter` give that mode's step for its own part
  and the old value elsewhere, and `StartsRoundIn` says when a frame starts a
  new maze round.
- **The maze** (`Maze.PacmanGame`, maze.dfy) is a class that owns the grid as
  an `array2<int>`. Its round invariant rests on the layout's walled border:
  a floor cell cannot be on the border, so after every move both actors are
  in rows 1-9 and columns 1-18, and every grid index `movePlayer` and the
  ghost step use is in bounds.
- **The focus timer** (focus_timer.dfy) and **the fishing game**
  (fishing.dfy) are each captured by a pure step function, `FocusStep` and
  `FishingStep`. Their lemmas prove what each frame does and which invariant
  it keeps. The imperative methods `Game.UpdateFocus` and
  `Game.UpdateFishing` are proved equal to those step functions.
- **The sprite and the focus mode** of the second prototype (panda.dfy,
  focus_mode.dfy) are classes specified the same way, by `Tick` and
  `Advance`.
- **The helpers** are pure functions: `ParseHex` (colors.dfy), profile
  cycling (profiles.dfy) and the daily reset (stats.dfy).

Outside inputs become parameters:

- a key is a `bool`: "just pressed" in new.go, "held" for the space key in
  the focus mode of internal/gamemode/focus.go;
- the clock is an `int` of nanoseconds, `now`;
- each random draw is an `int` parameter;
- the contents of the stats and settings files are parameters.

`time.Duration` is an integer count of nanoseconds, as in Go.

## Model

| member | source | states |
|---|---|---|
| Colors.ParseHex | new.go:193-198 | one leading '#' is dropped. Any other length than 6 gives opaque black. Six characters that are not all hex digits also give opaque black, because the ParseUint error is ignored and v stays 0. Six hex digits give their three bytes with alpha 255 |
| Colors.ParseUint32Hex | new.go:196 | ParseUint base 16 reads the string left to right. The empty string is a syntax error (None), and so is a non-digit reached while the digits before it still fit 32 bits. Once the leading digits pass 32 bits the result is 0xFFFFFFFF, the value Go returns with its range error, whatever follows them. An all-hex string that fits gives HexValue |
| Colors.Scan | new.go:196 | the digit loop of ParseUint: a value it returns is at least the value read so far and at most 0xFFFFFFFF, and a syntax error (None) comes only from a non-digit at or after the start position |
| Colors.ScanResult | new.go:196 | the digit loop, started inside the leading run of digits, returns 0xFFFFFFFF when the whole run passes 32 bits, None when a non-digit follows a run that fits, and the run's value otherwise |
| Colors.OverflowBeforeBadDigit | new.go:196 | nine leading digits that do not start with 0 (as in "123456789z") give 0xFFFFFFFF, whatever follows them. This describes ParseUint itself: line 195 passes it only six characters, so ParseHex never reaches this case (SixCharsParse) |
| Colors.BadDigitIsSyntaxError | new.go:196 | a non-digit among the first eight characters is always a syntax error. This too describes ParseUint on inputs ParseHex never passes; on its six characters SixCharsParse gives the same answer |
| Colors.SixCharsParse | new.go:195-196 | on six characters, all that ParseHex passes, ParseUint gives the value of six digits or a syntax error, never a range error |
| Colors.TrimHash | new.go:194 | TrimPrefix: a string starting with '#' loses exactly that one character, and any other string is returned unchanged |
| Colors.SixDigitsValue | new.go:196-197 | the shifts and masks of six hex digits extract exactly the byte each digit pair spells |
| Colors.ParseFormatRoundTrip | new.go:193-198 | parsing "#rrggbb" formatted from a colour gives back its red, green and blue bytes, opaque |
| Colors.DoubleHashIsBlack | new.go:194-195 | "##rrggbb" is black, since only one '#' is stripped |
| Colors.HashOptional | new.go:194 | with or without a leading '#', a string parses to the same colour |
| Profiles.GoRem | new.go:217 | Go's truncating `%`: a == n * q + r for the truncated quotient q. The result has the sign of the dividend, a magnitude below n, and equals a when 0 <= a < n |
| Profiles.NextIndex | new.go:217 | Right gives i+1, wrapping the last index to 0, and stays in range from any index >= -1 |
| Profiles.PrevIndex | new.go:218 | Left gives i-1, wrapping any index <= 0 to n-1, and stays in range |
| Profiles.CycleInverse | new.go:217-218 | Right and Left undo each other on every in-range index |
| Profiles.RightThenLeft | new.go:217-218 | Right then Left from any index: a non-negative one comes back modulo n, and a negative one ends on the last profile |
| Profiles.FullCycle | new.go:217 | n presses of Right return to the starting profile |
| Profiles.NextTimesAdd | new.go:217 | a+b presses of Right equal a presses followed by b |
| Profiles.NextTimesNoWrap | new.go:217 | k presses that do not pass the end add exactly k |
| Profiles.ProfileIndex | new.go:188-189 | an out-of-range profile index falls back to 0; an in-range one is kept |
| Profiles.ActiveProfile | new.go:187-190 | the profile ApplyProfile uses: the one at the active index when that is in range, and the first profile otherwise; either way one of the list |
| Profiles.NegativeIndexFallsBack | new.go:217 | Right on an index below -1 gives a non-positive remainder, which the fallback of ApplyProfile (line 189) maps to profile 0 |
| Stats.DailyReset | new.go:173-178 | on a new day the today counters restart at 0 and the date is set. The lifetime counters are always kept, and on the same day nothing changes |
| Stats.DailyResetIdempotent | new.go:173-178 | resetting twice equals resetting once |
| Maze.LayoutWalled | new.go:144-156 | rows 0 and 10 and columns 0 and 19 of the layout are walls, and it is 11 x 20 |
| Maze.FloorIsInterior | new.go:144-156 | in a walled-in maze every non-wall cell is in rows 1-9 and columns 1-18 |
| Maze.ActorsInside | new.go:145-156 | in a valid round both player and ghost are in rows 1-9 and columns 1-18, so the neighbour indices of movePlayer (line 319) and the ghost step (line 310) are in bounds |
| Maze.StartCellsAreFloor | new.go:160-161 | the start cells (1,1) and (10,5), in x, y order, are floor |
| Maze.GhostDelay | new.go:164-167 | the cooldown is max(5, 30 - 2 * winsToday) |
| Maze.GhostDelayAntitone | new.go:164-167 | more wins never give a longer cooldown |
| Maze.GhostDelayFloor | new.go:164-167 | the floor of 5 is reached exactly from 13 wins on |
| Maze.GhostDirection | new.go:302-309 | the step is one orthogonal cell along the axis with the larger offset. On a tie it is vertical, and upward when dy <= 0 |
| Maze.GhostStepCloses | new.go:302-309 | a step shortens the Manhattan distance to the player by exactly one |
| Maze.GhostStepOffPlayer | new.go:305-308 | on the player's own cell the ghost steps up |
| Maze.PlayerStep | new.go:317-320 | one step of movePlayer: exactly (dx, dy) when that cell is floor, and none otherwise; from floor it stays on floor |
| Maze.Presses | new.go:294-297 | the number of pressed arrow keys, 0-4, and 0 exactly when none is pressed |
| Maze.ArrowKeys | new.go:294-297 | the arrow keys of one frame keep the player on floor. The column moves by at most one cell left (Left) and one right (Right), the row likewise for Up and Down, and without keys the player stays |
| Maze.LeftRightReturns | new.go:294-295 | with floor to the left, Left then Right in one frame leaves the player where it was |
| Maze.BlockedKeyStays | new.go:296 | Up against a wall leaves the player where it was |
| Maze.Steps | new.go:294-297 | the cells the arrow keys of one frame move the player onto: all floor, none without keys, and the final cell among them whenever the player moved |
| Maze.KeysSplit | new.go:294-297 | a frame's Left and Right steps followed by its Up and Down steps give the whole frame's end cell, step cells and key count |
| Maze.BlockedKeyStepsNowhere | new.go:296 | Up against a wall steps onto no cell |
| Maze.WinsEarned | new.go:323 | the wins today that a score rising from one value to another records, one per dot eaten at 80 or more: none below 80 or without a rise, one for a single dot that reaches 80, and one per point once the score is already 80 or more |
| Maze.WinsEarnedAdd | new.go:321-323 | the wins recorded by two runs of eating add up to those of the whole run |
| Maze.GhostStep | new.go:299-313 | the timer counts the frame and restarts at 0 once it passes the cooldown. Below that the ghost stays; the timer stays in [0, cooldown], the ghost stays on floor and moves at most one cell |
| Maze.GhostStepApproaches | new.go:302-311 | a ghost that moves comes exactly one cell closer to the player, in Manhattan distance |
| Maze.PacmanGame.constructor | new.go:97-104 | the Go zero value: a 15 x 20 grid with every cell empty, both actors at (0, 0), timer, cooldown and score 0, no game over and no win; and the walled layout with floor start cells |
| PandaGame.CycledIndex | new.go:216-218 | one Settings frame: Right alone gives NextIndex and Left alone PrevIndex, and neither keeps the index. Both keep an in-range index; from any non-negative index both give it modulo n, and from a negative one the last profile. An in-range index stays in range |
| PandaGame.DirectoryChoice | new.go:208-213 | S gives Settings; otherwise 4 gives the maze, 3 fishing, 2 focus and 1 relax, in that priority, because the last key checked wins. Without any of them the mode is kept |
| PandaGame.ActiveMode | new.go:205 | Escape gives the directory, and without it the mode is kept |
| PandaGame.Game.FocusExit | new.go:237-238 | in gopher state 2, key 4 gives the maze and otherwise key 3 gives fishing, key 4 being checked last; in any other state the mode is kept |
| PandaGame.Game.constructor | new.go:129-141 | NewGame: directory mode, tick 0, the daily-reset stats, the stored or default settings with the active profile's colours applied, a 25-minute idle timer, zero fishing state, and a fresh maze round: the grid equal to the layout, actors on their start cells, score 0 and the cooldown of GhostDelay |
| PandaGame.Game.LoadData | new.go:171-184 | the stats are the daily reset of the stored stats. The settings are the stored ones, or the three default profiles when none could be read. The colours of the active profile are applied |
| PandaGame.Game.Start | new.go:138-139 | LoadData and then InitPacman: the reset stats, the stored or default settings with their colours applied, and a new round with the grid equal to the layout, with the game invariant established |
| PandaGame.Game.ApplyProfile | new.go:187-191 | the background and accent colours are ParseHex of the active profile, with the out-of-range fallback to 0 |
| PandaGame.Game.InitPacman | new.go:143-168 | rows 0-10 of the grid equal the layout and rows 11-14 are untouched. Player (1,1), ghost (10,5), score 0, no game over, no win, and a cooldown of GhostDelay(winsToday). The round invariant holds |
| PandaGame.Game.MovePlayer | new.go:317-326 | the player ends on PlayerStep: moved by exactly (dx, dy) onto floor, and not at all onto a wall. A dot there becomes empty and scores exactly 1, and every other cell is unchanged. Reaching 80 sets Win and records one more win today. Otherwise score, win and stats are unchanged, and the ghost, its timer and the cooldown never change. In all cases wins today rise by WinsEarned of the old and new score, and no dot is left under a player that moved |
| PandaGame.Game.EatDot | new.go:321-324 | a dot under the player becomes empty and scores exactly 1, every other cell is unchanged, and reaching 80 sets Win and records one more win today. Without a dot nothing changes |
| PandaGame.Game.MoveKeys | new.go:294-297 | KeysFrame: the player ends where ArrowKeys says: the steps for left, right, up and down, in that order. The ghost, its timer, the cooldown and GameOver are unchanged. Every cell outside Steps keeps its value, no dot is left on a cell in Steps, dots elsewhere are only cleared, and the score grows by at most the number of pressed keys. Only wins today change in the stats, by exactly WinsEarned of the old and new score |
| PandaGame.Game.MoveAcross | new.go:294-295 | KeysFrame for the Left and Right keys alone |
| PandaGame.Game.MoveAlong | new.go:296-297 | KeysFrame for the Up and Down keys alone |
| PandaGame.Game.MoveGhost | new.go:299-313 | the ghost and its timer become GhostStep: the timer counts up and restarts at 0 once it exceeds the cooldown, and only then does the ghost take the GhostDirection step, and only onto floor. The timer stays in [0, cooldown] |
| PandaGame.Game.Collide | new.go:314 | the ghost on the player's cell sets GameOver, and nothing else does |
| PandaGame.Game.PlayRound | new.go:294-314 | RoundFrame: the arrow keys by ArrowKeys, the ghost by GhostStep toward the player's new cell, and GameOver exactly when they meet. Every cell outside Steps keeps its value and no dot is left on a cell in Steps; the score grows by at most one per pressed key. Wins today rise by exactly WinsEarned of the old and new score, and no other statistic changes |
| PandaGame.Game.UpdatePacman | new.go:289-315 | PacmanFrame: in a finished round, space starts a new round (the grid equal to the layout again) and anything else leaves the maze unchanged, with wins today kept. In a round in play the player moves by ArrowKeys, then the ghost by GhostStep toward the player's new cell, GameOver holds exactly when they meet, every cell outside Steps keeps its value, no dot is left on a cell in Steps, the score grows by at most one per pressed key, and wins today rise by exactly WinsEarned of the old and new score |
| PandaGame.Game.UpdateSettings | new.go:215-219 | the index becomes CycledIndex of the old one and the profile list is kept. A key press re-applies the colours, and without one the colours are unchanged |
| PandaGame.Game.UpdateFocus | new.go:233-257 | the timer becomes FocusStep of the old timer. In gopher state 2, key 4 switches to the maze and starts a new round with the ghost's move timer kept, and otherwise key 3 switches to fishing. Every other frame keeps the mode, and the maze is untouched unless key 4 started a round |
| PandaGame.Game.UpdateFishing | new.go:259-287 | the fishing state becomes FishingStep of the old one, and a landed fish adds one to the caught-fish statistic while nothing else in the stats changes |
| PandaGame.Game.UpdateDirectory | new.go:208-213 | the mode becomes DirectoryChoice, and key 4 starts a new maze round with the grid equal to the layout and the ghost's move timer kept, while no other key touches the maze |
| PandaGame.Game.RunMode | new.go:207-229 | the branch of the current mode runs. Mode, timer, fishing state, settings and colours become ModeAfter, TimerAfter, FishingAfter, SettingsAfter and ColorsAfter of that mode. Fish caught rises by FishCaughtIn. Wins today change only in a maze round in play, never downward. A key that starts a round gives a new round with the ghost's move timer kept, and outside the maze no other frame touches it. The game invariant is kept |
| PandaGame.Game.RunMazeMode | new.go:207-228 | the Directory, Focus and Pacman branches: mode and timer as in RunMode, a key-started round as in RunMode, and in Pacman mode the RestartFrame or RoundFrame of updatePacman, with wins today rising by exactly WinsEarned of the old and new score in a round in play. Fishing, settings and colours are unchanged |
| PandaGame.Game.RunPanelMode | new.go:215-225 | the Settings, Fishing and Relax branches: fishing, settings and colours as in RunMode, fish caught by FishCaughtIn, and the maze unchanged |
| PandaGame.Game.Update | new.go:201-231 | one frame: the tick goes up by one and every 60th tick adds a second to both play-time counters. Escape selects the directory (ActiveMode), and then mode, timer, fishing, settings and colours become the After functions of that mode. Fish caught rises by FishCaughtIn. Wins today change only in a maze round in play, never downward. A round-starting key gives a new round with the ghost's move timer kept, and outside the maze no other frame touches it. The game invariant is kept |
| FocusTimer.AdjustTarget | new.go:244-245 | Up alone adds 5 minutes. Down alone removes 5, clamped at 5. Both keep a target of at least 5, and neither keeps any target. A target of at least 5 that is a multiple of 5 stays so |
| FocusTimer.LastTenthIsRatio | new.go:253-254 | for a positive target, the integer test LastTenth holds exactly when the ratio of time left to the total is at most 0.1 in exact arithmetic |
| FocusTimer.FocusStep | new.go:233-257 | the target changes only when idle and not celebrating, by AdjustTarget |
| FocusTimer.FocusStepKeepsValid | new.go:233-257 | the timer invariant survives every frame: a target of at least 5 and a multiple of 5, gopher state in 0-2, state 2 only at zero time while active, idle only with gopher 0, and active time left before the celebration |
| FocusTimer.IdleShowsTarget | new.go:243-250 | idle, the display is reset to the adjusted target and the gopher state is 0. The timer is active exactly when space is pressed, and then the last tick is `now`; otherwise it is kept |
| FocusTimer.ActiveCountsDown | new.go:251-256 | active: the timer stays active with last tick `now` and the same target. The remaining time goes down by exactly the elapsed time, clamped at 0. Reaching 0 is exactly what sets gopher state 2. Otherwise the last tenth sets state 1, and outside it the gopher state is kept |
| FocusTimer.CelebrationEnds | new.go:234-240 | in gopher state 2, key 3, key 4 or space stops the timer and clears the gopher, keeping the remaining time, the last tick and the target minutes; otherwise the timer is unchanged |
| Fishing.CastTarget | new.go:264-267 | D gives spot 3; otherwise S gives 2 and A gives 1, because the last one checked wins. The result is 0 exactly when none is pressed |
| Fishing.HotSpotTick | new.go:260-261 | the hot-spot timer changes neither the state, the active spot nor the score |
| Fishing.Transition | new.go:263-286 | the state switch keeps the timers and scores one exactly when a reeled fish is landed |
| Fishing.FishingStep | new.go:259-287 | the score goes up by one exactly when a fish is landed |
| Fishing.FishingStepKeepsValid | new.go:259-287 | the state stays in 0-2, the wait timer in 0-120, both spots in 0-3, and a non-idle line has a spot |
| Fishing.HotSpotTimer | new.go:260-261 | the wait timer counts modulo 121, and the hot spot is re-rolled to 1-3 only on the frame it wraps |
| Fishing.BiteGate | new.go:276-280 | a waiting line starts reeling exactly when at this frame's hot spot with a roll below 2 and no space. Space returns it to idle |
| Fishing.CastStartsWaiting | new.go:263-275 | idle, a spot key casts to that spot, and only a spot key leaves idle |
| Fishing.ReelingOutcome | new.go:281-286 | reeling ends in idle exactly on a landed or escaped fish, and only a landed one scores |
| Entity.NextFrame | internal/entity/panda.go:43-48 | the next frame index, wrapping to 0 after the last frame, so it stays in range |
| Entity.Tick | internal/entity/panda.go:31-50 | with no frames nothing changes. Below the delay the counter goes up by one. At the delay the counter restarts at 0 and the frame advances with wrap |
| Entity.Ticks | internal/entity/panda.go:31-50 | any number of updates keeps the frame in range |
| Entity.HoldsFrame | internal/entity/panda.go:36-44 | a frame entered with counter 0 is still shown after j < max(1, delay) updates |
| Entity.AdvancesAfterHold | internal/entity/panda.go:36-48 | exactly max(1, delay) updates after entering a frame, the next frame starts with counter 0 |
| Entity.Panda.constructor | internal/entity/panda.go:18-29 | NewPanda at (120, 100) on frame 0 with counter 0, with the GIF's frames and delays |
| Entity.Panda.Update | internal/entity/panda.go:31-50 | the clock becomes Tick of the old one. X, Y, frames and delays are unchanged, and the frame stays in range |
| Gamemode.Advance | internal/gamemode/focus.go:38-63 | Idle with space starts Running at now. Running loses exactly now - LastUpdate, and becomes Break with 5 minutes exactly when that reaches 0. Break is unchanged. Duration never changes |
| Gamemode.AdvanceKeepsValid | internal/gamemode/focus.go:50-61 | after any update, a state other than Break has time left |
| Gamemode.BreakAbsorbing | internal/gamemode/focus.go:42-62 | any number of updates in Break change nothing |
| Gamemode.Countdown | internal/gamemode/focus.go:50-61 | over a monotonic clock, a running mode ends up with exactly the elapsed time taken off, or in a 5-minute Break once that time is used up, however the frames split it |
| Gamemode.FocusMode.constructor | internal/gamemode/focus.go:30-36 | NewFocusMode: Idle, with Duration and TimeLeft both 25 minutes |
| Gamemode.FocusMode.Update | internal/gamemode/focus.go:38-63 | the state becomes Advance of the old state at `now` |

## Left out

- Drawing: all of the Draw functions and the fonts, images and geometry they use.
- File and JSON I/O: the file reads and `json.Unmarshal` in LoadData, SaveSettings, SaveStats and the 10-second autosave in Update (new.go:203). The stats and settings a read would produce are constructor parameters. A settings file that cannot be read gives the default profiles.
- LoadData: a settings file that parses but has an empty profile list makes ApplyProfile index an empty slice, and the Right key divide by zero. The model requires a non-empty profile list wherever the code indexes it, instead of modelling the crash.
- Update, UpdatePacman, NewGame, movePlayer: the Go code does this work inline. The model splits it into the helpers Start, UpdateDirectory, RunMode (with RunMazeMode and RunPanelMode), PlayRound, MoveKeys (with MoveAcross and MoveAlong), EatDot, MoveGhost and Collide, each with its own contract. The statements and their order are the same.
- PandaGame.Game.Update: Update and RunMode do not restate what a Pacman frame does to a round in play or a finished round (RoundFrame and RestartFrame); RunMazeMode and UpdatePacman state it. Update says only that wins today never go down and change only in a round in play, and when a new round starts.
- UpdateFocus: `KissProgress` is a float used only for drawing, and is left out. The two clock readings of one frame (the `time.Since` and the `time.Now` of new.go:252) are one `now`.
- FocusTimer.LastTenth: the gopher's float test `TimeLeft / total <= 0.10` is stated as the integer comparison `10 * TimeLeft <= total`. The two can differ by floating-point rounding at the boundary.
- UpdateFishing: the bobber position and the `ReelProgress`/`FishStrength` float arithmetic are left out. The outcome of this frame's reeling (landed, escaped, or neither) is the `reel` parameter. `rand.Intn(3)` and `rand.Intn(100)` are the `spotRoll` and `biteRoll` parameters.
- Colors.ParseHex: the value line 196 takes from ParseUint, with the error discarded, is written as HexValue of the six digits or 0; SixCharsParse proves that this is what ParseUint32Hex gives on six characters. Calling the scan itself from ParseHex makes the proofs over the default profile strings too expensive.
- Integer widths: the model uses unbounded integers, so int64 wrap-around of counters and durations, and the saturation of `time.Sub`, are not modelled. ParseHex's `uint8` truncation is modelled exactly.
- PandaGame.Game.MoveKeys: the score after a frame is bounded by the number of pressed keys rather than given as the number of dots on the cells in Steps; the same holds for PlayRound, UpdatePacman and RunMazeMode. Which step cells held a dot depends on the order of the steps, and counting them on the grid costs more proof than the frame allows. MovePlayer and EatDot give the exact score for one step.
- Maze.PacmanGame: the layout that InitPacman writes as a local literal is held as a constant field of the round, so that the invariant can refer to it. The invariant says each layout cell holds its layout value or is a cleared dot. It does not count how many dots were eaten, so score equalling the number of cleared dots is not stated.
- Entity.Panda.constructor: `assets.LoadGIF` and its decoding are not part of this model; the frames and delays are parameters.
- Entity.Panda: the position `X, Y` is held as `real` and never computed with.
- The second prototype's game.go, main.go and internal/assets are not part of this model. game.go only dispatches to Panda.Update and FocusMode.Update, and the other two are window and asset setup.
- Corrupt files: only a settings file that cannot be read gives the default profiles. A stats file that fails to decode leaves whatever `json.Unmarshal` filled in, and a settings file that fails to decode leaves the Settings as decoding left them, possibly with no profiles. The model's stats and stored-settings parameters stand for what decoding produced.
- Entity.Panda.Update: the requires that the current frame index is within the delays whenever there are frames rules out the index-out-of-range panic that `p.delays[p.currentFrame]` (internal/entity/panda.go:39) raises when the GIF has fewer delays than frames; the panic itself is not modelled. A panda built with at least as many delays as frames keeps this by its invariant.
