# Rhythm game core, modelled in Dafny

This project models the game logic of a two-lane Arduino rhythm game
(`CSElect1_Finals.cpp`). Notes of a melody scroll from the right edge of
a 20-column display towards a hit column. The player presses the left or
right button while a note sits in its 180 ms hit window.

The model covers the following parts of the game:

- **Schedule.** `computeSchedule` turns the selected song and difficulty
  into arrival and spawn times.
- **Active-note pool.** A fixed pool of 14 slots, with:
  - `resetActive`;
  - admission of due notes (`spawnReadyNotes`);
  - movement at one column per 90 ms (`updateMovement`);
  - hit-window checking and scoring (`checkWindows`);
  - the end-of-song test (`songFinished`).
- **Main loop pass.** One pass of `loop()`, which also keeps the best
  score per song.
- **Extras.** The non-blocking tone timer (`startTone`/`updateTone`) and
  the index arithmetic of the song and difficulty menus.

Modules:

- `Timing`: the constants, the three difficulties, and the float
  multipliers 1.0, 1.5 and 2.7 as the exact fractions 1, 3/2 and 27/10.
  - The travel time is `floor(1710 / m)`.
  - A beat is scaled to `floor(beat / m + 1/2)`.
  - `ColumnAt` gives a note's column.
- `Songs`: the five built-in songs, and song-menu index cycling.
- `Schedule`: arrival and spawn times as functions of the song, plus
  `DueEnd`, where the admission scan stops.
- `Pool`: one slot as the `Active` datatype. Admission, movement and the
  window check are functions over the slot sequence, with the pool
  invariant `PoolOk` and the lemmas that keep it.
- `Tone`: the one-shot tone timer as a function of the time of a poll.
- `Engine`: class `Game`, which holds the globals of the sketch:
  - the two schedule arrays, the `active` pool array and the best-score
    array;
  - the counters.

  Each routine of the sketch is a method that updates these in place. It
  is proved against the `Pool`/`Schedule` functions and keeps the
  invariant `Valid`.

Conventions:

- The clock is a parameter `now`. The precondition `ClockAtLeast(now)`
  says time never runs backwards and `millis()` never wraps.
- Buttons are a `Buttons` snapshot. Lane 1 reads the left button; any
  other lane reads the right one.
- Sounds are returned as `Cue` values: the pitch of a hit note, or the
  miss cue.
- The tone timer `toneEndTime` is re-armed by every sound the window
  check starts: `millis() + 220` for a hit (line 295), and `millis() + 80`
  for a miss, read after the 70 ms pause between its two tones (line 162).
  Those clock readings are a parameter `clocks`, one per slot.

When all 14 slots are busy, `spawnReadyNotes` still advances
`nextToSpawn` (lines 245-258), so a due note is dropped for good and
never shown. `Pool.Admit` models this (`Pool.AdmitTakesLowestFree`: a
full pool is left unchanged), and so do `Engine.Game.AdmitDue` and
`Engine.Game.SpawnReadyNotes`: the scan position moves past every due
note.

## Model

| member | source | states |
|---|---|---|
| Timing.Level | CSElect1_Finals.cpp:116 | a difficulty's enum position is 0, 1 or 2 |
| Timing.FromLevel | CSElect1_Finals.cpp:116 | the difficulty at enum position `l` has that position |
| Timing.NextDifficulty | CSElect1_Finals.cpp:472 | the menu step lands on position `(l + 1) % 3`, always a different level |
| Timing.NextDifficultyCycles | CSElect1_Finals.cpp:472 | three steps return to the start, and the steps visit all three levels |
| Timing.MultNum | CSElect1_Finals.cpp:119 | the numerator of a level's multiplier is positive |
| Timing.MultDen | CSElect1_Finals.cpp:119 | the denominator is positive and no larger than the numerator, so no multiplier is below 1 |
| Timing.MultiplierOrder | CSElect1_Finals.cpp:119 | every multiplier is at least 1, and a harder level has a multiplier at least as large |
| Timing.TravelTime | CSElect1_Finals.cpp:210 | the travel time never exceeds the base 1710 ms |
| Timing.TravelTimeIsFloor | CSElect1_Finals.cpp:210 | the travel time is the largest whole `t` with `t * m <= 1710` (truncation of `1710 / m`) |
| Timing.TravelTimeShrinks | CSElect1_Finals.cpp:210 | a harder level never has a longer travel time |
| Timing.ScaledBeat | CSElect1_Finals.cpp:218-220 | a scaled beat never exceeds the unscaled beat |
| Timing.ScaledBeatIsRounded | CSElect1_Finals.cpp:219-220 | the scaled beat is `beat / m` rounded to nearest, within half a unit on both sides |
| Timing.ScaledBeatShrinks | CSElect1_Finals.cpp:219-220 | a harder level never lengthens a beat |
| Timing.ColumnAt | CSElect1_Finals.cpp:269-272 | the column is at most 19; it is 19 before any time passes; it is 0 exactly when 1710 ms have passed; otherwise it is the column reached by whole 90 ms steps |
| Songs.SongAt | CSElect1_Finals.cpp:103-110 | every built-in song has at least one note, fits the 64-entry schedule arrays and has one pitch per beat |
| Songs.PrevSong | CSElect1_Finals.cpp:386 | the left step stays in range and is undone by the right step |
| Songs.NextSong | CSElect1_Finals.cpp:411 | the right step stays in range, wraps from the last song to 0, and otherwise goes to the next index |
| Songs.SongMenuRoundTrip | CSElect1_Finals.cpp:386-411 | left then right, and right then left, both return to the same song |
| Schedule.ArrivalAt | CSElect1_Finals.cpp:211-220 | the running sum of the scaled beats before note `i`; it is at least the last of them (ordering and difficulty facts in the lemmas below) |
| Schedule.SpawnTime | CSElect1_Finals.cpp:216 | the spawn time is the arrival time less the travel time, or 0 when that would be negative; never after the arrival |
| Schedule.EndTime | CSElect1_Finals.cpp:314 | the end of the song is no earlier than the last arrival plus the hit window |
| Schedule.ArrivalsMonotone | CSElect1_Finals.cpp:214-220 | arrival times never decrease along the song |
| Schedule.SpawnsMonotone | CSElect1_Finals.cpp:216 | spawn times never decrease along the song |
| Schedule.ArrivalsShrink | CSElect1_Finals.cpp:219-220 | on a harder level every note arrives no later |
| Schedule.SongShortensWithDifficulty | CSElect1_Finals.cpp:314 | on a harder level the song's end time is no later |
| Schedule.DueEnd | CSElect1_Finals.cpp:244 | the admission scan stops at the first note not yet due; every note it passes is due |
| Schedule.DueEndIsExact | CSElect1_Finals.cpp:244 | with sorted spawn times, every note after the stop point is not yet due |
| Pool.RowOf | CSElect1_Finals.cpp:248 | even notes go to lane 1 and odd notes to lane 2 |
| Pool.OccupiedBelow | CSElect1_Finals.cpp:249 | every occupied slot holds a note the scan has already passed |
| Pool.FirstFree | CSElect1_Finals.cpp:245-246 | returns the lowest free slot: every slot below it is in use, and it is free or past the end |
| Pool.Occupy | CSElect1_Finals.cpp:247-254 | the admitted slot is occupied by note `idx`, stamped `now`, not in its window, unresolved, and well formed once note `idx` has been passed |
| Pool.Admit | CSElect1_Finals.cpp:245-257 | one admission keeps the pool size (which slot changes: `AdmitTakesLowestFree`, `AdmitOccupies`) |
| Pool.AdmitTakesLowestFree | CSElect1_Finals.cpp:245-257 | a full pool is left unchanged (the note is dropped); otherwise exactly the lowest free slot changes |
| Pool.AdmitOccupies | CSElect1_Finals.cpp:246-254 | a slot that admission changes was free and now holds the admitted note, stamped with `now` |
| Pool.AdmitRange | CSElect1_Finals.cpp:244-259 | the loop's admissions of notes `lo` to `hi - 1` in order keep the pool size (invariant and changed slots: the lemmas below) |
| Pool.AdmitKeepsPool | CSElect1_Finals.cpp:245-258 | admitting the next note keeps the pool invariant, with one more note passed |
| Pool.AdmitRangeKeepsPool | CSElect1_Finals.cpp:244-259 | admitting a run of notes keeps the pool invariant |
| Pool.AdmitRangeChanges | CSElect1_Finals.cpp:244-259 | each slot a run of admissions changes holds a note of the run; it is occupied, has no open window, is unresolved and is stamped `now` |
| Pool.AdmitRangeKeepsClock | CSElect1_Finals.cpp:254 | admission stamps no slot later than `now` |
| Pool.MoveSlot | CSElect1_Finals.cpp:264-281 | free slots and open windows are untouched; otherwise the note moves to `ColumnAt(now - spawnedAt)`, and its window opens, stamped `now`, exactly when 1710 ms have passed since admission; no other field changes |
| Pool.MoveAll | CSElect1_Finals.cpp:263-282 | every slot moves independently |
| Pool.MoveKeepsPool | CSElect1_Finals.cpp:262-283 | movement keeps the pool invariant and stamps nothing later than `now` |
| Pool.Pressed | CSElect1_Finals.cpp:204-206 | lane 1 reads the left button and every other lane the right one |
| Pool.NoteButton | CSElect1_Finals.cpp:248 | even notes are hit with the left button and odd notes with the right one |
| Pool.Scores | CSElect1_Finals.cpp:291-292 | a hit needs the lane's button down and a window that has not lapsed |
| Pool.Lapsed | CSElect1_Finals.cpp:301 | a lapsed window opened more than 180 ms before `now` |
| Pool.LapseIsFinal | CSElect1_Finals.cpp:301 | a lapsed window stays lapsed at every later time |
| Pool.CheckSlot | CSElect1_Finals.cpp:287-307 | slots without an open window are untouched; a slot is resolved after the check iff it was resolved or is hit; it stays occupied iff its window has not lapsed; nothing else changes |
| Pool.NeverScoredAndFreed | CSElect1_Finals.cpp:291-307 | no slot is both hit and freed in one check; a hit slot stays occupied |
| Pool.ResolvedScoresOnce | CSElect1_Finals.cpp:291-296 | a note hit once is never hit again at any later time, whatever the buttons and movement |
| Pool.MissSoundsOnce | CSElect1_Finals.cpp:301-306 | an unresolved lapse sounds the miss cue and frees the slot, so no later check or move sounds it again |
| Pool.SlotCues | CSElect1_Finals.cpp:292-304 | a hit sounds the note's pitch; a lapsed unresolved window sounds the miss cue; otherwise silence |
| Pool.CheckAll | CSElect1_Finals.cpp:286-308 | every slot is checked independently |
| Pool.HitCount | CSElect1_Finals.cpp:297 | a check scores at most one point per slot |
| Pool.HitNotes | CSElect1_Finals.cpp:296-297 | the notes a check scores: at most one per slot |
| Pool.HitNotesExact | CSElect1_Finals.cpp:296-297 | an occupied slot's note is among the scored notes iff that slot is hit |
| Pool.HitNotesBelow | CSElect1_Finals.cpp:293 | every scored note is one the scan has passed |
| Pool.HitNotesUnscored | CSElect1_Finals.cpp:291-297 | no note scored by a check was scored before |
| Pool.HitNotesCounted | CSElect1_Finals.cpp:297 | the number of distinct notes scored equals the points added |
| Pool.CheckKeepsPool | CSElect1_Finals.cpp:285-309 | the check keeps the pool invariant with the scored notes added, and the score grows by exactly the number of new notes |
| Pool.CuesOf | CSElect1_Finals.cpp:286-308 | the cues of all slots in slot order, at most one per slot |
| Pool.CueMs | CSElect1_Finals.cpp:158-163 | every sound arms the timer for a positive time of at most the 220 ms of a hit tone (line 295), and a cue arms it for less than that exactly when it is the miss cue |
| Pool.SlotTone | CSElect1_Finals.cpp:292-304 | the timer changes only when the slot sounds; a sound arms it past its clock reading (how long each sound arms it for: `ToneFollowsLastCue` with `CueMs`) |
| Pool.ToneAfterAll | CSElect1_Finals.cpp:286-308 | the timer after the slots are checked in order |
| Pool.ToneSilent | CSElect1_Finals.cpp:286-308 | a check that sounds nothing leaves the timer alone |
| Pool.ToneLastCueAt | CSElect1_Finals.cpp:286-308 | when slot `k` is the last slot to sound, the timer ends `CueMs` of its cue after slot `k`'s clock reading |
| Pool.ToneFollowsLastCue | CSElect1_Finals.cpp:286-308 | a check that sounds nothing leaves the timer alone; otherwise the timer ends the tone of the last slot that sounded |
| Pool.ToneOutlivesPass | CSElect1_Finals.cpp:292-304 | with clock readings no earlier than `now`, a check that sounds anything leaves the timer armed past `now` |
| Pool.HitsAreCounted | CSElect1_Finals.cpp:294-297 | one pitch cue per point scored, and an immediate second check scores nothing |
| Tone.Polled | CSElect1_Finals.cpp:39-44 | a poll disarms the timer once its end time has come, and otherwise keeps it |
| Tone.PollIdempotent | CSElect1_Finals.cpp:39-44 | a second poll at the same instant changes nothing |
| Tone.PollsCompose | CSElect1_Finals.cpp:39-44 | a poll at `t1` followed by one at a later `t2` acts as one poll at `t2` |
| Tone.StartedToneLasts | CSElect1_Finals.cpp:34-44 | a tone started for `dur` ms is stopped by a poll exactly when the poll comes `dur` ms or more after the start |
| Engine.Best | CSElect1_Finals.cpp:561-563 | the new best is the larger of the old best and the score |
| Engine.Game.constructor | CSElect1_Finals.cpp:112-124 | power-on state: song 0, Hard, base travel time, all best scores 0, no song playing, no tone timed |
| Engine.Game.StartTone | CSElect1_Finals.cpp:34-37 | the timer is armed for `now + dur` (the sketch never calls `startTone`; the window check arms the timer itself) |
| Engine.Game.UpdateTone | CSElect1_Finals.cpp:39-44 | the timer becomes `Polled(old timer, now)`; a stop is reported iff an armed timer was disarmed |
| Engine.Game.ComputeSchedule | CSElect1_Finals.cpp:209-222 | the arrays hold `ArrivalAt` and `SpawnTime` for every note of the song, and the travel time is `TravelTime`; entries past the song are untouched |
| Engine.Game.ResetActive | CSElect1_Finals.cpp:224-230 | every slot is cleared; the scan and score are zero; the note total is the song length |
| Engine.Game.SelectSong | CSElect1_Finals.cpp:236 | the chosen song and difficulty are selected, the song is playable, and its schedule is compiled into the arrays |
| Engine.Game.StartSong | CSElect1_Finals.cpp:232-240 | the selected song is scheduled and the pool emptied; the clock origin is set `travelTimeMs` before `now`; playing begins with the invariant established; the best scores and the tone timer are untouched |
| Engine.Game.TakeFreeSlot | CSElect1_Finals.cpp:245-257 | the pool becomes `Admit(old pool, idx, now)` |
| Engine.Game.AdmitDue | CSElect1_Finals.cpp:244-259 | the scan stops at `DueEnd`, and the pool becomes `AdmitRange` over the passed notes |
| Engine.Game.SpawnReadyNotes | CSElect1_Finals.cpp:242-260 | as `AdmitDue`, and also: the invariant is kept, the next note is not yet due, and changed slots hold passed notes stamped `now` |
| Engine.Game.UpdateMovement | CSElect1_Finals.cpp:262-283 | the pool becomes `MoveAll(old pool, now)`, keeping the invariant |
| Engine.Game.CheckSlotAt | CSElect1_Finals.cpp:287-307 | slot `i` becomes `CheckSlot` of its old value; a hit adds one point; the slot's cues are returned; the timer becomes `SlotTone`, re-armed from the slot's clock reading by a hit or a miss |
| Engine.Game.CheckEachWindow | CSElect1_Finals.cpp:286-308 | the pool becomes `CheckAll`; the score grows by `HitCount`; the cues are `CuesOf` the old pool; the timer is `ToneAfterAll` |
| Engine.Game.CheckWindows | CSElect1_Finals.cpp:285-309 | as `CheckEachWindow`; the ghost set of notes hit so far grows by exactly `HitNotes` of the old pool, so the invariant (the set's size equals `curScore`) makes the score the number of distinct notes hit |
| Engine.Game.SongFinished | CSElect1_Finals.cpp:311-318 | true iff `SongOver(now)`: every note has been passed, `now - tStart` has reached `EndTime` of the last arrival (lines 314-315), and no slot is occupied |
| Engine.Game.PlayStep | CSElect1_Finals.cpp:554-556 | one admit-move-check pass (`Passed`: pool, scan position, score, notes hit, cues and the re-armed tone timer), keeping the invariant, with the score never above the note total |
| Engine.Game.EndIfFinished | CSElect1_Finals.cpp:558-563 | when `SongFinished` holds, playing stops and the song's best becomes `Best(old best, score)`; otherwise nothing changes |
| Engine.Game.PlayPass | CSElect1_Finals.cpp:553-563 | `PlayStep` then `EndIfFinished`: the pass effect including the tone timer; the song ends on this pass iff `SongOver(now)` holds after the step (line 558), and then the best score is updated |
| Engine.Game.Tick | CSElect1_Finals.cpp:545-563 | with no song playing nothing changes; otherwise the tone timer is polled and `PlayPass` runs from the polled timer, whose sounds re-arm it; a playing song ends on this tick iff `SongOver(now)` holds after the step |

## Left out

- Display output (LCD drawing, `clearCell`/`drawBlock`, score screens, borders) is left out: it does not affect the game state.
- The menus' busy-wait loops, long-press detection and the float confirm bar are left out. Only their index steps are modelled (`Songs.PrevSong`, `Songs.NextSong`, `Timing.NextDifficulty`).
- `delay` calls and the hardware `tone`/`noTone` calls are left out. Sounds are returned as `Cue` values.
- The clock readings that re-arm the tone timer are parameters and are not tied to `now` or to each other; how long the LCD writes and the 70 ms miss pause take is not modelled.
- Buttons are read once per tick as a `Buttons` snapshot. The source reads the pin again for each slot.
- Engine.Game.StartSong: requires `now >= travelTimeMs`. The source computes `millis() - travelTimeMs` in unsigned arithmetic, which wraps in the first 1.7 s after power-on.
- `millis()` wrap-around after about 49 days is excluded by `ClockAtLeast`. Integer widths (`byte`, `int`, `unsigned long`) are unbounded here; no value in the modelled paths leaves its type's range.
- Float arithmetic is modelled as exact rational arithmetic. For integer beats, dividing by 1.0, 1.5 or 2.7 never gives an exact half (the fractional parts are multiples of 1/3 or 1/27), so the float rounding error does not change the rounded value.
- Song data read through `PROGMEM` (`pgm_read_word`) is modelled as ordinary sequences.
- `setup()`, `waitForStartPress` and the pin and LCD initialisation are left out.
