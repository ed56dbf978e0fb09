/** Fixed timing constants of the game loop, the three difficulty levels and
    the arithmetic that turns elapsed milliseconds into a display column. */
module Timing {

  /** The display is 20 columns wide; a note enters at the right-most column
      and is to be hit when it reaches column 0. */
  const LCD_COLS: nat := 20
  const LAST_COL: nat := LCD_COLS - 1
  /** A note moves one column every 90 ms, whatever the difficulty. */
  const MOVE_DT_MS: nat := 90
  /** Time to cross the whole display at multiplier 1: 19 * 90 = 1710 ms. */
  const BASE_TRAVEL_TIME_MS: nat := (LCD_COLS - 1) * MOVE_DT_MS
  /** A press counts while at most this long has passed since the window opened. */
  const HIT_WINDOW_MS: nat := 180
  /** Length of the positive feedback tone. */
  const CORRECT_MS: nat := 220
  /** Length of the second, timed tone of the miss sound. */
  const MISS_TONE_MS: nat := 80
  /** Settle margin added after the last note before the song counts as over. */
  const SETTLE_MS: nat := 50
  /** Capacity of the active-note pool. */
  const MAX_ACTIVE: nat := 14
  /** Capacity of the two schedule arrays. */
  const SCHEDULE_CAP: nat := 64

  datatype Difficulty = Easy | Medium | Hard

  /** Position of a level in the menu order (the enum's integer value). */
  function Level(d: Difficulty): (l: nat)
    ensures l < 3
  {
    match d
    case Easy => 0
    case Medium => 1
    case Hard => 2
  }

  function FromLevel(l: nat): (d: Difficulty)
    requires l < 3
    ensures Level(d) == l
  {
    if l == 0 then Easy else if l == 1 then Medium else Hard
  }

  /** The difficulty menu's step `(d + 1) % 3`. */
  function NextDifficulty(d: Difficulty): (r: Difficulty)
    ensures Level(r) == (Level(d) + 1) % 3
    ensures r != d
  {
    FromLevel((Level(d) + 1) % 3)
  }

  lemma NextDifficultyCycles(d: Difficulty)
    ensures NextDifficulty(NextDifficulty(NextDifficulty(d))) == d
    ensures {NextDifficulty(d), NextDifficulty(NextDifficulty(d)), d} == {Easy, Medium, Hard}
  {
  }

  /** The float multipliers 1.0, 1.5 and 2.7 as exact fractions MultNum / MultDen. */
  function MultNum(d: Difficulty): (n: nat)
    ensures 0 < n
  {
    match d
    case Easy => 1
    case Medium => 3
    case Hard => 27
  }

  function MultDen(d: Difficulty): (r: nat)
    ensures 0 < r <= MultNum(d)
  {
    match d
    case Easy => 1
    case Medium => 2
    case Hard => 10
  }

  /** Every multiplier is at least 1, and a harder level has a larger one. */
  lemma MultiplierOrder(easier: Difficulty, harder: Difficulty)
    requires Level(easier) <= Level(harder)
    ensures 0 < MultDen(harder) <= MultNum(harder)
    ensures MultNum(easier) * MultDen(harder) <= MultNum(harder) * MultDen(easier)
  {
  }

  /** `travelTimeMs = (int)(1710 / m)`: the largest whole number of
      milliseconds not above 1710 / m. */
  function TravelTime(d: Difficulty): (t: nat)
    ensures t <= BASE_TRAVEL_TIME_MS
  {
    BASE_TRAVEL_TIME_MS * MultDen(d) / MultNum(d)
  }

  lemma TravelTimeIsFloor(d: Difficulty)
    ensures TravelTime(d) * MultNum(d) <= BASE_TRAVEL_TIME_MS * MultDen(d) < (TravelTime(d) + 1) * MultNum(d)
  {
  }

  /** A harder level never has a longer travel time. */
  lemma TravelTimeShrinks(easier: Difficulty, harder: Difficulty)
    requires Level(easier) <= Level(harder)
    ensures TravelTime(harder) <= TravelTime(easier)
  {
  }

  /** `(unsigned long)(beat / m + 0.5)`: the beat scaled by the multiplier and
      rounded to the nearest millisecond, halves upwards. With m = num / den,
      beat / m + 1/2 = (2 * den * beat + num) / (2 * num), written out per level. */
  function ScaledBeat(beat: nat, d: Difficulty): (r: nat)
    ensures r <= beat
  {
    match d
    case Easy => beat
    case Medium => (4 * beat + 3) / 6
    case Hard => (20 * beat + 27) / 54
  }

  /** The scaled beat is beat / m rounded to the nearest whole number, halves up. */
  lemma ScaledBeatIsRounded(beat: nat, d: Difficulty)
    ensures 2 * MultNum(d) * ScaledBeat(beat, d) <= 2 * MultDen(d) * beat + MultNum(d)
                                                 < 2 * MultNum(d) * (ScaledBeat(beat, d) + 1)
  {
  }

  /** A harder level never lengthens a beat. */
  lemma ScaledBeatShrinks(beat: nat, easier: Difficulty, harder: Difficulty)
    requires Level(easier) <= Level(harder)
    ensures ScaledBeat(beat, harder) <= ScaledBeat(beat, easier)
  {
  }

  /** The column a note reaches `elapsed` ms after it was admitted: one
      column per 90 ms from column 19, never past column 0. */
  function ColumnAt(elapsed: int): (c: nat)
    ensures c <= LAST_COL
    ensures elapsed <= 0 ==> c == LAST_COL
    ensures c == 0 <==> elapsed >= BASE_TRAVEL_TIME_MS
    ensures 0 < c && 0 <= elapsed ==>
              MOVE_DT_MS * (LAST_COL - c) <= elapsed < MOVE_DT_MS * (LAST_COL - c + 1)
  {
    var steps := if elapsed <= 0 then 0 else elapsed / MOVE_DT_MS;
    if LAST_COL - steps < 0 then 0 else LAST_COL - steps
  }
}
