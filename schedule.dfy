/** The schedule a song compiles to: when each note must arrive at the hit
    column and when it must start moving, both in ms since the song started. */
module Schedule {
  import opened Timing

  /** Arrival time of note `i`: the running sum of the scaled beats before it. */
  function ArrivalAt(beats: seq<nat>, i: nat, d: Difficulty): (t: nat)
    requires i <= |beats|
    ensures i > 0 ==> ScaledBeat(beats[i - 1], d) <= t
  {
    if i == 0 then 0 else ArrivalAt(beats, i - 1, d) + ScaledBeat(beats[i - 1], d)
  }

  /** Spawn time: the arrival time less the travel time, saturated at 0. */
  function SpawnTime(arrival: nat, travel: nat): (s: nat)
    ensures s <= arrival
    ensures arrival >= travel ==> s + travel == arrival
    ensures arrival < travel ==> s == 0
  {
    if arrival >= travel then arrival - travel else 0
  }

  /** The time, since the song started, after which the song may count as over:
      the last note's arrival plus the hit window, the travel time and the
      settle margin. */
  function EndTime(lastArrival: nat, travel: nat): (e: nat)
    ensures e >= lastArrival + HIT_WINDOW_MS
  {
    lastArrival + HIT_WINDOW_MS + travel + SETTLE_MS
  }

  /** Arrival times never decrease along the song. */
  lemma {:induction false} ArrivalsMonotone(beats: seq<nat>, i: nat, j: nat, d: Difficulty)
    requires i <= j <= |beats|
    ensures ArrivalAt(beats, i, d) <= ArrivalAt(beats, j, d)
    decreases j
  {
    if i < j {
      ArrivalsMonotone(beats, i, j - 1, d);
    }
  }

  /** Hence spawn times never decrease along the song either. */
  lemma SpawnsMonotone(beats: seq<nat>, i: nat, j: nat, d: Difficulty, travel: nat)
    requires i <= j <= |beats|
    ensures SpawnTime(ArrivalAt(beats, i, d), travel) <= SpawnTime(ArrivalAt(beats, j, d), travel)
  {
    ArrivalsMonotone(beats, i, j, d);
  }

  /** On a harder level every note arrives no later than on an easier one. */
  lemma {:induction false} ArrivalsShrink(beats: seq<nat>, i: nat, easier: Difficulty, harder: Difficulty)
    requires i <= |beats|
    requires Level(easier) <= Level(harder)
    ensures ArrivalAt(beats, i, harder) <= ArrivalAt(beats, i, easier)
  {
    if i > 0 {
      ArrivalsShrink(beats, i - 1, easier, harder);
      ScaledBeatShrinks(beats[i - 1], easier, harder);
    }
  }

  /** On a harder level the whole song is over no later than on an easier one:
      both the spacing of the notes and the travel time shrink. */
  lemma SongShortensWithDifficulty(beats: seq<nat>, easier: Difficulty, harder: Difficulty)
    requires |beats| >= 1
    requires Level(easier) <= Level(harder)
    ensures EndTime(ArrivalAt(beats, |beats| - 1, harder), TravelTime(harder))
         <= EndTime(ArrivalAt(beats, |beats| - 1, easier), TravelTime(easier))
  {
    ArrivalsShrink(beats, |beats| - 1, easier, harder);
    TravelTimeShrinks(easier, harder);
  }

  /** The index just past the last note, from `next` on, whose spawn time has
      been reached `elapsed` ms into the song: where the admission scan stops. */
  function DueEnd(spawns: seq<nat>, next: nat, elapsed: nat): (e: nat)
    requires next <= |spawns|
    ensures next <= e <= |spawns|
    ensures forall j :: next <= j < e ==> spawns[j] <= elapsed
    ensures e < |spawns| ==> spawns[e] > elapsed
    decreases |spawns| - next
  {
    if next == |spawns| || spawns[next] > elapsed then next
    else DueEnd(spawns, next + 1, elapsed)
  }

  /** When spawn times are sorted the scan misses no due note: every note past
      where it stops is not yet due. */
  lemma DueEndIsExact(spawns: seq<nat>, next: nat, elapsed: nat)
    requires next <= |spawns|
    requires forall i, j :: 0 <= i <= j < |spawns| ==> spawns[i] <= spawns[j]
    ensures forall j :: DueEnd(spawns, next, elapsed) <= j < |spawns| ==> spawns[j] > elapsed
  {
  }
}
