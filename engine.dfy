/** The game state the main loop drives once per tick: the compiled schedule,
    the fixed pool of active notes, the score counters and the best scores.
    Each method is one routine of the game loop, changing the arrays in place. */
module Engine {
  import opened Timing
  import opened Songs
  import opened Schedule
  import opened Pool
  import opened Tone

  /** The best-score update: the larger of the old best and the new score. */
  function Best(high: nat, score: nat): (r: nat)
    ensures r >= high && r >= score
    ensures r == high || r == score
  {
    if score > high then score else high
  }

  class Game {
    var songIdx: nat
    /** The selected song, `songs[selectedSongIdx]`. */
    var song: Song
    var difficulty: Difficulty
    var travelTimeMs: nat
    var startMs: array<nat>
    var spawnMs: array<nat>
    var active: array<Active>
    var highScores: array<nat>
    var isPlaying: bool
    var tStart: nat
    var nextToSpawn: nat
    var curScore: nat
    var totalNotes: nat
    /** When the sounding tone must stop; 0 when no tone is timed. */
    var toneEndTime: nat
    /** The notes hit so far in this play-through. */
    ghost var scored: set<nat>

    /** Array sizes, distinct arrays and a valid song selection. */
    ghost predicate Shape()
      reads this`songIdx, this`startMs, this`spawnMs, this`active, this`highScores
    {
      && songIdx < NUM_SONGS
      && startMs.Length == SCHEDULE_CAP && spawnMs.Length == SCHEDULE_CAP
      && active.Length == MAX_ACTIVE && highScores.Length == NUM_SONGS
      && startMs != spawnMs && highScores != startMs && highScores != spawnMs
    }

    function Beats(): seq<nat>
      reads this`song
    {
      song.beats
    }

    function Melody(): seq<nat>
      reads this`song
    {
      song.melody
    }

    function SongLen(): nat
      reads this`song
    {
      |song.beats|
    }

    /** The selected song is the table's entry at the selected index. */
    ghost predicate Selected()
      reads this`songIdx, this`song
    {
      songIdx < NUM_SONGS && song == SongAt(songIdx)
    }

    /** The first `SongLen()` entries of both arrays hold the selected song's
        schedule at the selected difficulty. */
    ghost predicate Scheduled()
      reads this`songIdx, this`startMs, this`spawnMs, this`active, this`highScores
      reads this`song, this`difficulty, this`travelTimeMs, startMs, spawnMs
      requires Shape()
    {
      && SongLen() <= SCHEDULE_CAP
      && travelTimeMs == TravelTime(difficulty)
      && (forall i {:trigger startMs[i]} :: 0 <= i < SongLen() ==> startMs[i] == ArrivalAt(Beats(), i, difficulty))
      && (forall i {:trigger spawnMs[i]} :: 0 <= i < SongLen() ==> spawnMs[i] == SpawnTime(startMs[i], travelTimeMs))
    }

    function SpawnTimes(): seq<nat>
      reads this`songIdx, this`startMs, this`spawnMs, this`active, this`highScores
      reads this`song, spawnMs
      requires Shape() && SongLen() <= SCHEDULE_CAP
    {
      spawnMs[..SongLen()]
    }

    /** The invariant of a play-through. */
    ghost predicate Valid()
      reads this`songIdx, this`startMs, this`spawnMs, this`active, this`highScores
      reads this`song, this`difficulty, this`travelTimeMs, startMs, spawnMs
      reads this`totalNotes, this`nextToSpawn, this`scored, this`curScore, active
    {
      && Shape()
      && Playable(song)
      && Scheduled()
      && totalNotes == SongLen()
      && nextToSpawn <= SongLen()
      && PoolOk(active[..], nextToSpawn, scored)
      && (forall x :: x in scored ==> x < nextToSpawn)
      && |scored| == curScore
    }

    /** `now` is no earlier than any time stamp the state holds (the clock
        does not run backwards and does not wrap). */
    ghost predicate ClockAtLeast(now: nat)
      reads this`tStart, this`active, active
    {
      && tStart <= now
      && ClockOk(active[..], now)
    }

    /** The power-on state: zeroed globals, song 0, difficulty Hard, no song playing. */
    constructor ()
      ensures Shape() && Selected() && !isPlaying
      ensures songIdx == 0 && difficulty == Hard && travelTimeMs == BASE_TRAVEL_TIME_MS && toneEndTime == 0
      ensures forall i :: 0 <= i < NUM_SONGS ==> highScores[i] == 0
      ensures fresh(startMs) && fresh(spawnMs) && fresh(active) && fresh(highScores)
    {
      songIdx := 0;
      song := SongAt(0);
      difficulty := Hard;
      travelTimeMs := BASE_TRAVEL_TIME_MS;
      startMs := new nat[SCHEDULE_CAP](_ => 0);
      spawnMs := new nat[SCHEDULE_CAP](_ => 0);
      active := new Active[MAX_ACTIVE](_ => Active(false, 0, 0, 0, 0, false, false, 0, 0));
      highScores := new nat[NUM_SONGS](_ => 0);
      isPlaying := false;
      tStart := 0;
      nextToSpawn := 0;
      curScore := 0;
      totalNotes := 0;
      toneEndTime := 0;
      scored := {};
    }

    /** Sound a tone for `dur` ms from `now`: arm the timer. */
    method StartTone(now: nat, dur: nat)
      modifies this`toneEndTime
      ensures toneEndTime == now + dur
    {
      toneEndTime := now + dur;
    }

    /** Poll the tone timer at `now`: stop the tone once its end time has come.
        Returns whether a tone was stopped. */
    method UpdateTone(now: nat) returns (stopped: bool)
      modifies this`toneEndTime
      ensures toneEndTime == Polled(old(toneEndTime), now)
      ensures stopped <==> old(toneEndTime) != 0 && toneEndTime == 0
    {
      stopped := false;
      if toneEndTime > 0 && now >= toneEndTime {
        stopped := true;
        toneEndTime := 0;
      }
    }

    /** Compile the selected song at the selected difficulty into the two
        schedule arrays; entries past the song are left alone. */
    method ComputeSchedule()
      requires Shape() && Playable(song)
      modifies this`travelTimeMs, startMs, spawnMs
      ensures Shape() && Scheduled()
      ensures forall i :: SongLen() <= i < SCHEDULE_CAP ==>
                startMs[i] == old(startMs[i]) && spawnMs[i] == old(spawnMs[i])
    {
      travelTimeMs := TravelTime(difficulty);
      var t: nat := 0;
      var len := |song.beats|;
      var beats := song.beats;
      for i := 0 to len
        invariant travelTimeMs == TravelTime(difficulty)
        invariant t == ArrivalAt(beats, i, difficulty)
        invariant forall j {:trigger startMs[j]} :: 0 <= j < i ==> startMs[j] == ArrivalAt(beats, j, difficulty)
        invariant forall j {:trigger spawnMs[j]} :: 0 <= j < i ==> spawnMs[j] == SpawnTime(startMs[j], travelTimeMs)
        invariant forall j :: i <= j < SCHEDULE_CAP ==> startMs[j] == old(startMs[j]) && spawnMs[j] == old(spawnMs[j])
      {
        startMs[i] := t;
        spawnMs[i] := if t >= travelTimeMs then t - travelTimeMs else 0;
        t := t + ScaledBeat(beats[i], difficulty);
      }
    }

    /** Empty the pool and zero the counters for a new play-through. */
    method ResetActive()
      requires Shape()
      modifies active, this`nextToSpawn, this`curScore, this`totalNotes, this`scored
      ensures forall i :: 0 <= i < MAX_ACTIVE ==> active[i] == Cleared
      ensures nextToSpawn == 0 && curScore == 0 && totalNotes == SongLen() && scored == {}
    {
      for i := 0 to MAX_ACTIVE
        invariant forall j :: 0 <= j < i ==> active[j] == Cleared
      {
        active[i] := Cleared;
      }
      nextToSpawn := 0;
      curScore := 0;
      totalNotes := |song.beats|;
      scored := {};
    }

    /** Select song `idx` at difficulty `diff` and compile its schedule. */
    method SelectSong(idx: nat, diff: Difficulty)
      requires Shape() && idx < NUM_SONGS
      modifies this`songIdx, this`song, this`difficulty, this`travelTimeMs, startMs, spawnMs
      ensures Shape() && Selected() && Playable(song) && Scheduled()
      ensures songIdx == idx && difficulty == diff
    {
      songIdx := idx;
      song := SongAt(idx);
      difficulty := diff;
      ComputeSchedule();
    }

    /** Start a play-through of song `idx` at difficulty `diff` at time `now`:
        the song's clock starts one travel time in the past, so that the first
        note is already due. */
    method StartSong(idx: nat, diff: Difficulty, now: nat)
      requires Shape() && idx < NUM_SONGS
      requires now >= TravelTime(diff)
      modifies this`songIdx, this`song, this`difficulty, this`travelTimeMs, this`tStart, this`isPlaying
      modifies this`nextToSpawn, this`curScore, this`totalNotes, this`scored, startMs, spawnMs, active
      ensures Valid() && Selected() && ClockAtLeast(now) && isPlaying
      ensures songIdx == idx && difficulty == diff
      ensures tStart + travelTimeMs == now
      ensures nextToSpawn == 0 && curScore == 0 && totalNotes == SongLen()
      ensures forall i :: 0 <= i < MAX_ACTIVE ==> !active[i].used
      ensures startMs == old(startMs) && spawnMs == old(spawnMs) && active == old(active)
      ensures highScores == old(highScores) && toneEndTime == old(toneEndTime)
    {
      SelectSong(idx, diff);
      ResetActive();
      EmptyPoolOk(active[..], now);
      tStart := now - travelTimeMs;
      isPlaying := true;
    }

    /** Put note `idx` into the lowest free slot, if there is one. */
    method TakeFreeSlot(idx: nat, now: nat)
      requires active.Length == MAX_ACTIVE
      modifies active
      ensures active[..] == Admit(old(active[..]), idx, now)
    {
      ghost var before := active[..];
      var i := 0;
      while i < MAX_ACTIVE
        invariant 0 <= i <= MAX_ACTIVE
        invariant forall j :: 0 <= j < i ==> active[j].used
        invariant active[..] == before
      {
        if !active[i].used {
          active[i] := Occupy(active[i], idx, now);
          break;
        }
        i := i + 1;
      }
    }

    /** The scan of `SpawnReadyNotes`: while the next note's spawn time has
        come, admit it and pass on to the note after it. */
    method AdmitDue(now: nat)
      requires Shape() && nextToSpawn <= SongLen() <= SCHEDULE_CAP && tStart <= now
      modifies this`nextToSpawn, active
      ensures old(nextToSpawn) <= nextToSpawn <= SongLen()
      ensures nextToSpawn == DueEnd(SpawnTimes(), old(nextToSpawn), now - tStart)
      ensures active[..] == AdmitRange(old(active[..]), old(nextToSpawn), nextToSpawn, now)
    {
      var songLen := |song.beats|;
      ghost var spawns := SpawnTimes();
      while nextToSpawn < songLen && now - tStart >= spawnMs[nextToSpawn]
        invariant old(nextToSpawn) <= nextToSpawn <= songLen
        invariant DueEnd(spawns, nextToSpawn, now - tStart) == DueEnd(spawns, old(nextToSpawn), now - tStart)
        invariant active[..] == AdmitRange(old(active[..]), old(nextToSpawn), nextToSpawn, now)
        decreases songLen - nextToSpawn
      {
        assert spawns[nextToSpawn] == spawnMs[nextToSpawn];
        ghost var before := active[..];
        TakeFreeSlot(nextToSpawn, now);
        assert AdmitRange(old(active[..]), old(nextToSpawn), nextToSpawn + 1, now) == Admit(before, nextToSpawn, now);
        nextToSpawn := nextToSpawn + 1;
      }
      assert nextToSpawn < songLen ==> spawns[nextToSpawn] == spawnMs[nextToSpawn];
    }

    /** Admit every note whose spawn time has come, in order, each into the
        lowest free slot. The scan passes a note even when the pool is full,
        so such a note is never shown. */
    method SpawnReadyNotes(now: nat)
      requires Valid() && ClockAtLeast(now)
      modifies this`nextToSpawn, active
      ensures Valid() && ClockAtLeast(now)
      ensures old(nextToSpawn) <= nextToSpawn <= SongLen()
      ensures nextToSpawn == DueEnd(SpawnTimes(), old(nextToSpawn), now - tStart)
      ensures nextToSpawn == SongLen() || spawnMs[nextToSpawn] > now - tStart
      ensures active[..] == AdmitRange(old(active[..]), old(nextToSpawn), nextToSpawn, now)
      ensures forall i :: 0 <= i < MAX_ACTIVE && active[i] != old(active[i]) ==>
                old(nextToSpawn) <= active[i].noteIdx < nextToSpawn && active[i].spawnedAt == now
    {
      AdmitDue(now);
      assert nextToSpawn < SongLen() ==> SpawnTimes()[nextToSpawn] == spawnMs[nextToSpawn];
      AdmitRangeKeepsPool(old(active[..]), old(nextToSpawn), nextToSpawn, scored, now);
      AdmitRangeKeepsClock(old(active[..]), old(nextToSpawn), nextToSpawn, now);
      AdmitRangeChanges(old(active[..]), old(nextToSpawn), nextToSpawn, now);
    }

    /** Move every note still travelling to the column its elapsed time gives,
        opening its window when it reaches column 0. */
    method UpdateMovement(now: nat)
      requires Valid() && ClockAtLeast(now)
      modifies active
      ensures Valid() && ClockAtLeast(now)
      ensures active[..] == MoveAll(old(active[..]), now)
    {
      for i := 0 to MAX_ACTIVE
        invariant forall j :: 0 <= j < i ==> active[j] == MoveSlot(old(active[j]), now)
        invariant forall j :: i <= j < MAX_ACTIVE ==> active[j] == old(active[j])
      {
        if !active[i].used {
          continue;
        }
        if active[i].inWindow {
          continue;
        }
        var newCol := ColumnAt(now - active[i].spawnedAt);
        active[i] := active[i].(col := newCol, prevCol := newCol);
        if newCol == 0 {
          active[i] := active[i].(inWindow := true, windowStart := now);
        }
      }
      MoveKeepsPool(old(active[..]), nextToSpawn, scored, now);
    }

    /** Check slot `i`'s window at time `now`: a press in time scores the note
        and sounds its pitch, a window that has passed frees the slot and, if
        the note was not hit, sounds the miss cue. A sound arms the tone timer
        from `clock`, the clock read when that sound starts. */
    method CheckSlotAt(i: nat, now: nat, b: Buttons, clock: nat) returns (c: seq<Cue>)
      requires i < active.Length
      requires active[i].used ==> active[i].noteIdx < |song.melody|
      modifies active, this`curScore, this`toneEndTime
      ensures active[..] == old(active[..])[i := CheckSlot(old(active[i]), now, b)]
      ensures c == SlotCues(old(active[i]), now, b, Melody())
      ensures toneEndTime == SlotTone(old(active[i]), now, b, clock, old(toneEndTime))
      ensures curScore == old(curScore) + (if Scores(old(active[i]), now, b) then 1 else 0)
    {
      c := [];
      var slot := active[i];
      if !slot.used || !slot.inWindow {
        return;
      }
      if !slot.resolved && now - slot.windowStart <= HIT_WINDOW_MS {
        if Pressed(b, slot.row) {
          c := c + [HitTone(song.melody[slot.noteIdx])];
          toneEndTime := clock + CORRECT_MS;
          slot := slot.(resolved := true);
          curScore := curScore + 1;
        }
      }
      if now - slot.windowStart > HIT_WINDOW_MS {
        if !slot.resolved {
          c := c + [MissCue];
          toneEndTime := clock + MISS_TONE_MS;
        }
        slot := slot.(used := false);
      }
      active[i] := slot;
    }

    /** The scan of `CheckWindows` over the slots in order, as the game loop
        runs it; it needs only that every occupied slot's note has a pitch.
        `clocks[k]` is the clock read when slot `k`'s sound starts. */
    method CheckEachWindow(now: nat, b: Buttons, clocks: seq<nat>) returns (cues: seq<Cue>)
      requires active.Length == MAX_ACTIVE && |clocks| == MAX_ACTIVE
      requires forall j :: 0 <= j < MAX_ACTIVE && active[j].used ==> active[j].noteIdx < |song.melody|
      modifies active, this`curScore, this`toneEndTime
      ensures active[..] == CheckAll(old(active[..]), now, b)
      ensures curScore == old(curScore) + HitCount(old(active[..]), now, b)
      ensures cues == CuesOf(old(active[..]), now, b, Melody())
      ensures toneEndTime == ToneAfterAll(old(active[..]), now, b, clocks, old(toneEndTime))
    {
      cues := [];
      ghost var slots := active[..];
      for i := 0 to MAX_ACTIVE
        invariant forall j :: 0 <= j < i ==> active[j] == CheckSlot(slots[j], now, b)
        invariant forall j :: i <= j < MAX_ACTIVE ==> active[j] == slots[j]
        invariant curScore == old(curScore) + HitCount(slots[..i], now, b)
        invariant cues == CuesOf(slots[..i], now, b, Melody())
        invariant toneEndTime == ToneAfterAll(slots[..i], now, b, clocks, old(toneEndTime))
      {
        assert slots[..i + 1][..i] == slots[..i];
        var c := CheckSlotAt(i, now, b, clocks[i]);
        cues := cues + c;
      }
      assert slots[..MAX_ACTIVE] == slots;
    }

    /** Score the presses that land in an open window and free the slots whose
        window has passed; returns the feedback cues in slot order and leaves
        the tone timer at the end of the last sound started. */
    method CheckWindows(now: nat, b: Buttons, clocks: seq<nat>) returns (cues: seq<Cue>)
      requires Valid() && ClockAtLeast(now) && |clocks| == MAX_ACTIVE
      modifies active, this`curScore, this`scored, this`toneEndTime
      ensures Valid() && ClockAtLeast(now)
      ensures active[..] == CheckAll(old(active[..]), now, b)
      ensures curScore == old(curScore) + HitCount(old(active[..]), now, b)
      ensures cues == CuesOf(old(active[..]), now, b, Melody())
      ensures toneEndTime == ToneAfterAll(old(active[..]), now, b, clocks, old(toneEndTime))
      ensures scored == old(scored) + HitNotes(old(active[..]), now, b)
    {
      ghost var slots := active[..];
      OccupiedBelow(slots, nextToSpawn, scored);
      cues := CheckEachWindow(now, b, clocks);
      scored := scored + HitNotes(slots, now, b);
      CheckKeepsPool(slots, nextToSpawn, old(scored), now, b);
    }

    /** The song is over at `now` when every note has been passed, the last
        note's window, the travel time and the settle margin have all elapsed
        since the song's clock origin, and the pool is empty. */
    ghost predicate SongOver(now: nat)
      reads this`song, this`tStart, this`difficulty, this`nextToSpawn, this`active, active
      requires 0 < SongLen() && active.Length == MAX_ACTIVE
    {
      && nextToSpawn == SongLen()
      && now - tStart >= EndTime(ArrivalAt(Beats(), SongLen() - 1, difficulty), TravelTime(difficulty))
      && forall i :: 0 <= i < MAX_ACTIVE ==> !active[i].used
    }

    /** Test whether the song is over: the scan position first, then the end
        time, then a scan of the pool. */
    method SongFinished(now: nat) returns (finished: bool)
      requires Valid() && ClockAtLeast(now)
      ensures finished <==> SongOver(now)
    {
      var songLen := |song.beats|;
      if nextToSpawn < songLen {
        return false;
      }
      var endTime := startMs[songLen - 1] + HIT_WINDOW_MS + travelTimeMs + SETTLE_MS;
      if now - tStart < endTime {
        return false;
      }
      for i := 0 to MAX_ACTIVE
        invariant forall j :: 0 <= j < i ==> !active[j].used
      {
        if active[i].used {
          return false;
        }
      }
      return true;
    }

    /** The effect of one pass from the pool `slots`, the scan position `next`,
        the score `score`, the notes hit `hits` and the tone timer `tone`: the
        notes due by `now` were admitted, every note moved and every hit window
        checked under `b`, with the clock readings `clocks` for the sounds,
        giving the current pool, scan position, score, notes hit and timer, and
        the cues `cues`. */
    ghost predicate Passed(slots: seq<Active>, next: nat, score: nat, hits: set<nat>, tone: nat, now: nat, b: Buttons, clocks: seq<nat>, cues: seq<Cue>)
      reads this`songIdx, this`startMs, this`spawnMs, this`active, this`highScores
      reads this`song, this`tStart, this`nextToSpawn, this`curScore, this`scored, this`toneEndTime, spawnMs, active
    {
      && Shape() && SongLen() <= SCHEDULE_CAP && next <= SongLen() && tStart <= now
      && |slots| == |clocks|
      && nextToSpawn == DueEnd(SpawnTimes(), next, now - tStart)
      && var moved := MoveAll(AdmitRange(slots, next, nextToSpawn, now), now);
      && (forall i :: 0 <= i < |moved| && moved[i].used ==> moved[i].noteIdx < |Melody()|)
      && active[..] == CheckAll(moved, now, b)
      && curScore == score + HitCount(moved, now, b)
      && scored == hits + HitNotes(moved, now, b)
      && cues == CuesOf(moved, now, b, Melody())
      && toneEndTime == ToneAfterAll(moved, now, b, clocks, tone)
    }

    /** The work of one pass while a song plays: admit the notes that are due,
        move the notes, then check the hit windows, whose sounds re-arm the
        tone timer. */
    method PlayStep(now: nat, b: Buttons, clocks: seq<nat>) returns (cues: seq<Cue>)
      requires Valid() && ClockAtLeast(now) && |clocks| == MAX_ACTIVE
      modifies this`nextToSpawn, this`curScore, this`scored, this`toneEndTime, active
      ensures Valid() && ClockAtLeast(now)
      ensures curScore <= totalNotes
      ensures Passed(old(active[..]), old(nextToSpawn), old(curScore), old(scored), old(toneEndTime), now, b, clocks, cues)
    {
      ghost var spawns := SpawnTimes();
      SpawnReadyNotes(now);
      UpdateMovement(now);
      OccupiedBelow(active[..], nextToSpawn, scored);
      cues := CheckWindows(now, b, clocks);
      BoundedSetSize(scored, nextToSpawn);
      assert SpawnTimes() == spawns;
    }

    /** At the end of the song stop playing and keep the better of the old best
        score and this one; before the end change nothing. */
    method EndIfFinished(now: nat) returns (finished: bool)
      requires Valid() && ClockAtLeast(now)
      modifies this`isPlaying, highScores
      ensures Valid() && ClockAtLeast(now)
      ensures finished <==> SongOver(now)
      ensures finished ==> !isPlaying && highScores[songIdx] == Best(old(highScores[songIdx]), curScore)
      ensures !finished ==> isPlaying == old(isPlaying)
      ensures forall i :: 0 <= i < NUM_SONGS && (i != songIdx || !finished) ==> highScores[i] == old(highScores[i])
    {
      finished := SongFinished(now);
      if finished {
        isPlaying := false;
        if curScore > highScores[songIdx] {
          highScores[songIdx] := curScore;
        }
      }
    }

    /** A pass while a song plays: admit, move and check the notes, then test
        for the end of the song and, at the end, stop and record the best
        score. */
    method PlayPass(now: nat, b: Buttons, clocks: seq<nat>) returns (finished: bool, cues: seq<Cue>)
      requires Valid() && ClockAtLeast(now) && isPlaying && |clocks| == MAX_ACTIVE
      modifies this`isPlaying, this`nextToSpawn, this`curScore, this`scored, this`toneEndTime, active, highScores
      ensures Valid() && ClockAtLeast(now)
      ensures isPlaying == !finished
      ensures curScore <= totalNotes
      ensures Passed(old(active[..]), old(nextToSpawn), old(curScore), old(scored), old(toneEndTime), now, b, clocks, cues)
      ensures finished <==> SongOver(now)
      ensures finished ==> highScores[songIdx] == Best(old(highScores[songIdx]), curScore)
      ensures forall i :: 0 <= i < NUM_SONGS && (i != songIdx || !finished) ==> highScores[i] == old(highScores[i])
    {
      cues := PlayStep(now, b, clocks);
      finished := EndIfFinished(now);
    }

    /** One pass of the main loop at time `now` with the buttons `b`: poll the
        tone timer, then make the pass of a playing song, `clocks[k]` being the
        clock read when slot `k`'s sound starts. Does nothing when no song is
        playing. */
    method Tick(now: nat, b: Buttons, clocks: seq<nat>) returns (finished: bool, cues: seq<Cue>)
      requires Valid() && ClockAtLeast(now) && |clocks| == MAX_ACTIVE
      modifies this`isPlaying, this`toneEndTime, this`nextToSpawn, this`curScore, this`scored, active, highScores
      ensures Valid() && ClockAtLeast(now)
      ensures !old(isPlaying) ==> !finished && cues == [] && unchanged(this) && unchanged(active) && unchanged(highScores)
      ensures old(isPlaying) ==>
                && isPlaying == !finished
                && curScore <= totalNotes
                && Passed(old(active[..]), old(nextToSpawn), old(curScore), old(scored), Polled(old(toneEndTime), now), now, b, clocks, cues)
      ensures old(isPlaying) ==> (finished <==> SongOver(now))
      ensures finished ==> highScores[songIdx] == Best(old(highScores[songIdx]), curScore)
      ensures forall i :: 0 <= i < NUM_SONGS && (i != songIdx || !finished) ==> highScores[i] == old(highScores[i])
    {
      if !isPlaying {
        return false, [];
      }
      var _ := UpdateTone(now);
      finished, cues := PlayPass(now, b, clocks);
    }
  }
}
