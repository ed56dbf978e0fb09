/** The active-note pool, one slot at a time: what admission, movement and
    window checking do to a slot, and the facts about the whole pool that
    they keep. The engine applies these to its array of slots in place. */
module Pool {
  import opened Timing

  /** One slot of the pool. `row` is the lane (1 or 2), `col` the column the
      note is drawn at, `prevCol` the column drawn last tick (-1: none yet). */
  datatype Active = Active(
    used: bool,
    row: nat,
    noteIdx: nat,
    col: int,
    prevCol: int,
    inWindow: bool,
    resolved: bool,
    spawnedAt: nat,
    windowStart: nat)

  /** The value `resetActive` writes into every slot. */
  const Cleared: Active := Active(false, 0, 0, 0, -1, false, false, 0, 0)

  /** The two buttons as sampled for one tick. */
  datatype Buttons = Buttons(left: bool, right: bool)

  /** Lane 1 is read from the left button, any other lane from the right one. */
  function Pressed(b: Buttons, row: nat): (r: bool)
    ensures row == 1 ==> (r <==> b.left)
    ensures row != 1 ==> (r <==> b.right)
  {
    if row == 1 then b.left else b.right
  }

  /** Feedback for the audio side: the hit note's pitch, or the miss cue. */
  datatype Cue = HitTone(pitch: nat) | MissCue

  /** Notes alternate between the two lanes: even notes on lane 1. */
  function RowOf(idx: nat): (r: nat)
    ensures r == 1 || r == 2
    ensures r == 1 <==> idx % 2 == 0
  {
    1 + idx % 2
  }

  /** A note is played with the left button when its index is even and with
      the right one when it is odd. */
  lemma NoteButton(idx: nat, b: Buttons)
    ensures Pressed(b, RowOf(idx)) <==> (if idx % 2 == 0 then b.left else b.right)
  {
  }

  // ---------------------------------------------------------------------
  // Invariants

  /** What holds of every slot while a song plays, `next` being the number
      of notes the scheduler has passed so far. */
  predicate SlotOk(s: Active, next: nat)
  {
    s.used ==>
      && s.noteIdx < next
      && s.row == RowOf(s.noteIdx)
      && 0 <= s.col <= LAST_COL
      && (s.prevCol == -1 || s.prevCol == s.col)
      && (s.inWindow ==> s.col == 0)
      && (s.resolved ==> s.inWindow)
  }

  /** No note occupies two slots. */
  predicate DistinctNotes(slots: seq<Active>)
  {
    forall i, j :: 0 <= i < |slots| && 0 <= j < |slots| && i != j && slots[i].used && slots[j].used
      ==> slots[i].noteIdx != slots[j].noteIdx
  }

  /** The pool invariant: every slot is well formed, no note is in two slots,
      and an occupied slot is resolved exactly when its note is among the
      notes already scored. */
  predicate PoolOk(slots: seq<Active>, next: nat, scored: set<nat>)
  {
    && (forall i :: 0 <= i < |slots| ==> SlotOk(slots[i], next))
    && DistinctNotes(slots)
    && (forall i :: 0 <= i < |slots| && slots[i].used ==> (slots[i].resolved <==> slots[i].noteIdx in scored))
  }

  /** Every occupied slot holds a note already passed by the scan. */
  lemma OccupiedBelow(slots: seq<Active>, next: nat, scored: set<nat>)
    requires PoolOk(slots, next, scored)
    ensures forall i :: 0 <= i < |slots| && slots[i].used ==> slots[i].noteIdx < next
  {
    forall i | 0 <= i < |slots| && slots[i].used
      ensures slots[i].noteIdx < next
    {
      assert SlotOk(slots[i], next);
    }
  }

  /** No slot holds a time stamp later than `now`. */
  predicate ClockOk(slots: seq<Active>, now: nat)
  {
    forall i :: 0 <= i < |slots| && slots[i].used ==>
      slots[i].spawnedAt <= now && (slots[i].inWindow ==> slots[i].windowStart <= now)
  }

  /** An empty pool satisfies the invariant before any note is passed and
      holds no time stamp. */
  lemma EmptyPoolOk(slots: seq<Active>, now: nat)
    requires forall i :: 0 <= i < |slots| ==> !slots[i].used
    ensures PoolOk(slots, 0, {}) && ClockOk(slots, now)
  {
  }

  // ---------------------------------------------------------------------
  // Admission

  /** Index of the lowest free slot, or `|slots|` when every slot is in use. */
  function FirstFree(slots: seq<Active>): (k: nat)
    ensures k <= |slots|
    ensures forall j :: 0 <= j < k ==> slots[j].used
    ensures k < |slots| ==> !slots[k].used
  {
    if |slots| == 0 || !slots[0].used then 0 else 1 + FirstFree(slots[1..])
  }

  /** The fields admission sets; `windowStart` keeps what the slot held. */
  function Occupy(s: Active, idx: nat, now: nat): (r: Active)
    ensures r.used && r.noteIdx == idx && r.spawnedAt == now
    ensures SlotOk(r, idx + 1) && !r.inWindow && !r.resolved
  {
    s.(used := true, row := RowOf(idx), noteIdx := idx, col := LAST_COL, prevCol := -1,
       inWindow := false, resolved := false, spawnedAt := now)
  }

  /** Admit note `idx` at time `now`: it takes the lowest free slot; with no
      free slot the pool is left as it was and the note is lost. */
  function Admit(slots: seq<Active>, idx: nat, now: nat): (r: seq<Active>)
    ensures |r| == |slots|
  {
    var k := FirstFree(slots);
    if k == |slots| then slots else slots[k := Occupy(slots[k], idx, now)]
  }

  /** Admission changes exactly one slot, the lowest free one, and changes
      none when every slot is in use. */
  lemma AdmitTakesLowestFree(slots: seq<Active>, idx: nat, now: nat)
    ensures (forall j :: 0 <= j < |slots| ==> slots[j].used) ==> Admit(slots, idx, now) == slots
    ensures forall j :: 0 <= j < |slots| ==>
              (Admit(slots, idx, now)[j] != slots[j] <==> !slots[j].used && forall i :: 0 <= i < j ==> slots[i].used)
  {
  }

  /** A slot admission changes was free and now holds note `idx`. */
  lemma AdmitOccupies(slots: seq<Active>, idx: nat, now: nat)
    ensures forall j :: 0 <= j < |slots| ==>
              Admit(slots, idx, now)[j] == slots[j] || (!slots[j].used && Admit(slots, idx, now)[j] == Occupy(slots[j], idx, now))
  {
  }

  /** Admit notes `lo` to `hi - 1`, in order, all at time `now`. */
  function AdmitRange(slots: seq<Active>, lo: nat, hi: nat, now: nat): (r: seq<Active>)
    ensures |r| == |slots|
    decreases hi
  {
    if hi <= lo then slots else Admit(AdmitRange(slots, lo, hi - 1, now), hi - 1, now)
  }

  /** Admitting the next note keeps the pool invariant, with one more note passed. */
  lemma AdmitKeepsPool(slots: seq<Active>, next: nat, scored: set<nat>, now: nat)
    requires PoolOk(slots, next, scored)
    requires forall x :: x in scored ==> x < next
    ensures PoolOk(Admit(slots, next, now), next + 1, scored)
  {
    var r := Admit(slots, next, now);
    AdmitTakesLowestFree(slots, next, now);
    AdmitOccupies(slots, next, now);
    forall i | 0 <= i < |r|
      ensures SlotOk(r[i], next + 1)
    {
      assert SlotOk(slots[i], next);
    }
  }

  /** Admitting a run of notes keeps the pool invariant. */
  lemma {:induction false} AdmitRangeKeepsPool(slots: seq<Active>, lo: nat, hi: nat, scored: set<nat>, now: nat)
    requires lo <= hi
    requires PoolOk(slots, lo, scored)
    requires forall x :: x in scored ==> x < lo
    ensures PoolOk(AdmitRange(slots, lo, hi, now), hi, scored)
    decreases hi
  {
    if hi > lo {
      var prev := AdmitRange(slots, lo, hi - 1, now);
      assert AdmitRange(slots, lo, hi, now) == Admit(prev, hi - 1, now);
      AdmitRangeKeepsPool(slots, lo, hi - 1, scored, now);
      AdmitKeepsPool(prev, hi - 1, scored, now);
    }
  }

  /** A slot changes in a run of admissions only to take a note of the run,
      unscored and stamped `now`: no note passed before is admitted again. */
  lemma {:induction false} AdmitRangeChanges(slots: seq<Active>, lo: nat, hi: nat, now: nat)
    ensures forall j :: 0 <= j < |slots| && AdmitRange(slots, lo, hi, now)[j] != slots[j] ==>
              (var s := AdmitRange(slots, lo, hi, now)[j];
               s.used && lo <= s.noteIdx < hi && !s.inWindow && !s.resolved && s.spawnedAt == now)
    decreases hi
  {
    if hi > lo {
      var prev := AdmitRange(slots, lo, hi - 1, now);
      AdmitRangeChanges(slots, lo, hi - 1, now);
      AdmitOccupies(prev, hi - 1, now);
      var r := Admit(prev, hi - 1, now);
      forall j | 0 <= j < |slots| && r[j] != slots[j]
        ensures r[j].used && lo <= r[j].noteIdx < hi && !r[j].inWindow && !r[j].resolved && r[j].spawnedAt == now
      {
        if r[j] != prev[j] {
          assert r[j] == Occupy(prev[j], hi - 1, now);
        } else {
          assert prev[j] != slots[j];
        }
      }
    }
  }

  /** Admission stamps slots with `now` only, so no stamp passes `now`. */
  lemma {:induction false} AdmitRangeKeepsClock(slots: seq<Active>, lo: nat, hi: nat, now: nat)
    requires ClockOk(slots, now)
    ensures ClockOk(AdmitRange(slots, lo, hi, now), now)
    decreases hi
  {
    if hi > lo {
      AdmitRangeKeepsClock(slots, lo, hi - 1, now);
      AdmitOccupies(AdmitRange(slots, lo, hi - 1, now), hi - 1, now);
    }
  }

  // ---------------------------------------------------------------------
  // Movement

  /** Advance one slot to time `now`. A free slot or one whose window is open
      stays as it is; any other takes the column its elapsed time gives and
      opens its window, stamped `now`, on reaching column 0. */
  function MoveSlot(s: Active, now: nat): (r: Active)
    ensures !s.used || s.inWindow ==> r == s
    ensures s.used && !s.inWindow ==>
              && r.col == ColumnAt(now - s.spawnedAt)
              && r.prevCol == r.col
              && (r.inWindow <==> now >= s.spawnedAt + BASE_TRAVEL_TIME_MS)
              && (r.inWindow ==> r.windowStart == now)
              && (!r.inWindow ==> r.windowStart == s.windowStart)
              && r.(col := s.col, prevCol := s.prevCol, inWindow := false, windowStart := s.windowStart) == s
  {
    if !s.used || s.inWindow then s
    else
      var c := ColumnAt(now - s.spawnedAt);
      var moved := s.(col := c, prevCol := c);
      if c == 0 then moved.(inWindow := true, windowStart := now) else moved
  }

  function MoveAll(slots: seq<Active>, now: nat): (r: seq<Active>)
    ensures |r| == |slots|
    ensures forall i :: 0 <= i < |slots| ==> r[i] == MoveSlot(slots[i], now)
  {
    seq(|slots|, i requires 0 <= i < |slots| => MoveSlot(slots[i], now))
  }

  /** Moving every slot keeps the pool invariant. */
  lemma MoveKeepsPool(slots: seq<Active>, next: nat, scored: set<nat>, now: nat)
    requires PoolOk(slots, next, scored)
    ensures PoolOk(MoveAll(slots, now), next, scored)
    ensures ClockOk(slots, now) ==> ClockOk(MoveAll(slots, now), now)
  {
    var r := MoveAll(slots, now);
    forall i | 0 <= i < |r|
      ensures SlotOk(r[i], next)
    {
      assert SlotOk(slots[i], next);
    }
  }

  // ---------------------------------------------------------------------
  // Hit windows

  /** The slot is hit: open, unresolved, at most 180 ms into its window, and
      its lane's button is down. */
  predicate Scores(s: Active, now: nat, b: Buttons)
    ensures Scores(s, now, b) ==> Pressed(b, s.row) && !Lapsed(s, now)
  {
    s.used && s.inWindow && !s.resolved && now - s.windowStart <= HIT_WINDOW_MS && Pressed(b, s.row)
  }

  /** The slot's window has passed: more than 180 ms since it opened. */
  predicate Lapsed(s: Active, now: nat)
    ensures Lapsed(s, now) ==> s.windowStart + HIT_WINDOW_MS < now
  {
    s.used && s.inWindow && now - s.windowStart > HIT_WINDOW_MS
  }

  /** A lapsed window stays lapsed at every later time. */
  lemma LapseIsFinal(s: Active, now: nat, later: nat)
    requires Lapsed(s, now) && now <= later
    ensures Lapsed(s, later)
  {
  }

  /** Check one slot's window at time `now`: a hit resolves it, a lapsed
      window frees it, hit or not; nothing else changes. */
  function CheckSlot(s: Active, now: nat, b: Buttons): (r: Active)
    ensures !s.used || !s.inWindow ==> r == s
    ensures r.resolved <==> s.resolved || Scores(s, now, b)
    ensures r.used <==> s.used && !Lapsed(s, now)
    ensures r == s.(used := r.used, resolved := r.resolved)
  {
    if !s.used || !s.inWindow then s
    else
      var hit := !s.resolved && now - s.windowStart <= HIT_WINDOW_MS && Pressed(b, s.row);
      var checked := if hit then s.(resolved := true) else s;
      if now - s.windowStart > HIT_WINDOW_MS then checked.(used := false) else checked
  }

  /** No slot is both scored and freed by the same check. */
  lemma NeverScoredAndFreed(s: Active, now: nat, b: Buttons)
    ensures !(Scores(s, now, b) && Lapsed(s, now))
    ensures Scores(s, now, b) ==> CheckSlot(s, now, b).used
  {
  }

  /** Once a slot is resolved no later tick, at any time and with any button,
      scores it again while it stays in the pool. */
  lemma ResolvedScoresOnce(s: Active, now: nat, b: Buttons, later: nat, b2: Buttons)
    requires Scores(s, now, b)
    ensures CheckSlot(s, now, b).resolved
    ensures !Scores(CheckSlot(s, now, b), later, b2)
    ensures !Scores(MoveSlot(CheckSlot(s, now, b), later), later, b2)
  {
  }

  /** A window that lapses unresolved sounds the miss cue and frees its slot,
      so no later check, at any time and with any button, sounds it again. */
  lemma MissSoundsOnce(s: Active, now: nat, b: Buttons, later: nat, b2: Buttons, melody: seq<nat>)
    requires Lapsed(s, now) && !s.resolved && s.noteIdx < |melody|
    ensures SlotCues(s, now, b, melody) == [MissCue]
    ensures !CheckSlot(s, now, b).used
    ensures SlotCues(CheckSlot(s, now, b), later, b2, melody) == []
    ensures SlotCues(MoveSlot(CheckSlot(s, now, b), later), later, b2, melody) == []
  {
  }

  /** The feedback one slot gives: the note's pitch on a hit, the miss cue
      when its window lapses unresolved, otherwise nothing. */
  function SlotCues(s: Active, now: nat, b: Buttons, melody: seq<nat>): (c: seq<Cue>)
    requires s.used ==> s.noteIdx < |melody|
    ensures Scores(s, now, b) ==> c == [HitTone(melody[s.noteIdx])]
    ensures Lapsed(s, now) && !s.resolved ==> c == [MissCue]
    ensures !Scores(s, now, b) && !(Lapsed(s, now) && !s.resolved) ==> c == []
  {
    if Scores(s, now, b) then [HitTone(melody[s.noteIdx])]
    else if Lapsed(s, now) && !s.resolved then [MissCue]
    else []
  }

  function CheckAll(slots: seq<Active>, now: nat, b: Buttons): (r: seq<Active>)
    ensures |r| == |slots|
    ensures forall i :: 0 <= i < |slots| ==> r[i] == CheckSlot(slots[i], now, b)
  {
    seq(|slots|, i requires 0 <= i < |slots| => CheckSlot(slots[i], now, b))
  }

  /** Number of slots the check scores. */
  function HitCount(slots: seq<Active>, now: nat, b: Buttons): (n: nat)
    ensures n <= |slots|
  {
    if |slots| == 0 then 0
    else HitCount(slots[..|slots| - 1], now, b) + (if Scores(slots[|slots| - 1], now, b) then 1 else 0)
  }

  /** The notes the check scores. */
  function HitNotes(slots: seq<Active>, now: nat, b: Buttons): (r: set<nat>)
    ensures |r| <= |slots|
  {
    if |slots| == 0 then {}
    else HitNotes(slots[..|slots| - 1], now, b)
         + (if Scores(slots[|slots| - 1], now, b) then {slots[|slots| - 1].noteIdx} else {})
  }

  /** With no note in two slots, an occupied slot's note is among the notes
      the check scores in the first `n` slots exactly when it is one of them
      and it is hit. */
  lemma {:induction false} HitNotesExact(slots: seq<Active>, n: nat, k: nat, now: nat, b: Buttons)
    requires DistinctNotes(slots)
    requires n <= |slots| && k < |slots| && slots[k].used
    ensures slots[k].noteIdx in HitNotes(slots[..n], now, b) <==> k < n && Scores(slots[k], now, b)
  {
    if n > 0 {
      HitNotesExact(slots, n - 1, k, now, b);
      assert slots[..n][..n - 1] == slots[..n - 1];
    }
  }

  /** When every occupied slot holds a note below `next`, so does every note
      a check scores. */
  lemma {:induction false} HitNotesBelow(slots: seq<Active>, next: nat, now: nat, b: Buttons)
    requires forall i :: 0 <= i < |slots| && slots[i].used ==> slots[i].noteIdx < next
    ensures forall x :: x in HitNotes(slots, now, b) ==> x < next
  {
    if |slots| > 0 {
      HitNotesBelow(slots[..|slots| - 1], next, now, b);
    }
  }

  /** A hit slot is unresolved, so no note the check scores was scored before. */
  lemma {:induction false} HitNotesUnscored(slots: seq<Active>, scored: set<nat>, now: nat, b: Buttons)
    requires forall i :: 0 <= i < |slots| && slots[i].used ==> (slots[i].resolved <==> slots[i].noteIdx in scored)
    ensures scored * HitNotes(slots, now, b) == {}
  {
    if |slots| > 0 {
      HitNotesUnscored(slots[..|slots| - 1], scored, now, b);
    }
  }

  /** With no note in two slots, the check scores as many notes as it
      counts hits. */
  lemma {:induction false} HitNotesCounted(slots: seq<Active>, now: nat, b: Buttons)
    requires DistinctNotes(slots)
    ensures |HitNotes(slots, now, b)| == HitCount(slots, now, b)
  {
    if |slots| > 0 {
      var last := |slots| - 1;
      var init := slots[..last];
      assert DistinctNotes(init);
      HitNotesCounted(init, now, b);
      if Scores(slots[last], now, b) {
        HitNotesExact(slots, last, last, now, b);
        assert init == slots[..last];
      }
    }
  }

  /** Checking every slot keeps the pool invariant once the notes it scores
      join the scored set; that set grows by exactly the number of hits,
      since a hit note was not scored before. */
  lemma CheckKeepsPool(slots: seq<Active>, next: nat, scored: set<nat>, now: nat, b: Buttons)
    requires PoolOk(slots, next, scored)
    requires forall x :: x in scored ==> x < next
    ensures PoolOk(CheckAll(slots, now, b), next, scored + HitNotes(slots, now, b))
    ensures forall x :: x in scored + HitNotes(slots, now, b) ==> x < next
    ensures |scored + HitNotes(slots, now, b)| == |scored| + HitCount(slots, now, b)
    ensures ClockOk(slots, now) ==> ClockOk(CheckAll(slots, now, b), now)
  {
    var r := CheckAll(slots, now, b);
    var hits := HitNotes(slots, now, b);
    forall i | 0 <= i < |r|
      ensures SlotOk(r[i], next)
    {
      assert SlotOk(slots[i], next);
    }
    forall i | 0 <= i < |r| && r[i].used
      ensures r[i].resolved <==> r[i].noteIdx in scored + hits
    {
      HitNotesExact(slots, |slots|, i, now, b);
      assert slots[..|slots|] == slots;
    }
    OccupiedBelow(slots, next, scored);
    HitNotesBelow(slots, next, now, b);
    HitNotesCounted(slots, now, b);
    HitNotesUnscored(slots, scored, now, b);
  }

  /** The cues of all slots, in slot order. */
  function CuesOf(slots: seq<Active>, now: nat, b: Buttons, melody: seq<nat>): (c: seq<Cue>)
    requires forall i :: 0 <= i < |slots| && slots[i].used ==> slots[i].noteIdx < |melody|
    ensures |c| <= |slots|
  {
    if |slots| == 0 then []
    else CuesOf(slots[..|slots| - 1], now, b, melody) + SlotCues(slots[|slots| - 1], now, b, melody)
  }

  /** A check scores exactly the slots that are hit: the count of hits is the
      number of hit cues, and a second check at the same instant with the
      same buttons scores nothing. */
  lemma {:induction false} HitsAreCounted(slots: seq<Active>, now: nat, b: Buttons, melody: seq<nat>)
    requires forall i :: 0 <= i < |slots| && slots[i].used ==> slots[i].noteIdx < |melody|
    ensures HitCount(slots, now, b) == |HitTones(CuesOf(slots, now, b, melody))|
    ensures HitCount(CheckAll(slots, now, b), now, b) == 0
  {
    if |slots| > 0 {
      var init := slots[..|slots| - 1];
      HitsAreCounted(init, now, b, melody);
      HitTonesAppend(CuesOf(init, now, b, melody), SlotCues(slots[|slots| - 1], now, b, melody));
      assert CheckAll(slots, now, b)[..|slots| - 1] == CheckAll(init, now, b);
    }
  }

  /** How long the timed tone of a cue lasts. */
  function CueMs(c: Cue): (r: nat)
    ensures 0 < r <= CORRECT_MS
    ensures c.MissCue? <==> r < CORRECT_MS
  {
    match c
    case HitTone(_) => CORRECT_MS
    case MissCue => MISS_TONE_MS
  }

  /** The tone timer `t` after one slot's check: a hit arms it for the note's
      tone and an unresolved lapse for the miss tone, from `clock`, the clock
      read when that sound starts; otherwise it is left as it was. */
  function SlotTone(s: Active, now: nat, b: Buttons, clock: nat, t: nat): (r: nat)
    ensures r != t ==> Scores(s, now, b) || (Lapsed(s, now) && !s.resolved)
    ensures !s.used || !s.inWindow ==> r == t
    ensures Scores(s, now, b) || (Lapsed(s, now) && !s.resolved) ==> clock < r
  {
    if Scores(s, now, b) then clock + CORRECT_MS
    else if Lapsed(s, now) && !s.resolved then clock + MISS_TONE_MS
    else t
  }

  /** The tone timer `t` after every slot is checked in order, `clocks[k]`
      being the clock read when slot `k`'s sound starts. */
  function ToneAfterAll(slots: seq<Active>, now: nat, b: Buttons, clocks: seq<nat>, t: nat): nat
    requires |slots| <= |clocks|
  {
    if |slots| == 0 then t
    else SlotTone(slots[|slots| - 1], now, b, clocks[|slots| - 1], ToneAfterAll(slots[..|slots| - 1], now, b, clocks, t))
  }

  /** The last slot's check re-arms the timer for its own cue when it sounds one
      and otherwise passes on the timer the earlier slots left. */
  lemma ToneLastSlot(slots: seq<Active>, now: nat, b: Buttons, clocks: seq<nat>, t: nat, melody: seq<nat>)
    requires 0 < |slots| <= |clocks|
    requires slots[|slots| - 1].used ==> slots[|slots| - 1].noteIdx < |melody|
    ensures var last := |slots| - 1;
            var c := SlotCues(slots[last], now, b, melody);
            ToneAfterAll(slots, now, b, clocks, t) ==
              if c == [] then ToneAfterAll(slots[..last], now, b, clocks, t) else clocks[last] + CueMs(c[0])
  {
  }

  /** A check that sounds nothing leaves the tone timer alone. */
  lemma {:induction false} ToneSilent(slots: seq<Active>, now: nat, b: Buttons, clocks: seq<nat>, t: nat, melody: seq<nat>)
    requires |slots| <= |clocks|
    requires forall i :: 0 <= i < |slots| && slots[i].used ==> slots[i].noteIdx < |melody|
    requires CuesOf(slots, now, b, melody) == []
    ensures ToneAfterAll(slots, now, b, clocks, t) == t
  {
    if |slots| > 0 {
      var last := |slots| - 1;
      ToneLastSlot(slots, now, b, clocks, t, melody);
      ToneSilent(slots[..last], now, b, clocks, t, melody);
    }
  }

  /** When slot `k` is the last slot to sound, the timer ends that slot's tone,
      counted from its clock reading. */
  lemma {:induction false} ToneLastCueAt(slots: seq<Active>, now: nat, b: Buttons, clocks: seq<nat>, t: nat, melody: seq<nat>, k: nat)
    requires |slots| <= |clocks|
    requires forall i :: 0 <= i < |slots| && slots[i].used ==> slots[i].noteIdx < |melody|
    requires k < |slots| && SlotCues(slots[k], now, b, melody) != []
    requires forall j :: k < j < |slots| ==> SlotCues(slots[j], now, b, melody) == []
    ensures ToneAfterAll(slots, now, b, clocks, t) == clocks[k] + CueMs(SlotCues(slots[k], now, b, melody)[0])
  {
    var last := |slots| - 1;
    ToneLastSlot(slots, now, b, clocks, t, melody);
    if k < last {
      var init := slots[..last];
      assert SlotCues(slots[last], now, b, melody) == [];
      assert forall j :: k <= j < last ==> init[j] == slots[j];
      ToneLastCueAt(init, now, b, clocks, t, melody, k);
    }
  }

  /** A check that sounds nothing leaves the tone timer alone; otherwise the
      timer ends the tone of the last slot that sounded, counted from that
      slot's clock reading. */
  lemma ToneFollowsLastCue(slots: seq<Active>, now: nat, b: Buttons, clocks: seq<nat>, t: nat, melody: seq<nat>)
    requires |slots| <= |clocks|
    requires forall i :: 0 <= i < |slots| && slots[i].used ==> slots[i].noteIdx < |melody|
    ensures CuesOf(slots, now, b, melody) == [] ==> ToneAfterAll(slots, now, b, clocks, t) == t
    ensures forall k :: 0 <= k < |slots| && SlotCues(slots[k], now, b, melody) != [] &&
                        (forall j :: k < j < |slots| ==> SlotCues(slots[j], now, b, melody) == []) ==>
              ToneAfterAll(slots, now, b, clocks, t) == clocks[k] + CueMs(SlotCues(slots[k], now, b, melody)[0])
  {
    if CuesOf(slots, now, b, melody) == [] {
      ToneSilent(slots, now, b, clocks, t, melody);
    }
    forall k | 0 <= k < |slots| && SlotCues(slots[k], now, b, melody) != [] &&
               (forall j :: k < j < |slots| ==> SlotCues(slots[j], now, b, melody) == [])
      ensures ToneAfterAll(slots, now, b, clocks, t) == clocks[k] + CueMs(SlotCues(slots[k], now, b, melody)[0])
    {
      ToneLastCueAt(slots, now, b, clocks, t, melody, k);
    }
  }

  /** When clock readings are taken no earlier than `now`, a check that sounds
      anything leaves the timer armed past `now`: a poll at `now` does not cut
      the new tone short. */
  lemma {:induction false} ToneOutlivesPass(slots: seq<Active>, now: nat, b: Buttons, clocks: seq<nat>, t: nat, melody: seq<nat>)
    requires |slots| <= |clocks|
    requires forall i :: 0 <= i < |slots| && slots[i].used ==> slots[i].noteIdx < |melody|
    requires forall k :: 0 <= k < |slots| ==> now <= clocks[k]
    requires CuesOf(slots, now, b, melody) != []
    ensures now < ToneAfterAll(slots, now, b, clocks, t)
  {
    var last := |slots| - 1;
    if SlotCues(slots[last], now, b, melody) == [] {
      ToneOutlivesPass(slots[..last], now, b, clocks, t, melody);
    }
  }

  /** The hit cues of a cue list. */
  function HitTones(cues: seq<Cue>): (h: seq<Cue>)
    ensures |h| <= |cues|
  {
    if |cues| == 0 then []
    else HitTones(cues[..|cues| - 1]) + (if cues[|cues| - 1].HitTone? then [cues[|cues| - 1]] else [])
  }

  lemma {:induction false} HitTonesAppend(a: seq<Cue>, c: seq<Cue>)
    ensures HitTones(a + c) == HitTones(a) + HitTones(c)
    decreases |c|
  {
    if |c| > 0 {
      assert (a + c)[..|a + c| - 1] == a + c[..|c| - 1];
      HitTonesAppend(a, c[..|c| - 1]);
    } else {
      assert a + c == a;
    }
  }

  /** Any set of note indices below `n` has at most `n` members. */
  lemma {:induction false} BoundedSetSize(s: set<nat>, n: nat)
    requires forall x :: x in s ==> x < n
    ensures |s| <= n
  {
    if n > 0 {
      BoundedSetSize(s - {n - 1}, n - 1);
    } else {
      assert s == {};
    }
  }
}
