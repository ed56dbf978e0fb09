/** The one-shot tone timer: the time at which the sounding tone must be
    stopped, or 0 when no tone is timed. */
module Tone {
  /** The timer after a poll at `now`: once the end time has come the tone is
      stopped and the timer disarmed; an unarmed timer stays unarmed. */
  function Polled(endTime: nat, now: nat): (r: nat)
    ensures r == 0 || now < r
    ensures r == 0 || r == endTime
    ensures now < endTime ==> r == endTime
  {
    if endTime > 0 && now >= endTime then 0 else endTime
  }

  /** A second poll at the same instant changes nothing. */
  lemma PollIdempotent(endTime: nat, now: nat)
    ensures Polled(Polled(endTime, now), now) == Polled(endTime, now)
  {
  }

  /** Polling at `t1` and then at a later `t2` leaves the timer as one poll at
      `t2` would: skipped polls lose nothing. */
  lemma PollsCompose(endTime: nat, t1: nat, t2: nat)
    requires t1 <= t2
    ensures Polled(Polled(endTime, t1), t2) == Polled(endTime, t2)
  {
  }

  /** A tone started at `start` for `dur` > 0 ms is stopped by a poll exactly
      when the poll comes at or after `start + dur`. */
  lemma StartedToneLasts(start: nat, dur: nat, now: nat)
    requires dur > 0
    ensures Polled(start + dur, now) == 0 <==> now >= start + dur
  {
  }
}
