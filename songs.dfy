/** The built-in song table and the song menu's index arithmetic. */
module Songs {
  import opened Timing

  /** Pitches in Hz. */
  const C4: nat := 262
  const D4: nat := 294
  const E4: nat := 330
  const F4: nat := 349
  const G4: nat := 392
  const A4: nat := 440
  const B4: nat := 494
  const C5: nat := 523
  const D5: nat := 587
  const E5: nat := 659
  const F5: nat := 698
  const G5: nat := 784

  /** A song: its title, the pitch of each note and each note's unscaled
      duration in milliseconds (`melody[i]` is played for `beats[i]`). */
  datatype Song = Song(name: string, melody: seq<nat>, beats: seq<nat>)

  const Catalog: seq<Song> := [
    Song("Happy Birthday",
      [G4, G4, A4, G4, C5, B4,
       G4, G4, A4, G4, D5, C5,
       G4, G4, G5, E5, C5, B4, A4,
       F5, F5, E5, C5, D5, C5],
      [400, 400, 800, 800, 800, 1600,
       400, 400, 800, 800, 800, 1600,
       400, 400, 800, 800, 800, 800, 1600,
       400, 400, 800, 800, 800, 1600]),
    Song("Jingle Bell",
      [E4, E4, E4, E4, E4, E4, E4, G4, C4, D4, E4, F4, F4, F4, F4,
       F4, E4, E4, E4, E4, D4, D4, E4, D4, G4, C5, C5, B4, A4, G4],
      [300, 300, 600, 300, 300, 600, 300, 300, 300, 300, 600, 300, 300, 600, 300,
       300, 300, 300, 300, 300, 300, 300, 300, 300, 600, 400, 400, 300, 300, 800]),
    Song("Blue Danube",
      [G4, G4, A4, B4, A4, G4, E4, D4, G4, G4, A4, B4, A4, G4, E4, D4,
       D4, E4, F4, G4, F4, E4, D4, G4, A4, B4, C5, B4, A4],
      [400, 400, 300, 300, 300, 400, 400, 400, 400, 400, 300, 300, 300, 400, 400, 400,
       400, 400, 300, 300, 300, 400, 800, 400, 300, 300, 400, 300, 800]),
    Song("Nocturne Op9",
      [E5, D5, C5, D5, E5, G5, F5, E5, D5, C5, B4, C5, D5, E5, D5, C5,
       B4, A4, B4, C5, D5, C5, B4, A4, B4, C5, B4, A4],
      [500, 300, 300, 300, 500, 400, 400, 400, 300, 300, 300, 300, 500, 400, 300, 300,
       300, 300, 300, 300, 500, 400, 800, 400, 300, 300, 300, 800]),
    Song("Waltz Mirror",
      [C4, E4, G4, E4, C4, G4, C4, D4, F4, A4, F4, D4, A4, D4,
       E4, G4, B4, G4, E4, G4, E4, C5, B4, A4, G4],
      [400, 200, 200, 400, 400, 400, 800, 400, 200, 200, 400, 400, 400, 800,
       400, 200, 200, 400, 400, 400, 800, 400, 300, 300, 800])
  ]

  const NUM_SONGS: nat := 5

  /** A song the engine can play: at least one note, no more notes than the
      schedule arrays hold, and one duration per pitch. */
  predicate Playable(s: Song)
  {
    1 <= |s.beats| <= SCHEDULE_CAP && |s.melody| == |s.beats|
  }

  /** The song at menu index `i`; every built-in song is playable. */
  function SongAt(i: nat): (s: Song)
    requires i < NUM_SONGS
    ensures Playable(s)
  {
    Catalog[i]
  }

  /** The song menu's left button: `(idx - 1 + NUM_SONGS) % NUM_SONGS`. */
  function PrevSong(idx: nat): (r: nat)
    requires idx < NUM_SONGS
    ensures r < NUM_SONGS
    ensures NextSong(r) == idx
  {
    (idx - 1 + NUM_SONGS) % NUM_SONGS
  }

  /** The song menu's right button: `(idx + 1) % NUM_SONGS`. */
  function NextSong(idx: nat): (r: nat)
    requires idx < NUM_SONGS
    ensures r < NUM_SONGS
    ensures r == 0 <==> idx == NUM_SONGS - 1
    ensures idx < NUM_SONGS - 1 ==> r == idx + 1
  {
    (idx + 1) % NUM_SONGS
  }

  /** Left then right, or right then left, returns to the same song. */
  lemma SongMenuRoundTrip(idx: nat)
    requires idx < NUM_SONGS
    ensures PrevSong(NextSong(idx)) == idx
    ensures NextSong(PrevSong(idx)) == idx
  {
  }
}
