/** The song database and the recommendation picker: one list of three
    songs per mood, looked up by the vibe's mood with a fallback to the
    balanced list, and one entry chosen by a uniform random number. */
module Songs {
  import opened Vibes

  datatype Song = Song(title: string, artist: string, reason: string)

  /** The mood whose list is used when the vibe's mood has no entry. */
  const DefaultMood := "balanced"

  const SongDatabase: map<string, seq<Song>> := map[
    "upbeat" := [
      Song("Good 4 U", "Olivia Rodrigo", "High energy matches your vibrant image!"),
      Song("Levitating", "Dua Lipa", "Bright and energetic like your photo!"),
      Song("Blinding Lights", "The Weeknd", "Electric energy for your bright vibe!")
    ],
    "chill" := [
      Song("Skinny Love", "Bon Iver", "Moody and introspective like your image"),
      Song("Mad World", "Gary Jules", "Dark atmosphere matches your photo"),
      Song("Black", "Pearl Jam", "Deep and contemplative vibes")
    ],
    "romantic" := [
      Song("Golden", "Harry Styles", "Warm tones deserve a warm song"),
      Song("Adorn", "Miguel", "Passionate vibes for passionate colors"),
      Song("Best Part", "Daniel Caesar ft. H.E.R.", "Smooth warmth for your image")
    ],
    "relaxed" := [
      Song("Ocean Eyes", "Billie Eilish", "Cool and calming like your blue tones"),
      Song("Holocene", "Bon Iver", "Peaceful energy for peaceful colors"),
      Song("Lost in the Light", "Bahamas", "Serene vibes for your calm image")
    ],
    "balanced" := [
      Song("Circles", "Post Malone", "Well-balanced song for balanced colors"),
      Song("Sunflower", "Post Malone & Swae Lee", "Harmonious vibes"),
      Song("Watermelon Sugar", "Harry Styles", "Perfect balance of energy and chill")
    ]
  ]

  /** The list the picker draws from: the mood's own list when the database
      has one, the balanced list otherwise. */
  function SongsFor(mood: string): (songs: seq<Song>)
    ensures |songs| == 3
    ensures mood in SongDatabase ==> songs == SongDatabase[mood]
    ensures mood !in SongDatabase ==> songs == SongDatabase[DefaultMood]
  {
    if mood in SongDatabase then SongDatabase[mood] else SongDatabase[DefaultMood]
  }

  /** The index floor(r * n) chosen by a random number r in [0, 1). */
  function PickIndex(r: real, n: nat): (k: nat)
    requires 0.0 <= r < 1.0 && n > 0
    ensures k < n
    ensures k as real <= r * n as real < k as real + 1.0
  {
    var x := r * n as real;
    assert 0.0 <= x < n as real by {
      assert n as real - x == (1.0 - r) * n as real;
    }
    x.Floor
  }

  /** The recommendation for a vibe, given the random number the picker draws. */
  function GetSongRecommendation(vibe: Vibe, r: real): (s: Song)
    requires 0.0 <= r < 1.0
    ensures s in SongsFor(vibe.mood)
    ensures forall k :: 0 <= k < 3 ==>
      (s == SongsFor(vibe.mood)[k] <==> k as real <= r * 3.0 < k as real + 1.0)
  {
    var songs := SongsFor(vibe.mood);
    songs[PickIndex(r, |songs|)]
  }

  /** Each of the n entries is chosen exactly for the random numbers in
      [k / n, (k + 1) / n), so every entry is equally likely. */
  lemma PickIndexUniform(r: real, n: nat, k: nat)
    requires 0.0 <= r < 1.0 && n > 0 && k < n
    ensures PickIndex(r, n) == k <==> k as real <= r * n as real < k as real + 1.0
  {
  }

  /** With three songs per list the index is 0, 1 or 2, and every song of the
      list is reached by some random number. */
  lemma EverySongReachable(vibe: Vibe, k: nat)
    requires k < 3
    ensures GetSongRecommendation(vibe, k as real / 3.0) == SongsFor(vibe.mood)[k]
  {
    var r := k as real / 3.0;
    assert r * 3.0 == k as real;
    PickIndexUniform(r, 3, k);
  }

  /** A mood the database does not know is served from the balanced list. */
  lemma UnknownMoodFallsBack(vibe: Vibe, r: real)
    requires 0.0 <= r < 1.0 && vibe.mood !in SongDatabase
    ensures GetSongRecommendation(vibe, r) in SongDatabase[DefaultMood]
  {
  }

  /** The database has a list for exactly the moods the classifier can
      produce, so the fallback is never taken for a classified image. */
  lemma DatabaseKeysAreVibeMoods()
    ensures SongDatabase.Keys == set v | v in AllVibes :: v.mood
  {
    var moods := set v | v in AllVibes :: v.mood;
    assert EnergeticBright.mood in moods;
    assert MoodyDark.mood in moods;
    assert WarmPassionate.mood in moods;
    assert CoolCalm.mood in moods;
    assert BalancedHarmonious.mood in moods;
  }

  /** A classified vibe's song comes from that vibe's own list. */
  lemma ClassifiedMoodHasOwnList(vibe: Vibe, r: real)
    requires vibe in AllVibes && 0.0 <= r < 1.0
    ensures vibe.mood in SongDatabase
    ensures GetSongRecommendation(vibe, r) in SongDatabase[vibe.mood]
  {
    DatabaseKeysAreVibeMoods();
  }
}
