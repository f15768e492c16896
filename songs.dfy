/** The song recommender: scores every row of the song catalog against the
    query song, writes the scores into the catalog as its similarity column,
    re-orders the catalog in place by (similarity, popularity, release year)
    descending and returns ranked positions 2 to 6 with a listen link each. */
module Songs {
  import opened Wrappers
  import opened Ordering
  import opened Engine
  import opened Ranking
  import Genres
  import Links

  /** The audio-feature columns after duration and popularity. */
  datatype Audio = Audio(danceability: real, energy: real, key: real, loudness: real,
                         mode: real, speechiness: real, acousticness: real,
                         instrumentalness: real, liveness: real, valence: real, tempo: real)

  /** A row of the song catalog. */
  datatype Song = Song(id: string, name: string, artists: string, releaseYear: int,
                       genres: string, durationS: real, popularity: int, audio: Audio)

  /** The numeric vector of a song: release year, duration, popularity and
      the eleven audio features, in this order. */
  function Features(s: Song): seq<real>
  {
    [s.releaseYear as real, s.durationS, s.popularity as real,
     s.audio.danceability, s.audio.energy, s.audio.key, s.audio.loudness, s.audio.mode,
     s.audio.speechiness, s.audio.acousticness, s.audio.instrumentalness,
     s.audio.liveness, s.audio.valence, s.audio.tempo]
  }

  /** A row of the result: name, artists, release year and the listen link
      (the id column is dropped). */
  datatype SongRec = SongRec(name: string, artists: string, releaseYear: int, link: string)

  /** The recommender returns the result rows, or a message instead of raising. */
  datatype SongAnswer = SongsFound(songs: seq<SongRec>) | SongNotFound(message: string)

  /** What one query returns and the catalog it leaves behind. */
  datatype SongStep = SongStep(answer: SongAnswer, table: Table<Song>)

  function NotFoundMessage(name: string): string
  {
    name + " not found in songs library."
  }

  /** What scoring reads of a song: its name, genres and numeric vector. */
  function AsProfile(s: Song): Profile
  {
    Profile(s.name, s.genres, Features(s))
  }

  function GenreColumn(rows: seq<Song>): seq<string>
  {
    MapSeq((s: Song) => s.genres, rows)
  }

  /** The ranking key of a scored row: similarity, popularity, release year. */
  function RankKey(e: (Song, real)): seq<real>
  {
    [e.1, e.0.popularity as real, e.0.releaseYear as real]
  }

  /** A result row: the id column is replaced by its listen link. */
  function ResultRow(e: (Song, real)): SongRec
  {
    SongRec(e.0.name, e.0.artists, e.0.releaseYear, Links.SongLink(e.0.id))
  }

  /** One call of the song recommender on catalog `t`. */
  function Query(scorer: Scorer, t: Table<Song>, name: string): (r: SongStep)
    ensures r.answer.SongNotFound? ==> r.answer.message == name + " not found in songs library." && r.table == t
    ensures r.answer.SongNotFound? ==> t.rows != []
  {
    match Rank(scorer, t.rows, AsProfile, RankKey, name)
    case None => SongStep(SongNotFound(NotFoundMessage(name)), t)
    case Some(ranked) =>
      SongStep(SongsFound(MapSeq(ResultRow, Slice(ranked, 2, 7))),
               Table(MapSeq(First, ranked), MapSeq(Second, ranked)))
  }

  /** The song catalog as the recommender keeps it between queries. */
  class SongCatalog {
    const scorer: Scorer
    var rows: seq<Song>
    var similarity: seq<real>

    function State(): Table<Song>
      reads this
    {
      Table(rows, similarity)
    }

    /** Loads the catalog and fits the genre vocabulary on its genre column,
        once; the vocabulary stays frozen afterwards. */
    constructor (catalog: seq<Song>, sqrt: SqrtFn)
      ensures scorer == Scorer(Genres.BuildVocabulary(GenreColumn(catalog)), sqrt)
      ensures rows == catalog && similarity == []
    {
      scorer := Scorer(Genres.BuildVocabulary(GenreColumn(catalog)), sqrt);
      rows := catalog;
      similarity := [];
    }

    /** `song_recommender`. */
    method Recommend(name: string) returns (answer: SongAnswer)
      modifies this
      ensures SongStep(answer, State()) == Query(scorer, old(State()), name)
    {
      var sims := ScoreAll(scorer, MapSeq(AsProfile, rows), name);
      if sims.None? {
        return SongNotFound(NotFoundMessage(name));
      }
      similarity := sims.value;
      var ranked := SortDesc(Zip(rows, similarity), RankKey);
      rows, similarity := MapSeq(First, ranked), MapSeq(Second, ranked);
      answer := SongsFound(MapSeq(ResultRow, Slice(ranked, 2, 7)));
    }
  }

  /** A query fails exactly when the catalog has rows and none carries the
      name (case-sensitive). */
  lemma QueryNotFound(scorer: Scorer, t: Table<Song>, name: string)
    ensures Query(scorer, t, name).answer.SongNotFound?
        <==> t.rows != [] && forall i :: 0 <= i < |t.rows| ==> t.rows[i].name != name
  {
    assert forall i :: 0 <= i < |t.rows| ==> AsProfile(t.rows[i]).name == t.rows[i].name;
  }

  /** After a successful query the catalog holds the same rows, each with its
      score, ordered so that (similarity, popularity, release year) never
      increases from one row to a later one. */
  lemma QueryRanksCatalog(scorer: Scorer, t: Table<Song>, name: string)
    requires Query(scorer, t, name).answer.SongsFound?
    ensures Scores(scorer, MapSeq(AsProfile, t.rows), name).Some?
    ensures var t' := Query(scorer, t, name).table;
      && |t'.similarity| == |t'.rows|
      && multiset(t'.rows) == multiset(t.rows)
      && multiset(Zip(t'.rows, t'.similarity)) == multiset(Scored(scorer, t.rows, AsProfile, name))
      && SortedDesc(Zip(t'.rows, t'.similarity), RankKey)
  {
    RankReorders(scorer, t.rows, AsProfile, RankKey, name);
    ZipUnzip(Rank(scorer, t.rows, AsProfile, RankKey, name).value);
  }

  /** The answer is ranked positions 2 to 6: at most five rows, never the two
      top-ranked ones, each carrying its track link. */
  lemma QueryAnswerWindow(scorer: Scorer, t: Table<Song>, name: string)
    requires Query(scorer, t, name).answer.SongsFound?
    ensures var t' := Query(scorer, t, name).table;
            var songs := Query(scorer, t, name).answer.songs;
      && |songs| == WindowSize(|t.rows|)
      && |t'.rows| == |t.rows| == |t'.similarity|
      && forall k :: 0 <= k < |songs| ==>
           songs[k] == SongRec(t'.rows[k + 2].name, t'.rows[k + 2].artists,
                               t'.rows[k + 2].releaseYear, Links.SongLink(t'.rows[k + 2].id))
  {
    RankReorders(scorer, t.rows, AsProfile, RankKey, name);
    var ranked := Rank(scorer, t.rows, AsProfile, RankKey, name).value;
    var w := Slice(ranked, 2, 7);
    assert Query(scorer, t, name)
        == SongStep(SongsFound(MapSeq(ResultRow, w)), Table(MapSeq(First, ranked), MapSeq(Second, ranked)));
    var t' := Query(scorer, t, name).table;
    assert |MapSeq(ResultRow, w)| == WindowSize(|t.rows|);
    forall k | 0 <= k < |w| ensures ResultRow(w[k]) == SongRec(t'.rows[k + 2].name, t'.rows[k + 2].artists,
                               t'.rows[k + 2].releaseYear, Links.SongLink(t'.rows[k + 2].id)) {
      assert w[k] == ranked[k + 2];
    }
  }

  /** Rows that share a name end up with the same similarity, since both of
      their vectors come from the first row carrying that name. */
  lemma QuerySameNameSameScore(scorer: Scorer, t: Table<Song>, name: string)
    requires Query(scorer, t, name).answer.SongsFound?
    ensures var t' := Query(scorer, t, name).table;
      |t'.similarity| == |t'.rows| &&
      forall i, j :: 0 <= i < |t'.rows| && 0 <= j < |t'.rows| && t'.rows[i].name == t'.rows[j].name
        ==> t'.similarity[i] == t'.similarity[j]
  {
    RankSameNameSameScore(scorer, t.rows, AsProfile, RankKey, name);
    var ranked := Rank(scorer, t.rows, AsProfile, RankKey, name).value;
    var t' := Query(scorer, t, name).table;
    forall i, j | 0 <= i < |t'.rows| && 0 <= j < |t'.rows| && t'.rows[i].name == t'.rows[j].name
      ensures t'.similarity[i] == t'.similarity[j]
    {
      assert AsProfile(ranked[i].0).name == AsProfile(ranked[j].0).name;
    }
  }

  /** Asking again for the same song, when song names identify rows, gives
      the same answer and leaves the catalog as the first query left it. */
  lemma QueryIdempotent(scorer: Scorer, t: Table<Song>, name: string)
    requires NamesAreKeys(t.rows, AsProfile)
    ensures Query(scorer, Query(scorer, t, name).table, name) == Query(scorer, t, name)
  {
    if Rank(scorer, t.rows, AsProfile, RankKey, name).Some? {
      RankIdempotent(scorer, t.rows, AsProfile, RankKey, name);
    }
  }

  /** Any query, successful or not, keeps the catalog's rows and their
      count: only the order and the similarity column change. */
  lemma QueryKeepsRows(scorer: Scorer, t: Table<Song>, name: string)
    ensures multiset(Query(scorer, t, name).table.rows) == multiset(t.rows)
    ensures |Query(scorer, t, name).table.rows| == |t.rows|
  {
    if Rank(scorer, t.rows, AsProfile, RankKey, name).Some? {
      RankReorders(scorer, t.rows, AsProfile, RankKey, name);
    }
  }

  /** A song whose columns lie in their real ranges: a release year of at
      least 100, loudness within [-60, 60] decibels, every other numeric
      column non-negative. */
  predicate InRange(s: Song)
  {
    && s.releaseYear >= 100 && s.durationS >= 0.0 && s.popularity >= 0
    && -60.0 <= s.audio.loudness <= 60.0
    && s.audio.danceability >= 0.0 && s.audio.energy >= 0.0 && s.audio.key >= 0.0
    && s.audio.mode >= 0.0 && s.audio.speechiness >= 0.0 && s.audio.acousticness >= 0.0
    && s.audio.instrumentalness >= 0.0 && s.audio.liveness >= 0.0 && s.audio.valence >= 0.0
    && s.audio.tempo >= 0.0
  }

  lemma LoudnessProduct(x: real, y: real)
    requires -60.0 <= x <= 60.0 && -60.0 <= y <= 60.0
    ensures -3600.0 <= x * y
  {
    if x < 0.0 && y >= 0.0 {
      assert x * y >= -60.0 * y;
    } else if x >= 0.0 && y < 0.0 {
      assert x * y >= x * -60.0;
    } else {
      assert 0.0 <= x * y;
    }
  }

  lemma YearProduct(x: real, y: real)
    requires 100.0 <= x && 100.0 <= y
    ensures 10000.0 <= x * y
  {
    assert x * y >= 100.0 * y;
  }

  /** In range, every numeric column after the release year except loudness
      is non-negative. */
  lemma TailNonNegative(s: Song)
    requires InRange(s)
    ensures var t := Features(s)[1..];
      |t| == 13 && forall i :: 0 <= i < 13 && i != 5 ==> 0.0 <= t[i]
  {
    var t := Features(s)[1..];
    assert t == [s.durationS, s.popularity as real, s.audio.danceability, s.audio.energy, s.audio.key,
                 s.audio.loudness, s.audio.mode, s.audio.speechiness, s.audio.acousticness,
                 s.audio.instrumentalness, s.audio.liveness, s.audio.valence, s.audio.tempo];
  }

  lemma NonNegativeProduct(x: real, y: real)
    requires 0.0 <= x && 0.0 <= y
    ensures 0.0 <= x * y
  {
  }

  /** In range, every term of the numeric dot product after the release
      year except the loudness term is non-negative. */
  lemma TailProducts(a: Song, b: Song)
    requires InRange(a) && InRange(b)
    ensures var u, v := Features(a)[1..], Features(b)[1..];
      |u| == |v| == 13 && forall i :: 0 <= i < 13 && i != 5 ==> 0.0 <= u[i] * v[i]
  {
    var u, v := Features(a)[1..], Features(b)[1..];
    TailNonNegative(a);
    TailNonNegative(b);
    forall i | 0 <= i < 13 && i != 5 ensures 0.0 <= u[i] * v[i] {
      NonNegativeProduct(u[i], v[i]);
    }
  }

  /** The numeric vectors of two songs in range have a positive dot
      product: the release-year term alone outweighs any loudness term. */
  lemma NumericDotPositive(a: Song, b: Song)
    requires InRange(a) && InRange(b)
    ensures 0.0 < Dot(Features(a), Features(b))
  {
    var u, v := Features(a), Features(b);
    var u', v' := u[1..], v[1..];
    TailProducts(a, b);
    assert u'[5] == a.audio.loudness && v'[5] == b.audio.loudness;
    LoudnessProduct(u'[5], v'[5]);
    DotAtLeast(u', v', 5, -3600.0);
    assert u[0] == a.releaseYear as real && v[0] == b.releaseYear as real;
    YearProduct(u[0], v[0]);
    var head, rest := u[0] * v[0], Dot(u', v');
    assert Dot(u, v) == head + rest;
    assert 10000.0 <= head && -3600.0 <= rest;
  }

  /** Two songs in range have a positive numeric cosine, so their blended
      similarity is never negative. */
  lemma SimilarityInRange(scorer: Scorer, a: Song, b: Song)
    requires InRange(a) && InRange(b)
    ensures 0.0 < Cosine(scorer.sqrt, Features(a), Features(b))
    ensures 0.0 <= Similarity(scorer, AsProfile(a), AsProfile(b))
  {
    NumericDotPositive(a, b);
    NumericDotPositive(a, a);
    NumericDotPositive(b, b);
  }
}
