/** The artist recommender: scores every row of the artist catalog against
    the query artist, writes the scores into the catalog as its similarity
    column, re-orders the catalog in place by (similarity, popularity,
    followers) descending, takes ranked positions 2 to 6, re-orders those by
    (popularity, followers) descending and returns them with a link each. */
module Artists {
  import opened Wrappers
  import opened Ordering
  import opened Engine
  import opened Ranking
  import Genres
  import Links

  /** A row of the artist catalog. */
  datatype Artist = Artist(id: string, name: string, genres: string, followers: int, popularity: int)

  /** A row of the result: name, followers, popularity and the view link
      (the id column is dropped). */
  datatype ArtistRec = ArtistRec(name: string, followers: int, popularity: int, link: string)

  /** The recommender returns the result rows, or a message instead of raising. */
  datatype ArtistAnswer = ArtistsFound(artists: seq<ArtistRec>) | ArtistNotFound(message: string)

  /** What one query returns and the catalog it leaves behind. */
  datatype ArtistStep = ArtistStep(answer: ArtistAnswer, table: Table<Artist>)

  /** Unlike the song message, this one has no final period. */
  function NotFoundMessage(name: string): string
  {
    name + " not found in artists library"
  }

  /** The numeric vector of an artist: followers, then popularity. */
  function Features(a: Artist): seq<real>
  {
    [a.followers as real, a.popularity as real]
  }

  /** What scoring reads of an artist: its name, genres and numeric vector. */
  function AsProfile(a: Artist): Profile
  {
    Profile(a.name, a.genres, Features(a))
  }

  function GenreColumn(rows: seq<Artist>): seq<string>
  {
    MapSeq((a: Artist) => a.genres, rows)
  }

  /** The ranking key of a scored row: similarity, popularity, followers. */
  function RankKey(e: (Artist, real)): seq<real>
  {
    [e.1, e.0.popularity as real, e.0.followers as real]
  }

  /** The key the result rows are re-ordered by: popularity, followers. */
  function PopularityKey(a: Artist): seq<real>
  {
    [a.popularity as real, a.followers as real]
  }

  /** The same key read off a result row. */
  function RecKey(r: ArtistRec): seq<real>
  {
    [r.popularity as real, r.followers as real]
  }

  /** A result row: the id column is replaced by its view link. */
  function ResultRow(a: Artist): ArtistRec
  {
    ArtistRec(a.name, a.followers, a.popularity, Links.ArtistLink(a.id))
  }

  /** The rows of the answer before they are turned into result rows:
      ranked positions 2 to 6, re-ordered by (popularity, followers). */
  function Window(ranked: seq<(Artist, real)>): (w: seq<Artist>)
    ensures multiset(w) == multiset(MapSeq(First, Slice(ranked, 2, 7)))
    ensures |w| == |Slice(ranked, 2, 7)|
    ensures SortedDesc(w, PopularityKey)
  {
    var top := MapSeq(First, Slice(ranked, 2, 7));
    SortSorts(top, PopularityKey);
    SortDesc(top, PopularityKey)
  }

  /** One call of the artist recommender on catalog `t`. */
  function Query(scorer: Scorer, t: Table<Artist>, name: string): (r: ArtistStep)
    ensures r.answer.ArtistNotFound? ==> r.answer.message == name + " not found in artists library" && r.table == t
    ensures r.answer.ArtistNotFound? ==> t.rows != []
  {
    match Rank(scorer, t.rows, AsProfile, RankKey, name)
    case None => ArtistStep(ArtistNotFound(NotFoundMessage(name)), t)
    case Some(ranked) =>
      ArtistStep(ArtistsFound(MapSeq(ResultRow, Window(ranked))),
                 Table(MapSeq(First, ranked), MapSeq(Second, ranked)))
  }

  /** The artist catalog as the recommender keeps it between queries. */
  class ArtistCatalog {
    const scorer: Scorer
    var rows: seq<Artist>
    var similarity: seq<real>

    function State(): Table<Artist>
      reads this
    {
      Table(rows, similarity)
    }

    /** Loads the catalog and fits the genre vocabulary on its genre column,
        once; the vocabulary stays frozen afterwards. */
    constructor (catalog: seq<Artist>, sqrt: SqrtFn)
      ensures scorer == Scorer(Genres.BuildVocabulary(GenreColumn(catalog)), sqrt)
      ensures rows == catalog && similarity == []
    {
      scorer := Scorer(Genres.BuildVocabulary(GenreColumn(catalog)), sqrt);
      rows := catalog;
      similarity := [];
    }

    /** `artist_recommender`. */
    method Recommend(name: string) returns (answer: ArtistAnswer)
      modifies this
      ensures ArtistStep(answer, State()) == Query(scorer, old(State()), name)
    {
      var sims := ScoreAll(scorer, MapSeq(AsProfile, rows), name);
      if sims.None? {
        return ArtistNotFound(NotFoundMessage(name));
      }
      similarity := sims.value;
      var ranked := SortDesc(Zip(rows, similarity), RankKey);
      rows, similarity := MapSeq(First, ranked), MapSeq(Second, ranked);
      var window := SortDesc(MapSeq(First, Slice(ranked, 2, 7)), PopularityKey);
      answer := ArtistsFound(MapSeq(ResultRow, window));
    }
  }

  /** A query fails exactly when the catalog has rows and none carries the
      name (case-sensitive). */
  lemma QueryNotFound(scorer: Scorer, t: Table<Artist>, name: string)
    ensures Query(scorer, t, name).answer.ArtistNotFound?
        <==> t.rows != [] && forall i :: 0 <= i < |t.rows| ==> t.rows[i].name != name
  {
    assert forall i :: 0 <= i < |t.rows| ==> AsProfile(t.rows[i]).name == t.rows[i].name;
  }

  /** After a successful query the catalog holds the same rows, each with its
      score, ordered so that (similarity, popularity, followers) never
      increases from one row to a later one. */
  lemma QueryRanksCatalog(scorer: Scorer, t: Table<Artist>, name: string)
    requires Query(scorer, t, name).answer.ArtistsFound?
    ensures Scores(scorer, MapSeq(AsProfile, t.rows), name).Some?
    ensures var t' := Query(scorer, t, name).table;
      && |t'.similarity| == |t'.rows| == |t.rows|
      && multiset(t'.rows) == multiset(t.rows)
      && multiset(Zip(t'.rows, t'.similarity)) == multiset(Scored(scorer, t.rows, AsProfile, name))
      && SortedDesc(Zip(t'.rows, t'.similarity), RankKey)
  {
    RankReorders(scorer, t.rows, AsProfile, RankKey, name);
    ZipUnzip(Rank(scorer, t.rows, AsProfile, RankKey, name).value);
  }

  /** The answer holds exactly the artists at ranked positions 2 to 6 of the
      re-ordered catalog, at most five, each once, now ordered by
      (popularity, followers) descending, each with its view link. */
  lemma QueryAnswerWindow(scorer: Scorer, t: Table<Artist>, name: string)
    requires Query(scorer, t, name).answer.ArtistsFound?
    ensures var t' := Query(scorer, t, name).table;
            var w := Window(Rank(scorer, t.rows, AsProfile, RankKey, name).value);
            var recs := Query(scorer, t, name).answer.artists;
      && |t'.rows| == |t.rows|
      && multiset(w) == multiset(Slice(t'.rows, 2, 7))
      && recs == MapSeq(ResultRow, w)
      && |recs| == WindowSize(|t.rows|)
      && SortedDesc(recs, RecKey)
  {
    RankReorders(scorer, t.rows, AsProfile, RankKey, name);
    var ranked := Rank(scorer, t.rows, AsProfile, RankKey, name).value;
    var top := MapSeq(First, Slice(ranked, 2, 7));
    var w := Window(ranked);
    assert Query(scorer, t, name)
        == ArtistStep(ArtistsFound(MapSeq(ResultRow, w)), Table(MapSeq(First, ranked), MapSeq(Second, ranked)));
    var t' := Query(scorer, t, name).table;
    var top' := Slice(t'.rows, 2, 7);
    assert |top| == |top'|;
    forall k | 0 <= k < |top| ensures top[k] == top'[k] {
    }
    assert top == top';
    assert |w| == WindowSize(|ranked|);
    SortedMap(w, PopularityKey, ResultRow, RecKey);
  }

  /** Rows that share a name end up with the same similarity, since both of
      their vectors come from the first row carrying that name. */
  lemma QuerySameNameSameScore(scorer: Scorer, t: Table<Artist>, name: string)
    requires Query(scorer, t, name).answer.ArtistsFound?
    ensures var t' := Query(scorer, t, name).table;
      |t'.similarity| == |t'.rows| &&
      forall i, j :: 0 <= i < |t'.rows| && 0 <= j < |t'.rows| && t'.rows[i].name == t'.rows[j].name
        ==> t'.similarity[i] == t'.similarity[j]
  {
    RankSameNameSameScore(scorer, t.rows, AsProfile, RankKey, name);
    var ranked := Rank(scorer, t.rows, AsProfile, RankKey, name).value;
    var t' := Query(scorer, t, name).table;
    forall i, j | 0 <= i < |t'.rows| && 0 <= j < |t'.rows| && t'.rows[i].name == t'.rows[j].name
      ensures t'.similarity[i] == t'.similarity[j]
    {
      assert AsProfile(ranked[i].0).name == AsProfile(ranked[j].0).name;
    }
  }

  /** Asking again for the same artist, when artist names identify rows,
      gives the same answer and leaves the catalog as the first query left it. */
  lemma QueryIdempotent(scorer: Scorer, t: Table<Artist>, name: string)
    requires NamesAreKeys(t.rows, AsProfile)
    ensures Query(scorer, Query(scorer, t, name).table, name) == Query(scorer, t, name)
  {
    if Rank(scorer, t.rows, AsProfile, RankKey, name).Some? {
      RankIdempotent(scorer, t.rows, AsProfile, RankKey, name);
    }
  }

  /** Any query, successful or not, keeps the catalog's rows and their
      count: only the order and the similarity column change. */
  lemma QueryKeepsRows(scorer: Scorer, t: Table<Artist>, name: string)
    ensures multiset(Query(scorer, t, name).table.rows) == multiset(t.rows)
    ensures |Query(scorer, t, name).table.rows| == |t.rows|
  {
    if Rank(scorer, t.rows, AsProfile, RankKey, name).Some? {
      RankReorders(scorer, t.rows, AsProfile, RankKey, name);
    }
  }

  /** A successful answer holds one window's worth of rows. */
  lemma QueryAnswerSize(scorer: Scorer, t: Table<Artist>, name: string)
    requires Query(scorer, t, name).answer.ArtistsFound?
    ensures |Query(scorer, t, name).answer.artists| == WindowSize(|t.rows|)
  {
    QueryAnswerWindow(scorer, t, name);
  }

  /** Follower and popularity counts are never negative, so the numeric
      cosine of two artists is never negative, and neither is their blended
      similarity. */
  lemma SimilarityNonNegative(scorer: Scorer, a: Artist, b: Artist)
    requires a.followers >= 0 && a.popularity >= 0 && b.followers >= 0 && b.popularity >= 0
    ensures 0.0 <= Cosine(scorer.sqrt, Features(a), Features(b))
    ensures 0.0 <= Similarity(scorer, AsProfile(a), AsProfile(b))
  {
    CosineOfCountsNonNegative(scorer.sqrt, Features(a), Features(b));
  }
}
