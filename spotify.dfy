/** The complete recommender: songs like the query song, and artists like
    each of the query song's contributing artists, merged and cut to the five
    most popular. Both catalogs are shared with the two recommenders it
    calls, so the orders they leave behind carry over. */
module Spotify {
  import opened Wrappers
  import opened Ordering
  import opened Engine
  import opened Ranking
  import opened Text
  import Songs
  import Artists

  /** The caller tells the failure apart by its shape: a single message
      instead of a pair of results. */
  datatype Recommendation =
    | NotFound(message: string)
    | Found(songs: Songs.SongAnswer, artists: seq<Artists.ArtistRec>)

  /** What one call returns and the two catalogs it leaves behind. */
  datatype Outcome = Outcome(result: Recommendation,
                             songs: Table<Songs.Song>, artists: Table<Artists.Artist>)

  /** The artist queries run so far: their results concatenated, or None once
      one of them answered with a message, and the artist catalog they left. */
  datatype Pass = Pass(merged: Option<seq<Artists.ArtistRec>>, table: Table<Artists.Artist>)

  function Message(name: string): string
  {
    name + " not found in songs library."
  }

  /** The contributing artists of a song's artists field: the pieces between
      commas, each without surrounding whitespace. */
  function ContributingArtists(field: string): (names: seq<string>)
    ensures |names| == |Split(field, ',')|
    ensures forall k :: 0 <= k < |names| ==> names[k] == Strip(Split(field, ',')[k])
    ensures forall k :: 0 <= k < |names| ==> ',' !in names[k]
    ensures forall k :: 0 <= k < |names| && names[k] != [] ==>
              !IsSpace(names[k][0]) && !IsSpace(names[k][|names[k]| - 1])
  {
    MapSeq(Strip, Split(field, ','))
  }

  /** The artists field of the first song in the current order that carries
      the name, or None when no song does. */
  function Lookup(rows: seq<Songs.Song>, name: string): (r: Option<string>)
    ensures r.None? <==> forall i :: 0 <= i < |rows| ==> rows[i].name != name
    ensures r.Some? ==> exists k :: 0 <= k < |rows| && rows[k].name == name && r.value == rows[k].artists
                          && forall j :: 0 <= j < k ==> rows[j].name != name
  {
    var ps := MapSeq(Songs.AsProfile, rows);
    var k := FirstNamed(ps, name);
    if k == |rows| then None
    else
      assert rows[k].name == name;
      assert forall j :: 0 <= j < k ==> rows[j].name == ps[j].name;
      Some(rows[k].artists)
  }

  /** The contributing artists the call queries: read from the song catalog
      as the song query left it, or None when no song carries the name. */
  function Contributors(scorer: Scorer, songs: Table<Songs.Song>, name: string): (r: Option<seq<string>>)
    ensures r.None? <==> forall i :: 0 <= i < |songs.rows| ==> songs.rows[i].name != name
    ensures r.Some? ==> Songs.Query(scorer, songs, name).answer.SongsFound?
    ensures r.Some? ==>
              var field := Lookup(Songs.Query(scorer, songs, name).table.rows, name);
              field.Some? && r.value == ContributingArtists(field.value)
  {
    var rows' := Songs.Query(scorer, songs, name).table.rows;
    Songs.QueryKeepsRows(scorer, songs, name);
    KnownOfPermutation(songs.rows, rows', Songs.AsProfile, name);
    Songs.QueryNotFound(scorer, songs, name);
    match Lookup(Songs.Query(scorer, songs, name).table.rows, name)
    case None => None
    case Some(field) => Some(ContributingArtists(field))
  }

  /** One artist query on a catalog: its answer and the catalog it leaves. */
  type ArtistQuery = (Table<Artists.Artist>, string) -> Artists.ArtistStep

  /** The artist recommender over a catalog fitted with `scorer`. */
  function Querier(scorer: Scorer): ArtistQuery
  {
    (t: Table<Artists.Artist>, n: string) => Artists.Query(scorer, t, n)
  }

  /** The artist queries for `names`, in order, each on the catalog the
      previous one left; the first message stops the pass. */
  function ArtistPass(query: ArtistQuery, t: Table<Artists.Artist>, names: seq<string>): (p: Pass)
    ensures KeepsRows(query) ==> multiset(p.table.rows) == multiset(t.rows)
    decreases |names|
  {
    if names == [] then Pass(Some([]), t)
    else
      var step := query(t, names[0]);
      match step.answer
      case ArtistNotFound(_) => Pass(None, step.table)
      case ArtistsFound(recs) => Prepend(recs, ArtistPass(query, step.table, names[1..]))
  }

  /** Puts `recs` in front of a pass's results, unless the pass failed. */
  function Prepend(recs: seq<Artists.ArtistRec>, p: Pass): Pass
  {
    match p.merged
    case None => p
    case Some(m) => Pass(Some(recs + m), p.table)
  }

  /** One call of the complete recommender on the two catalogs. */
  function Answer(songScorer: Scorer, artistScorer: Scorer, songs: Table<Songs.Song>,
                  artists: Table<Artists.Artist>, name: string): (out: Outcome)
    ensures out.songs == Songs.Query(songScorer, songs, name).table
    ensures out.result.NotFound? ==> out.result.message == name + " not found in songs library."
    ensures out.result.Found? ==>
              out.result.songs == Songs.Query(songScorer, songs, name).answer && out.result.songs.SongsFound?
  {
    var step := Songs.Query(songScorer, songs, name);
    match Contributors(songScorer, songs, name)
    case None => Outcome(NotFound(Message(name)), step.table, artists)
    case Some(names) =>
      var pass := ArtistPass(Querier(artistScorer), artists, names);
      match pass.merged
      case None => Outcome(NotFound(Message(name)), step.table, pass.table)
      case Some(merged) =>
        Outcome(Found(step.answer, Slice(SortDesc(merged, Artists.RecKey), 0, 5)), step.table, pass.table)
  }

  /** Some row of `rows` carries the name `n`. */
  ghost predicate Known<T>(rows: seq<T>, profile: T -> Profile, n: string)
  {
    exists i :: 0 <= i < |rows| && profile(rows[i]).name == n
  }

  lemma KnownOfPermutation<T>(a: seq<T>, b: seq<T>, profile: T -> Profile, n: string)
    requires multiset(a) == multiset(b)
    ensures Known(a, profile, n) <==> Known(b, profile, n)
  {
    if Known(a, profile, n) {
      var i :| 0 <= i < |a| && profile(a[i]).name == n;
      assert a[i] in multiset(b);
    }
    if Known(b, profile, n) {
      var i :| 0 <= i < |b| && profile(b[i]).name == n;
      assert b[i] in multiset(a);
    }
  }

  /** What the pass relies on about a single artist query. */
  ghost predicate KeepsRows(query: ArtistQuery)
  {
    forall t, n :: multiset(query(t, n).table.rows) == multiset(t.rows)
  }

  ghost predicate FailsOnUnknown(query: ArtistQuery)
  {
    forall t, n ::
      query(t, n).answer.ArtistNotFound? <==> t.rows != [] && !Known(t.rows, Artists.AsProfile, n)
  }

  ghost predicate FailureKeepsTable(query: ArtistQuery)
  {
    forall t, n :: query(t, n).answer.ArtistNotFound? ==> query(t, n).table == t
  }

  ghost predicate AnswersWindow(query: ArtistQuery)
  {
    forall t, n ::
      query(t, n).answer.ArtistsFound? ==> |query(t, n).answer.artists| == WindowSize(|t.rows|)
  }

  /** The artist recommender has each of those properties. */
  lemma QuerierProperties(scorer: Scorer)
    ensures KeepsRows(Querier(scorer)) && FailsOnUnknown(Querier(scorer))
    ensures FailureKeepsTable(Querier(scorer)) && AnswersWindow(Querier(scorer))
  {
    var query := Querier(scorer);
    forall t: Table<Artists.Artist>, n: string
      ensures multiset(query(t, n).table.rows) == multiset(t.rows)
      ensures query(t, n).answer.ArtistNotFound? <==> t.rows != [] && !Known(t.rows, Artists.AsProfile, n)
      ensures query(t, n).answer.ArtistNotFound? ==> query(t, n).table == t
      ensures query(t, n).answer.ArtistsFound? ==> |query(t, n).answer.artists| == WindowSize(|t.rows|)
    {
      Artists.QueryKeepsRows(scorer, t, n);
      Artists.QueryNotFound(scorer, t, n);
      if query(t, n).answer.ArtistsFound? {
        Artists.QueryAnswerSize(scorer, t, n);
      }
      assert Known(t.rows, Artists.AsProfile, n) <==> exists i :: 0 <= i < |t.rows| && t.rows[i].name == n;
    }
  }

  lemma PrependNil(p: Pass)
    ensures Prepend([], p) == p
  {
    if p.merged.Some? {
      assert [] + p.merged.value == p.merged.value;
    }
  }

  lemma PrependTwice(a: seq<Artists.ArtistRec>, b: seq<Artists.ArtistRec>, p: Pass)
    ensures Prepend(a, Prepend(b, p)) == Prepend(a + b, p)
  {
    if p.merged.Some? {
      assert a + (b + p.merged.value) == (a + b) + p.merged.value;
    }
  }

  /** One artist query advances the pass by one name. */
  lemma PassAdvance(query: ArtistQuery, t: Table<Artists.Artist>, names: seq<string>, i: nat,
                    acc: seq<Artists.ArtistRec>)
    requires FailureKeepsTable(query)
    requires i < |names|
    ensures query(t, names[i]).answer.ArtistNotFound? ==>
              query(t, names[i]).table == t && ArtistPass(query, t, names[i..]) == Pass(None, t)
    ensures query(t, names[i]).answer.ArtistsFound? ==>
              Prepend(acc, ArtistPass(query, t, names[i..]))
              == Prepend(acc + query(t, names[i]).answer.artists,
                         ArtistPass(query, query(t, names[i]).table, names[i + 1..]))
  {
    var rest := names[i..];
    assert rest[0] == names[i] && rest[1..] == names[i + 1..];
    var step := query(t, names[i]);
    if step.answer.ArtistsFound? {
      PrependTwice(acc, step.answer.artists, ArtistPass(query, step.table, names[i + 1..]));
    }
  }

  /** The loop over the contributing artists: one artist query per piece
      of the artists field, stripped, concatenating the results; the first
      message ends the loop. */
  method QueryArtists(artists: Artists.ArtistCatalog, pieces: seq<string>)
    returns (merged: Option<seq<Artists.ArtistRec>>)
    modifies artists
    ensures Pass(merged, artists.State())
         == ArtistPass(Querier(artists.scorer), old(artists.State()), MapSeq(Strip, pieces))
  {
    ghost var query := Querier(artists.scorer);
    QuerierProperties(artists.scorer);
    ghost var names := MapSeq(Strip, pieces);
    ghost var t0 := artists.State();
    var acc: seq<Artists.ArtistRec> := [];
    PrependNil(ArtistPass(query, t0, names));
    var i := 0;
    while i < |pieces|
      invariant 0 <= i <= |pieces|
      invariant Prepend(acc, ArtistPass(query, artists.State(), names[i..]))
             == ArtistPass(query, t0, names)
    {
      var artistName := Strip(pieces[i]);
      ghost var before := artists.State();
      var answer := artists.Recommend(artistName);
      assert Artists.ArtistStep(answer, artists.State()) == query(before, names[i]);
      PassAdvance(query, before, names, i, acc);
      if answer.ArtistNotFound? {
        assert Prepend(acc, Pass(None, before)) == Pass(None, artists.State());
        return None;
      }
      acc := acc + answer.artists;
      i := i + 1;
    }
    assert names[i..] == [];
    assert acc + [] == acc;
    assert Prepend(acc, Pass(Some([]), artists.State())) == Pass(Some(acc), artists.State());
    merged := Some(acc);
  }

  /** `spotify_recommender`. */
  method Recommend(songs: Songs.SongCatalog, artists: Artists.ArtistCatalog, name: string)
    returns (r: Recommendation)
    modifies songs, artists
    ensures Outcome(r, songs.State(), artists.State())
         == Answer(songs.scorer, artists.scorer, old(songs.State()), old(artists.State()), name)
  {
    var songAnswer := songs.Recommend(name);
    var field := Lookup(songs.rows, name);
    if field.None? {
      return NotFound(Message(name));
    }
    var merged := QueryArtists(artists, Split(field.value, ','));
    if merged.None? {
      return NotFound(Message(name));
    }
    r := Found(songAnswer, Slice(SortDesc(merged.value, Artists.RecKey), 0, 5));
  }

  /** The pass fails exactly when the artist catalog has rows and one of the
      contributing artists is not among them. Every earlier query only
      re-orders the catalog, so the order of the names does not matter. */
  lemma {:induction false} PassFailsIffUnknownArtist(query: ArtistQuery, t: Table<Artists.Artist>,
                                                     names: seq<string>)
    requires KeepsRows(query) && FailsOnUnknown(query)
    ensures ArtistPass(query, t, names).merged.None?
        <==> t.rows != [] && exists k :: 0 <= k < |names| && !Known(t.rows, Artists.AsProfile, names[k])
    decreases |names|
  {
    if names != [] {
      var step := query(t, names[0]);
      if step.answer.ArtistsFound? {
        var rest := names[1..];
        PassFailsIffUnknownArtist(query, step.table, rest);
        assert ArtistPass(query, t, names).merged.None? <==> ArtistPass(query, step.table, rest).merged.None?;
        KnownAfterStep(t.rows, step.table.rows, rest);
        assert |step.table.rows| == |multiset(step.table.rows)| == |t.rows|;
        assert forall k :: 1 <= k < |names| ==> names[k] == rest[k - 1];
      }
    }
  }

  /** Re-ordering the catalog does not change which names it knows. */
  lemma KnownAfterStep(rows: seq<Artists.Artist>, rows': seq<Artists.Artist>, rest: seq<string>)
    requires multiset(rows') == multiset(rows)
    ensures forall k :: 0 <= k < |rest| ==>
              (Known(rows', Artists.AsProfile, rest[k]) <==> Known(rows, Artists.AsProfile, rest[k]))
  {
    forall k | 0 <= k < |rest|
      ensures Known(rows', Artists.AsProfile, rest[k]) <==> Known(rows, Artists.AsProfile, rest[k])
    {
      KnownOfPermutation(rows, rows', Artists.AsProfile, rest[k]);
    }
  }

  lemma MulStep(n: nat, w: nat)
    requires n >= 1
    ensures n * w == w + (n - 1) * w
  {
  }

  /** No de-duplication: every contributing artist adds its whole answer,
      so the merged list has one window of the artist catalog per name. */
  lemma {:induction false} PassLength(query: ArtistQuery, t: Table<Artists.Artist>, names: seq<string>)
    requires KeepsRows(query) && AnswersWindow(query)
    requires ArtistPass(query, t, names).merged.Some?
    ensures |ArtistPass(query, t, names).merged.value| == |names| * WindowSize(|t.rows|)
    decreases |names|
  {
    if names != [] {
      var step := query(t, names[0]);
      assert |step.table.rows| == |multiset(step.table.rows)| == |t.rows|;
      PassLength(query, step.table, names[1..]);
      MulStep(|names|, WindowSize(|t.rows|));
    }
  }

  /** A query for a song no row carries answers with the one message and
      leaves the artist catalog untouched, whatever the song catalog held. */
  lemma AnswerSongMissing(songScorer: Scorer, artistScorer: Scorer, songs: Table<Songs.Song>,
                          artists: Table<Artists.Artist>, name: string)
    requires forall i :: 0 <= i < |songs.rows| ==> songs.rows[i].name != name
    ensures Answer(songScorer, artistScorer, songs, artists, name).result
         == NotFound(name + " not found in songs library.")
    ensures Answer(songScorer, artistScorer, songs, artists, name).artists == artists
  {
    var rows' := Songs.Query(songScorer, songs, name).table.rows;
    Songs.QueryKeepsRows(songScorer, songs, name);
    KnownOfPermutation(songs.rows, rows', Songs.AsProfile, name);
  }

  /** Once the song is found, the call fails exactly when the artist catalog
      has rows and one of the song's contributing artists is not among them;
      it never falls back to an empty artist list. */
  lemma AnswerUnknownArtist(songScorer: Scorer, artistScorer: Scorer, songs: Table<Songs.Song>,
                            artists: Table<Artists.Artist>, name: string)
    requires Contributors(songScorer, songs, name).Some?
    ensures var names := Contributors(songScorer, songs, name).value;
      Answer(songScorer, artistScorer, songs, artists, name).result.NotFound?
      <==> artists.rows != [] && exists k :: 0 <= k < |names| && !Known(artists.rows, Artists.AsProfile, names[k])
  {
    QuerierProperties(artistScorer);
    PassFailsIffUnknownArtist(Querier(artistScorer), artists, Contributors(songScorer, songs, name).value);
  }

  /** A successful call answers with the first five rows of the merged list
      by (popularity, followers) descending: at most five, in that order,
      drawn from the merged list, and none left out ranks above one kept. */
  lemma AnswerArtists(songScorer: Scorer, artistScorer: Scorer, songs: Table<Songs.Song>,
                      artists: Table<Artists.Artist>, name: string)
    requires Answer(songScorer, artistScorer, songs, artists, name).result.Found?
    ensures Contributors(songScorer, songs, name).Some?
    ensures var names := Contributors(songScorer, songs, name).value;
            var merged := ArtistPass(Querier(artistScorer), artists, names).merged;
            var out := Answer(songScorer, artistScorer, songs, artists, name).result.artists;
      && merged.Some?
      && |merged.value| == |names| * WindowSize(|artists.rows|)
      && |out| == (if |merged.value| < 5 then |merged.value| else 5)
      && SortedDesc(out, Artists.RecKey)
      && multiset(out) <= multiset(merged.value)
      && forall x, y :: x in multiset(merged.value) - multiset(out) && y in out
           ==> !Below(Artists.RecKey(y), Artists.RecKey(x))
  {
    AnswerFound(songScorer, artistScorer, songs, artists, name);
    var names := Contributors(songScorer, songs, name).value;
    QuerierProperties(artistScorer);
    PassLength(Querier(artistScorer), artists, names);
    TopFive(ArtistPass(Querier(artistScorer), artists, names).merged.value);
  }

  /** A successful call has found the contributing artists, run the whole
      pass, and answers the head of the merged list. */
  lemma AnswerFound(songScorer: Scorer, artistScorer: Scorer, songs: Table<Songs.Song>,
                    artists: Table<Artists.Artist>, name: string)
    requires Answer(songScorer, artistScorer, songs, artists, name).result.Found?
    ensures Contributors(songScorer, songs, name).Some?
    ensures var pass := ArtistPass(Querier(artistScorer), artists, Contributors(songScorer, songs, name).value);
      && pass.merged.Some?
      && Answer(songScorer, artistScorer, songs, artists, name).result.artists
         == Slice(SortDesc(pass.merged.value, Artists.RecKey), 0, 5)
  {
  }

  /** The head of the merged list sorted by (popularity, followers): at most
      five rows, in that order, drawn from the list, and none left out ranks
      above one kept. */
  lemma TopFive(merged: seq<Artists.ArtistRec>)
    ensures var out := Slice(SortDesc(merged, Artists.RecKey), 0, 5);
      && |out| == (if |merged| < 5 then |merged| else 5)
      && SortedDesc(out, Artists.RecKey)
      && multiset(out) <= multiset(merged)
      && forall x, y :: x in multiset(merged) - multiset(out) && y in out
           ==> !Below(Artists.RecKey(y), Artists.RecKey(x))
  {
    var sorted := SortDesc(merged, Artists.RecKey);
    SortSorts(merged, Artists.RecKey);
    SortedSlice(sorted, Artists.RecKey, 0, 5);
    SliceSubMultiset(sorted, 0, 5);
    HeadIsTop(sorted, Artists.RecKey, 5);
  }

  /** When song names identify rows, re-ordering the catalog does not change
      which artists field the lookup reads. */
  lemma LookupOfKeyedPermutation(rows: seq<Songs.Song>, rows': seq<Songs.Song>, name: string)
    requires NamesAreKeys(rows, Songs.AsProfile) && multiset(rows) == multiset(rows')
    ensures Lookup(rows', name) == Lookup(rows, name)
  {
    KnownOfPermutation(rows, rows', Songs.AsProfile, name);
    if Lookup(rows', name).Some? {
      var k :| 0 <= k < |rows'| && rows'[k].name == name && Lookup(rows', name).value == rows'[k].artists;
      assert rows'[k] in multiset(rows);
      var i :| 0 <= i < |rows| && rows[i] == rows'[k];
      var j :| 0 <= j < |rows| && rows[j].name == name && Lookup(rows, name).value == rows[j].artists;
      assert Songs.AsProfile(rows[i]).name == Songs.AsProfile(rows[j]).name;
    }
  }

  /** The contributing artists are read from the song catalog as the song
      query re-ordered it. When song names identify rows this is the same
      row as in the catalog before the call; otherwise it is the first of the
      rows sharing the name in the new order. */
  lemma ContributorsOfKeyedSongs(scorer: Scorer, songs: Table<Songs.Song>, name: string)
    requires NamesAreKeys(songs.rows, Songs.AsProfile)
    ensures Contributors(scorer, songs, name)
         == match Lookup(songs.rows, name)
            case None => None
            case Some(field) => Some(ContributingArtists(field))
  {
    Songs.QueryKeepsRows(scorer, songs, name);
    LookupOfKeyedPermutation(songs.rows, Songs.Query(scorer, songs, name).table.rows, name);
  }
}
