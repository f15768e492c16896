# Spotify recommendation engine, modelled in Dafny

This project models the recommendation engine of the Streamlit app in
`App/app.py`. It covers three recommenders and the links they attach:

- **`song_recommender`** scores every row of the global song table against the
  query song. A row's score is the mean of two cosines: the cosine of the
  genre term-count vectors and the cosine of the numeric feature vectors. The
  scores are written into the table as a `similarity` column. The table is
  then sorted in place by (similarity, popularity, release year), descending,
  and ranked positions 2 to 6 are returned, each with a listen link.
- **`artist_recommender`** does the same over the artist table. It ranks by
  (similarity, popularity, followers), takes positions 2 to 6 and re-sorts
  those by (popularity, followers).
- **`spotify_recommender`** runs the song recommender. It then reads the
  contributing artists of the first song carrying the name, in the table
  order the song query left. It runs the artist recommender once per
  contributing artist, concatenates the answers and keeps the first five by
  (popularity, followers).
- **`make_song_url_clickable` / `make_artist_url_clickable`** wrap a URL in an
  HTML anchor.

Modules:

- `Wrappers`: `Option`.
- `Ordering`: the lexicographic key order, a stable descending sort, Python
  slicing, and the sort's permutation, order and stability lemmas. Every
  multi-key `sort_values` in the program is a stable lexsort.
- `Genres`: the count vectorizer. It has the tokenizer, the vocabulary fitted
  once on a catalog's genre column, and term-count vectors over the frozen
  vocabulary.
- `Engine`: the cosine with the zero-norm policy, the blended similarity,
  and the scoring pass. The scoring pass is a `while` loop, as in the source.
- `Ranking`: scoring plus the in-place re-ordering shared by both
  recommenders. It also holds their common lemmas: permutation, order,
  same-name-same-score and idempotence.
- `Songs` and `Artists`: the two catalogs as classes whose methods re-order
  them in place. Each method is proved against a query function on the
  catalog's state.
- `Text`: `str.split(',')` and `str.strip()`.
- `Links`: the track and artist links and their anchors.
- `Spotify`: the complete recommender. It is a method over both catalogs with
  the loop over contributing artists. It is proved against `Spotify.Answer`,
  which threads both catalogs through every call.

Points where the model follows the code:

- **Scores go by name.** Each row's vectors are those of the first row in the
  current order that carries its name (`App/app.py:68,71`). Rows that share a
  name therefore get the same score.
- **Order carries over.** The sorts are in place, so "first row with that
  name" depends on the order earlier queries left behind. `Spotify.Answer`
  reads the contributing artists from the song table as re-sorted by the song
  query.
- **Empty catalog.** The bodies of `song_recommender` and
  `artist_recommender` never raise on an empty catalog, because the loop
  never runs. Their answer is an empty list, not the not-found message.
  `spotify_recommender` is different: on an empty song catalog, `values[0]`
  (`App/app.py:187`) raises and the call answers the not-found message.
  `Spotify.Lookup` and `Spotify.Contributors` give none there, and
  `Spotify.Answer` fails with that message.
- **Numeric vector.** The song vector has 14 entries, release year included
  (`App/app.py:51-52`).
- **Unknown contributing artist.** An unknown artist does not contribute an
  empty set of recommendations. `artist_recommender` returns a string,
  `pd.concat` fails on it (`App/app.py:194`), and the whole call answers
  `["<name> not found in songs library."]`. Catalog re-orders done by earlier
  artist queries stay in place.
- **Similarity range.** The genre cosine is never negative, being a cosine
  of term counts. The numeric cosine has the sign of the dot product
  (`Engine.Cosine`), and a negative score needs a negative numeric cosine
  (`Engine.Similarity`). For songs whose columns lie in their real ranges
  (release year at least 100, loudness within [-60, 60] dB, every other
  column non-negative), the release-year term outweighs any loudness term.
  So the numeric cosine of two such songs is positive and their similarity
  is never negative (`Songs.SimilarityInRange`). For artists with
  non-negative followers and popularity, both cosines and the similarity
  are non-negative (`Artists.SimilarityNonNegative`). A negative similarity
  therefore needs features outside their real ranges, such as a negative
  release year or tempo. The upper bound 1 is not proved.
- **Idempotence.** A repeated query gives identical results only when names
  identify rows, and it is proved only then. With duplicate names, the first
  query's re-ordering can change which duplicate is "first".

## Model

| member | source | states |
|---|---|---|
| `Links.MakeSongUrlClickable` | App/app.py:24-25 | the cell is an anchor whose target reads back, with the caption "Listen on Spotify", as exactly the link given |
| `Links.MakeArtistUrlClickable` | App/app.py:28-29 | the cell is an anchor whose target reads back, with the caption "View on Spotify", as exactly the link given |
| `Links.HrefOfAnchor` | App/app.py:24-29 | the anchor built around a URL gives that URL back when read with the same caption |
| `Links.SongLinkRoundTrip` | App/app.py:93-94 | a song's cell is the track URL `https://open.spotify.com/track/` + id inside a "Listen on Spotify" anchor, and the id reads back from it |
| `Links.ArtistLinkRoundTrip` | App/app.py:164-165 | an artist's cell is `https://open.spotify.com/artist/` + id inside a "View on Spotify" anchor, and the id reads back from it |
| `Links.SongLinkInjective` | App/app.py:93-94 | different song ids give different links |
| `Links.ArtistLinkInjective` | App/app.py:164-165 | different artist ids give different links |
| `Links.Href` | App/app.py:24-29 | whatever target it reads out of a string, the string is exactly the anchor of that target |
| `Links.IdOf` | App/app.py:93 | whatever id it reads out of a URL, the URL is exactly the base followed by that id |
| `Genres.Tokens` | App/app.py:42 | every token is two or more lower-case word characters |
| `Genres.TokensOfJoin` | App/app.py:42 | tokens never straddle a separator: the tokens of `a + sep + b` are those of `a` then those of `b` |
| `Genres.TokensOfWord` | App/app.py:42 | a text made only of word characters is one lower-cased token when it has two or more, and no token when it has fewer; with `Genres.TokensOfJoin` this fixes the tokens of every text |
| `Genres.TokensIgnoreCase` | App/app.py:42 | tokenizing a lower-cased text gives the same tokens |
| `Genres.BuildVocabulary` | App/app.py:45 | the fitted vocabulary holds every token of every genre document once and nothing else |
| `Genres.VocabularyCoversCorpus` | App/app.py:116 | every token of a catalog's document is in the vocabulary fitted on that catalog |
| `Genres.Vectorize` | App/app.py:55 | the vector has one entry per vocabulary word, holding that word's number of occurrences among the text's tokens |
| `Genres.VectorizeIgnoresUnknown` | App/app.py:68 | tokens outside the frozen vocabulary add nothing to the vector |
| `Engine.Cosine` | App/app.py:74-77 | the cosine is 0 when either vector has norm zero; otherwise it is non-negative exactly when the dot product is, and positive exactly when the dot product is |
| `Engine.DotAtLeast` | App/app.py:77 | a dot product in which every term but one is non-negative is at least any non-positive lower bound of that one term |
| `Engine.CosineZeroNorm` | App/app.py:74 | the cosine against a zero-norm vector is 0, in either order |
| `Engine.CosineSymmetric` | App/app.py:77 | the cosine is symmetric |
| `Engine.CosineSelf` | App/app.py:77 | with the true square root, a non-zero vector has cosine 1 with itself |
| `Engine.CosineOfCountsNonNegative` | App/app.py:74 | the cosine of two term-count vectors is never negative |
| `Engine.Similarity` | App/app.py:73-80 | the blended similarity is never negative unless the numeric cosine is, the genre half being a cosine of term counts |
| `Engine.SimilaritySymmetric` | App/app.py:80 | the blended similarity is symmetric |
| `Engine.SimilaritySelf` | App/app.py:73-80 | with the true square root, a row with non-zero genre and feature vectors has similarity 1 with itself |
| `Engine.FirstNamed` | App/app.py:68 | the position returned is the first row carrying the name, or the row count when none does |
| `Engine.RowScore` | App/app.py:64-81 | a row is scored with the vectors of the first row carrying its name, which lies at or before it, against those of the query row |
| `Engine.Scores` | App/app.py:55-81 | scoring fails exactly when the table has rows and none carries the query name; otherwise there is one score per row |
| `Engine.ScoreAll` | App/app.py:61-81 | the scoring loop yields the specified score column, or the failure |
| `Engine.ScoresByName` | App/app.py:64-71 | two rows with the same name receive the same score |
| `Engine.QueryRowScore` | App/app.py:55-58 | a row carrying the query name scores the query's first row against itself |
| `Ranking.Rank` | App/app.py:84-87 | ranking fails exactly when the catalog has rows and none carries the name |
| `Ranking.WindowSize` | App/app.py:90 | the window has at most five rows, and it is the length of `[2:7]` of any sequence of that many rows |
| `Ranking.RankReorders` | App/app.py:84-87 | the ranked catalog is a permutation of the scored rows, with as many rows, in descending key order |
| `Ranking.RankSameNameSameScore` | App/app.py:64-84 | in the ranked catalog, rows that share a name carry the same similarity |
| `Ranking.RankIdempotent` | App/app.py:84-87 | when names identify rows, ranking the re-ordered catalog again for the same name reproduces the same ranking |
| `Ordering.SortDesc` | App/app.py:87 | the sort, used for every multi-key `sort_values`, only rearranges: same rows, same number of them; its order and stability are stated by `Ordering.SortSorts` and `Ordering.SortIsStable` |
| `Ordering.SortSorts` | App/app.py:87 | the sort's output is in descending lexicographic key order |
| `Ordering.SortPermutes` | App/app.py:87 | the sort's output is a permutation of its input, and so is every column projected from it |
| `Ordering.SortIsStable` | App/app.py:157 | rows with equal keys keep their relative order |
| `Ordering.SortOfSorted` | App/app.py:87 | sorting an already sorted sequence leaves it unchanged |
| `Ordering.Slice` | App/app.py:90 | `s[lo:hi]` has the clipped length and holds positions `lo` onwards |
| `Ordering.HeadIsTop` | App/app.py:200 | no row dropped by taking the head of a sorted sequence has a key above a row kept |
| `Text.Split` | App/app.py:187 | the split always has at least one piece, and no piece contains the separator |
| `Text.JoinSplit` | App/app.py:187 | joining the pieces with the separator gives the text back |
| `Text.SplitJoin` | App/app.py:187 | splitting a join of separator-free pieces gives the pieces back |
| `Text.Strip` | App/app.py:191 | the result is a slice of the text that drops only whitespace (the characters `str.isspace()` accepts) at either end and starts and ends with non-whitespace |
| `Text.StripTwice` | App/app.py:191 | stripping is idempotent |
| `Songs.Query` | App/app.py:47-102 | a failed query answers "<name> not found in songs library.", leaves the catalog unchanged, and happens only on a catalog with rows |
| `Songs.SongCatalog.constructor` | App/app.py:41-45 | the catalog is loaded with no similarity column and a vocabulary fitted once on its genre column |
| `Songs.SongCatalog.Recommend` | App/app.py:47-102 | the answer and the catalog left behind are those of `Songs.Query` on the catalog before the call |
| `Songs.QueryNotFound` | App/app.py:55-102 | the query fails exactly when the catalog has rows and no row carries the name |
| `Songs.QueryRanksCatalog` | App/app.py:84-87 | after a successful query the catalog is a permutation of its rows, each paired with its score, descending by (similarity, popularity, release year) |
| `Songs.QueryAnswerWindow` | App/app.py:89-97 | the answer is ranked rows 2 to 6: `min(5, max(0, n - 2))` rows, each with its name, artists, year and track link |
| `Songs.QuerySameNameSameScore` | App/app.py:64-84 | songs sharing a name get the same similarity |
| `Songs.QueryIdempotent` | App/app.py:47-98 | when names identify songs, asking again gives the same answer and the same catalog |
| `Songs.QueryKeepsRows` | App/app.py:87 | any query keeps the catalog's rows, only re-ordered |
| `Songs.TailNonNegative` | App/app.py:51-52 | for a song in range, the 13 columns after the release year are non-negative except loudness |
| `Songs.TailProducts` | App/app.py:51-52 | for two songs in range, every term of the numeric dot product after the release year is non-negative except the loudness term |
| `Songs.NumericDotPositive` | App/app.py:51-58 | two songs in range have numeric vectors with a positive dot product |
| `Songs.SimilarityInRange` | App/app.py:73-80 | two songs in range have a positive numeric cosine and a non-negative similarity |
| `Artists.Window` | App/app.py:159-161 | the rows answered are a rearrangement of ranked rows 2 to 6, as many, sorted by (popularity, followers) descending |
| `Artists.Query` | App/app.py:118-173 | a failed query answers "<name> not found in artists library", leaves the catalog unchanged, and happens only on a catalog with rows |
| `Artists.ArtistCatalog.constructor` | App/app.py:112-116 | the catalog is loaded with no similarity column and a vocabulary fitted once on its genre column |
| `Artists.ArtistCatalog.Recommend` | App/app.py:118-173 | the answer and the catalog left behind are those of `Artists.Query` on the catalog before the call |
| `Artists.QueryNotFound` | App/app.py:125-173 | the query fails exactly when the catalog has rows and no row carries the name |
| `Artists.QueryRanksCatalog` | App/app.py:153-157 | after a successful query the catalog is a permutation of its rows, each paired with its score, descending by (similarity, popularity, followers) |
| `Artists.QueryAnswerWindow` | App/app.py:159-168 | the answer holds exactly the artists at ranked rows 2 to 6, `min(5, max(0, n - 2))` of them, each with its view link, sorted by (popularity, followers) descending |
| `Artists.QuerySameNameSameScore` | App/app.py:133-154 | artists sharing a name get the same similarity |
| `Artists.QueryIdempotent` | App/app.py:118-169 | when names identify artists, asking again gives the same answer and the same catalog |
| `Artists.QueryKeepsRows` | App/app.py:157 | any query keeps the catalog's rows, only re-ordered |
| `Artists.SimilarityNonNegative` | App/app.py:122-150 | two artists with non-negative followers and popularity have a non-negative numeric cosine and a non-negative similarity |
| `Artists.QueryAnswerSize` | App/app.py:160 | a successful answer has `min(5, max(0, n - 2))` rows |
| `Spotify.ContributingArtists` | App/app.py:187-191 | one name per comma-separated piece, the k-th name being the k-th piece stripped; none contains a comma, none starts or ends with whitespace |
| `Spotify.Lookup` | App/app.py:187 | the artists field returned is that of the first song carrying the name, and none is returned exactly when no song carries it |
| `Spotify.Contributors` | App/app.py:187 | the contributing artists are missing exactly when no song carries the name; they are read only after the song query found the song, from the artists field of the first row carrying the name in the table that query left |
| `Spotify.ArtistPass` | App/app.py:190-194 | when each artist query only re-orders the artist catalog, so does the whole pass |
| `Spotify.Answer` | App/app.py:178-204 | the song catalog is left as the song query left it; every failure carries the song message; a success returns the song recommender's own list of songs |
| `Spotify.QuerierProperties` | App/app.py:118-173 | an artist query keeps the catalog's rows, fails exactly on an unknown name in a non-empty catalog, keeps the catalog when it fails, and otherwise answers one window |
| `Spotify.QueryArtists` | App/app.py:190-194 | the loop's result and the artist catalog it leaves are those of the artist pass over the stripped pieces |
| `Spotify.Recommend` | App/app.py:178-204 | the result and both catalogs left behind are those of `Spotify.Answer` on the catalogs before the call |
| `Spotify.PassFailsIffUnknownArtist` | App/app.py:190-194 | the artist pass fails exactly when the artist catalog has rows and some contributing artist is not in it |
| `Spotify.PassLength` | App/app.py:194 | without de-duplication, the merged list has one full answer per contributing artist: the number of names times the window size |
| `Spotify.AnswerSongMissing` | App/app.py:201-204 | a song no row carries yields the single message "<name> not found in songs library." and leaves the artist catalog untouched |
| `Spotify.AnswerUnknownArtist` | App/app.py:194-204 | once the song is found, the call fails exactly when a contributing artist is missing from a non-empty artist catalog |
| `Spotify.AnswerArtists` | App/app.py:196-200 | the artists answered are at most five, drawn from the merged list, sorted by (popularity, followers), with none left out ranking above one kept |
| `Spotify.AnswerFound` | App/app.py:187-200 | once the song and every contributing artist are found, the artists answered are the first five of the merged list sorted by (popularity, followers) |
| `Spotify.TopFive` | App/app.py:196-200 | the head of the sorted merged list has `min(n, 5)` rows, sorted, drawn from the list, with none left out ranking above one kept |
| `Spotify.ContributorsOfKeyedSongs` | App/app.py:187 | when song names identify rows, the contributing artists are those of the catalog's row before the call |

## Left out

- The Streamlit page, background image, HTML table rendering and column renaming are presentation only (`App/app.py:207-266`).
- CSV loading, column dropping, index resetting and pandas display options are I/O and configuration. Each catalog is given to its class's constructor as a sequence of rows.
- DataFrame index labels are not modelled. Results are sequences of rows in the order the program returns them.
- The numeric type changes `pd.concat` makes (integer columns becoming floating point) are not modelled. Followers and popularity stay integers.
- Floating point: scores, features and cosines are exact reals. IEEE rounding, NaN and overflow are not modelled.
- `Engine.Cosine`: the square root is a parameter, known only to be positive on positive arguments. Reflexivity is proved for the true square root. The bound `|cosine| <= 1` (Cauchy–Schwarz) is not proved.
- `Genres.Tokens`: the default token pattern is modelled over ASCII word characters and ASCII lower-casing. Unicode letters and Unicode case mapping are not.
- `Genres.BuildVocabulary`: the vocabulary lists words in first-occurrence order, not the library's alphabetical order. The order of vector entries does not change dot products or norms, but that is not proved here.
- `Songs.QueryIdempotent`: proved only when names identify rows. With duplicate names the source does not promise it.
- `Artists.QueryIdempotent`: proved only when names identify rows, for the same reason.
- The only failure modelled is the one the code's `except` clauses catch for a name with no matching row. Any other exception the bare `except` would also catch (malformed data, library errors) is not modelled.
- A worked ranking example (song A ranking B above C) depends on filler rows and numeric values, so no concrete ranking is stated.
- Empty catalogs: the constructors accept any sequence of rows, the empty one included. The program itself never holds an empty catalog, because fitting the vectorizer (`App/app.py:45`, `App/app.py:116`) raises "empty vocabulary" on a genre column without tokens, and so on one without rows. The model neither fits with a failure nor rules these catalogs out.
