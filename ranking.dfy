/** The step both recommenders share: score every row of a catalog against
    the query and re-order the catalog, rows paired with their scores, by a
    ranking key that starts with the score. */
module Ranking {
  import opened Wrappers
  import opened Ordering
  import opened Engine

  /** The catalog ranked for a query, each row with its similarity, or None
      when the query raises. */
  function Rank<T>(scorer: Scorer, rows: seq<T>, profile: T -> Profile,
                   key: ((T, real)) -> seq<real>, name: string): (r: Option<seq<(T, real)>>)
    ensures r.None? <==> rows != [] && forall i :: 0 <= i < |rows| ==> profile(rows[i]).name != name
  {
    var ps := MapSeq(profile, rows);
    match Scores(scorer, ps, name)
    case None => None
    case Some(sims) => Some(SortDesc(Zip(rows, sims), key))
  }

  /** How many rows the slice of ranked positions 2 to 6 has in a catalog
      of `n` rows. */
  function WindowSize(n: nat): (w: nat)
    ensures w <= 5
    ensures forall s: seq<int> :: |s| == n ==> |Slice(s, 2, 7)| == w
  {
    if n <= 2 then 0 else if n >= 7 then 5 else n - 2
  }

  /** The rows with their similarity, in catalog order, before ranking. */
  function Scored<T>(scorer: Scorer, rows: seq<T>, profile: T -> Profile, name: string): seq<(T, real)>
    requires Scores(scorer, MapSeq(profile, rows), name).Some?
  {
    Zip(rows, Scores(scorer, MapSeq(profile, rows), name).value)
  }

  /** Ranking only re-orders the scored rows, into descending key order. */
  lemma RankReorders<T>(scorer: Scorer, rows: seq<T>, profile: T -> Profile,
                        key: ((T, real)) -> seq<real>, name: string)
    requires Rank(scorer, rows, profile, key, name).Some?
    ensures Scores(scorer, MapSeq(profile, rows), name).Some?
    ensures var ranked := Rank(scorer, rows, profile, key, name).value;
      && multiset(ranked) == multiset(Scored(scorer, rows, profile, name))
      && multiset(MapSeq(First, ranked)) == multiset(rows)
      && |ranked| == |rows|
      && SortedDesc(ranked, key)
  {
    var z := Scored(scorer, rows, profile, name);
    SortPermutes(z, key, First);
    SortSorts(z, key);
    UnzipZip(rows, Scores(scorer, MapSeq(profile, rows), name).value);
    assert |multiset(SortDesc(z, key))| == |multiset(z)|;
  }

  /** The ranked rows have a similarity that depends on the row's name only. */
  ghost predicate ScoredByName<T>(z: seq<(T, real)>, profile: T -> Profile)
  {
    forall i, j :: 0 <= i < |z| && 0 <= j < |z| && profile(z[i].0).name == profile(z[j].0).name
      ==> z[i].1 == z[j].1
  }

  lemma ScoredByNameOfPermutation<T>(a: seq<(T, real)>, b: seq<(T, real)>, profile: T -> Profile)
    requires ScoredByName(a, profile) && multiset(a) == multiset(b)
    ensures ScoredByName(b, profile)
  {
    forall i, j | 0 <= i < |b| && 0 <= j < |b| && profile(b[i].0).name == profile(b[j].0).name
      ensures b[i].1 == b[j].1
    {
      assert b[i] in multiset(a) && b[j] in multiset(a);
      var i' :| 0 <= i' < |a| && a[i'] == b[i];
      var j' :| 0 <= j' < |a| && a[j'] == b[j];
    }
  }

  /** Rows that share a name get the same similarity, because both of their
      vectors are taken from the first row carrying that name. */
  lemma RankSameNameSameScore<T>(scorer: Scorer, rows: seq<T>, profile: T -> Profile,
                                 key: ((T, real)) -> seq<real>, name: string)
    requires Rank(scorer, rows, profile, key, name).Some?
    ensures ScoredByName(Rank(scorer, rows, profile, key, name).value, profile)
  {
    RankReorders(scorer, rows, profile, key, name);
    var ps := MapSeq(profile, rows);
    var z := Scored(scorer, rows, profile, name);
    assert ScoredByName(z, profile) by {
      forall i, j | 0 <= i < |z| && 0 <= j < |z| && profile(z[i].0).name == profile(z[j].0).name
        ensures z[i].1 == z[j].1
      {
        assert ps[i].name == ps[j].name;
      }
    }
    ScoredByNameOfPermutation(z, Rank(scorer, rows, profile, key, name).value, profile);
  }

  /** Names identify rows: two rows with the same name are the same row. */
  ghost predicate NamesAreKeys<T>(rows: seq<T>, profile: T -> Profile)
  {
    forall i, j :: 0 <= i < |rows| && 0 <= j < |rows| && profile(rows[i]).name == profile(rows[j]).name
      ==> rows[i] == rows[j]
  }

  /** Every scored row carries `g` of itself. */
  ghost predicate ScoredBy<T>(z: seq<(T, real)>, g: T -> real)
  {
    forall i :: 0 <= i < |z| ==> z[i].1 == g(z[i].0)
  }

  lemma ScoredByOfPermutation<T>(a: seq<(T, real)>, b: seq<(T, real)>, g: T -> real)
    requires ScoredBy(a, g) && multiset(a) == multiset(b)
    ensures ScoredBy(b, g)
  {
    forall i | 0 <= i < |b| ensures b[i].1 == g(b[i].0) {
      assert b[i] in multiset(a);
      var i' :| 0 <= i' < |a| && a[i'] == b[i];
    }
  }

  /** When names identify rows, each row's score is the similarity of the
      row named `name` to that row itself. */
  lemma ScoresOfKeyedRows<T>(scorer: Scorer, rows: seq<T>, profile: T -> Profile, name: string, q: T)
    requires NamesAreKeys(rows, profile)
    requires q in rows && profile(q).name == name
    ensures Scores(scorer, MapSeq(profile, rows), name).Some?
    ensures ScoredBy(Scored(scorer, rows, profile, name), (x: T) => Similarity(scorer, profile(q), profile(x)))
  {
    var ps := MapSeq(profile, rows);
    var k := FirstNamed(ps, name);
    var iq :| 0 <= iq < |rows| && rows[iq] == q;
    assert ps[iq].name == name;
    assert rows[k] == q;
    var z := Scored(scorer, rows, profile, name);
    forall i | 0 <= i < |z| ensures z[i].1 == Similarity(scorer, profile(q), profile(z[i].0)) {
      var f := FirstNamed(ps, ps[i].name);
      assert f <= i;
      assert rows[f] == rows[i];
    }
  }

  lemma NamesAreKeysOfPermutation<T>(a: seq<T>, b: seq<T>, profile: T -> Profile)
    requires NamesAreKeys(a, profile) && multiset(a) == multiset(b)
    ensures NamesAreKeys(b, profile)
  {
    forall i, j | 0 <= i < |b| && 0 <= j < |b| && profile(b[i]).name == profile(b[j]).name
      ensures b[i] == b[j]
    {
      assert b[i] in multiset(a) && b[j] in multiset(a);
      var i' :| 0 <= i' < |a| && a[i'] == b[i];
      var j' :| 0 <= j' < |a| && a[j'] == b[j];
    }
  }

  /** Re-scoring rows that already carry their own score gives them back. */
  lemma RescoreKeyed<T>(scorer: Scorer, ranked: seq<(T, real)>, profile: T -> Profile, name: string, q: T)
    requires NamesAreKeys(MapSeq(First, ranked), profile)
    requires q in MapSeq(First, ranked) && profile(q).name == name
    requires ScoredBy(ranked, (x: T) => Similarity(scorer, profile(q), profile(x)))
    ensures Scores(scorer, MapSeq(profile, MapSeq(First, ranked)), name).Some?
    ensures Scored(scorer, MapSeq(First, ranked), profile, name) == ranked
  {
    var rows1 := MapSeq(First, ranked);
    ScoresOfKeyedRows(scorer, rows1, profile, name, q);
    var z1 := Scored(scorer, rows1, profile, name);
    assert |z1| == |ranked|;
    forall i | 0 <= i < |z1| ensures z1[i] == ranked[i] {
      assert z1[i].0 == ranked[i].0;
    }
  }

  /** Querying again: when names identify rows, ranking the catalog a query
      left behind, for the same name, reproduces exactly that ranking. */
  lemma RankIdempotent<T>(scorer: Scorer, rows: seq<T>, profile: T -> Profile,
                          key: ((T, real)) -> seq<real>, name: string)
    requires NamesAreKeys(rows, profile)
    requires Rank(scorer, rows, profile, key, name).Some?
    ensures var ranked := Rank(scorer, rows, profile, key, name).value;
      Rank(scorer, MapSeq(First, ranked), profile, key, name) == Some(ranked)
  {
    var ranked := Rank(scorer, rows, profile, key, name).value;
    RankReorders(scorer, rows, profile, key, name);
    var rows1 := MapSeq(First, ranked);
    if rows == [] {
      assert ranked == [];
      return;
    }
    var iq :| 0 <= iq < |rows| && profile(rows[iq]).name == name;
    var q := rows[iq];
    var g := (x: T) => Similarity(scorer, profile(q), profile(x));
    ScoresOfKeyedRows(scorer, rows, profile, name, q);
    ScoredByOfPermutation(Scored(scorer, rows, profile, name), ranked, g);
    NamesAreKeysOfPermutation(rows, rows1, profile);
    assert q in multiset(rows1);
    RescoreKeyed(scorer, ranked, profile, name, q);
    SortOfSorted(ranked, key);
  }
}
