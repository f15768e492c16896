/** The similarity engine shared by the song and the artist recommender:
    cosine similarity with the zero-norm policy, the blended score of a
    catalog row against the query, and the scoring pass over a whole table. */
module Engine {
  import Genres
  import opened Wrappers

  /** The square root of the host's floating point library. Only its sign is
      fixed here: a positive argument has a positive root. */
  type SqrtFn = f: real -> real | forall x :: 0.0 < x ==> 0.0 < f(x) witness (x: real) => 1.0

  /** `f` is the true square root on the non-negative reals. */
  ghost predicate IsSqrt(f: real -> real)
  {
    forall x :: 0.0 <= x ==> 0.0 <= f(x) && f(x) * f(x) == x
  }

  /** What a catalog is scored with: the vocabulary frozen when its genre
      column was fitted, and the square root. */
  datatype Scorer = Scorer(vocab: seq<string>, sqrt: SqrtFn)

  /** The columns of a catalog row that scoring reads. */
  datatype Profile = Profile(name: string, genres: string, features: seq<real>)

  /** A catalog in its current row order, with its similarity column (empty
      until the first query adds it). */
  datatype Table<T> = Table(rows: seq<T>, similarity: seq<real>)

  function Dot(u: seq<real>, v: seq<real>): real
    decreases |u|
  {
    if u == [] || v == [] then 0.0 else u[0] * v[0] + Dot(u[1..], v[1..])
  }

  lemma {:induction false} DotSymmetric(u: seq<real>, v: seq<real>)
    ensures Dot(u, v) == Dot(v, u)
    decreases |u|
  {
    if u != [] && v != [] {
      DotSymmetric(u[1..], v[1..]);
    }
  }

  lemma {:induction false} DotSelfNonNegative(u: seq<real>)
    ensures 0.0 <= Dot(u, u)
    decreases |u|
  {
    if u != [] {
      DotSelfNonNegative(u[1..]);
      assert 0.0 <= u[0] * u[0];
    }
  }

  lemma {:induction false} DotNonNegative(u: seq<real>, v: seq<real>)
    requires forall i :: 0 <= i < |u| ==> 0.0 <= u[i]
    requires forall i :: 0 <= i < |v| ==> 0.0 <= v[i]
    ensures 0.0 <= Dot(u, v)
    decreases |u|
  {
    if u != [] && v != [] {
      DotNonNegative(u[1..], v[1..]);
      assert 0.0 <= u[0] * v[0];
    }
  }

  lemma {:induction false} DotOfNonNegativeProducts(u: seq<real>, v: seq<real>)
    requires |u| == |v|
    requires forall i :: 0 <= i < |u| ==> 0.0 <= u[i] * v[i]
    ensures 0.0 <= Dot(u, v)
    decreases |u|
  {
    if u != [] {
      assert forall i :: 0 <= i < |u| - 1 ==> u[1..][i] * v[1..][i] == u[i + 1] * v[i + 1];
      DotOfNonNegativeProducts(u[1..], v[1..]);
      assert 0.0 <= u[0] * v[0];
    }
  }

  /** A dot product in which every term but the `j`-th is non-negative is at
      least that term's lower bound. */
  lemma {:induction false} DotAtLeast(u: seq<real>, v: seq<real>, j: nat, c: real)
    requires |u| == |v| && j < |u|
    requires forall i :: 0 <= i < |u| && i != j ==> 0.0 <= u[i] * v[i]
    requires c <= u[j] * v[j] && c <= 0.0
    ensures c <= Dot(u, v)
    decreases |u|
  {
    var u', v' := u[1..], v[1..];
    assert forall i :: 0 <= i < |u'| ==> u'[i] * v'[i] == u[i + 1] * v[i + 1];
    var head, rest := u[0] * v[0], Dot(u', v');
    assert Dot(u, v) == head + rest;
    if j == 0 {
      DotOfNonNegativeProducts(u', v');
      assert c <= head && 0.0 <= rest;
    } else {
      DotAtLeast(u', v', j - 1, c);
      assert 0.0 <= head && c <= rest;
    }
  }

  lemma PositiveProduct(a: real, b: real)
    requires 0.0 < a && 0.0 < b
    ensures 0.0 < a * b
  {
  }

  /** Cosine similarity as the vectors' dot product over the product of
      their norms; a vector of norm zero has similarity 0 with anything. */
  function Cosine(sqrt: SqrtFn, u: seq<real>, v: seq<real>): (r: real)
    ensures Dot(u, u) == 0.0 || Dot(v, v) == 0.0 ==> r == 0.0
    ensures Dot(u, u) != 0.0 && Dot(v, v) != 0.0 ==> (0.0 <= r <==> 0.0 <= Dot(u, v))
    ensures Dot(u, u) != 0.0 && Dot(v, v) != 0.0 ==> (0.0 < r <==> 0.0 < Dot(u, v))
  {
    if Dot(u, u) == 0.0 || Dot(v, v) == 0.0 then 0.0
    else
      DotSelfNonNegative(u);
      DotSelfNonNegative(v);
      var d := sqrt(Dot(u, u)) * sqrt(Dot(v, v));
      PositiveProduct(sqrt(Dot(u, u)), sqrt(Dot(v, v)));
      assert 0.0 <= Dot(u, v) / d <==> 0.0 <= Dot(u, v);
      assert 0.0 < Dot(u, v) / d <==> 0.0 < Dot(u, v);
      Dot(u, v) / d
  }

  /** The zero-norm policy: never undefined, 0 against a zero vector. */
  lemma CosineZeroNorm(sqrt: SqrtFn, u: seq<real>, v: seq<real>)
    requires Dot(u, u) == 0.0 || Dot(v, v) == 0.0
    ensures Cosine(sqrt, u, v) == 0.0 && Cosine(sqrt, v, u) == 0.0
  {
  }

  lemma CosineSymmetric(sqrt: SqrtFn, u: seq<real>, v: seq<real>)
    ensures Cosine(sqrt, u, v) == Cosine(sqrt, v, u)
  {
    DotSymmetric(u, v);
    if Dot(u, u) != 0.0 && Dot(v, v) != 0.0 {
      assert sqrt(Dot(u, u)) * sqrt(Dot(v, v)) == sqrt(Dot(v, v)) * sqrt(Dot(u, u));
    }
  }

  /** With the true square root, a non-zero vector has similarity 1 with
      itself. */
  lemma CosineSelf(sqrt: SqrtFn, u: seq<real>)
    requires IsSqrt(sqrt)
    requires Dot(u, u) != 0.0
    ensures Cosine(sqrt, u, u) == 1.0
  {
    DotSelfNonNegative(u);
    var n := Dot(u, u);
    var s := sqrt(n);
    assert s * s == n;
    assert Cosine(sqrt, u, u) == Dot(u, u) / (s * s);
    assert n / n == 1.0;
  }

  /** Entry-wise non-negative vectors (term counts) have a non-negative
      cosine. */
  lemma CosineOfCountsNonNegative(sqrt: SqrtFn, u: seq<real>, v: seq<real>)
    requires forall i :: 0 <= i < |u| ==> 0.0 <= u[i]
    requires forall i :: 0 <= i < |v| ==> 0.0 <= v[i]
    ensures 0.0 <= Cosine(sqrt, u, v)
  {
    DotNonNegative(u, v);
  }

  /** The blended similarity of `b` to the query `a`: the mean of the
      cosine of their genre count vectors and the cosine of their numeric
      feature vectors. */
  function Similarity(scorer: Scorer, a: Profile, b: Profile): (r: real)
    ensures 0.0 <= Cosine(scorer.sqrt, a.features, b.features) ==> 0.0 <= r
  {
    var ga := Genres.Vectorize(scorer.vocab, a.genres);
    var gb := Genres.Vectorize(scorer.vocab, b.genres);
    CosineOfCountsNonNegative(scorer.sqrt, ga, gb);
    var textSim := Cosine(scorer.sqrt, ga, gb);
    var numSim := Cosine(scorer.sqrt, a.features, b.features);
    (textSim + numSim) / 2.0
  }

  lemma SimilaritySymmetric(scorer: Scorer, a: Profile, b: Profile)
    ensures Similarity(scorer, a, b) == Similarity(scorer, b, a)
  {
    CosineSymmetric(scorer.sqrt, Genres.Vectorize(scorer.vocab, a.genres),
                    Genres.Vectorize(scorer.vocab, b.genres));
    CosineSymmetric(scorer.sqrt, a.features, b.features);
  }

  /** Reflexivity: with the true square root, a row whose genre and feature
      vectors are both non-zero has similarity 1 with itself. */
  lemma SimilaritySelf(scorer: Scorer, a: Profile)
    requires IsSqrt(scorer.sqrt)
    requires Dot(Genres.Vectorize(scorer.vocab, a.genres), Genres.Vectorize(scorer.vocab, a.genres)) != 0.0
    requires Dot(a.features, a.features) != 0.0
    ensures Similarity(scorer, a, a) == 1.0
  {
    CosineSelf(scorer.sqrt, Genres.Vectorize(scorer.vocab, a.genres));
    CosineSelf(scorer.sqrt, a.features);
  }

  /** Position of the first row named `name` in the current order, or the
      number of rows when there is none (an empty selection). */
  function FirstNamed(ps: seq<Profile>, name: string): (k: nat)
    ensures k <= |ps|
    ensures k < |ps| ==> ps[k].name == name
    ensures forall j :: 0 <= j < k ==> ps[j].name != name
    decreases |ps|
  {
    if ps == [] || ps[0].name == name then 0 else 1 + FirstNamed(ps[1..], name)
  }

  /** The score of row `i` against the query row `q`: both vectors of each
      side are those of the FIRST row in the current order that carries
      that side's name. */
  function RowScore(scorer: Scorer, ps: seq<Profile>, q: nat, i: nat): (r: real)
    requires q < |ps| && i < |ps|
    ensures var k := FirstNamed(ps, ps[i].name);
      && k <= i && ps[k].name == ps[i].name
      && r == Similarity(scorer, ps[q], ps[k])
  {
    var k := FirstNamed(ps, ps[i].name);
    Similarity(scorer, ps[q], ps[k])
  }

  /** The similarity column a query produces, or None when the query raises:
      it does so on the first row when no row carries the query's name, so
      an empty table yields an empty column instead. */
  function Scores(scorer: Scorer, ps: seq<Profile>, name: string): (r: Option<seq<real>>)
    ensures r.None? <==> ps != [] && forall j :: 0 <= j < |ps| ==> ps[j].name != name
    ensures r.Some? ==> |r.value| == |ps|
  {
    var q := FirstNamed(ps, name);
    if ps == [] then Some([])
    else if q == |ps| then None
    else Some(seq(|ps|, i requires 0 <= i < |ps| => RowScore(scorer, ps, q, i)))
  }

  /** The scoring pass: one similarity per row, in table order. */
  method ScoreAll(scorer: Scorer, ps: seq<Profile>, name: string) returns (r: Option<seq<real>>)
    ensures r == Scores(scorer, ps, name)
  {
    var q := FirstNamed(ps, name);
    var scores: seq<real> := [];
    var i := 0;
    while i < |ps|
      invariant 0 <= i <= |ps|
      invariant i > 0 ==> q < |ps|
      invariant |scores| == i
      invariant forall j :: 0 <= j < i ==> scores[j] == RowScore(scorer, ps, q, j)
    {
      if q == |ps| {
        // the cosine of an empty query selection raises
        return None;
      }
      var k := FirstNamed(ps, ps[i].name);
      var sim := Similarity(scorer, ps[q], ps[k]);
      assert sim == RowScore(scorer, ps, q, i);
      scores := scores + [sim];
      i := i + 1;
    }
    if ps != [] {
      ghost var expected := Scores(scorer, ps, name).value;
      forall j | 0 <= j < |ps| ensures scores[j] == expected[j] {
      }
      assert scores == expected;
    }
    return Some(scores);
  }

  /** Scores go by name: two rows that carry the same name get the same
      score, whatever their own genres and features. */
  lemma ScoresByName(scorer: Scorer, ps: seq<Profile>, name: string, i: nat, j: nat)
    requires Scores(scorer, ps, name).Some?
    requires i < |ps| && j < |ps| && ps[i].name == ps[j].name
    ensures |Scores(scorer, ps, name).value| == |ps|
    ensures Scores(scorer, ps, name).value[i] == Scores(scorer, ps, name).value[j]
  {
  }

  /** The query's own name scores the blend of its first row with itself. */
  lemma QueryRowScore(scorer: Scorer, ps: seq<Profile>, name: string, i: nat)
    requires Scores(scorer, ps, name).Some?
    requires i < |ps| && ps[i].name == name
    ensures Scores(scorer, ps, name).value[i]
         == Similarity(scorer, ps[FirstNamed(ps, name)], ps[FirstNamed(ps, name)])
  {
  }
}
