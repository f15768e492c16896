/** The genre vectorizer: a count vectorizer fitted once on a catalog's genre
    column. Its default tokenizer lower-cases the text and takes every
    maximal run of two or more word characters as a token; a text is turned
    into the vector of its token counts over the frozen vocabulary. */
module Genres {

  predicate IsWordChar(c: char)
  {
    ('a' <= c <= 'z') || ('A' <= c <= 'Z') || ('0' <= c <= '9') || c == '_'
  }

  function Lower(c: char): char
  {
    if 'A' <= c <= 'Z' then (c as int + 32) as char else c
  }

  /** A token: at least two word characters, none of them upper case. */
  predicate IsToken(t: string)
  {
    |t| >= 2 && forall i :: 0 <= i < |t| ==> IsWordChar(t[i]) && !('A' <= t[i] <= 'Z')
  }

  /** A run of word characters read so far, already lower-cased. */
  predicate IsRun(run: string)
  {
    forall i :: 0 <= i < |run| ==> IsWordChar(run[i]) && !('A' <= run[i] <= 'Z')
  }

  function Flush(run: string): seq<string>
  {
    if |run| >= 2 then [run] else []
  }

  /** Scans `s` with `run` the word characters just before it. */
  function Scan(s: string, run: string): (r: seq<string>)
    requires IsRun(run)
    ensures forall t :: t in r ==> IsToken(t)
    decreases |s|
  {
    if s == [] then Flush(run)
    else if IsWordChar(s[0]) then Scan(s[1..], run + [Lower(s[0])])
    else Flush(run) + Scan(s[1..], [])
  }

  /** The tokens of a genre text, in order, with repetitions. */
  function Tokens(s: string): (r: seq<string>)
    ensures forall t :: t in r ==> IsToken(t)
  {
    Scan(s, [])
  }

  lemma {:induction false} ScanSplits(a: string, c: char, b: string, run: string)
    requires IsRun(run) && !IsWordChar(c)
    ensures Scan(a + [c] + b, run) == Scan(a, run) + Scan(b, [])
    decreases |a|
  {
    var s := a + [c] + b;
    if a == [] {
      assert s[0] == c && s[1..] == b;
    } else {
      assert s[0] == a[0] && s[1..] == a[1..] + [c] + b;
      if IsWordChar(a[0]) {
        ScanSplits(a[1..], c, b, run + [Lower(a[0])]);
      } else {
        ScanSplits(a[1..], c, b, []);
      }
    }
  }

  /** Tokens never straddle a separator: the tokens of two texts joined by a
      non-word character are the tokens of the first followed by those of the
      second. */
  lemma TokensOfJoin(a: string, c: char, b: string)
    requires !IsWordChar(c)
    ensures Tokens(a + [c] + b) == Tokens(a) + Tokens(b)
  {
    ScanSplits(a, c, b, []);
  }

  function LowerText(s: string): (r: string)
    ensures |r| == |s|
    ensures forall i :: 0 <= i < |s| ==> r[i] == Lower(s[i])
    decreases |s|
  {
    if s == [] then [] else [Lower(s[0])] + LowerText(s[1..])
  }

  lemma {:induction false} ScanIgnoresCase(s: string, run: string)
    requires IsRun(run)
    ensures Scan(LowerText(s), run) == Scan(s, run)
    decreases |s|
  {
    if s != [] {
      var l := LowerText(s);
      assert l[0] == Lower(s[0]) && l[1..] == LowerText(s[1..]);
      assert IsWordChar(Lower(s[0])) == IsWordChar(s[0]);
      assert Lower(Lower(s[0])) == Lower(s[0]);
      if IsWordChar(s[0]) {
        ScanIgnoresCase(s[1..], run + [Lower(s[0])]);
      } else {
        ScanIgnoresCase(s[1..], []);
      }
    }
  }

  /** Tokenization is case-insensitive. */
  lemma TokensIgnoreCase(s: string)
    ensures Tokens(LowerText(s)) == Tokens(s)
  {
    ScanIgnoresCase(s, []);
  }

  lemma {:induction false} ScanWord(w: string, run: string)
    requires IsRun(run)
    requires forall i :: 0 <= i < |w| ==> IsWordChar(w[i])
    ensures Scan(w, run) == Flush(run + LowerText(w))
    decreases |w|
  {
    if w == [] {
      assert run + LowerText(w) == run;
    } else {
      var c := Lower(w[0]);
      var run' := run + [c];
      assert IsWordChar(c) && !('A' <= c <= 'Z');
      assert forall i :: 0 <= i < |run'| ==> run'[i] == (if i < |run| then run[i] else c);
      var tail := w[1..];
      assert forall i :: 0 <= i < |tail| ==> tail[i] == w[i + 1];
      ScanWord(tail, run');
      assert Scan(w, run) == Scan(tail, run');
      var l := LowerText(w);
      assert l[0] == c && l[1..] == LowerText(tail);
      assert l == [c] + LowerText(tail);
      AppendAssoc(run, [c], LowerText(tail));
    }
  }

  lemma AppendAssoc(a: string, b: string, c: string)
    ensures (a + b) + c == a + (b + c)
  {
  }

  /** Every word is tokenized: a text made only of word characters is one
      token, lower-cased, when it has two or more of them, and no token when
      it has fewer. With `TokensOfJoin` this fixes the tokens of any text. */
  lemma TokensOfWord(w: string)
    requires forall i :: 0 <= i < |w| ==> IsWordChar(w[i])
    ensures |w| >= 2 ==> Tokens(w) == [LowerText(w)]
    ensures |w| < 2 ==> Tokens(w) == []
  {
    ScanWord(w, []);
    assert [] + LowerText(w) == LowerText(w);
  }

  /** The tokens of a whole genre column, document after document. */
  function CorpusTokens(corpus: seq<string>): seq<string>
    decreases |corpus|
  {
    if corpus == [] then [] else Tokens(corpus[0]) + CorpusTokens(corpus[1..])
  }

  predicate NoDuplicates(v: seq<string>)
  {
    forall i, j :: 0 <= i < j < |v| ==> v[i] != v[j]
  }

  /** The distinct words of `ts`, each at its first occurrence. */
  function Distinct(ts: seq<string>): (v: seq<string>)
    ensures NoDuplicates(v)
    ensures forall t :: t in v <==> t in ts
    decreases |ts|
  {
    if ts == [] then []
    else
      var rest := Distinct(ts[..|ts| - 1]);
      var last := ts[|ts| - 1];
      assert ts == ts[..|ts| - 1] + [last];
      if last in rest then rest else rest + [last]
  }

  /** Fitting the vectorizer on a genre column: the vocabulary holds every
      token of every document of the corpus once, and nothing else. */
  function BuildVocabulary(corpus: seq<string>): (v: seq<string>)
    ensures NoDuplicates(v)
    ensures forall t :: t in v <==> t in CorpusTokens(corpus)
  {
    Distinct(CorpusTokens(corpus))
  }

  lemma {:induction false} CorpusTokensCover(corpus: seq<string>, i: nat)
    requires i < |corpus|
    ensures forall t :: t in Tokens(corpus[i]) ==> t in CorpusTokens(corpus)
    decreases i
  {
    if i > 0 {
      CorpusTokensCover(corpus[1..], i - 1);
      assert corpus[1..][i - 1] == corpus[i];
    }
  }

  /** Every token of a catalog document is in the vocabulary fitted on that
      catalog's column. */
  lemma VocabularyCoversCorpus(corpus: seq<string>, i: nat)
    requires i < |corpus|
    ensures forall t :: t in Tokens(corpus[i]) ==> t in BuildVocabulary(corpus)
  {
    CorpusTokensCover(corpus, i);
  }

  /** How many times `w` occurs in `ts`. */
  function Count(ts: seq<string>, w: string): nat
    decreases |ts|
  {
    if ts == [] then 0 else (if ts[0] == w then 1 else 0) + Count(ts[1..], w)
  }

  lemma {:induction false} CountIsMultiplicity(ts: seq<string>, w: string)
    ensures Count(ts, w) == multiset(ts)[w]
    decreases |ts|
  {
    if ts != [] {
      CountIsMultiplicity(ts[1..], w);
      assert ts == [ts[0]] + ts[1..];
    }
  }

  lemma {:induction false} CountAppend(a: seq<string>, b: seq<string>, w: string)
    ensures Count(a + b, w) == Count(a, w) + Count(b, w)
    decreases |a|
  {
    if a != [] {
      var ab := a + b;
      assert ab[0] == a[0] && ab[1..] == a[1..] + b;
      CountAppend(a[1..], b, w);
      assert Count(ab, w) == (if a[0] == w then 1 else 0) + Count(a[1..] + b, w);
    } else {
      assert a + b == b;
    }
  }

  lemma {:induction false} CountAbsent(ts: seq<string>, w: string)
    requires w !in ts
    ensures Count(ts, w) == 0
    decreases |ts|
  {
    if ts != [] {
      CountAbsent(ts[1..], w);
    }
  }

  lemma CountsAreMultiplicities(ts: seq<string>, vocab: seq<string>)
    ensures forall j :: 0 <= j < |vocab| ==> Count(ts, vocab[j]) == multiset(ts)[vocab[j]]
  {
    forall j | 0 <= j < |vocab| ensures Count(ts, vocab[j]) == multiset(ts)[vocab[j]] {
      CountIsMultiplicity(ts, vocab[j]);
    }
  }

  /** The term-count vector of `text` over the frozen vocabulary: entry `j`
      counts the occurrences of the `j`-th vocabulary word among the tokens. */
  function Vectorize(vocab: seq<string>, text: string): (r: seq<real>)
    ensures |r| == |vocab|
    ensures forall j :: 0 <= j < |vocab| ==> r[j] == multiset(Tokens(text))[vocab[j]] as real
    ensures forall j :: 0 <= j < |vocab| ==> 0.0 <= r[j]
  {
    var ts := Tokens(text);
    CountsAreMultiplicities(ts, vocab);
    seq(|vocab|, j requires 0 <= j < |vocab| => Count(ts, vocab[j]) as real)
  }

  /** Tokens outside the frozen vocabulary contribute nothing: appending a
      text made only of unknown tokens leaves the vector unchanged. */
  lemma VectorizeIgnoresUnknown(vocab: seq<string>, text: string, c: char, extra: string)
    requires !IsWordChar(c)
    requires forall t :: t in Tokens(extra) ==> t !in vocab
    ensures Vectorize(vocab, text + [c] + extra) == Vectorize(vocab, text)
  {
    TokensOfJoin(text, c, extra);
    var v1 := Vectorize(vocab, text + [c] + extra);
    var v0 := Vectorize(vocab, text);
    forall j | 0 <= j < |vocab| ensures v1[j] == v0[j] {
      CountIsMultiplicity(Tokens(text) + Tokens(extra), vocab[j]);
      CountIsMultiplicity(Tokens(text), vocab[j]);
      CountAppend(Tokens(text), Tokens(extra), vocab[j]);
      CountAbsent(Tokens(extra), vocab[j]);
    }
  }
}
