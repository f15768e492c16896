/** Lexicographic sort keys, the stable descending sort that every
    multi-column `sort_values(..., ascending=False)` of the recommender
    performs, and positional slicing of a ranked table. */
module Ordering {

  /** Strict ascending lexicographic order on sort keys: the first differing
      column decides, and a proper prefix comes first. */
  predicate Below(a: seq<real>, b: seq<real>)
    decreases |a|
  {
    if a == [] || b == [] then a == [] && b != []
    else a[0] < b[0] || (a[0] == b[0] && Below(a[1..], b[1..]))
  }

  lemma {:induction false} BelowIrreflexive(a: seq<real>)
    ensures !Below(a, a)
    decreases |a|
  {
    if a != [] {
      BelowIrreflexive(a[1..]);
    }
  }

  lemma {:induction false} BelowTransitive(a: seq<real>, b: seq<real>, c: seq<real>)
    requires Below(a, b) && Below(b, c)
    ensures Below(a, c)
    decreases |a|
  {
    if a != [] && b != [] && c != [] && a[0] == b[0] == c[0] {
      BelowTransitive(a[1..], b[1..], c[1..]);
    }
  }

  /** Any two keys are equal or one is below the other. */
  lemma {:induction false} BelowTotal(a: seq<real>, b: seq<real>)
    ensures a == b || Below(a, b) || Below(b, a)
    decreases |a|
  {
    if a != [] && b != [] && a[0] == b[0] {
      BelowTotal(a[1..], b[1..]);
      if a[1..] == b[1..] {
        assert a == [a[0]] + a[1..] && b == [b[0]] + b[1..];
      }
    }
  }

  lemma BelowAsymmetric(a: seq<real>, b: seq<real>)
    requires Below(a, b)
    ensures !Below(b, a)
  {
    if Below(b, a) {
      BelowTransitive(a, b, a);
      BelowIrreflexive(a);
    }
  }

  /** "Not below" is the non-strict descending order; it is transitive. */
  lemma NotBelowTransitive(a: seq<real>, b: seq<real>, c: seq<real>)
    requires !Below(a, b) && !Below(b, c)
    ensures !Below(a, c)
  {
    BelowTotal(a, b);
    BelowTotal(b, c);
    if Below(a, c) {
      if a != b && b != c {
        BelowTransitive(c, b, a);
        BelowAsymmetric(c, a);
      }
    }
  }

  /** `s` is ordered by `key` descending: no row has a key below a later row's. */
  predicate SortedDesc<T>(s: seq<T>, key: T -> seq<real>)
  {
    forall i, j :: 0 <= i < j < |s| ==> !Below(key(s[i]), key(s[j]))
  }

  /** Inserts `x` into the descending sequence `t` before the first row whose
      key is not above its own, so that it lands ahead of its equals. */
  function Insert<T>(x: T, t: seq<T>, key: T -> seq<real>): seq<T>
    decreases |t|
  {
    if t == [] || !Below(key(x), key(t[0])) then [x] + t
    else [t[0]] + Insert(x, t[1..], key)
  }

  /** Stable sort, descending by `key`; rows with equal keys keep their
      relative order. */
  function SortDesc<T>(s: seq<T>, key: T -> seq<real>): (r: seq<T>)
    ensures multiset(r) == multiset(s)
    ensures |r| == |s|
    decreases |s|
  {
    if s == [] then []
    else
      var rest := SortDesc(s[1..], key);
      InsertPermutes(s[0], rest, key);
      assert s == [s[0]] + s[1..];
      assert |multiset(Insert(s[0], rest, key))| == |multiset(s)|;
      Insert(s[0], rest, key)
  }

  function MapSeq<T, U>(f: T -> U, s: seq<T>): (r: seq<U>)
    ensures |r| == |s|
    ensures forall i :: 0 <= i < |s| ==> r[i] == f(s[i])
    decreases |s|
  {
    if s == [] then [] else [f(s[0])] + MapSeq(f, s[1..])
  }

  function Zip<A, B>(a: seq<A>, b: seq<B>): (z: seq<(A, B)>)
    requires |a| == |b|
    ensures |z| == |a|
    ensures forall i :: 0 <= i < |a| ==> z[i] == (a[i], b[i])
  {
    seq(|a|, i requires 0 <= i < |a| => (a[i], b[i]))
  }

  function First<A, B>(e: (A, B)): A
  {
    e.0
  }

  function Second<A, B>(e: (A, B)): B
  {
    e.1
  }

  lemma ZipUnzip<A, B>(z: seq<(A, B)>)
    ensures Zip(MapSeq(First, z), MapSeq(Second, z)) == z
  {
  }

  lemma UnzipZip<A, B>(a: seq<A>, b: seq<B>)
    requires |a| == |b|
    ensures MapSeq(First, Zip(a, b)) == a && MapSeq(Second, Zip(a, b)) == b
  {
  }

  lemma {:induction false} InsertPermutes<T>(x: T, t: seq<T>, key: T -> seq<real>)
    ensures multiset(Insert(x, t, key)) == multiset{x} + multiset(t)
    decreases |t|
  {
    if t != [] && Below(key(x), key(t[0])) {
      InsertPermutes(x, t[1..], key);
      assert t == [t[0]] + t[1..];
    }
  }

  lemma {:induction false} InsertPermutesColumn<T, U>(x: T, t: seq<T>, key: T -> seq<real>, f: T -> U)
    ensures multiset(MapSeq(f, Insert(x, t, key))) == multiset{f(x)} + multiset(MapSeq(f, t))
    decreases |t|
  {
    if t == [] || !Below(key(x), key(t[0])) {
      assert MapSeq(f, [x] + t) == [f(x)] + MapSeq(f, t);
    } else {
      var rest := Insert(x, t[1..], key);
      InsertPermutesColumn(x, t[1..], key, f);
      assert MapSeq(f, [t[0]] + rest) == [f(t[0])] + MapSeq(f, rest);
      assert MapSeq(f, t) == [f(t[0])] + MapSeq(f, t[1..]);
    }
  }

  /** Sorting only reorders: it keeps the multiset of rows, and of any
      projection of the rows (a column of the table). */
  lemma {:induction false} SortPermutes<T, U>(s: seq<T>, key: T -> seq<real>, f: T -> U)
    ensures multiset(SortDesc(s, key)) == multiset(s)
    ensures multiset(MapSeq(f, SortDesc(s, key))) == multiset(MapSeq(f, s))
    decreases |s|
  {
    if s != [] {
      SortPermutes(s[1..], key, f);
      InsertPermutes(s[0], SortDesc(s[1..], key), key);
      InsertPermutesColumn(s[0], SortDesc(s[1..], key), key, f);
      assert s == [s[0]] + s[1..];
      assert MapSeq(f, s) == [f(s[0])] + MapSeq(f, s[1..]);
    }
  }

  lemma {:induction false} InsertSorted<T>(x: T, t: seq<T>, key: T -> seq<real>)
    requires SortedDesc(t, key)
    ensures SortedDesc(Insert(x, t, key), key)
    decreases |t|
  {
    var r := Insert(x, t, key);
    if t == [] || !Below(key(x), key(t[0])) {
      forall i, j | 0 <= i < j < |r| ensures !Below(key(r[i]), key(r[j])) {
        if i == 0 && j > 1 {
          NotBelowTransitive(key(x), key(t[0]), key(t[j - 1]));
        }
      }
    } else {
      InsertSorted(x, t[1..], key);
      InsertPermutes(x, t[1..], key);
      var rest := Insert(x, t[1..], key);
      forall j | 0 <= j < |rest| ensures !Below(key(t[0]), key(rest[j])) {
        assert rest[j] in multiset(rest);
        if rest[j] == x {
          BelowAsymmetric(key(x), key(t[0]));
        } else {
          assert rest[j] in multiset(t[1..]);
          var k :| 0 <= k < |t[1..]| && t[1..][k] == rest[j];
          assert t[k + 1] == rest[j];
        }
      }
      assert r == [t[0]] + rest;
    }
  }

  lemma {:induction false} SortSorts<T>(s: seq<T>, key: T -> seq<real>)
    ensures SortedDesc(SortDesc(s, key), key)
    decreases |s|
  {
    if s != [] {
      SortSorts(s[1..], key);
      InsertSorted(s[0], SortDesc(s[1..], key), key);
    }
  }

  /** Sorting an already ordered sequence leaves it as it is. */
  lemma {:induction false} SortOfSorted<T>(s: seq<T>, key: T -> seq<real>)
    requires SortedDesc(s, key)
    ensures SortDesc(s, key) == s
    decreases |s|
  {
    if s != [] {
      assert SortedDesc(s[1..], key) by {
        forall i, j | 0 <= i < j < |s[1..]| ensures !Below(key(s[1..][i]), key(s[1..][j])) {
          assert s[1..][i] == s[i + 1] && s[1..][j] == s[j + 1];
        }
      }
      SortOfSorted(s[1..], key);
      assert s == [s[0]] + s[1..];
    }
  }

  /** The rows of `s` whose key equals `k`, in order. */
  function WithKey<T>(s: seq<T>, key: T -> seq<real>, k: seq<real>): seq<T>
    decreases |s|
  {
    if s == [] then []
    else (if key(s[0]) == k then [s[0]] else []) + WithKey(s[1..], key, k)
  }

  lemma {:induction false} WithKeyInsert<T>(x: T, t: seq<T>, key: T -> seq<real>, k: seq<real>)
    requires SortedDesc(t, key)
    ensures WithKey(Insert(x, t, key), key, k)
         == (if key(x) == k then [x] else []) + WithKey(t, key, k)
    decreases |t|
  {
    if t == [] || !Below(key(x), key(t[0])) {
      assert ([x] + t)[1..] == t;
    } else {
      var t' := t[1..];
      SortedTail(t, key);
      WithKeyInsert(x, t', key, k);
      BelowIrreflexive(key(x));
      var r := Insert(x, t', key);
      assert Insert(x, t, key) == [t[0]] + r;
      assert ([t[0]] + r)[0] == t[0] && ([t[0]] + r)[1..] == r;
      assert WithKey(t, key, k) == (if key(t[0]) == k then [t[0]] else []) + WithKey(t', key, k);
      assert key(x) == k ==> key(t[0]) != k;
    }
  }

  lemma SortedTail<T>(s: seq<T>, key: T -> seq<real>)
    requires s != [] && SortedDesc(s, key)
    ensures SortedDesc(s[1..], key)
  {
    var s' := s[1..];
    forall i, j | 0 <= i < j < |s'| ensures !Below(key(s'[i]), key(s'[j])) {
      assert s'[i] == s[i + 1] && s'[j] == s[j + 1];
    }
  }

  /** Stability: for every key value, the rows carrying it come out of the
      sort in the order they went in. */
  lemma {:induction false} SortIsStable<T>(s: seq<T>, key: T -> seq<real>, k: seq<real>)
    ensures WithKey(SortDesc(s, key), key, k) == WithKey(s, key, k)
    decreases |s|
  {
    if s != [] {
      SortIsStable(s[1..], key, k);
      SortSorts(s[1..], key);
      WithKeyInsert(s[0], SortDesc(s[1..], key), key, k);
    }
  }

  /** A projection that carries the key across (`k2(f(x)) == k1(x)`) keeps
      the order. */
  lemma SortedMap<T, U>(s: seq<T>, k1: T -> seq<real>, f: T -> U, k2: U -> seq<real>)
    requires SortedDesc(s, k1)
    requires forall x :: k2(f(x)) == k1(x)
    ensures SortedDesc(MapSeq(f, s), k2)
  {
    var r := MapSeq(f, s);
    forall i, j | 0 <= i < j < |r| ensures !Below(k2(r[i]), k2(r[j])) {
      assert k2(r[i]) == k1(s[i]) && k2(r[j]) == k1(s[j]);
    }
  }

  /** Python's `s[lo:hi]` for 0 <= lo <= hi: positions lo up to hi, clipped
      to the length of `s`. */
  function Slice<T>(s: seq<T>, lo: nat, hi: nat): (r: seq<T>)
    requires lo <= hi
    ensures |r| == (if hi <= |s| then hi else |s|) - (if lo <= |s| then lo else |s|)
    ensures forall k :: 0 <= k < |r| ==> r[k] == s[lo + k]
  {
    var a := if lo <= |s| then lo else |s|;
    var b := if hi <= |s| then hi else |s|;
    s[a..b]
  }

  lemma SortedSlice<T>(s: seq<T>, key: T -> seq<real>, lo: nat, hi: nat)
    requires lo <= hi
    requires SortedDesc(s, key)
    ensures SortedDesc(Slice(s, lo, hi), key)
  {
    var r := Slice(s, lo, hi);
    forall i, j | 0 <= i < j < |r| ensures !Below(key(r[i]), key(r[j])) {
      assert r[i] == s[lo + i] && r[j] == s[lo + j];
    }
  }

  /** The multiset of a slice is contained in that of the whole. */
  lemma SliceSubMultiset<T>(s: seq<T>, lo: nat, hi: nat)
    requires lo <= hi
    ensures multiset(Slice(s, lo, hi)) <= multiset(s)
  {
    var a := if lo <= |s| then lo else |s|;
    var b := if hi <= |s| then hi else |s|;
    assert s == s[..a] + s[a..b] + s[b..];
    assert Slice(s, lo, hi) == s[a..b];
  }

  lemma DropHead<T>(s: seq<T>, m: nat)
    requires m <= |s|
    ensures multiset(s) - multiset(s[..m]) == multiset(s[m..])
  {
    assert s == s[..m] + s[m..];
  }

  /** The head of a descending sequence holds its largest rows: no row
      left out has a key above a row kept. */
  lemma HeadIsTop<T>(s: seq<T>, key: T -> seq<real>, n: nat)
    requires SortedDesc(s, key)
    ensures forall x, y :: x in multiset(s) - multiset(Slice(s, 0, n)) && y in Slice(s, 0, n)
              ==> !Below(key(y), key(x))
  {
    var m := if n <= |s| then n else |s|;
    var h := Slice(s, 0, n);
    assert h == s[..m];
    DropHead(s, m);
    var rest := s[m..];
    forall x, y | x in multiset(rest) && y in h ensures !Below(key(y), key(x)) {
      var j :| 0 <= j < |rest| && rest[j] == x;
      var i :| 0 <= i < |h| && h[i] == y;
      assert s[i] == y && s[m + j] == x;
    }
  }
}
