/** The string operations used to read a song's contributing artists:
    Python's `str.split(sep)` with an explicit separator and `str.strip()`. */
module Text {

  /** The characters `str.strip()` removes: those for which `str.isspace()`
      holds. In ASCII these are tab, line feed, vertical tab, form feed,
      carriage return, the four separators 0x1C to 0x1F and the space;
      beyond ASCII, the Unicode space separators and line and paragraph
      separators. */
  predicate IsSpace(c: char)
  {
    (9 <= c as int <= 13) || (28 <= c as int <= 32) || c as int == 0x85 || c as int == 0xA0
    || c as int == 0x1680 || (0x2000 <= c as int <= 0x200A) || c as int == 0x2028
    || c as int == 0x2029 || c as int == 0x202F || c as int == 0x205F || c as int == 0x3000
  }

  /** `s.split(sep)`: the pieces between separators, empty ones included;
      there is always at least one piece. */
  function Split(s: string, sep: char): (r: seq<string>)
    ensures |r| >= 1
    ensures forall i :: 0 <= i < |r| ==> sep !in r[i]
    decreases |s|
  {
    if s == [] then [[]]
    else
      var rest := Split(s[1..], sep);
      if s[0] == sep then [[]] + rest
      else [[s[0]] + rest[0]] + rest[1..]
  }

  /** `sep.join(pieces)`. */
  function Join(pieces: seq<string>, sep: char): string
    requires |pieces| >= 1
    decreases |pieces|
  {
    if |pieces| == 1 then pieces[0] else pieces[0] + [sep] + Join(pieces[1..], sep)
  }

  /** Joining the pieces back with the separator gives the original text. */
  lemma {:induction false} JoinSplit(s: string, sep: char)
    ensures Join(Split(s, sep), sep) == s
    decreases |s|
  {
    if s != [] {
      var rest := Split(s[1..], sep);
      JoinSplit(s[1..], sep);
      if s[0] == sep {
        assert ([[]] + rest)[1..] == rest;
        assert s == [sep] + s[1..];
      } else {
        var r := [[s[0]] + rest[0]] + rest[1..];
        assert r[1..] == rest[1..];
        if |rest| == 1 {
          assert s == [s[0]] + rest[0];
        } else {
          assert Join(rest, sep) == rest[0] + [sep] + Join(rest[1..], sep);
          assert s == [s[0]] + s[1..];
        }
      }
    }
  }

  lemma {:induction false} SplitOfPrefixed(c: char, s: string, sep: char)
    requires c != sep
    ensures Split([c] + s, sep)[0] == [c] + Split(s, sep)[0]
    ensures Split([c] + s, sep)[1..] == Split(s, sep)[1..]
  {
    assert ([c] + s)[0] == c && ([c] + s)[1..] == s;
  }

  lemma {:induction false} SplitOfPiece(p: string, sep: char, tail: string)
    requires sep !in p
    ensures Split(p + tail, sep)[0] == p + Split(tail, sep)[0]
    ensures Split(p + tail, sep)[1..] == Split(tail, sep)[1..]
    decreases |p|
  {
    if p != [] {
      SplitOfPiece(p[1..], sep, tail);
      assert p + tail == [p[0]] + (p[1..] + tail);
      SplitOfPrefixed(p[0], p[1..] + tail, sep);
      assert p == [p[0]] + p[1..];
    } else {
      assert p + tail == tail;
    }
  }

  /** Splitting a join of separator-free pieces gives the pieces back. */
  lemma {:induction false} SplitJoin(pieces: seq<string>, sep: char)
    requires |pieces| >= 1
    requires forall i :: 0 <= i < |pieces| ==> sep !in pieces[i]
    ensures Split(Join(pieces, sep), sep) == pieces
    decreases |pieces|
  {
    var p := pieces[0];
    if |pieces| == 1 {
      SplitOfPiece(p, sep, []);
      assert p + [] == p;
      assert Split([], sep) == [[]];
    } else {
      var tail := Join(pieces[1..], sep);
      SplitJoin(pieces[1..], sep);
      var j := [sep] + tail;
      assert Join(pieces, sep) == p + j;
      SplitOfPiece(p, sep, j);
      assert j[0] == sep && j[1..] == tail;
      assert Split(j, sep) == [[]] + pieces[1..];
      var r := Split(p + j, sep);
      assert r[0] == p + [] == p;
      assert r[1..] == pieces[1..];
      assert r == [r[0]] + r[1..];
      assert pieces == [p] + pieces[1..];
    }
  }

  /** Number of leading whitespace characters. */
  function LeadingSpaces(s: string): (n: nat)
    ensures n <= |s|
    ensures forall i :: 0 <= i < n ==> IsSpace(s[i])
    ensures n < |s| ==> !IsSpace(s[n])
    decreases |s|
  {
    if s != [] && IsSpace(s[0]) then 1 + LeadingSpaces(s[1..]) else 0
  }

  /** End of `s` once its trailing whitespace is dropped, never before `lo`. */
  function TrimmedEnd(s: string, lo: nat): (n: nat)
    requires lo <= |s|
    ensures lo <= n <= |s|
    ensures forall i :: n <= i < |s| ==> IsSpace(s[i])
    ensures n > lo ==> !IsSpace(s[n - 1])
    decreases |s| - lo
  {
    if |s| > lo && IsSpace(s[|s| - 1]) then TrimmedEnd(s[..|s| - 1], lo) else |s|
  }

  /** `s.strip()`: `s` without its leading and trailing whitespace. */
  function Strip(s: string): (r: string)
    ensures exists lo, hi :: 0 <= lo <= hi <= |s| && r == s[lo..hi]
                             && (forall i :: 0 <= i < lo ==> IsSpace(s[i]))
                             && (forall i :: hi <= i < |s| ==> IsSpace(s[i]))
    ensures r != [] ==> !IsSpace(r[0]) && !IsSpace(r[|r| - 1])
  {
    var lo := LeadingSpaces(s);
    var hi := TrimmedEnd(s, lo);
    assert hi > lo ==> !IsSpace(s[lo]);
    s[lo..hi]
  }

  lemma StripTwice(s: string)
    ensures Strip(Strip(s)) == Strip(s)
  {
    var t := Strip(s);
    assert LeadingSpaces(t) == 0;
    assert TrimmedEnd(t, 0) == |t|;
    assert t[0..|t|] == t;
  }
}
