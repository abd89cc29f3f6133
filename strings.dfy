/**
 * Text helpers: the `split` of Python's `str` and of JavaScript's `String`
 * (both cut at every leftmost, non-overlapping occurrence of a non-empty
 * separator), and the facts about it that the header parsing relies on.
 */
module Strings {

  predicate StartsWith(s: string, p: string) {
    |p| <= |s| && s[..|p|] == p
  }

  predicate EndsWith(s: string, p: string) {
    |p| <= |s| && s[|s| - |p|..] == p
  }

  /** `p` occurs somewhere in `s` (Python's `p in s`). */
  predicate Contains(s: string, p: string) {
    exists i :: 0 <= i <= |s| && StartsWith(s[i..], p)
  }

  /** Python's `s.split(sep)` and JavaScript's `s.split(sep)`, for a non-empty `sep`. */
  function Split(s: string, sep: string): (parts: seq<string>)
    requires sep != []
    ensures |parts| >= 1
    decreases |s|
  {
    if |s| < |sep| then [s]
    else if StartsWith(s, sep) then [""] + Split(s[|sep|..], sep)
    else
      var rest := Split(s[1..], sep);
      [[s[0]] + rest[0]] + rest[1..]
  }

  /** Python's `sep.join(parts)`; the inverse of `Split`. */
  function Join(parts: seq<string>, sep: string): string
    requires |parts| >= 1
  {
    if |parts| == 1 then parts[0] else parts[0] + sep + Join(parts[1..], sep)
  }

  /** Python's `parts[-1]`. */
  function Last(parts: seq<string>): string
    requires |parts| >= 1
  {
    parts[|parts| - 1]
  }

  /** Splitting loses nothing: joining the pieces with the separator gives the text back. */
  lemma {:induction false} SplitJoin(s: string, sep: string)
    requires sep != []
    ensures Join(Split(s, sep), sep) == s
    decreases |s|
  {
    if |s| < |sep| {
    } else if StartsWith(s, sep) {
      var tail := s[|sep|..];
      SplitJoin(tail, sep);
      JoinEmptyHead(Split(tail, sep), sep);
      assert s == sep + tail;
    } else {
      var rest := Split(s[1..], sep);
      SplitJoin(s[1..], sep);
      JoinExtendedHead(s[0], rest, sep);
      assert s == [s[0]] + s[1..];
    }
  }

  /** Joining after an empty first piece puts the separator up front. */
  lemma JoinEmptyHead(rest: seq<string>, sep: string)
    requires |rest| >= 1
    ensures Join([""] + rest, sep) == sep + Join(rest, sep)
  {
    assert ([""] + rest)[1..] == rest;
  }

  /** Joining after a first piece extended by `c` extends the whole text by `c`. */
  lemma JoinExtendedHead(c: char, rest: seq<string>, sep: string)
    requires |rest| >= 1
    ensures Join([[c] + rest[0]] + rest[1..], sep) == [c] + Join(rest, sep)
  {
    var parts := [[c] + rest[0]] + rest[1..];
    if |rest| > 1 {
      assert parts[1..] == rest[1..];
      assert Join(rest, sep) == rest[0] + sep + Join(rest[1..], sep);
      assert Join(parts, sep) == ([c] + rest[0]) + sep + Join(rest[1..], sep);
    }
  }

  /** The first piece is the text before the first occurrence of the separator. */
  lemma {:induction false} FirstPieceIsPrefix(s: string, sep: string)
    requires sep != []
    ensures StartsWith(s, Split(s, sep)[0])
    decreases |s|
  {
    if |s| < |sep| {
    } else if StartsWith(s, sep) {
    } else {
      FirstPieceIsPrefix(s[1..], sep);
      var rest := Split(s[1..], sep);
      assert s[..|rest[0]| + 1] == [s[0]] + s[1..][..|rest[0]|];
    }
  }

  /** No piece of a split contains the separator. */
  lemma {:induction false} PiecesAreFree(s: string, sep: string)
    requires sep != []
    ensures forall i :: 0 <= i < |Split(s, sep)| ==> !Contains(Split(s, sep)[i], sep)
    decreases |s|
  {
    var parts := Split(s, sep);
    if |s| < |sep| {
      assert parts == [s];
      forall j | 0 <= j <= |s| ensures !StartsWith(s[j..], sep) { }
    } else if StartsWith(s, sep) {
      PiecesAreFree(s[|sep|..], sep);
      forall i | 0 <= i < |parts| ensures !Contains(parts[i], sep) {
        if i == 0 {
          forall j | 0 <= j <= |parts[0]| ensures !StartsWith(parts[0][j..], sep) { }
        } else {
          assert parts[i] == Split(s[|sep|..], sep)[i - 1];
        }
      }
    } else {
      var rest := Split(s[1..], sep);
      PiecesAreFree(s[1..], sep);
      FirstPieceIsPrefix(s[1..], sep);
      var head := [s[0]] + rest[0];
      assert parts[0] == head;
      assert head == s[..|head|];
      forall j | 0 <= j <= |head| ensures !StartsWith(head[j..], sep) {
        if j == 0 {
          assert |sep| <= |head| ==> s[..|sep|] == head[..|sep|];
        } else {
          assert head[j..] == rest[0][j - 1..];
          assert !StartsWith(rest[0][j - 1..], sep);
        }
      }
      forall i | 0 <= i < |parts| ensures !Contains(parts[i], sep) {
        if i > 0 {
          assert parts[i] == rest[i];
        }
      }
    }
  }

  /** The last piece is the text after the last cut; with a single piece nothing was cut. */
  lemma {:induction false} LastPieceIsSuffix(s: string, sep: string)
    requires sep != []
    ensures |Split(s, sep)| == 1 ==> Split(s, sep) == [s]
    ensures |Split(s, sep)| >= 2 ==> EndsWith(s, sep + Last(Split(s, sep)))
    decreases |s|
  {
    if |s| < |sep| {
    } else if StartsWith(s, sep) {
      var tail := s[|sep|..];
      LastPieceIsSuffix(tail, sep);
      var rest := Split(tail, sep);
      assert s == sep + tail;
      assert Split(s, sep) == [""] + rest;
      if |rest| == 1 {
        assert EndsWith(s, sep + tail);
      } else {
        EndsWithPrefixed(sep, tail, sep + Last(rest));
      }
    } else {
      var tail := s[1..];
      LastPieceIsSuffix(tail, sep);
      var rest := Split(tail, sep);
      SplitStepLast(s, sep);
      assert s == [s[0]] + tail;
      if |rest| >= 2 {
        EndsWithPrefixed([s[0]], tail, sep + Last(rest));
      }
    }
  }

  /** Past a character that starts no separator, the pieces stay the same in
      number, and from the second on they are the same. */
  lemma SplitStepLast(s: string, sep: string)
    requires sep != [] && |s| >= |sep| && !StartsWith(s, sep)
    ensures |Split(s, sep)| == |Split(s[1..], sep)|
    ensures |Split(s, sep)| >= 2 ==> Last(Split(s, sep)) == Last(Split(s[1..], sep))
  {
  }

  /** Putting text in front keeps every ending. */
  lemma EndsWithPrefixed(x: string, t: string, w: string)
    requires EndsWith(t, w)
    ensures EndsWith(x + t, w)
  {
    assert (x + t)[|x + t| - |w|..] == t[|t| - |w|..];
  }

  /** Text without the separator is a single piece: itself. */
  lemma NoSeparatorNoCut(s: string, sep: string)
    requires sep != []
    requires !Contains(s, sep)
    ensures Split(s, sep) == [s]
  {
    LastPieceIsSuffix(s, sep);
    if |Split(s, sep)| >= 2 {
      var k := |s| - |sep + Last(Split(s, sep))|;
      assert StartsWith(s[k..], sep);
    }
  }

  /** Text with the separator is cut at least once. */
  lemma SeparatorCuts(s: string, sep: string)
    requires sep != []
    requires Contains(s, sep)
    ensures |Split(s, sep)| >= 2
  {
    LastPieceIsSuffix(s, sep);
    PiecesAreFree(s, sep);
    assert !Contains(Split(s, sep)[0], sep);
  }

  /** Whatever contains `q`, which contains `p`, contains `p`. */
  lemma ContainsTransitive(s: string, q: string, p: string)
    requires Contains(s, q) && Contains(q, p)
    ensures Contains(s, p)
  {
    var i :| 0 <= i <= |s| && StartsWith(s[i..], q);
    var j :| 0 <= j <= |q| && StartsWith(q[j..], p);
    assert i + j + |p| <= |s|;
    forall k | 0 <= k < |p| ensures s[i + j + k] == p[k] {
      assert s[i..][j + k] == q[j + k];
      assert q[j..][k] == p[k];
    }
    assert s[i + j..][..|p|] == p;
    assert StartsWith(s[i + j..], p);
  }

  /** What a text ends with, it contains. */
  lemma EndsWithContains(s: string, p: string)
    ensures EndsWith(s, p) ==> Contains(s, p)
  {
    if EndsWith(s, p) {
      assert StartsWith(s[|s| - |p|..], p);
    }
  }

  /** Of two endings of one text, the shorter ends the longer. */
  lemma EndsWithNested(s: string, a: string, b: string)
    ensures EndsWith(s, a) && EndsWith(s, b) && |a| <= |b| ==> EndsWith(b, a)
  {
    if EndsWith(s, a) && EndsWith(s, b) && |a| <= |b| {
      assert b[|b| - |a|..] == s[|s| - |b|..][|b| - |a|..];
    }
  }

  /** An ending no longer than the second part of a text ends that part. */
  lemma EndsWithAppended(x: string, y: string, p: string)
    ensures EndsWith(x + y, p) && |p| <= |y| ==> EndsWith(y, p)
  {
    if |p| <= |y| {
      assert (x + y)[|x + y| - |p|..] == y[|y| - |p|..];
    }
  }

  /** A text none of whose characters is `c` does not contain `[c]`. */
  lemma AvoidsCharacter(s: string, c: char)
    requires forall k :: 0 <= k < |s| ==> s[k] != c
    ensures !Contains(s, [c])
  {
    forall i | 0 <= i <= |s| ensures !StartsWith(s[i..], [c]) {
      if i < |s| {
        assert s[i..][0] == s[i];
      }
    }
  }

  /** Cutting at a one-character separator: a head without it is the first piece. */
  lemma {:induction false} SplitAtFirst(head: string, sep: string, tail: string)
    requires |sep| == 1
    requires !Contains(head, sep)
    ensures Split(head + sep + tail, sep) == [head] + Split(tail, sep)
    decreases |head|
  {
    var s := head + sep + tail;
    if head == [] {
      assert s == sep + tail;
      assert StartsWith(s, sep);
      assert s[|sep|..] == tail;
    } else {
      assert !StartsWith(s, sep) by {
        assert head[0..] == head;
        assert !StartsWith(head[0..], sep);
        assert s[..1] == head[..1];
      }
      forall i | 0 <= i <= |head[1..]| ensures !StartsWith(head[1..][i..], sep) {
        assert head[1..][i..] == head[i + 1..];
        assert !StartsWith(head[i + 1..], sep);
      }
      SplitAtFirst(head[1..], sep, tail);
      assert s[1..] == head[1..] + sep + tail;
      var rest := Split(s[1..], sep);
      assert rest == [head[1..]] + Split(tail, sep);
      assert [s[0]] + rest[0] == head;
      assert Split(s, sep) == [[s[0]] + rest[0]] + rest[1..];
    }
  }

  /** The last piece is the text after the last occurrence of the separator,
      or the whole text when there is none. */
  lemma AfterLastSeparator(s: string, sep: string)
    requires sep != []
    ensures !Contains(Last(Split(s, sep)), sep)
    ensures if Contains(s, sep) then EndsWith(s, sep + Last(Split(s, sep))) else Last(Split(s, sep)) == s
  {
    PiecesAreFree(s, sep);
    LastPieceIsSuffix(s, sep);
    if Contains(s, sep) {
      SeparatorCuts(s, sep);
    } else {
      NoSeparatorNoCut(s, sep);
    }
  }

  /** Joining at least two pieces puts the first, the separator and the
      second up front, followed by nothing or by the separator. */
  lemma JoinFirstTwo(parts: seq<string>, sep: string)
    requires |parts| >= 2
    ensures var joined := Join(parts, sep);
      joined == parts[0] + sep + parts[1] || StartsWith(joined, parts[0] + sep + parts[1] + sep)
  {
    if |parts| > 2 {
      var prefix := parts[0] + sep + parts[1] + sep;
      assert Join(parts[1..], sep) == parts[1] + sep + Join(parts[2..], sep);
      assert Join(parts, sep) == prefix + Join(parts[2..], sep);
      assert Join(parts, sep)[..|prefix|] == prefix;
    }
  }

  /** The first two pieces, when there are two: the text is the first, the
      separator and the second, then nothing or the separator again. */
  lemma FirstTwoFields(s: string, sep: string)
    requires sep != []
    ensures Contains(s, sep) <==> |Split(s, sep)| >= 2
    ensures !Contains(Split(s, sep)[0], sep)
    ensures |Split(s, sep)| >= 2 ==>
      var parts := Split(s, sep);
      && !Contains(parts[1], sep)
      && (s == parts[0] + sep + parts[1] || StartsWith(s, parts[0] + sep + parts[1] + sep))
  {
    var parts := Split(s, sep);
    PiecesAreFree(s, sep);
    if Contains(s, sep) {
      SeparatorCuts(s, sep);
      SplitJoin(s, sep);
      JoinFirstTwo(parts, sep);
    } else {
      NoSeparatorNoCut(s, sep);
    }
  }
}
