/** Python string helpers the core relies on: `sep.join(parts)`,
    `str.count(ch)` and `str.split(ch)` for a one-character separator. */
module Text {

  /** Number of occurrences of `c` in `s` (Python `s.count(c)`). */
  function Count(s: string, c: char): (n: nat)
    ensures n <= |s|
  {
    if |s| == 0 then 0 else (if s[0] == c then 1 else 0) + Count(s[1..], c)
  }

  /** Sum of the lengths of the parts. */
  function TotalLength(xs: seq<string>): nat
  {
    if |xs| == 0 then 0 else |xs[0]| + TotalLength(xs[1..])
  }

  /** Python `sep.join(xs)`. */
  function Join(xs: seq<string>, sep: string): string
  {
    if |xs| == 0 then ""
    else if |xs| == 1 then xs[0]
    else xs[0] + sep + Join(xs[1..], sep)
  }

  /** Python `s.split(c)` for a single-character separator: the maximal
      pieces between occurrences of `c`, always at least one. */
  function Split(s: string, c: char): (parts: seq<string>)
    ensures |parts| >= 1
  {
    if |s| == 0 then [""]
    else
      var rest := Split(s[1..], c);
      if s[0] == c then [""] + rest
      else [[s[0]] + rest[0]] + rest[1..]
  }

  /** No part contains the separator character. */
  predicate NoSeparator(parts: seq<string>, c: char)
  {
    forall i :: 0 <= i < |parts| ==> c !in parts[i]
  }

  lemma {:induction false} CountAppend(a: string, b: string, c: char)
    ensures Count(a + b, c) == Count(a, c) + Count(b, c)
  {
    if |a| == 0 {
      assert a + b == b;
    } else {
      assert (a + b)[1..] == a[1..] + b;
      CountAppend(a[1..], b, c);
    }
  }

  /** A string without `c` has no occurrence of it, and conversely. */
  lemma {:induction false} CountZero(s: string, c: char)
    ensures Count(s, c) == 0 <==> c !in s
  {
    if |s| > 0 {
      CountZero(s[1..], c);
      assert s == [s[0]] + s[1..];
    }
  }

  /** Joining `n >= 1` parts adds the separator `n - 1` times. */
  lemma {:induction false} JoinLength(xs: seq<string>, sep: string)
    requires |xs| >= 1
    ensures |Join(xs, sep)| == TotalLength(xs) + |sep| * (|xs| - 1)
  {
    if |xs| > 1 {
      JoinLength(xs[1..], sep);
    }
  }

  /** Appending one more part appends the separator and the part. */
  lemma {:induction false} JoinSnoc(xs: seq<string>, x: string, sep: string)
    requires |xs| >= 1
    ensures Join(xs + [x], sep) == Join(xs, sep) + sep + x
  {
    if |xs| == 1 {
      assert (xs + [x])[1..] == [x];
    } else {
      assert (xs + [x])[1..] == xs[1..] + [x];
      JoinSnoc(xs[1..], x, sep);
    }
  }

  /** Python: `len(s.split(c)) == s.count(c) + 1`. */
  lemma {:induction false} SplitCount(s: string, c: char)
    ensures |Split(s, c)| == Count(s, c) + 1
  {
    if |s| > 0 {
      SplitCount(s[1..], c);
    }
  }

  /** No piece of a split contains the separator. */
  lemma {:induction false} SplitNoSeparator(s: string, c: char)
    ensures NoSeparator(Split(s, c), c)
  {
    if |s| > 0 {
      SplitNoSeparator(s[1..], c);
      var rest := Split(s[1..], c);
      if s[0] != c {
        assert c !in [s[0]] + rest[0];
      }
    }
  }

  /** Re-joining the pieces with the separator gives back the string. */
  lemma {:induction false} JoinSplit(s: string, c: char)
    ensures Join(Split(s, c), [c]) == s
  {
    if |s| > 0 {
      JoinSplit(s[1..], c);
      var rest := Split(s[1..], c);
      if s[0] == c {
        assert ([""] + rest)[1..] == rest;
        if |rest| == 1 {
          assert Join([""] + rest, [c]) == "" + [c] + rest[0];
        }
      } else {
        var head := [s[0]] + rest[0];
        assert ([head] + rest[1..])[1..] == rest[1..];
        if |rest| == 1 {
          assert [head] + rest[1..] == [head];
        } else {
          assert Join(rest, [c]) == rest[0] + [c] + Join(rest[1..], [c]);
        }
      }
    }
  }

  /** Split is the only decomposition into separator-free pieces: joining
      such pieces and splitting again returns exactly those pieces. */
  lemma {:induction false} SplitJoin(parts: seq<string>, c: char)
    requires |parts| >= 1
    requires NoSeparator(parts, c)
    ensures Split(Join(parts, [c]), c) == parts
  {
    if |parts| == 1 {
      SplitOfPiece(parts[0], c, []);
      assert parts[0] + [] == parts[0];
    } else {
      SplitJoin(parts[1..], c);
      var tail := Join(parts[1..], [c]);
      assert Join(parts, [c]) == parts[0] + ([c] + tail);
      assert Split([c] + tail, c) == [""] + parts[1..] by {
        assert ([c] + tail)[1..] == tail;
      }
      SplitOfPiece(parts[0], c, [c] + tail);
      assert parts[0] + "" == parts[0];
      assert parts == [parts[0]] + parts[1..];
    }
  }

  /** Splitting `piece + rest` where `piece` has no separator glues `piece`
      onto the first part of `rest`'s split. */
  lemma {:induction false} SplitOfPiece(piece: string, c: char, rest: string)
    requires c !in piece
    ensures Split(piece + rest, c) == [piece + Split(rest, c)[0]] + Split(rest, c)[1..]
  {
    if |piece| == 0 {
      assert piece + rest == rest;
      assert piece + Split(rest, c)[0] == Split(rest, c)[0];
      assert Split(rest, c) == [Split(rest, c)[0]] + Split(rest, c)[1..];
    } else {
      assert (piece + rest)[1..] == piece[1..] + rest;
      assert (piece + rest)[0] == piece[0];
      SplitOfPiece(piece[1..], c, rest);
      assert [piece[0]] + (piece[1..] + Split(rest, c)[0]) == piece + Split(rest, c)[0] by {
        assert piece == [piece[0]] + piece[1..];
      }
    }
  }
}
