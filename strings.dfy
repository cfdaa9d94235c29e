/** Splitting and joining strings on a one-character separator, with the
    semantics of JavaScript's `String.prototype.split(sep)` and
    `Array.prototype.join(sep)` for a separator of length one. */
module Strings {

  /** The pieces of `s` between occurrences of `c`, in order; empty pieces are
      kept, so `Split("", c) == [""]` and `Split([c], c) == ["", ""]`. */
  function Split(s: string, c: char): (r: seq<string>)
    ensures |r| >= 1
    ensures forall i :: 0 <= i < |r| ==> c !in r[i]
    ensures r[0] <= s
    ensures |r[0]| < |s| ==> s[|r[0]|] == c
    ensures c !in s ==> r == [s]
    decreases |s|
  {
    if s == [] then [""]
    else
      var rest := Split(s[1..], c);
      if s[0] == c then [""] + rest
      else
        assert [s[0]] + s[1..] == s;
        [[s[0]] + rest[0]] + rest[1..]
  }

  /** The pieces glued back together with `c` between neighbours. */
  function Join(pieces: seq<string>, c: char): string
    decreases |pieces|
  {
    if |pieces| == 0 then ""
    else if |pieces| == 1 then pieces[0]
    else pieces[0] + [c] + Join(pieces[1..], c)
  }

  /** Joining the pieces of a split gives back the original string. */
  lemma {:induction false} JoinSplit(s: string, c: char)
    ensures Join(Split(s, c), c) == s
    decreases |s|
  {
    if s != [] {
      var rest := Split(s[1..], c);
      JoinSplit(s[1..], c);
      if s[0] == c {
        JoinCons("", rest, c);
        assert s == [c] + s[1..];
      } else {
        JoinExtend(s[0], rest, c);
        assert s == [s[0]] + s[1..];
      }
    }
  }

  /** Joining a piece in front of a non-empty list puts `c` between them. */
  lemma JoinCons(p: string, rest: seq<string>, c: char)
    requires |rest| >= 1
    ensures Join([p] + rest, c) == p + [c] + Join(rest, c)
  {
    assert ([p] + rest)[1..] == rest;
  }

  /** Prepending a character to the first piece prepends it to the join. */
  lemma JoinExtend(ch: char, rest: seq<string>, c: char)
    requires |rest| >= 1
    ensures Join([[ch] + rest[0]] + rest[1..], c) == [ch] + Join(rest, c)
  {
    if |rest| > 1 {
      JoinCons([ch] + rest[0], rest[1..], c);
      JoinCons(rest[0], rest[1..], c);
      assert [rest[0]] + rest[1..] == rest;
    }
  }

  /** A piece free of `c`, then `c`, then anything, splits into that piece
      followed by the split of the remainder. */
  lemma {:induction false} SplitAfter(a: string, b: string, c: char)
    requires c !in a
    ensures Split(a + [c] + b, c) == [a] + Split(b, c)
    decreases |a|
  {
    var s := a + [c] + b;
    if a == [] {
      assert s == [c] + b;
      SplitAtSeparator(c, b);
    } else {
      assert s == [a[0]] + (a[1..] + [c] + b);
      SplitAfter(a[1..], b, c);
      SplitAtOther(a[0], a[1..] + [c] + b, c);
      assert [a[0]] + a[1..] == a;
    }
  }

  /** One step of `Split`: a leading separator starts a new, empty piece. */
  lemma SplitAtSeparator(c: char, t: string)
    ensures Split([c] + t, c) == [""] + Split(t, c)
  {
    assert ([c] + t)[1..] == t;
  }

  /** One step of `Split`: any other leading character joins the first piece. */
  lemma SplitAtOther(ch: char, t: string, c: char)
    requires ch != c
    ensures Split([ch] + t, c) == [[ch] + Split(t, c)[0]] + Split(t, c)[1..]
  {
    assert ([ch] + t)[1..] == t;
  }

  /** Splitting undoes joining, for a non-empty list of pieces free of `c`. */
  lemma {:induction false} SplitJoin(pieces: seq<string>, c: char)
    requires |pieces| >= 1
    requires forall i :: 0 <= i < |pieces| ==> c !in pieces[i]
    ensures Split(Join(pieces, c), c) == pieces
    decreases |pieces|
  {
    if |pieces| > 1 {
      SplitJoin(pieces[1..], c);
      SplitAfter(pieces[0], Join(pieces[1..], c), c);
      assert [pieces[0]] + pieces[1..] == pieces;
    }
  }

  /** Splitting two, three or four pieces free of `c` joined by `c`. */
  lemma {:induction false} SplitTwo(a: string, b: string, c: char)
    requires c !in a && c !in b
    ensures Split(a + [c] + b, c) == [a, b]
  {
    SplitAfter(a, b, c);
  }

  lemma {:induction false} SplitThree(a: string, b: string, d: string, c: char)
    requires c !in a && c !in b && c !in d
    ensures Split(a + [c] + b + [c] + d, c) == [a, b, d]
  {
    RegroupThree(a, b, d, c);
    SplitAfter(a, b + [c] + d, c);
    SplitTwo(b, d, c);
  }

  lemma {:induction false} SplitFour(a: string, b: string, d: string, e: string, c: char)
    requires c !in a && c !in b && c !in d && c !in e
    ensures Split(a + [c] + b + [c] + d + [c] + e, c) == [a, b, d, e]
  {
    RegroupFour(a, b, d, e, c);
    SplitAfter(a, b + [c] + d + [c] + e, c);
    SplitThree(b, d, e, c);
  }

  /** The first piece and separator split off the front of a concatenation. */
  lemma RegroupThree(a: string, b: string, d: string, c: char)
    ensures a + [c] + b + [c] + d == a + [c] + (b + [c] + d)
  {
  }

  lemma RegroupFour(a: string, b: string, d: string, e: string, c: char)
    ensures a + [c] + b + [c] + d + [c] + e == a + [c] + (b + [c] + d + [c] + e)
  {
  }
}
