/**
 * The string operations the codec relies on: counting a character (the length of
 * `match(/,/g)`), `String.prototype.split` on a one-character separator, and
 * joining with a separator.
 */
module Text {

  /** Number of occurrences of `c` in `s`. */
  function Count(s: string, c: char): (n: nat)
    ensures n <= |s|
    ensures n == 0 <==> c !in s
  {
    if |s| == 0 then 0 else (if s[0] == c then 1 else 0) + Count(s[1..], c)
  }

  /**
   * `s.split(sep)`: the maximal pieces of `s` free of `sep`, in order; empty pieces
   * are kept, and the empty string splits into one empty piece.
   */
  function Split(s: string, sep: char): (pieces: seq<string>)
    ensures |pieces| == Count(s, sep) + 1
    ensures forall i :: 0 <= i < |pieces| ==> sep !in pieces[i]
    decreases |s|
  {
    if |s| == 0 then [""]
    else if s[0] == sep then [""] + Split(s[1..], sep)
    else
      var rest := Split(s[1..], sep);
      [[s[0]] + rest[0]] + rest[1..]
  }

  /** The pieces written one after another with `sep` between neighbours. */
  function Join(pieces: seq<string>, sep: char): (s: string)
    decreases |pieces|
  {
    if |pieces| == 0 then ""
    else if |pieces| == 1 then pieces[0]
    else pieces[0] + [sep] + Join(pieces[1..], sep)
  }

  /** No piece contains the separator. */
  predicate Free(pieces: seq<string>, sep: char)
  {
    forall i :: 0 <= i < |pieces| ==> sep !in pieces[i]
  }

  lemma CountConcat(a: string, b: string, c: char)
    ensures Count(a + b, c) == Count(a, c) + Count(b, c)
  {
    if |a| > 0 {
      assert (a + b)[1..] == a[1..] + b;
      CountConcat(a[1..], b, c);
    } else {
      assert a + b == b;
    }
  }

  /** Joining separator-free pieces puts exactly one separator between neighbours. */
  lemma {:induction false} CountJoin(pieces: seq<string>, sep: char)
    requires |pieces| >= 1 && Free(pieces, sep)
    ensures Count(Join(pieces, sep), sep) == |pieces| - 1
  {
    if |pieces| > 1 {
      CountJoin(pieces[1..], sep);
      CountConcat(pieces[0] + [sep], Join(pieces[1..], sep), sep);
      CountConcat(pieces[0], [sep], sep);
      assert Count([sep], sep) == 1;
      assert Count(pieces[0], sep) == 0;
    }
  }

  /** Splitting prefixes a piece-free character onto the first piece. */
  lemma SplitCons(c: char, s: string, sep: char)
    requires c != sep
    ensures Split([c] + s, sep) == [[c] + Split(s, sep)[0]] + Split(s, sep)[1..]
  {
    assert ([c] + s)[1..] == s;
  }

  /** Splitting a piece that has no separator, followed by `rest`. */
  lemma {:induction false} SplitPrefix(piece: string, rest: string, sep: char)
    requires sep !in piece
    ensures Split(piece + rest, sep) ==
            [piece + Split(rest, sep)[0]] + Split(rest, sep)[1..]
  {
    if |piece| == 0 {
      var r := Split(rest, sep);
      assert piece + rest == rest;
      assert piece + r[0] == r[0];
      assert r == [r[0]] + r[1..];
    } else {
      var c, tail := piece[0], piece[1..];
      assert piece == [c] + tail;
      assert piece + rest == [c] + (tail + rest);
      SplitPrefix(tail, rest, sep);
      SplitCons(c, tail + rest, sep);
      PrefixFirst(c, tail, Split(rest, sep));
    }
  }

  // The list step of SplitPrefix, kept apart so that no Split call is unfolded in it.
  lemma PrefixFirst(c: char, tail: string, r: seq<string>)
    requires |r| >= 1
    ensures var inner := [tail + r[0]] + r[1..];
            [[c] + inner[0]] + inner[1..] == [([c] + tail) + r[0]] + r[1..]
  {
    var inner := [tail + r[0]] + r[1..];
    assert inner[0] == tail + r[0];
    assert inner[1..] == r[1..];
    assert [c] + (tail + r[0]) == ([c] + tail) + r[0];
  }

  /** `split` undoes `join` when no piece contains the separator. */
  lemma {:induction false} SplitJoin(pieces: seq<string>, sep: char)
    requires |pieces| >= 1 && Free(pieces, sep)
    ensures Split(Join(pieces, sep), sep) == pieces
  {
    if |pieces| == 1 {
      SplitPrefix(pieces[0], "", sep);
      assert pieces[0] + "" == pieces[0];
    } else {
      var tail := Join(pieces[1..], sep);
      SplitJoin(pieces[1..], sep);
      assert pieces[0] + [sep] + tail == pieces[0] + ([sep] + tail);
      SplitPrefix(pieces[0], [sep] + tail, sep);
      SplitSep(tail, sep);
      FirstEmpty(pieces);
    }
  }

  /** A leading separator ends an empty first piece. */
  lemma SplitSep(s: string, sep: char)
    ensures Split([sep] + s, sep) == [""] + Split(s, sep)
  {
    assert ([sep] + s)[1..] == s;
  }

  lemma FirstEmpty(pieces: seq<string>)
    requires |pieces| >= 1
    ensures [pieces[0] + ([""] + pieces[1..])[0]] + ([""] + pieces[1..])[1..] == pieces
  {
    assert pieces[0] + "" == pieces[0];
  }

  /** `join` undoes `split`. */
  lemma {:induction false} JoinSplit(s: string, sep: char)
    ensures Join(Split(s, sep), sep) == s
  {
    if |s| > 0 {
      JoinSplit(s[1..], sep);
      var rest := Split(s[1..], sep);
      if s[0] == sep {
        assert Split(s, sep) == [""] + rest;
        assert ([""] + rest)[1..] == rest;
        assert s == [sep] + s[1..];
      } else {
        assert Split(s, sep) == [[s[0]] + rest[0]] + rest[1..];
        JoinCons(s[0], rest, sep);
        assert s == [s[0]] + s[1..];
      }
    }
  }

  // Joining after a character is put in front of the first piece puts it in front.
  lemma JoinCons(c: char, rest: seq<string>, sep: char)
    requires |rest| >= 1
    ensures Join([[c] + rest[0]] + rest[1..], sep) == [c] + Join(rest, sep)
  {
    var p := [[c] + rest[0]] + rest[1..];
    assert p[0] == [c] + rest[0];
    assert p[1..] == rest[1..];
    if |rest| > 1 {
      assert Join(rest, sep) == rest[0] + [sep] + Join(rest[1..], sep);
    }
  }
}
