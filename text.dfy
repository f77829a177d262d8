/** String helpers standing in for the PHP built-ins the SQL builder relies on:
    `implode`, `substr($s, 0, -1)`, and the splitting used to read a list back. */
module Text {

  /** PHP's `implode(sep, xs)`: the items in order, with `sep` between neighbours. */
  function Join(sep: string, xs: seq<string>): string
    decreases |xs|
  {
    if |xs| == 0 then ""
    else if |xs| == 1 then xs[0]
    else xs[0] + sep + Join(sep, xs[1..])
  }

  /** PHP's `substr($s, 0, -1)`: drops the last character; the empty string stays empty. */
  function DropLast(s: string): (r: string)
    ensures |s| > 0 ==> s == r + [s[|s| - 1]]
    ensures |s| == 0 ==> r == ""
  {
    if |s| == 0 then "" else s[..|s| - 1]
  }

  /** `w` occurs in `s` starting at index `i`. */
  predicate OccursAt(s: string, w: string, i: nat)
  {
    i + |w| <= |s| && s[i..i + |w|] == w
  }

  /** `w` occurs somewhere in `s` (what an unanchored pattern looks for). */
  predicate Contains(s: string, w: string)
  {
    exists i: nat | i <= |s| :: OccursAt(s, w, i)
  }

  /** Cuts `s` at every occurrence of `sep`, scanning from the left. */
  function Split(s: string, sep: string): (r: seq<string>)
    requires |sep| > 0
    ensures |r| > 0
    decreases |s|
  {
    if |sep| <= |s| && s[..|sep|] == sep then [""] + Split(s[|sep|..], sep)
    else if s == [] then [""]
    else
      var rest := Split(s[1..], sep);
      [[s[0]] + rest[0]] + rest[1..]
  }

  /** Appending one more item to a join adds exactly one separator (none for the first item). */
  lemma {:induction false} JoinSnoc(sep: string, xs: seq<string>, x: string)
    ensures Join(sep, xs + [x]) == Join(sep, xs) + (if xs == [] then "" else sep) + x
    decreases |xs|
  {
    if |xs| == 0 {
      assert xs + [x] == [x];
    } else if |xs| == 1 {
      assert (xs + [x])[1..] == [x];
    } else {
      assert (xs + [x])[1..] == xs[1..] + [x];
      JoinSnoc(sep, xs[1..], x);
    }
  }

  /** Appending two more items to a non-empty join adds a separator before each. */
  lemma JoinPair(sep: string, xs: seq<string>, a: string, b: string)
    requires xs != []
    ensures Join(sep, xs + [a, b]) == Join(sep, xs) + (sep + a + sep + b)
  {
    JoinSnoc(sep, xs, a);
    JoinSnoc(sep, xs + [a], b);
    assert xs + [a] + [b] == xs + [a, b];
  }

  /** Building a list with a trailing separator after every item and then
      dropping the last character yields the join of the items. */
  lemma {:induction false} DropLastTerminated(sep: char, xs: seq<string>)
    ensures DropLast(Join([sep], xs) + (if xs == [] then "" else [sep])) == Join([sep], xs)
  {
    if xs != [] {
      var s := Join([sep], xs) + [sep];
      assert s[..|s| - 1] == Join([sep], xs);
    }
  }

  /** A piece free of the separator's first character is split off whole. */
  lemma {:induction false} SplitPiece(x: string, sep: string, t: string)
    requires |sep| > 0 && sep[0] !in x
    ensures Split(x + sep + t, sep) == [x] + Split(t, sep)
    decreases |x|
  {
    var s := x + sep + t;
    if x == [] {
      assert s == sep + t;
      assert s[..|sep|] == sep;
      assert s[|sep|..] == t;
    } else {
      assert s[0] == x[0] != sep[0];
      assert s[1..] == x[1..] + sep + t;
      SplitPiece(x[1..], sep, t);
      assert [x[0]] + x[1..] == x;
    }
  }

  /** A string free of the separator's first character does not split at all. */
  lemma {:induction false} SplitWhole(x: string, sep: string)
    requires |sep| > 0 && sep[0] !in x
    ensures Split(x, sep) == [x]
    decreases |x|
  {
    if x != [] {
      assert x[0] != sep[0];
      SplitWhole(x[1..], sep);
      assert [x[0]] + x[1..] == x;
    }
  }

  /** Splitting a join gives the items back when no item contains the
      separator's first character: the joined list is unambiguous. */
  lemma {:induction false} SplitJoin(sep: string, xs: seq<string>)
    requires |sep| > 0 && |xs| > 0
    requires forall i | 0 <= i < |xs| :: sep[0] !in xs[i]
    ensures Split(Join(sep, xs), sep) == xs
    decreases |xs|
  {
    if |xs| == 1 {
      SplitWhole(xs[0], sep);
    } else {
      SplitJoin(sep, xs[1..]);
      SplitPiece(xs[0], sep, Join(sep, xs[1..]));
      assert [xs[0]] + xs[1..] == xs;
    }
  }

  /** A character that occurs neither in the separator nor in any item does
      not occur in their join. */
  lemma {:induction false} JoinAvoids(c: char, sep: string, xs: seq<string>)
    requires c !in sep
    requires forall i | 0 <= i < |xs| :: c !in xs[i]
    ensures c !in Join(sep, xs)
    decreases |xs|
  {
    if |xs| > 1 {
      JoinAvoids(c, sep, xs[1..]);
    }
  }

  /** The part of `s` before the first occurrence of `c` (all of `s` if none). */
  function Before(s: string, c: char): (r: string)
    ensures |r| <= |s|
    decreases |s|
  {
    if s == [] || s[0] == c then "" else [s[0]] + Before(s[1..], c)
  }

  /** Reading up to the first `c` recovers a prefix that is free of `c`. */
  lemma {:induction false} BeforeFirst(a: string, c: char, b: string)
    requires c !in a
    ensures Before(a + [c] + b, c) == a
    decreases |a|
  {
    if a == [] {
      assert (a + [c] + b)[0] == c;
    } else {
      assert (a + [c] + b)[1..] == a[1..] + [c] + b;
      BeforeFirst(a[1..], c, b);
      assert [a[0]] + a[1..] == a;
    }
  }
}
