/** Substring search and the two pieces of JavaScript's `String.prototype.split`
    that the dashboard uses: `s.split(sep)[0]` and `s.split(sep)[1]`.
    JavaScript strings are sequences of UTF-16 code units; here they are
    `seq<char>`, one `char` per code unit. */
module Text {

  /** `p` occurs in `s` starting at index `i`. */
  predicate OccursAt(s: string, p: string, i: int) {
    0 <= i && i + |p| <= |s| && s[i..i + |p|] == p
  }

  /** An occurrence in `s[1..]` is an occurrence in `s`, one index later. */
  lemma ShiftOccurrence(s: string, p: string)
    requires |s| > 0
    ensures forall j :: 1 <= j ==> (OccursAt(s, p, j) <==> OccursAt(s[1..], p, j - 1))
  {
    forall j | 1 <= j
      ensures OccursAt(s, p, j) <==> OccursAt(s[1..], p, j - 1)
    {
      if j + |p| <= |s| {
        assert s[1..][j - 1..j - 1 + |p|] == s[j..j + |p|];
      }
    }
  }

  /** `s.indexOf(p)`: the first index at which `p` occurs in `s`, or -1. */
  function IndexOf(s: string, p: string): (r: int)
    ensures -1 <= r <= |s|
    ensures r >= 0 ==> OccursAt(s, p, r)
    ensures forall j :: 0 <= j && (r < 0 || j < r) ==> !OccursAt(s, p, j)
    decreases |s|
  {
    if |p| > |s| then -1
    else if s[..|p|] == p then 0
    else
      var k := IndexOf(s[1..], p);
      ShiftOccurrence(s, p);
      if k < 0 then -1 else k + 1
  }

  /** `s.includes(p)`. */
  function Contains(s: string, p: string): (r: bool)
    ensures r <==> exists i :: OccursAt(s, p, i)
  {
    IndexOf(s, p) >= 0
  }

  /** An occurrence inside a prefix of `s` is an occurrence in `s`. */
  lemma PrefixOccurrence(s: string, p: string, n: nat)
    requires n <= |s|
    ensures forall j :: OccursAt(s[..n], p, j) ==> OccursAt(s, p, j)
  {
    forall j | OccursAt(s[..n], p, j)
      ensures OccursAt(s, p, j)
    {
      assert s[..n][j..j + |p|] == s[j..j + |p|];
    }
  }

  /** Splitting the third of four pieces in two. */
  lemma Regroup(s: string, a: string, b: string, c: string, d: string, c1: string, c2: string)
    requires s == a + b + c + d && c == c1 + c2
    ensures s == a + b + c1 + (c2 + d)
  {
  }

  /** Splitting the third of four pieces, when the fourth is empty or
      starts with `p` and the second half of the split is empty or starts with `q`. */
  lemma RegroupTails(s: string, a: string, b: string, c: string, d: string, c1: string, c2: string, p: string, q: string)
    requires s == a + b + c + d && c == c1 + c2
    requires d == [] || p <= d
    requires c2 == [] || q <= c2
    ensures s == a + b + c1 + (c2 + d)
    ensures c2 + d == [] || q <= c2 + d || p <= c2 + d
  {
    if c2 != [] {
      assert (c2 + d)[..|q|] == c2[..|q|];
    } else {
      assert c2 + d == d;
    }
  }

  /** An occurrence right after `x` in `x + y` starts `y`, and so `y + z`. */
  lemma OccurrenceStartsRest(x: string, y: string, p: string, z: string)
    requires OccursAt(x + y, p, |x|)
    ensures p <= y + z
  {
    assert (x + y)[|x|..|x| + |p|] == y[..|p|];
    assert (y + z)[..|p|] == y[..|p|];
  }

  /** A prefix of a string without `p` has no `p` either. */
  lemma NoOccurrenceInPrefix(r: string, s: string, p: string)
    requires r <= s && !Contains(s, p)
    ensures !Contains(r, p)
  {
    PrefixOccurrence(s, p, |r|);
    assert s[..|r|] == r;
  }

  /** An occurrence of `q` inside an occurrence of `p` is an occurrence of `q` in `s`. */
  lemma NestedOccurrence(s: string, p: string, q: string, i: int, j: int)
    requires OccursAt(s, p, i) && OccursAt(p, q, j)
    ensures OccursAt(s, q, i + j)
  {
    forall k | 0 <= k < |q|
      ensures s[i + j + k] == q[k]
    {
      assert s[i..i + |p|][j + k] == p[j + k];
      assert p[j..j + |q|][k] == q[k];
    }
  }

  /** `s.split(sep)[0]`: the text before the first `sep`, or all of `s`;
      no separator starts inside it, not even one that overlaps its end. */
  function Before(s: string, sep: string): (r: string)
    requires |sep| > 0
    ensures r <= s
    ensures !Contains(r, sep)
    ensures r == s || OccursAt(s, sep, |r|)
    ensures forall j :: 0 <= j < |r| ==> !OccursAt(s, sep, j)
  {
    var i := IndexOf(s, sep);
    if i < 0 then s
    else
      PrefixOccurrence(s, sep, i);
      s[..i]
  }

  /** `Before`'s contract pins it down: any prefix of `s` inside which no
      separator starts, and which is all of `s` or is followed by a
      separator, is `Before(s, sep)`. */
  lemma BeforeUnique(s: string, sep: string, r: string)
    requires |sep| > 0 && r <= s
    requires forall j :: 0 <= j < |r| ==> !OccursAt(s, sep, j)
    requires r == s || OccursAt(s, sep, |r|)
    ensures r == Before(s, sep)
  {
    var b := Before(s, sep);
    if |r| == |b| {
      assert r == s[..|r|] == b;
    }
  }

  /** The text after the first `sep` (the rest of the string, separators included). */
  function After(s: string, sep: string): (r: string)
    requires |sep| > 0 && Contains(s, sep)
    ensures s == Before(s, sep) + sep + r
  {
    var i := IndexOf(s, sep);
    assert s == s[..i] + s[i..i + |sep|] + s[i + |sep|..];
    s[i + |sep|..]
  }

  /** `s.split(sep)[1]`: the text between the first and the second `sep`
      (or to the end when there is no second one); no separator starts
      inside it, not even one that runs on past its end. */
  function SplitSecond(s: string, sep: string): (r: string)
    requires |sep| > 0 && Contains(s, sep)
    ensures !Contains(r, sep) && |r| < |s|
    ensures forall j :: 0 <= j < |r| ==> !OccursAt(After(s, sep), sep, j)
  {
    Before(After(s, sep), sep)
  }

  /** `Before` leaves a tail that is empty or starts with the separator. */
  lemma BeforeTail(s: string, sep: string) returns (tail: string)
    requires |sep| > 0
    ensures s == Before(s, sep) + tail
    ensures tail == [] || sep <= tail
  {
    var head := Before(s, sep);
    tail := s[|head|..];
    assert s == head + tail;
    if tail != [] {
      OccurrenceStartsRest(head, tail, sep, []);
      assert tail + [] == tail;
    }
  }

  /** `SplitSecond` characterised: `s` is the text before the first
      separator, the separator, the piece, then either nothing or a
      separator; no separator starts inside the piece, even one that runs
      on into the rest. */
  lemma SplitSecondShape(s: string, sep: string) returns (rest: string)
    requires |sep| > 0 && Contains(s, sep)
    ensures s == Before(s, sep) + sep + SplitSecond(s, sep) + rest
    ensures After(s, sep) == SplitSecond(s, sep) + rest
    ensures rest == [] || sep <= rest
    ensures forall j :: 0 <= j < |SplitSecond(s, sep)| ==> !OccursAt(SplitSecond(s, sep) + rest, sep, j)
  {
    var a := After(s, sep);
    rest := BeforeTail(a, sep);
    Regroup(s, Before(s, sep), sep, a, [], Before(a, sep), rest);
  }

  /** `SplitSecondShape` pins the piece down: whatever follows the first
      separator, split as a piece inside which no separator starts and a
      rest that is empty or starts with a separator, has `split(sep)[1]`
      as its piece. */
  lemma SplitSecondUnique(s: string, sep: string, r: string, rest: string)
    requires |sep| > 0 && Contains(s, sep)
    requires s == Before(s, sep) + sep + r + rest
    requires forall j :: 0 <= j < |r| ==> !OccursAt(r + rest, sep, j)
    requires rest == [] || sep <= rest
    ensures r == SplitSecond(s, sep)
  {
    CancelPrefix(s, Before(s, sep) + sep, After(s, sep), r, rest);
    if rest != [] {
      OccursAtJoin(r, rest, sep);
    }
    BeforeUnique(r + rest, sep, r);
  }

  /** Two splittings of `s` after the same prefix agree on what follows it. */
  lemma CancelPrefix(s: string, p: string, a: string, b: string, c: string)
    requires s == p + a && s == p + b + c
    ensures a == b + c
  {
    assert a == s[|p|..];
    assert b + c == s[|p|..];
  }

  /** A separator that starts `y` occurs in `x + y` right after `x`. */
  lemma OccursAtJoin(x: string, y: string, p: string)
    requires p <= y
    ensures OccursAt(x + y, p, |x|)
  {
    assert (x + y)[|x|..|x| + |p|] == y[..|p|];
  }

  /** The first occurrence inside a prefix stays the first occurrence in the whole. */
  lemma IndexOfExtend(a: string, b: string, p: string)
    requires IndexOf(a, p) >= 0
    ensures IndexOf(a + b, p) == IndexOf(a, p)
  {
    var i := IndexOf(a, p);
    assert (a + b)[i..i + |p|] == a[i..i + |p|];
    assert OccursAt(a + b, p, i);
    var k := IndexOf(a + b, p);
    if k < i {
      assert OccursAt(a + b, p, k);
      assert (a + b)[k..k + |p|] == a[k..k + |p|];
      assert OccursAt(a, p, k);
    }
  }

  /** `p` occurs in any string built around it. */
  lemma ContainsMiddle(a: string, p: string, b: string)
    ensures Contains(a + p + b, p)
  {
    assert OccursAt(a + p + b, p, |a|) by {
      assert (a + p + b)[|a|..|a| + |p|] == p;
    }
  }
}
