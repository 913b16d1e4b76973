/** The array operations the dashboard applies to its collections and to its
    favorites lists: `filter` by id, `indexOf`, `splice(i, 1)` and the
    favorite toggle built from them. */
module Lists {

  /** No value appears twice. */
  predicate NoDup<T(==)>(s: seq<T>) {
    forall i, j :: 0 <= i < j < |s| ==> s[i] != s[j]
  }

  /** `s.filter(x => idOf(x) !== id)`: the records whose id is not `id`. */
  function RemoveId<T(!new)>(s: seq<T>, idOf: T -> int, id: int): (r: seq<T>)
    ensures |r| <= |s|
    ensures forall x :: x in r <==> x in s && idOf(x) != id
  {
    if s == [] then []
    else
      var tail := RemoveId(s[1..], idOf, id);
      assert forall x :: x in s <==> x == s[0] || x in s[1..];
      if idOf(s[0]) != id then [s[0]] + tail else tail
  }

  /** Filtering works piece by piece, so the kept records stay in their order. */
  lemma {:induction false} RemoveIdAppend<T(!new)>(a: seq<T>, b: seq<T>, idOf: T -> int, id: int)
    ensures RemoveId(a + b, idOf, id) == RemoveId(a, idOf, id) + RemoveId(b, idOf, id)
  {
    if a == [] {
      assert a + b == b;
    } else {
      assert (a + b)[1..] == a[1..] + b;
      RemoveIdAppend(a[1..], b, idOf, id);
    }
  }

  /** Filtering a list that has no record with `id` leaves it as it is. */
  lemma {:induction false} RemoveIdAbsent<T(!new)>(s: seq<T>, idOf: T -> int, id: int)
    requires forall x :: x in s ==> idOf(x) != id
    ensures RemoveId(s, idOf, id) == s
  {
    if s != [] {
      assert forall x :: x in s[1..] ==> x in s;
      RemoveIdAbsent(s[1..], idOf, id);
    }
  }

  /** Deleting a record just prepended restores the list it was added to,
      when no record there had its id. */
  lemma RemoveIdUndoesPrepend<T(!new)>(x: T, s: seq<T>, idOf: T -> int)
    requires forall y :: y in s ==> idOf(y) != idOf(x)
    ensures RemoveId([x] + s, idOf, idOf(x)) == s
  {
    assert ([x] + s)[1..] == s;
    RemoveIdAbsent(s, idOf, idOf(x));
  }

  /** `s.indexOf(x)`: the first index holding `x`, or -1. */
  function IndexOf<T(==)>(s: seq<T>, x: T): (r: int)
    ensures r == -1 <==> x !in s
    ensures 0 <= r ==> r < |s| && s[r] == x && x !in s[..r]
  {
    if s == [] then -1
    else if s[0] == x then 0
    else
      var k := IndexOf(s[1..], x);
      assert k >= 0 ==> s[..k + 1] == [s[0]] + s[1..][..k];
      if k < 0 then -1 else k + 1
  }

  /** `const i = s.indexOf(x); if (i > -1) s.splice(i, 1)`. */
  function RemoveFirst<T(==)>(s: seq<T>, x: T): seq<T> {
    var i := IndexOf(s, x);
    if i > -1 then s[..i] + s[i + 1..] else s
  }

  /** Removing the first `x`: nothing changes when `x` is absent; otherwise
      putting `x` back in front of the first position it could not hold
      rebuilds the list. */
  lemma RemoveFirstSpec<T>(s: seq<T>, x: T)
    ensures x !in s ==> RemoveFirst(s, x) == s
    ensures x in s ==>
      var r := RemoveFirst(s, x);
      var i := IndexOf(s, x);
      |r| == |s| - 1 && s == r[..i] + [x] + r[i..] && x !in r[..i]
  {
    if x in s {
      var i := IndexOf(s, x);
      var r := RemoveFirst(s, x);
      assert r[..i] == s[..i];
      assert r[i..] == s[i + 1..];
      assert s == s[..i] + [s[i]] + s[i + 1..];
    }
  }

  /** On a duplicate-free list the first `x` is the only one: afterwards no
      `x` is left, the list is still duplicate-free, and exactly one `x`
      has gone from the ids it holds. */
  lemma RemoveFirstNoDup<T>(s: seq<T>, x: T)
    requires NoDup(s)
    ensures NoDup(RemoveFirst(s, x))
    ensures x !in RemoveFirst(s, x)
    ensures multiset(RemoveFirst(s, x)) == multiset(s) - multiset{x}
  {
    var i := IndexOf(s, x);
    var r := RemoveFirst(s, x);
    if i > -1 {
      assert forall k :: 0 <= k < i ==> r[k] == s[k];
      assert forall k :: i <= k < |r| ==> r[k] == s[k + 1];
      forall a, b | 0 <= a < b < |r|
        ensures r[a] != r[b]
      {
        assert r[a] == s[if a < i then a else a + 1];
        assert r[b] == s[if b < i then b else b + 1];
      }
      forall k | 0 <= k < |r|
        ensures r[k] != x
      {
        assert r[k] == s[if k < i then k else k + 1];
      }
      RemoveAtMultiset(s, i);
    } else {
      assert multiset(s)[x] == 0;
    }
  }

  /** Cutting out the element at `i` takes exactly that element out of the multiset. */
  lemma RemoveAtMultiset<T>(s: seq<T>, i: nat)
    requires i < |s|
    ensures multiset(s[..i] + s[i + 1..]) == multiset(s) - multiset{s[i]}
  {
    assert s == s[..i] + [s[i]] + s[i + 1..];
    assert multiset(s) == multiset(s[..i]) + multiset{s[i]} + multiset(s[i + 1..]);
  }

  /** The favorite toggle (`addToFavorites`): append `x` when it is absent,
      otherwise remove its first occurrence. */
  function Toggle<T(==)>(s: seq<T>, x: T): seq<T> {
    if x !in s then s + [x] else RemoveFirst(s, x)
  }

  /** Toggling an absent id appends it at the end; toggling a present id
      removes its first occurrence and keeps the rest in order. */
  lemma ToggleSpec<T>(s: seq<T>, x: T)
    ensures x !in s ==> Toggle(s, x) == s + [x]
    ensures x in s ==>
      var i := IndexOf(s, x);
      s == Toggle(s, x)[..i] + [x] + Toggle(s, x)[i..]
  {
    RemoveFirstSpec(s, x);
  }

  /** Toggling an absent id twice gives back exactly the list it started from. */
  lemma ToggleTwiceAbsent<T>(s: seq<T>, x: T)
    requires x !in s
    ensures Toggle(Toggle(s, x), x) == s
  {
    var t := s + [x];
    assert x in t;
    IndexOfLast(s, x);
    assert t[..|s|] == s;
  }

  /** In `s + [x]` with `x` absent from `s`, the first `x` is the last element. */
  lemma IndexOfLast<T>(s: seq<T>, x: T)
    requires x !in s
    ensures IndexOf(s + [x], x) == |s|
  {
  }

  /** On a duplicate-free list, toggling keeps it duplicate-free and flips
      whether `x` is a member; toggling twice gives back the same ids. */
  lemma ToggleNoDup<T>(s: seq<T>, x: T)
    requires NoDup(s)
    ensures NoDup(Toggle(s, x))
    ensures x in Toggle(s, x) <==> x !in s
    ensures multiset(Toggle(Toggle(s, x), x)) == multiset(s)
  {
    if x !in s {
      AppendAbsentNoDup(s, x);
      ToggleTwiceAbsent(s, x);
    } else {
      RemoveFirstNoDup(s, x);
      var r := RemoveFirst(s, x);
      assert Toggle(r, x) == r + [x];
      assert multiset(r + [x]) == multiset(r) + multiset{x};
    }
  }

  /** Appending a value that is absent keeps a list duplicate-free. */
  lemma AppendAbsentNoDup<T>(s: seq<T>, x: T)
    requires NoDup(s) && x !in s
    ensures NoDup(s + [x])
  {
    var t := s + [x];
    forall i, j | 0 <= i < j < |t|
      ensures t[i] != t[j]
    {
      if j == |s| {
        assert t[i] == s[i];
      }
    }
  }
}
