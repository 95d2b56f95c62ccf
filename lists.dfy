/**
 * The slice helpers of the TeaGo `lists` package that the routing core calls:
 * `lists.Index`, `lists.Contains` (Dafny's `in`), `lists.Remove` (by position)
 * and the filtering and replacing rewrites done on string lists.
 */
module Lists {

  /** Position of the first occurrence of `x` in `s`, or -1 when it is absent (`lists.Index`). */
  function IndexOf<T(==)>(s: seq<T>, x: T): (i: int)
    ensures -1 <= i < |s|
    ensures i == -1 <==> x !in s
    ensures 0 <= i ==> s[i] == x && x !in s[..i]
  {
    if |s| == 0 then -1
    else if s[0] == x then 0
    else
      var j := IndexOf(s[1..], x);
      assert s[1..][..if j < 0 then 0 else j] == s[1..1 + if j < 0 then 0 else j];
      if j == -1 then -1 else j + 1
  }

  /** A position holding `x` with no earlier `x` is the one IndexOf reports. */
  lemma IndexOfAt<T>(s: seq<T>, x: T, i: nat)
    requires i < |s| && s[i] == x && x !in s[..i]
    ensures IndexOf(s, x) == i
  {
  }

  /** Appending to a list does not move the first occurrence of an element already there. */
  lemma IndexOfAppend<T>(s: seq<T>, x: T, y: T)
    ensures y in s ==> IndexOf(s + [x], y) == IndexOf(s, y)
    ensures y !in s && y == x ==> IndexOf(s + [x], y) == |s|
  {
    var t := s + [x];
    if y in s {
      var k := IndexOf(s, y);
      assert t[..k] == s[..k];
      IndexOfAt(t, y, k);
    } else if y == x {
      assert t[..|s|] == s;
      IndexOfAt(t, y, |s|);
    }
  }

  /** `s` without the element at position `i` (`lists.Remove`). */
  function RemoveAt<T>(s: seq<T>, i: nat): (r: seq<T>)
    requires i < |s|
  {
    s[..i] + s[i + 1..]
  }

  lemma RemoveAtShifts<T>(s: seq<T>, i: nat)
    requires i < |s|
    ensures |RemoveAt(s, i)| == |s| - 1
    ensures forall k :: 0 <= k < i ==> RemoveAt(s, i)[k] == s[k]
    ensures forall k :: i <= k < |s| - 1 ==> RemoveAt(s, i)[k] == s[k + 1]
    ensures multiset(RemoveAt(s, i)) + multiset{s[i]} == multiset(s)
  {
    assert s == s[..i] + [s[i]] + s[i + 1..];
  }

  lemma MultisetLast<T>(s: seq<T>)
    requires |s| > 0
    ensures multiset(s) == multiset(s[..|s| - 1]) + multiset{s[|s| - 1]}
  {
    assert s == s[..|s| - 1] + [s[|s| - 1]];
  }

  /** `n` copies of `x`. */
  function Repeat<T>(x: T, n: nat): (r: seq<T>)
    ensures |r| == n
  {
    seq(n, _ => x)
  }

  lemma RepeatContents<T>(x: T, n: nat, y: T)
    ensures multiset(Repeat(x, n))[y] == if x == y then n else 0
    ensures y in Repeat(x, n) <==> x == y && n > 0
    ensures Repeat(x, n) + [x] == Repeat(x, n + 1)
  {
    assert Repeat(x, n) + [x] == Repeat(x, n + 1);
    if n > 0 {
      assert Repeat(x, n) == Repeat(x, n - 1) + [x];
      RepeatContents(x, n - 1, y);
    }
  }

  /** `s` with every element equal to `x` dropped, keeping the order of the rest. */
  function RemoveAll<T(==)>(s: seq<T>, x: T): (r: seq<T>)
    decreases |s|
  {
    if |s| == 0 then []
    else RemoveAll(s[..|s| - 1], x) + (if s[|s| - 1] == x then [] else [s[|s| - 1]])
  }

  lemma {:induction false} RemoveAllContents<T>(s: seq<T>, x: T)
    ensures x !in RemoveAll(s, x)
    ensures forall y :: y in RemoveAll(s, x) <==> y in s && y != x
    ensures multiset(RemoveAll(s, x))[x] == 0
    ensures forall y :: y != x ==> multiset(RemoveAll(s, x))[y] == multiset(s)[y]
    decreases |s|
  {
    if |s| > 0 {
      var p := s[..|s| - 1];
      assert s == p + [s[|s| - 1]];
      RemoveAllContents(p, x);
    }
  }

  /** `s` with every element equal to `a` replaced by `b`, position by position. */
  function ReplaceAll<T(==)>(s: seq<T>, a: T, b: T): (r: seq<T>)
    decreases |s|
  {
    if |s| == 0 then []
    else ReplaceAll(s[..|s| - 1], a, b) + [if s[|s| - 1] == a then b else s[|s| - 1]]
  }

  lemma {:induction false} ReplaceAllPointwise<T>(s: seq<T>, a: T, b: T)
    ensures |ReplaceAll(s, a, b)| == |s|
    ensures forall k :: 0 <= k < |s| ==> ReplaceAll(s, a, b)[k] == if s[k] == a then b else s[k]
    decreases |s|
  {
    if |s| > 0 {
      ReplaceAllPointwise(s[..|s| - 1], a, b);
    }
  }
}
