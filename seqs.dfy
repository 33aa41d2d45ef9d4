/** Array primitives of JavaScript (`indexOf`, swap-with-last removal) on sequences. */
module Seqs {

  /** `Array.prototype.indexOf` / `String.prototype.indexOf`: the first index of `x` in `s`, or -1. */
  function IndexOf<T(==)>(s: seq<T>, x: T): (i: int)
    ensures -1 <= i < |s|
    ensures i == -1 <==> x !in s
    ensures 0 <= i ==> s[i] == x && x !in s[..i]
  {
    if s == [] then -1
    else if s[0] == x then 0
    else
      var j := IndexOf(s[1..], x);
      if j < 0 then -1
      else
        assert s[..j + 1] == [s[0]] + s[1..][..j];
        j + 1
  }

  /** Overwrites slot `i` with the last element and shortens by one
      (`a[i] = a[a.length - 1]; a.length--`). */
  function SwapRemove<T>(s: seq<T>, i: nat): (r: seq<T>)
    requires i < |s|
    ensures |r| == |s| - 1
    ensures multiset(r) == multiset(s) - multiset{s[i]}
  {
    var last := |s| - 1;
    var moved := s[i := s[last]];
    assert s == s[..i] + [s[i]] + s[i + 1..];
    if i == last then
      assert moved[..last] == s[..last];
      s[..last]
    else
      assert moved == s[..i] + [s[last]] + s[i + 1..last] + [s[last]];
      assert moved[..last] == s[..i] + [s[last]] + s[i + 1..last];
      assert s == s[..i] + [s[i]] + s[i + 1..last] + [s[last]];
      moved[..last]
  }

  /** Slot by slot: the vacated slot holds the former last element, and every
      other remaining slot is unchanged. */
  lemma SwapRemoveSlots<T>(s: seq<T>, i: nat)
    requires i < |s|
    ensures forall j :: 0 <= j < |SwapRemove(s, i)| ==> SwapRemove(s, i)[j] == (if j == i then s[|s| - 1] else s[j])
  {
  }

  /** No element occurs twice: the head does not occur again in the tail,
      and the tail is itself distinct. */
  predicate Distinct<T(==)>(s: seq<T>)
  {
    |s| == 0 || (s[0] !in s[1..] && Distinct(s[1..]))
  }

  /** Distinct elements sit at distinct positions. */
  lemma {:induction false} DistinctAt<T>(s: seq<T>, i: nat, j: nat)
    requires Distinct(s) && i < j < |s|
    ensures s[i] != s[j]
  {
    if i == 0 {
      assert s[j] == s[1..][j - 1];
    } else {
      DistinctAt(s[1..], i - 1, j - 1);
    }
  }

  /** Inserting a new element anywhere keeps the elements distinct. */
  lemma {:induction false} DistinctInsert<T>(s: seq<T>, i: nat, x: T)
    requires Distinct(s) && x !in s && i <= |s|
    ensures Distinct(s[..i] + [x] + s[i..])
  {
    var r := s[..i] + [x] + s[i..];
    if i == 0 {
      assert r == [x] + s;
      assert r[1..] == s;
    } else {
      assert s == [s[0]] + s[1..];
      DistinctInsert(s[1..], i - 1, x);
      assert r == [s[0]] + (s[1..][..i - 1] + [x] + s[1..][i - 1..]);
      assert r[1..] == s[1..][..i - 1] + [x] + s[1..][i - 1..];
      assert s[1..] == s[1..][..i - 1] + s[1..][i - 1..];
      assert s[0] != x;
    }
  }

  /** Appending a new element keeps the elements distinct. */
  lemma DistinctAppend<T>(s: seq<T>, x: T)
    requires Distinct(s) && x !in s
    ensures Distinct(s + [x])
  {
    DistinctInsert(s, |s|, x);
    assert s[..|s|] + [x] + s[|s|..] == s + [x];
  }
}
