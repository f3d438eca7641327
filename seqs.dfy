/** The Python list operations the backend relies on: membership without
    duplicates, the position of an element, `list.remove` (which removes the
    first occurrence) and `list.reverse`. */
module Seqs {

  predicate NoDup<T(==)>(s: seq<T>)
  {
    forall i, j :: 0 <= i < j < |s| ==> s[i] != s[j]
  }

  /** The first position of `x` in `s`. */
  function IndexOf<T(==)>(s: seq<T>, x: T): (i: nat)
    requires x in s
    ensures i < |s| && s[i] == x
    ensures x !in s[..i]
  {
    if s[0] == x then 0
    else
      assert s == [s[0]] + s[1..];
      var k := IndexOf(s[1..], x);
      assert s[..k + 1] == [s[0]] + s[1..][..k];
      1 + k
  }

  /** In a list without duplicates, an element's position is where it is. */
  lemma IndexOfUnique<T>(s: seq<T>, i: nat)
    requires NoDup(s) && i < |s|
    ensures IndexOf(s, s[i]) == i
  {
  }

  /** Appending to a list without duplicates keeps every earlier element's
      position, and the appended one sits at the end. */
  lemma IndexOfInit<T>(s: seq<T>)
    requires NoDup(s) && |s| > 0
    ensures IndexOf(s, s[|s| - 1]) == |s| - 1
    ensures forall x | x in s[..|s| - 1] :: IndexOf(s, x) == IndexOf(s[..|s| - 1], x)
  {
    IndexOfUnique(s, |s| - 1);
    var init := s[..|s| - 1];
    forall x | x in init ensures IndexOf(s, x) == IndexOf(init, x) {
      var k := IndexOf(init, x);
      assert s[k] == init[k] == x;
      IndexOfUnique(s, k);
    }
  }

  /** Entries keyed by ids without repeats, in the order of all ids but the
      last, followed by at most one entry for the last id, are in the
      order of all the ids. */
  lemma OrderedAppend<T>(ids: seq<int>, prefix: seq<T>, tail: seq<T>, key: T -> int)
    requires NoDup(ids) && |ids| > 0
    requires forall e :: e in prefix ==> key(e) in ids[..|ids| - 1]
    requires forall i, j :: 0 <= i < j < |prefix| ==>
      IndexOf(ids[..|ids| - 1], key(prefix[i])) < IndexOf(ids[..|ids| - 1], key(prefix[j]))
    requires |tail| <= 1 && forall e :: e in tail ==> key(e) == ids[|ids| - 1]
    ensures forall e :: e in prefix + tail ==> key(e) in ids
    ensures forall i, j :: 0 <= i < j < |prefix + tail| ==>
      IndexOf(ids, key((prefix + tail)[i])) < IndexOf(ids, key((prefix + tail)[j]))
  {
    var init := ids[..|ids| - 1];
    forall e | e in prefix + tail ensures key(e) in ids {
      if e in prefix {
        var k := IndexOf(init, key(e));
        assert ids[k] == init[k];
      }
    }
    forall i, j | 0 <= i < j < |prefix + tail|
      ensures IndexOf(ids, key((prefix + tail)[i])) < IndexOf(ids, key((prefix + tail)[j]))
    {
      OrderedAppendPair(ids, prefix, tail, key, i, j);
    }
  }

  /** One pair of positions of OrderedAppend. */
  lemma OrderedAppendPair<T>(ids: seq<int>, prefix: seq<T>, tail: seq<T>, key: T -> int, i: int, j: int)
    requires NoDup(ids) && |ids| > 0
    requires forall e :: e in prefix ==> key(e) in ids[..|ids| - 1]
    requires forall i, j :: 0 <= i < j < |prefix| ==>
      IndexOf(ids[..|ids| - 1], key(prefix[i])) < IndexOf(ids[..|ids| - 1], key(prefix[j]))
    requires |tail| <= 1 && forall e :: e in tail ==> key(e) == ids[|ids| - 1]
    requires forall e :: e in prefix + tail ==> key(e) in ids
    requires 0 <= i < j < |prefix + tail|
    ensures IndexOf(ids, key((prefix + tail)[i])) < IndexOf(ids, key((prefix + tail)[j]))
  {
    IndexOfInit(ids);
    var v := prefix + tail;
    assert v[i] == prefix[i] && v[i] in prefix;
    if j < |prefix| {
      assert v[j] == prefix[j] && v[j] in prefix;
    } else {
      assert v[j] in tail;
    }
  }

  /** Python's `s.remove(x)` for an `x` that is present. */
  function RemoveFirst<T(==)>(s: seq<T>, x: T): (r: seq<T>)
    requires x in s
    ensures |r| == |s| - 1
    ensures multiset(r) == multiset(s) - multiset{x}
  {
    var i := IndexOf(s, x);
    assert s == s[..i] + [x] + s[i + 1..];
    s[..i] + s[i + 1..]
  }

  /** `list.remove` cuts out the first occurrence and keeps the order of
      everything else. */
  lemma RemoveFirstSpec<T>(s: seq<T>, x: T)
    requires x in s
    ensures exists i :: 0 <= i < |s| && s[i] == x && x !in s[..i] && RemoveFirst(s, x) == s[..i] + s[i + 1..]
  {
    var i := IndexOf(s, x);
    assert s[i] == x && x !in s[..i];
  }

  /** Position `j` of a list with position `i` cut out. */
  lemma CutAt<T>(s: seq<T>, i: int, j: int)
    requires 0 <= i < |s| && 0 <= j < |s| - 1
    ensures (s[..i] + s[i + 1..])[j] == s[if j < i then j else j + 1]
  {
  }

  /** Removing from a list without duplicates removes the element entirely
      and keeps every other element, in order and without duplicates. */
  lemma {:induction false} RemoveFirstNoDup<T>(s: seq<T>, x: T)
    requires x in s && NoDup(s)
    ensures NoDup(RemoveFirst(s, x))
    ensures x !in RemoveFirst(s, x)
    ensures forall y :: y in RemoveFirst(s, x) <==> y in s && y != x
  {
    var i := IndexOf(s, x);
    var r := RemoveFirst(s, x);
    assert r == s[..i] + s[i + 1..];
    forall a, b | 0 <= a < b < |r| ensures r[a] != r[b] {
      CutAt(s, i, a);
      CutAt(s, i, b);
    }
    RemoveFirstMembers(s, i);
  }

  /** Cutting position `i` out of a list without duplicates keeps exactly
      the elements other than the one at `i`. */
  lemma RemoveFirstMembers<T>(s: seq<T>, i: int)
    requires NoDup(s) && 0 <= i < |s|
    ensures forall y :: y in s[..i] + s[i + 1..] <==> y in s && y != s[i]
  {
    var r := s[..i] + s[i + 1..];
    forall y ensures y in r <==> y in s && y != s[i] {
      if y in r {
        var k :| 0 <= k < |r| && r[k] == y;
        CutAt(s, i, k);
      }
      if y in s && y != s[i] {
        var k :| 0 <= k < |s| && s[k] == y;
        CutAt(s, i, if k < i then k else k - 1);
      }
    }
  }

  /** Removing the head of a list without duplicates from a longer list that
      ends with it drops exactly that element. */
  lemma RemoveFirstAfterPrefix<T>(kept: seq<T>, rest: seq<T>)
    requires |rest| > 0 && NoDup(kept + rest)
    ensures rest[0] in kept + rest
    ensures RemoveFirst(kept + rest, rest[0]) == kept + rest[1..]
  {
    var s := kept + rest;
    assert s[|kept|] == rest[0];
    IndexOfUnique(s, |kept|);
    assert s[..|kept|] == kept;
    assert s[|kept| + 1..] == rest[1..];
  }

  /** Removing a just-appended element that was not there before gives
      back the list. */
  lemma RemoveFirstAppended<T>(s: seq<T>, x: T)
    requires x !in s
    ensures x in s + [x] && RemoveFirst(s + [x], x) == s
  {
    assert (s + [x])[..|s|] == s;
  }

  /** Python's `s.reverse()`. */
  function Reverse<T>(s: seq<T>): (r: seq<T>)
    ensures |r| == |s|
    ensures forall k :: 0 <= k < |s| ==> r[k] == s[|s| - 1 - k]
  {
    if s == [] then [] else Reverse(s[1..]) + [s[0]]
  }
}
