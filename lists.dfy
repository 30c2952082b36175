/**
 * The Python list operations the contact record and the address book use:
 * finding the first equal element, `list.remove` (which drops the first equal
 * element) and overwriting every equal element.
 */
module Lists {

  predicate Distinct<T(==)>(s: seq<T>) {
    forall i, j :: 0 <= i < j < |s| ==> s[i] != s[j]
  }

  /** The index of the first element equal to `x`, or `|s|` when there is none. */
  function IndexOf<T(==)>(s: seq<T>, x: T): (i: nat)
    ensures i <= |s|
    ensures i < |s| ==> s[i] == x
    ensures x !in s[..i]
    ensures i == |s| <==> x !in s
  {
    if s == [] then 0
    else if s[0] == x then 0
    else
      assert s[1..][..IndexOf(s[1..], x)] == s[1..1 + IndexOf(s[1..], x)];
      1 + IndexOf(s[1..], x)
  }

  /** A first match found by a scan from the left is the one `IndexOf` names. */
  lemma FirstIndex<T>(s: seq<T>, x: T, i: nat)
    requires i < |s| && s[i] == x && x !in s[..i]
    ensures IndexOf(s, x) == i
  {
  }

  /** `s` with its first element equal to `x` taken out; `s` itself when there is none. */
  function RemoveFirst<T(==)>(s: seq<T>, x: T): seq<T> {
    var i := IndexOf(s, x);
    if i < |s| then s[..i] + s[i + 1..] else s
  }

  /** `s` with every element equal to `x` replaced by `y`, at the same index. */
  function ReplaceAll<T(==)>(s: seq<T>, x: T, y: T): (r: seq<T>)
    ensures |r| == |s|
    ensures forall i :: 0 <= i < |s| ==> r[i] == (if s[i] == x then y else s[i])
  {
    if s == [] then []
    else [if s[0] == x then y else s[0]] + ReplaceAll(s[1..], x, y)
  }

  /** Taking out the first `x` removes exactly one occurrence of `x` and nothing else. */
  lemma RemoveFirstCounts<T>(s: seq<T>, x: T)
    ensures x in s ==> multiset(RemoveFirst(s, x)) == multiset(s) - multiset{x}
    ensures x !in s ==> RemoveFirst(s, x) == s
  {
    var i := IndexOf(s, x);
    if i < |s| {
      assert s == s[..i] + [s[i]] + s[i + 1..];
      assert multiset(s) == multiset(s[..i]) + multiset{x} + multiset(s[i + 1..]);
    }
  }

  /** The elements before the first `x` stay where they were; those after it move one place to the front. */
  lemma {:induction false} RemoveFirstShape<T>(s: seq<T>, x: T)
    requires x in s
    ensures |RemoveFirst(s, x)| == |s| - 1
    ensures forall k :: 0 <= k < IndexOf(s, x) ==> RemoveFirst(s, x)[k] == s[k]
    ensures forall k :: IndexOf(s, x) <= k < |s| - 1 ==> RemoveFirst(s, x)[k] == s[k + 1]
  {
    var i := IndexOf(s, x);
    assert RemoveFirst(s, x) == s[..i] + s[i + 1..];
  }

  /** In a list without repeats, taking out `x` leaves no repeats. */
  lemma RemoveFirstKeepsDistinct<T>(s: seq<T>, x: T)
    requires Distinct(s)
    ensures Distinct(RemoveFirst(s, x))
  {
    var i := IndexOf(s, x);
    if i < |s| {
      var r := RemoveFirst(s, x);
      RemoveFirstShape(s, x);
      forall a, b | 0 <= a < b < |r| ensures r[a] != r[b] {
        var a' := if a < i then a else a + 1;
        var b' := if b < i then b else b + 1;
        assert r[a] == s[a'] && r[b] == s[b'];
      }
    }
  }

  /** In a list without repeats, taking out `x` leaves no `x` and keeps every other element. */
  lemma RemoveFirstMembers<T>(s: seq<T>, x: T)
    requires Distinct(s)
    ensures x !in RemoveFirst(s, x)
    ensures forall y :: y != x ==> (y in RemoveFirst(s, x) <==> y in s)
  {
    var i := IndexOf(s, x);
    if i < |s| {
      var r := RemoveFirst(s, x);
      RemoveFirstShape(s, x);
      forall y | y != x && y in s ensures y in r {
        var k :| 0 <= k < |s| && s[k] == y;
        if k < i { assert r[k] == y; } else { assert r[k - 1] == y; }
      }
      forall y | y in r ensures y in s && y != x {
        var k :| 0 <= k < |r| && r[k] == y;
        if k < i { assert s[k] == y; } else { assert s[k + 1] == y; }
      }
    }
  }

  /** Replacing `x` when it does not occur changes nothing. */
  lemma ReplaceAllAbsent<T>(s: seq<T>, x: T, y: T)
    requires x !in s
    ensures ReplaceAll(s, x, y) == s
  {
  }

  /** After the replacement no `x` is left (unless `x` is also the replacement), and every `y` is either new or was already there. */
  lemma {:induction false} ReplaceAllLeavesNoOld<T>(s: seq<T>, x: T, y: T)
    requires x != y
    ensures x !in ReplaceAll(s, x, y)
    ensures multiset(ReplaceAll(s, x, y))[y] == multiset(s)[y] + multiset(s)[x]
  {
    var r := ReplaceAll(s, x, y);
    if s != [] {
      ReplaceAllLeavesNoOld(s[1..], x, y);
      assert s == [s[0]] + s[1..];
      assert r == [r[0]] + ReplaceAll(s[1..], x, y);
    }
  }
}
