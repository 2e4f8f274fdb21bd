/**
 * The client registry's removal: List.remove(Object) on the server's
 * CopyOnWriteArrayList deletes the first element equal to its argument and
 * keeps every other element in order.
 */
module Registry {
  import opened Lists

  /** The position of the first occurrence of x. */
  function IndexOf<T(==)>(s: seq<T>, x: T): (k: nat)
    requires x in s
    ensures k < |s| && s[k] == x && x !in s[..k]
  {
    if s[0] == x then 0 else 1 + IndexOf(s[1..], x)
  }

  /** List.remove(Object): s without its first occurrence of x, unchanged when x is absent. */
  function RemoveFirst<T(==)>(s: seq<T>, x: T): (r: seq<T>)
    ensures multiset(r) == multiset(s) - multiset{x}
    ensures x in s ==> |r| == |s| - 1 && s == r[..IndexOf(s, x)] + [x] + r[IndexOf(s, x)..]
    ensures x !in s ==> r == s
  {
    if x !in s then
      assert multiset(s)[x] == 0;
      s
    else
      var k := IndexOf(s, x);
      var r := s[..k] + s[k + 1..];
      assert s == s[..k] + [x] + s[k + 1..];
      assert r[..k] == s[..k] && r[k..] == s[k + 1..];
      r
  }

  /** Deleting the element at position k of a sequence without repeats. */
  lemma DropAtDistinct<T>(s: seq<T>, k: nat)
    requires Distinct(s) && k < |s|
    ensures Distinct(s[..k] + s[k + 1..])
    ensures s[k] !in s[..k] + s[k + 1..]
    ensures forall y :: y in s[..k] + s[k + 1..] <==> y in s && y != s[k]
  {
    var r := s[..k] + s[k + 1..];
    assert forall i :: 0 <= i < |r| ==> r[i] == s[if i < k then i else i + 1];
    forall y | y in s && y != s[k] ensures y in r {
      var j :| 0 <= j < |s| && s[j] == y;
      if j < k { assert r[j] == y; } else { assert r[j - 1] == y; }
    }
  }

  /** In a registry without repeats, removal deletes exactly that element and keeps the rest. */
  lemma RemoveFirstDistinct<T>(s: seq<T>, x: T)
    requires Distinct(s)
    ensures Distinct(RemoveFirst(s, x))
    ensures x !in RemoveFirst(s, x)
    ensures forall y :: y in RemoveFirst(s, x) <==> y in s && y != x
  {
    if x in s {
      var k := IndexOf(s, x);
      DropAtDistinct(s, k);
      assert RemoveFirst(s, x) == s[..k] + s[k + 1..];
    }
  }
}
