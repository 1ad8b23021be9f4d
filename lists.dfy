/**
 * The parts of .NET's `List<T>` that the game relies on, stated over sequences:
 * `Contains` is `in`, `Add` is `+ [x]`, and `Remove` drops the FIRST occurrence only.
 */
module Lists {

  /** No element occurs twice. */
  predicate NoDup<T(==)>(s: seq<T>) {
    forall i, j :: 0 <= i < j < |s| ==> s[i] != s[j]
  }

  /** Position of the first occurrence of `x` (what `List<T>.IndexOf` returns). */
  function IndexOf<T(==)>(s: seq<T>, x: T): (k: nat)
    requires x in s
    ensures k < |s| && s[k] == x && x !in s[..k]
    decreases |s|
  {
    if s[0] == x then 0
    else
      var k := 1 + IndexOf(s[1..], x);
      assert s[..k] == [s[0]] + s[1..][..k - 1];
      k
  }

  /**
   * `List<T>.Remove(x)`: the first occurrence of `x` is cut out and the other
   * elements keep their relative order; an absent `x` changes nothing.
   */
  function RemoveFirst<T(==)>(s: seq<T>, x: T): (r: seq<T>)
    ensures |r| == if x in s then |s| - 1 else |s|
    ensures forall i :: 0 <= i < |r| ==> r[i] == if x in s && i >= IndexOf(s, x) then s[i + 1] else s[i]
  {
    if x in s then s[..IndexOf(s, x)] + s[IndexOf(s, x) + 1..] else s
  }

  /** Removing takes exactly one copy of `x` out of the multiset of elements, if there is one. */
  lemma RemoveFirstMultiset<T>(s: seq<T>, x: T)
    ensures multiset(RemoveFirst(s, x)) == multiset(s) - multiset{x}
  {
    if x in s {
      var k := IndexOf(s, x);
      assert s == s[..k] + [x] + s[k + 1..];
      assert multiset(s) == multiset(s[..k]) + multiset{x} + multiset(s[k + 1..]);
    } else {
      assert multiset(s)[x] == 0;
    }
  }

  /** Appending an element that is not yet present keeps a list duplicate-free. */
  lemma AppendFreshNoDup<T>(s: seq<T>, x: T)
    requires NoDup(s) && x !in s
    ensures NoDup(s + [x])
  {
  }

  /**
   * On a duplicate-free list, `Remove(x)` leaves exactly the other elements,
   * still duplicate-free: after it `x` is gone for good.
   */
  lemma RemoveFirstNoDup<T>(s: seq<T>, x: T)
    requires NoDup(s)
    ensures NoDup(RemoveFirst(s, x))
    ensures x !in RemoveFirst(s, x)
    ensures forall y :: y in RemoveFirst(s, x) <==> y in s && y != x
  {
    var r := RemoveFirst(s, x);
    if x in s {
      var k := IndexOf(s, x);
      forall i, j | 0 <= i < j < |r| ensures r[i] != r[j] {
        var i' := if i < k then i else i + 1;
        var j' := if j < k then j else j + 1;
        assert r[i] == s[i'] && r[j] == s[j'] && i' < j';
      }
      forall y ensures y in r <==> y in s && y != x {
        if y in r {
          var i :| 0 <= i < |r| && r[i] == y;
          var i' := if i < k then i else i + 1;
          assert s[i'] == y && i' != k;
        }
        if y in s && y != x {
          var i :| 0 <= i < |s| && s[i] == y;
          assert i != k;
          assert r[if i < k then i else i - 1] == y;
        }
      }
      assert x !in r;
    }
  }

  /** In a duplicate-free list every element occurs at most once. */
  lemma {:induction false} NoDupCount<T>(s: seq<T>, x: T)
    requires NoDup(s)
    ensures multiset(s)[x] <= 1
  {
    if |s| > 0 {
      assert s == [s[0]] + s[1..];
      assert NoDup(s[1..]);
      NoDupCount(s[1..], x);
      if s[0] == x {
        assert x !in s[1..];
      }
    }
  }
}
