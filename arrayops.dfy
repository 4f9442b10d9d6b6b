/**
 * The JavaScript array built-ins the observable relies on (`indexOf`,
 * `splice`), stated on sequences, and the facts about them that the
 * subscriber list needs.
 */
module ArrayOps {

  /** No element occurs twice. */
  predicate NoDuplicates<X(==)>(s: seq<X>) {
    forall i, j :: 0 <= i < j < |s| ==> s[i] != s[j]
  }

  /** Number of occurrences of `x` in `s`. */
  function Occurrences<X(==)>(s: seq<X>, x: X): (n: nat)
    ensures n <= |s|
    ensures n == 0 <==> x !in s
    ensures n == multiset(s)[x]
  {
    if s == [] then 0
    else
      assert s == [s[0]] + s[1..];
      (if s[0] == x then 1 else 0) + Occurrences(s[1..], x)
  }

  /**
   * `Array.prototype.indexOf` with strict (identity) equality: the position
   * of the first occurrence of `x`, or -1 when there is none.
   */
  function IndexOf<X(==)>(s: seq<X>, x: X): (r: int)
    ensures r == -1 <==> x !in s
    ensures r != -1 ==> 0 <= r < |s| && s[r] == x && x !in s[..r]
  {
    if s == [] then -1
    else if s[0] == x then 0
    else
      var k := IndexOf(s[1..], x);
      if k == -1 then -1
      else
        assert s[..k + 1] == [s[0]] + s[1..][..k];
        k + 1
  }

  /** Where `splice(start, …)` starts on a list of length `len`: a negative start counts from the end. */
  function SpliceStart(len: nat, start: int): (a: nat)
    ensures a <= len
    ensures 0 < len && start == -1 ==> a == len - 1
  {
    if start < 0 then
      if len + start < 0 then 0 else len + start
    else
      if start < len then start else len
  }

  /** How many elements `splice(start, deleteCount)` removes from a list of length `len`. */
  function SpliceCount(len: nat, start: int, deleteCount: int): (k: nat)
    ensures SpliceStart(len, start) + k <= len
    ensures deleteCount == 1 ==> k == if SpliceStart(len, start) < len then 1 else 0
  {
    var a := SpliceStart(len, start);
    if deleteCount < 0 then 0
    else if deleteCount < len - a then deleteCount
    else len - a
  }

  /** The list `splice(start, deleteCount)` leaves behind (its return value is not used here). */
  function Splice<X>(s: seq<X>, start: int, deleteCount: int): (r: seq<X>)
    ensures |r| == |s| - SpliceCount(|s|, start, deleteCount)
  {
    var a := SpliceStart(|s|, start);
    s[..a] + s[a + SpliceCount(|s|, start, deleteCount)..]
  }

  /** `splice(-1, 1)` drops the last element, and nothing at all from an empty list. */
  lemma SpliceLast<X>(s: seq<X>)
    ensures s == [] ==> Splice(s, -1, 1) == []
    ensures s != [] ==> Splice(s, -1, 1) == s[..|s| - 1]
  {
  }

  /** `splice(i, 1)` at a valid position removes exactly the element there. */
  lemma SpliceAt<X>(s: seq<X>, i: int)
    requires 0 <= i < |s|
    ensures Splice(s, i, 1) == s[..i] + s[i + 1..]
  {
  }

  /** Whatever `splice` is asked to do, it keeps a duplicate-free list duplicate-free and adds nothing. */
  lemma SpliceNoDuplicates<X>(s: seq<X>, start: int, deleteCount: int, x: X)
    requires NoDuplicates(s)
    ensures NoDuplicates(Splice(s, start, deleteCount))
    ensures x in Splice(s, start, deleteCount) ==> x in s
  {
  }

  /** `s` with every occurrence of `x` dropped. */
  function Remove<X(==)>(s: seq<X>, x: X): (r: seq<X>)
    ensures multiset(r) == multiset(s)[x := 0]
    ensures x !in r
  {
    if s == [] then []
    else
      assert s == [s[0]] + s[1..];
      if s[0] == x then Remove(s[1..], x)
      else [s[0]] + Remove(s[1..], x)
  }

  /** Removal distributes over concatenation. */
  lemma {:induction false} RemoveAppend<X>(a: seq<X>, b: seq<X>, x: X)
    ensures Remove(a + b, x) == Remove(a, x) + Remove(b, x)
  {
    if a == [] {
      assert a + b == b;
    } else {
      var c := a + b;
      assert c[0] == a[0] && c[1..] == a[1..] + b;
      RemoveAppend(a[1..], b, x);
    }
  }

  /** Removing an element that is not there changes nothing. */
  lemma {:induction false} RemoveAbsent<X>(s: seq<X>, x: X)
    requires x !in s
    ensures Remove(s, x) == s
  {
    if s != [] {
      RemoveAbsent(s[1..], x);
    }
  }

  /** Removing `x` from a list that ends in its only occurrence drops that last element. */
  lemma RemoveSnoc<X>(a: seq<X>, x: X)
    requires x !in a
    ensures Remove(a + [x], x) == a
  {
    RemoveAppend(a, [x], x);
    RemoveAbsent(a, x);
    assert [x][1..] == [];
  }

  /** Removing the one occurrence of `x` joins what stood before and after it. */
  lemma RemoveSingle<X>(a: seq<X>, x: X, b: seq<X>)
    requires x !in a && x !in b
    ensures Remove(a + [x] + b, x) == a + b
  {
    RemoveAppend(a + [x], b, x);
    RemoveSnoc(a, x);
    RemoveAbsent(b, x);
  }

  /** In a list without duplicates, removing by identity is removing at `indexOf`. */
  lemma RemoveAtIndexOf<X>(s: seq<X>, x: X)
    requires NoDuplicates(s)
    requires x in s
    ensures Remove(s, x) == Splice(s, IndexOf(s, x), 1)
  {
    var i := IndexOf(s, x);
    var a, b := s[..i], s[i + 1..];
    assert s == a + [x] + b;
    assert x !in b by {
      forall j | 0 <= j < |b| ensures b[j] != x { assert s[i] != s[i + 1 + j]; }
    }
    RemoveSingle(a, x, b);
    SpliceAt(s, i);
  }

  /** In a list without duplicates every element occurs exactly once. */
  lemma {:induction false} OccurrencesNoDuplicates<X>(s: seq<X>, x: X)
    requires NoDuplicates(s)
    ensures Occurrences(s, x) == if x in s then 1 else 0
  {
    if s != [] {
      assert NoDuplicates(s[1..]) by {
        forall i, j | 0 <= i < j < |s[1..]| ensures s[1..][i] != s[1..][j] {
          assert s[i + 1] != s[j + 1];
        }
      }
      OccurrencesNoDuplicates(s[1..], x);
      if s[0] == x {
        assert x !in s[1..] by {
          forall j | 0 <= j < |s[1..]| ensures s[1..][j] != x { assert s[0] != s[j + 1]; }
        }
      } else {
        assert x in s <==> x in s[1..] by { assert s == [s[0]] + s[1..]; }
      }
    }
  }
}
