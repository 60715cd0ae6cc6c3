/** The sequence operations behind Spring Data's derived queries: a WHERE filter, a first match, and ORDER BY ... DESC. */
module Seqs {
  import opened Wrappers

  /** WHERE p: the rows satisfying `p`, in table order. */
  function Filter<T>(s: seq<T>, p: T -> bool): (r: seq<T>)
    ensures |r| <= |s|
    ensures forall i :: 0 <= i < |r| ==> r[i] in s && p(r[i])
    ensures forall i :: 0 <= i < |s| && p(s[i]) ==> s[i] in r
    ensures multiset(r) <= multiset(s)
  {
    if |s| == 0 then []
    else
      assert s == [s[0]] + s[1..];
      if p(s[0]) then [s[0]] + Filter(s[1..], p) else Filter(s[1..], p)
  }

  lemma {:induction false} FilterConcat<T>(a: seq<T>, b: seq<T>, p: T -> bool)
    ensures Filter(a + b, p) == Filter(a, p) + Filter(b, p)
  {
    if |a| == 0 {
      assert a + b == b;
    } else {
      assert (a + b)[1..] == a[1..] + b;
      FilterConcat(a[1..], b, p);
    }
  }

  /** A filter that no row passes is empty. */
  lemma {:induction false} FilterNone<T>(s: seq<T>, p: T -> bool)
    requires forall i :: 0 <= i < |s| ==> !p(s[i])
    ensures Filter(s, p) == []
  {
    if |s| > 0 {
      FilterNone(s[1..], p);
    }
  }

  /** A filter that every row passes keeps the whole table. */
  lemma {:induction false} FilterAll<T>(s: seq<T>, p: T -> bool)
    requires forall i :: 0 <= i < |s| ==> p(s[i])
    ensures Filter(s, p) == s
  {
    if |s| > 0 {
      FilterAll(s[1..], p);
    }
  }

  /** Two predicates that agree on every row select the same rows. */
  lemma {:induction false} FilterCongruent<T>(s: seq<T>, p: T -> bool, q: T -> bool)
    requires forall i :: 0 <= i < |s| ==> p(s[i]) == q(s[i])
    ensures Filter(s, p) == Filter(s, q)
  {
    if |s| > 0 {
      FilterCongruent(s[1..], p, q);
    }
  }

  /** Filtering twice by predicates where the second implies the first is filtering once by the second. */
  lemma {:induction false} FilterFilter<T>(s: seq<T>, p: T -> bool, q: T -> bool)
    requires forall x :: q(x) ==> p(x)
    ensures Filter(Filter(s, p), q) == Filter(s, q)
  {
    if |s| > 0 {
      FilterFilter(s[1..], p, q);
    }
  }

  /** The first row satisfying `p` (a `findBy...` query that returns an `Optional`). */
  function Find<T>(s: seq<T>, p: T -> bool): (r: Option<T>)
    ensures r.Some? <==> exists i :: 0 <= i < |s| && p(s[i])
    ensures r.Some? ==> r.value in s && p(r.value)
    ensures r.Some? ==> r.value == Filter(s, p)[0]
  {
    if |s| == 0 then None
    else if p(s[0]) then Some(s[0])
    else Find(s[1..], p)
  }

  /** Some row satisfies `p` exactly when the filter keeps one. */
  lemma OneMatch<T>(s: seq<T>, p: T -> bool)
    ensures |Filter(s, p)| > 0 <==> exists k :: 0 <= k < |s| && p(s[k])
  {
    if |Filter(s, p)| > 0 {
      var k :| 0 <= k < |s| && s[k] == Filter(s, p)[0];
    }
  }

  /** Two rows satisfy `p` exactly when the filter keeps more than one. */
  lemma {:induction false} TwoMatches<T>(s: seq<T>, p: T -> bool)
    ensures |Filter(s, p)| > 1 <==> exists i, j :: 0 <= i < j < |s| && p(s[i]) && p(s[j])
  {
    if |s| > 0 {
      var t := s[1..];
      if p(s[0]) {
        assert |Filter(s, p)| == 1 + |Filter(t, p)|;
        OneMatch(t, p);
        TwoMatchesAtHead(s, p);
      } else {
        assert Filter(s, p) == Filter(t, p);
        TwoMatches(t, p);
        TwoMatchesShift(s, p);
      }
    }
  }

  /** When the first row satisfies `p`, two rows do exactly when a later one does. */
  lemma TwoMatchesAtHead<T>(s: seq<T>, p: T -> bool)
    requires |s| > 0 && p(s[0])
    ensures (exists i, j :: 0 <= i < j < |s| && p(s[i]) && p(s[j])) <==> exists k :: 0 <= k < |s[1..]| && p(s[1..][k])
  {
    if exists k :: 0 <= k < |s[1..]| && p(s[1..][k]) {
      var k :| 0 <= k < |s[1..]| && p(s[1..][k]);
      assert p(s[0]) && p(s[k + 1]);
    }
    if exists i, j :: 0 <= i < j < |s| && p(s[i]) && p(s[j]) {
      var i, j :| 0 <= i < j < |s| && p(s[i]) && p(s[j]);
      assert p(s[1..][j - 1]);
    }
  }

  /** When the first row fails `p`, two rows satisfy it exactly when two rows of the rest do. */
  lemma TwoMatchesShift<T>(s: seq<T>, p: T -> bool)
    requires |s| > 0 && !p(s[0])
    ensures (exists i, j :: 0 <= i < j < |s| && p(s[i]) && p(s[j])) <==>
            exists i, j :: 0 <= i < j < |s[1..]| && p(s[1..][i]) && p(s[1..][j])
  {
    var t := s[1..];
    if exists i, j :: 0 <= i < j < |s| && p(s[i]) && p(s[j]) {
      var i, j :| 0 <= i < j < |s| && p(s[i]) && p(s[j]);
      assert p(t[i - 1]) && p(t[j - 1]);
    }
    if exists i, j :: 0 <= i < j < |t| && p(t[i]) && p(t[j]) {
      var i, j :| 0 <= i < j < |t| && p(t[i]) && p(t[j]);
      assert p(s[i + 1]) && p(s[j + 1]);
    }
  }

  /**
   * A single-result query (an `Optional` return): absent when no row satisfies `p`, the row when
   * exactly one does, and otherwise the number of matches, which the persistence layer reports as
   * an incorrect result size instead of picking one.
   */
  function FindUnique<T>(s: seq<T>, p: T -> bool): (r: Result<Option<T>, nat>)
    ensures r.Failure? <==> exists i, j :: 0 <= i < j < |s| && p(s[i]) && p(s[j])
    ensures r.Failure? ==> r.error == |Filter(s, p)| && r.error > 1
    ensures r == Success(None) <==> forall i :: 0 <= i < |s| ==> !p(s[i])
    ensures r.Success? && r.value.Some? ==> r.value.value in s && p(r.value.value) && Filter(s, p) == [r.value.value]
  {
    var f := Filter(s, p);
    TwoMatches(s, p);
    if |f| == 0 then
      Success(None)
    else if |f| == 1 then
      Success(Some(f[0]))
    else
      Failure(|f|)
  }

  /** ORDER BY key DESC holds of `s`. */
  predicate NonIncreasing<T>(s: seq<T>, key: T -> int) {
    forall i, j :: 0 <= i < j < |s| ==> key(s[i]) >= key(s[j])
  }

  /** Inserts `x` into a descending sequence, keeping it descending. */
  function InsertDesc<T>(x: T, s: seq<T>, key: T -> int): (r: seq<T>)
    requires NonIncreasing(s, key)
    ensures NonIncreasing(r, key)
    ensures multiset(r) == multiset(s) + multiset{x}
    ensures |r| == |s| + 1 && (r[0] == x || (|s| > 0 && r[0] == s[0]))
  {
    if |s| == 0 || key(x) >= key(s[0]) then [x] + s
    else
      var rest := InsertDesc(x, s[1..], key);
      assert key(s[0]) >= key(rest[0]);
      assert s == [s[0]] + s[1..];
      assert multiset([s[0]] + rest) == multiset{s[0]} + multiset(rest);
      [s[0]] + rest
  }

  /** ORDER BY key DESC: a permutation of `s` whose keys never increase. */
  function SortDesc<T>(s: seq<T>, key: T -> int): (r: seq<T>)
    ensures NonIncreasing(r, key)
    ensures multiset(r) == multiset(s)
    ensures |r| == |s|
  {
    if |s| == 0 then []
    else
      assert s == [s[0]] + s[1..];
      InsertDesc(s[0], SortDesc(s[1..], key), key)
  }

  /** Sequences with the same multiset have the same members. */
  lemma SameElements<T>(r: seq<T>, s: seq<T>)
    requires multiset(r) == multiset(s)
    ensures forall i :: 0 <= i < |r| ==> r[i] in s
    ensures forall i :: 0 <= i < |s| ==> s[i] in r
  {
    forall i | 0 <= i < |r| ensures r[i] in s {
      assert r[i] in multiset(r);
    }
    forall i | 0 <= i < |s| ensures s[i] in r {
      assert s[i] in multiset(s);
    }
  }

  /** WHERE p ORDER BY key DESC: exactly the rows satisfying `p`, as many times as the table holds them, keys non-increasing. */
  function Query<T>(s: seq<T>, p: T -> bool, key: T -> int): (r: seq<T>)
    ensures NonIncreasing(r, key)
    ensures forall i :: 0 <= i < |r| ==> p(r[i]) && r[i] in s
    ensures forall i :: 0 <= i < |s| && p(s[i]) ==> s[i] in r
    ensures multiset(r) == multiset(Filter(s, p)) && |r| == |Filter(s, p)|
  {
    var f := Filter(s, p);
    var r := SortDesc(f, key);
    SameElements(r, f);
    r
  }

  /** SELECT COUNT(*) WHERE p, counted row by row. */
  function Count<T>(s: seq<T>, p: T -> bool): (n: nat)
    ensures n == |Filter(s, p)|
    ensures n <= |s|
  {
    if |s| == 0 then 0 else (if p(s[0]) then 1 else 0) + Count(s[1..], p)
  }

  /** The rows whose owner column is `k`. */
  function Is<T>(owner: T -> int, k: int): T -> bool {
    x => owner(x) == k
  }

  /** The rows whose owner column is not `k`. */
  function IsNot<T>(owner: T -> int, k: int): T -> bool {
    x => owner(x) != k
  }

  /** Deleting owner `k`'s rows and then appending rows of owner `k`: `k` now owns exactly the appended rows, in order, and every other owner keeps exactly its rows. */
  lemma ReplaceOwned<T>(s: seq<T>, owner: T -> int, k: int, added: seq<T>)
    requires forall i :: 0 <= i < |added| ==> owner(added[i]) == k
    ensures Filter(Filter(s, IsNot(owner, k)) + added, Is(owner, k)) == added
    ensures forall j :: j != k ==> Filter(Filter(s, IsNot(owner, k)) + added, Is(owner, j)) == Filter(s, Is(owner, j))
  {
    var kept := Filter(s, IsNot(owner, k));
    FilterConcat(kept, added, Is(owner, k));
    FilterNone(kept, Is(owner, k));
    FilterAll(added, Is(owner, k));
    forall j | j != k
      ensures Filter(kept + added, Is(owner, j)) == Filter(s, Is(owner, j))
    {
      FilterConcat(kept, added, Is(owner, j));
      FilterNone(added, Is(owner, j));
      FilterFilter(s, IsNot(owner, k), Is(owner, j));
    }
  }

  /** Appending rows all owned by `k` gives `k` those rows after its old ones and leaves every other owner's rows alone. */
  lemma AppendOwned<T>(s: seq<T>, owner: T -> int, k: int, added: seq<T>)
    requires forall i :: 0 <= i < |added| ==> owner(added[i]) == k
    ensures Filter(s + added, Is(owner, k)) == Filter(s, Is(owner, k)) + added
    ensures forall j :: j != k ==> Filter(s + added, Is(owner, j)) == Filter(s, Is(owner, j))
  {
    FilterConcat(s, added, Is(owner, k));
    FilterAll(added, Is(owner, k));
    forall j | j != k
      ensures Filter(s + added, Is(owner, j)) == Filter(s, Is(owner, j))
    {
      FilterConcat(s, added, Is(owner, j));
      FilterNone(added, Is(owner, j));
    }
  }

  /** A predicate that at most one row satisfies selects at most one row. */
  lemma {:induction false} AtMostOne<T>(s: seq<T>, p: T -> bool)
    requires forall i, j :: 0 <= i < |s| && 0 <= j < |s| && p(s[i]) && p(s[j]) ==> i == j
    ensures |Filter(s, p)| <= 1
  {
    if |s| > 0 {
      AtMostOne(s[1..], p);
      if p(s[0]) {
        FilterNone(s[1..], p);
      }
    }
  }
}
