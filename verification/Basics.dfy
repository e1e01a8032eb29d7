/** Small types shared by every module. */
module Basics {

  datatype Option<+T> = None | Some(value: T)

  /** A moment, or a length of time, in the unit of the code at hand. */
  type Time = int

  /** Go's `(value, error)` pair, where exactly one side is meaningful. */
  datatype Result<+T> = Ok(value: T) | Err

  /** The elements of a sequence, forgetting order and repetition. */
  function Elements<T>(s: seq<T>): set<T> {
    set x | x in s
  }

  ghost predicate Distinct<T>(s: seq<T>) {
    forall i, j :: 0 <= i < j < |s| ==> s[i] != s[j]
  }

  lemma ElementsOfConcat<T>(s: seq<T>, t: seq<T>)
    ensures Elements(s + t) == Elements(s) + Elements(t)
  {
  }

  lemma DistinctConcat<T>(s: seq<T>, t: seq<T>)
    ensures Distinct(s + t) <==> Distinct(s) && Distinct(t) && Elements(s) !! Elements(t)
  {
    var u := s + t;
    if Distinct(u) {
      assert forall i :: 0 <= i < |s| ==> s[i] == u[i];
      assert forall j :: 0 <= j < |t| ==> t[j] == u[|s| + j];
    }
    if Distinct(s) && Distinct(t) && Elements(s) !! Elements(t) {
      forall i, j | 0 <= i < j < |u| ensures u[i] != u[j] {
        assert i < |s| ==> u[i] in Elements(s);
        assert j >= |s| ==> u[j] in Elements(t);
      }
    }
  }

  lemma SameMultisetSameDistinct<T>(s: seq<T>, t: seq<T>)
    requires multiset(s) == multiset(t)
    ensures Distinct(s) <==> Distinct(t)
  {
    DistinctByCount(s);
    DistinctByCount(t);
  }

  lemma {:induction false} DistinctByCount<T>(s: seq<T>)
    ensures Distinct(s) <==> forall x :: multiset(s)[x] <= 1
  {
    if s != [] {
      var front, last := s[..|s| - 1], s[|s| - 1];
      assert s == front + [last];
      DistinctByCount(front);
      DistinctConcat(front, [last]);
      assert multiset(s) == multiset(front) + multiset{last};
      assert last in front <==> multiset(front)[last] > 0;
      if Distinct(s) {
        assert last in Elements([last]);
        assert last !in Elements(front);
      } else if forall x :: multiset(s)[x] <= 1 {
        assert multiset(s)[last] <= 1;
        forall x ensures multiset(front)[x] <= 1 {
          assert multiset(s)[x] <= 1;
        }
      }
    }
  }

  /** The elements of s other than x, in order. */
  function Without<T(==)>(s: seq<T>, x: T): seq<T> {
    if s == [] then []
    else
      var front, last := Without(s[..|s| - 1], x), s[|s| - 1];
      if last == x then front else front + [last]
  }

  lemma {:induction false} WithoutCount<T>(s: seq<T>, x: T)
    ensures multiset(Without(s, x)) == multiset(s)[x := 0]
    ensures x !in s ==> Without(s, x) == s
  {
    if s != [] {
      var front, last := s[..|s| - 1], s[|s| - 1];
      WithoutCount(front, x);
      assert s == front + [last];
      assert multiset(s) == multiset(front) + multiset{last};
      if last != x {
        assert multiset(Without(s, x)) == multiset(Without(front, x)) + multiset{last};
      }
    }
  }

  function Mapped<T, U>(f: T -> U, s: seq<T>): (r: seq<U>)
    ensures |r| == |s| && forall i :: 0 <= i < |s| ==> r[i] == f(s[i])
  {
    seq(|s|, i requires 0 <= i < |s| => f(s[i]))
  }

  function Remove<T>(s: seq<T>, k: nat): seq<T>
    requires k < |s|
  {
    s[..k] + s[k + 1..]
  }

  lemma RemoveCount<T>(s: seq<T>, k: nat)
    requires k < |s|
    ensures multiset(s) == multiset(Remove(s, k)) + multiset{s[k]}
  {
    assert s == s[..k] + [s[k]] + s[k + 1..];
  }

  lemma MappedRemove<T, U>(f: T -> U, s: seq<T>, k: nat)
    requires k < |s|
    ensures multiset(Mapped(f, s)) == multiset(Mapped(f, Remove(s, k))) + multiset{f(s[k])}
  {
    RemoveCount(Mapped(f, s), k);
    assert Remove(Mapped(f, s), k) == Mapped(f, Remove(s, k));
  }

  lemma {:induction false} Permuted<T, U>(f: T -> U, a: seq<T>, b: seq<T>)
    requires multiset(a) == multiset(b)
    ensures multiset(Mapped(f, a)) == multiset(Mapped(f, b))
    decreases |a|
  {
    hide Mapped, Remove;
    if a == [] {
      assert |multiset(b)| == |multiset(a)| == 0;
      assert b == [];
    } else {
      assert a[0] in multiset(b);
      var k :| 0 <= k < |b| && b[k] == a[0];
      RemoveCount(a, 0);
      RemoveCount(b, k);
      assert |multiset(Remove(a, 0))| < |multiset(a)|;
      assert multiset(Remove(a, 0)) == multiset(a) - multiset{a[0]};
      assert multiset(Remove(b, k)) == multiset(b) - multiset{a[0]};
      Permuted(f, Remove(a, 0), Remove(b, k));
      MappedRemove(f, a, 0);
      MappedRemove(f, b, k);
    }
  }

  lemma {:induction false} SubsetSize<T>(a: set<T>, b: set<T>)
    requires a <= b
    ensures |a| <= |b|
    decreases a
  {
    if x :| x in a {
      SubsetSize(a - {x}, b - {x});
    }
  }

  lemma NoElements<T>(s: seq<T>)
    ensures s == [] <==> Elements(s) == {}
  {
    if s != [] {
      assert s[0] in Elements(s);
    }
  }
}
