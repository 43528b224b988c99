// String order and the sorting the program gets from its standard library.
module Ordering {
  // Go's < on strings.
  predicate Lt(a: string, b: string) {
    b != "" && (a == "" || a[0] < b[0] || (a[0] == b[0] && Lt(a[1..], b[1..])))
  }

  lemma {:induction false} LtTrans(a: string, b: string, c: string)
    requires Lt(a, b) && Lt(b, c)
    ensures Lt(a, c)
  {
    if a != "" && a[0] == b[0] == c[0] { LtTrans(a[1..], b[1..], c[1..]); }
  }

  lemma {:induction false} LtTotal(a: string, b: string)
    ensures Lt(a, b) || Lt(b, a) || a == b
    ensures !(Lt(a, b) && Lt(b, a)) && (a == b ==> !Lt(a, b))
  {
    if a != "" && b != "" && a[0] == b[0] {
      LtTotal(a[1..], b[1..]);
      assert a == [a[0]] + a[1..] && b == [b[0]] + b[1..];
    }
  }

  // a is a proper prefix of b, or less at the first place they differ.
  ghost predicate LessAt(a: string, b: string, i: nat) {
    i <= |a| && i < |b| && a[..i] == b[..i] && (i == |a| || a[i] < b[i])
  }

  lemma {:induction false} LtIs(a: string, b: string)
    ensures Lt(a, b) <==> exists i: nat :: LessAt(a, b, i)
  {
    if a == "" || b == "" || a[0] != b[0] {
      if Lt(a, b) { assert LessAt(a, b, 0); }
      if i: nat :| LessAt(a, b, i) { assert i > 0 ==> a[..i][0] == b[..i][0]; }
    } else {
      LtIs(a[1..], b[1..]);
      if i: nat :| LessAt(a[1..], b[1..], i) {
        assert a[..i + 1] == [a[0]] + a[1..][..i] && b[..i + 1] == [b[0]] + b[1..][..i];
        assert LessAt(a, b, i + 1);
      }
      if i: nat :| LessAt(a, b, i) {
        assert i > 0;
        assert a[1..][..i - 1] == a[..i][1..] && b[1..][..i - 1] == b[..i][1..];
        assert LessAt(a[1..], b[1..], i - 1);
      }
    }
  }

  ghost predicate Transitive<T(!new)>(less: (T, T) -> bool) {
    forall x, y, z :: less(x, y) && less(y, z) ==> less(x, z)
  }

  ghost predicate Asymmetric<T(!new)>(less: (T, T) -> bool) {
    forall x, y :: less(x, y) ==> !less(y, x)
  }

  // No pair is out of order.
  ghost predicate Sorted<T>(s: seq<T>, less: (T, T) -> bool) {
    forall i, j :: 0 <= i < j < |s| ==> !less(s[j], s[i])
  }

  ghost predicate Increasing<T>(s: seq<T>, less: (T, T) -> bool) {
    forall i, j :: 0 <= i < j < |s| ==> less(s[i], s[j])
  }

  function Insert<T>(x: T, s: seq<T>, less: (T, T) -> bool): seq<T> {
    if s == [] then [x]
    else if less(x, s[0]) then [x] + s
    else [s[0]] + Insert(x, s[1..], less)
  }

  // sort.SliceStable.
  function StableSort<T>(s: seq<T>, less: (T, T) -> bool): seq<T> {
    if s == [] then [] else Insert(s[|s| - 1], StableSort(s[..|s| - 1], less), less)
  }

  lemma {:induction false} InsertAdds<T(!new)>(x: T, s: seq<T>, less: (T, T) -> bool)
    ensures multiset(Insert(x, s, less)) == multiset(s) + multiset{x}
  {
    if s != [] {
      assert s == [s[0]] + s[1..];
      if !less(x, s[0]) { InsertAdds(x, s[1..], less); }
    }
  }

  lemma {:induction false} InsertSorts<T(!new)>(x: T, s: seq<T>, less: (T, T) -> bool)
    requires Transitive(less) && Asymmetric(less) && Sorted(s, less)
    ensures Sorted(Insert(x, s, less), less)
  {
    if s != [] && less(x, s[0]) {
      forall j | 0 <= j < |s| ensures !less(s[j], x) {
        assert j > 0 ==> !less(s[j], s[0]);
      }
    } else if s != [] {
      InsertSorts(x, s[1..], less);
      var t := Insert(x, s[1..], less);
      InsertAdds(x, s[1..], less);
      forall j | 0 <= j < |t| ensures !less(t[j], s[0]) {
        assert t[j] in multiset(t);
        assert t[j] == x || t[j] in s[1..];
      }
    }
  }

  lemma {:induction false} StableSortSorts<T(!new)>(s: seq<T>, less: (T, T) -> bool)
    requires Transitive(less) && Asymmetric(less)
    ensures Sorted(StableSort(s, less), less)
    ensures multiset(StableSort(s, less)) == multiset(s)
  {
    if s != [] {
      StableSortSorts(s[..|s| - 1], less);
      InsertSorts(s[|s| - 1], StableSort(s[..|s| - 1], less), less);
      InsertAdds(s[|s| - 1], StableSort(s[..|s| - 1], less), less);
      assert s == s[..|s| - 1] + [s[|s| - 1]];
    }
  }

  function Only<T>(s: seq<T>, keep: T -> bool): seq<T> {
    if s == [] then [] else Only(s[..|s| - 1], keep) + if keep(s[|s| - 1]) then [s[|s| - 1]] else []
  }

  lemma {:induction false} OnlyFirst<T>(x: T, s: seq<T>, keep: T -> bool)
    ensures Only([x] + s, keep) == (if keep(x) then [x] else []) + Only(s, keep)
  {
    if s == [] {
      assert [x] + s == [x];
    } else {
      assert ([x] + s)[..|[x] + s| - 1] == [x] + s[..|s| - 1];
      OnlyFirst(x, s[..|s| - 1], keep);
    }
  }

  // keep holds of elements that rank alike.
  ghost predicate Tied<T(!new)>(less: (T, T) -> bool, keep: T -> bool) {
    && (forall a, b :: keep(a) && keep(b) ==> !less(a, b))
    && forall a, b, c :: less(a, b) && keep(a) && keep(c) ==> less(c, b)
  }

  lemma {:induction false} InsertLast<T(!new)>(x: T, s: seq<T>, less: (T, T) -> bool, keep: T -> bool)
    requires Sorted(s, less) && Tied(less, keep)
    ensures Only(Insert(x, s, less), keep) == Only(s, keep) + if keep(x) then [x] else []
  {
    if s == [] {
      assert [x][..0] == [];
    } else if less(x, s[0]) {
      InsertFirst(x, s, less, keep);
    } else {
      TailSorted(s, less);
      InsertLast(x, s[1..], less, keep);
      OnlyFirst(s[0], Insert(x, s[1..], less), keep);
      OnlySplit(s, keep);
    }
  }

  lemma OnlySplit<T>(s: seq<T>, keep: T -> bool)
    requires s != []
    ensures Only(s, keep) == (if keep(s[0]) then [s[0]] else []) + Only(s[1..], keep)
  {
    OnlyFirst(s[0], s[1..], keep);
    assert s == [s[0]] + s[1..];
  }

  lemma TailSorted<T>(s: seq<T>, less: (T, T) -> bool)
    requires s != [] && Sorted(s, less)
    ensures Sorted(s[1..], less)
  {
  }

  lemma InsertFirst<T(!new)>(x: T, s: seq<T>, less: (T, T) -> bool, keep: T -> bool)
    requires s != [] && less(x, s[0]) && Sorted(s, less) && Tied(less, keep)
    ensures Only([x] + s, keep) == Only(s, keep) + if keep(x) then [x] else []
  {
    OnlyFirst(x, s, keep);
    if keep(x) { OnlyNone(s, x, less, keep); }
  }

  lemma {:induction false} OnlyNone<T(!new)>(s: seq<T>, x: T, less: (T, T) -> bool, keep: T -> bool)
    requires keep(x) && s != [] && less(x, s[0]) && Sorted(s, less) && Tied(less, keep)
    ensures Only(s, keep) == []
  {
    forall i | 0 <= i < |s| ensures !keep(s[i]) {
      var head, y := s[0], s[i];
      assert keep(y) ==> less(y, head);
    }
    OnlyOf(s, keep);
  }

  lemma {:induction false} OnlyOf<T>(s: seq<T>, keep: T -> bool)
    requires forall i :: 0 <= i < |s| ==> !keep(s[i])
    ensures Only(s, keep) == []
  {
    if s != [] { OnlyOf(s[..|s| - 1], keep); }
  }

  // Elements of which none is less than another keep their order.
  lemma {:induction false} StableKeeps<T(!new)>(s: seq<T>, less: (T, T) -> bool, keep: T -> bool)
    requires Transitive(less) && Asymmetric(less) && Tied(less, keep)
    ensures Only(StableSort(s, less), keep) == Only(s, keep)
  {
    if s != [] {
      var front, x := s[..|s| - 1], s[|s| - 1];
      StableKeeps(front, less, keep);
      StableSortSorts(front, less);
      InsertLast(x, StableSort(front, less), less, keep);
    }
  }

  // sort.Slice: all a caller may rely on is some sorted permutation.
  method SortSlice<T(!new)>(s: seq<T>, less: (T, T) -> bool) returns (r: seq<T>)
    requires Transitive(less) && Asymmetric(less)
    ensures Sorted(r, less)
    ensures multiset(r) == multiset(s)
  {
    r := [];
    for i := 0 to |s|
      invariant Sorted(r, less)
      invariant multiset(r) == multiset(s[..i])
    {
      InsertSorts(s[i], r, less);
      InsertAdds(s[i], r, less);
      assert s[..i + 1] == s[..i] + [s[i]];
      r := Insert(s[i], r, less);
    }
    assert s[..|s|] == s;
  }

  lemma HeadIsLeast<T(!new)>(a: seq<T>, x: T, less: (T, T) -> bool)
    requires Increasing(a, less) && x in a
    ensures x == a[0] || less(a[0], x)
  {
  }

  lemma TailElements<T(!new)>(a: seq<T>, less: (T, T) -> bool)
    requires Asymmetric(less) && Increasing(a, less) && a != []
    ensures forall x :: x in a[1..] <==> x in a && x != a[0]
  {
    forall x ensures x in a[1..] <==> x in a && x != a[0] {
      if x in a[1..] {
        var k :| 0 <= k < |a[1..]| && a[1..][k] == x;
        assert less(a[0], a[k + 1]);
      }
      assert a == [a[0]] + a[1..];
    }
  }

  // Two increasing sequences with the same elements are the same sequence.
  lemma {:induction false} IncreasingUnique<T(!new)>(a: seq<T>, b: seq<T>, less: (T, T) -> bool)
    requires Asymmetric(less) && Increasing(a, less) && Increasing(b, less)
    requires forall x :: x in a <==> x in b
    ensures a == b
  {
    assert |a| > 0 ==> a[0] in a;
    assert |b| > 0 ==> b[0] in b;
    if a != [] && b != [] {
      HeadIsLeast(a, b[0], less);
      HeadIsLeast(b, a[0], less);
      TailElements(a, less);
      TailElements(b, less);
      IncreasingUnique(a[1..], b[1..], less);
      assert a == [a[0]] + a[1..] && b == [b[0]] + b[1..];
    }
  }

  lemma Without<T>(b: seq<T>, i: nat)
    requires i < |b|
    ensures multiset(b[..i] + b[i + 1..]) == multiset(b) - multiset{b[i]}
  {
    assert b == b[..i] + [b[i]] + b[i + 1..];
  }

  // Where b holds the last element of a.
  lemma FindLast<T>(a: seq<T>, b: seq<T>) returns (i: nat)
    requires multiset(a) == multiset(b) && a != []
    ensures i < |b| && b[i] == a[|a| - 1]
    ensures multiset(a[..|a| - 1]) == multiset(b[..i] + b[i + 1..])
  {
    var x, front := a[|a| - 1], a[..|a| - 1];
    assert a == front + [x];
    assert x in multiset(b);
    i :| 0 <= i < |b| && b[i] == x;
    Without(b, i);
    assert multiset(front) == multiset(a) - multiset{x};
  }

  lemma OnceDistinct<T>(s: seq<T>, i: nat, j: nat)
    requires i < j < |s| && multiset(s)[s[i]] <= 1
    ensures s[i] != s[j]
  {
    assert s == s[..i] + [s[i]] + s[i + 1..j] + [s[j]] + s[j + 1..];
  }

  lemma {:induction false} NoDuplicatesOnce<T>(s: seq<T>, x: T)
    requires forall i, j :: 0 <= i < j < |s| ==> s[i] != s[j]
    ensures multiset(s)[x] <= 1
  {
    if s != [] {
      NoDuplicatesOnce(s[1..], x);
      assert s == [s[0]] + s[1..];
      if x == s[0] { assert x !in s[1..]; }
    }
  }
}
