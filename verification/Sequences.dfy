/** Sequence vocabulary shared by the models: options and results, repetition-free
    lists, Python's string order and its `sorted`. */
module Sequences {

  datatype Option<+T> = None | Some(value: T)

  datatype Result<+T, +E> = Success(value: T) | Failure(error: E) {
    predicate IsFailure() {
      Failure?
    }

    function PropagateFailure<U>(): Result<U, E>
      requires Failure?
    {
      Failure(error)
    }

    function Extract(): T
      requires Success?
    {
      value
    }
  }

  // ---------- lists without repetition ----------

  ghost predicate Distinct<T>(xs: seq<T>) {
    forall i, j :: 0 <= i < j < |xs| ==> xs[i] != xs[j]
  }

  lemma {:induction false} DistinctCounts<T>(xs: seq<T>)
    ensures Distinct(xs) <==> forall x :: x in xs ==> multiset(xs)[x] == 1
  {
    if xs != [] {
      var rest := xs[1..];
      assert xs == [xs[0]] + rest;
      DistinctCounts(rest);
      if Distinct(xs) {
        assert Distinct(rest) by {
          forall i, j | 0 <= i < j < |rest| ensures rest[i] != rest[j] {
            assert xs[i + 1] != xs[j + 1];
          }
        }
        assert xs[0] !in rest;
      } else {
        var i, j :| 0 <= i < j < |xs| && xs[i] == xs[j];
        assert xs[j] == rest[j - 1];
        if i == 0 {
          assert multiset(xs)[xs[0]] == 1 + multiset(rest)[xs[0]];
        } else {
          assert rest[i - 1] == rest[j - 1];
          var x :| x in rest && multiset(rest)[x] != 1;
          assert multiset(xs)[x] >= multiset(rest)[x];
        }
      }
    }
  }

  lemma DistinctPermutation<T>(xs: seq<T>, ys: seq<T>)
    requires multiset(xs) == multiset(ys) && Distinct(xs)
    ensures Distinct(ys)
  {
    DistinctCounts(xs);
    DistinctCounts(ys);
    forall y | y in ys ensures multiset(ys)[y] == 1 {
      assert y in multiset(ys);
    }
  }

  lemma DistinctSameElements<T>(xs: seq<T>, ys: seq<T>)
    requires Distinct(xs) && Distinct(ys)
    requires forall x :: x in xs <==> x in ys
    ensures multiset(xs) == multiset(ys)
  {
    DistinctCounts(xs);
    DistinctCounts(ys);
    forall x ensures multiset(xs)[x] == multiset(ys)[x] {
      assert x in xs <==> x in multiset(xs);
      assert x in ys <==> x in multiset(ys);
    }
  }

  lemma DistinctConcat<T>(xs: seq<T>, ys: seq<T>)
    requires Distinct(xs) && Distinct(ys)
    requires forall x :: x in xs ==> x !in ys
    ensures Distinct(xs + ys)
  {
    var zs := xs + ys;
    forall i, j | 0 <= i < j < |zs| ensures zs[i] != zs[j] {
      if i < |xs| <= j {
        assert zs[i] in xs && zs[j] in ys;
      }
    }
  }

  // Taking one element away from equal multisets.
  lemma CancelOne<T>(a: multiset<T>, b: multiset<T>, x: T)
    requires a + multiset{x} == b + multiset{x}
    ensures a == b
  {
    assert a == a + multiset{x} - multiset{x};
    assert b == b + multiset{x} - multiset{x};
  }

  // ---------- Python's order on strings ----------

  predicate StrLe(a: string, b: string) {
    a == "" || (b != "" && (a[0] < b[0] || (a[0] == b[0] && StrLe(a[1..], b[1..]))))
  }

  lemma StrLeTotal(a: string, b: string)
    ensures StrLe(a, b) || StrLe(b, a)
  {}

  lemma StrLeAntisymmetric(a: string, b: string)
    requires StrLe(a, b) && StrLe(b, a)
    ensures a == b
  {
    if a != "" {
      StrLeAntisymmetric(a[1..], b[1..]);
      assert a == [a[0]] + a[1..] && b == [b[0]] + b[1..];
    }
  }

  lemma StrLeTransitive(a: string, b: string, c: string)
    requires StrLe(a, b) && StrLe(b, c)
    ensures StrLe(a, c)
  {
    if a != "" && a[0] == b[0] == c[0] {
      StrLeTransitive(a[1..], b[1..], c[1..]);
    }
  }

  /** A prefix comes first; otherwise the first difference decides. */
  lemma {:induction false} StrLeIff(a: string, b: string)
    ensures StrLe(a, b) <==> a <= b || exists k :: DiffersAt(a, b, k) && a[k] < b[k]
  {
    if a != "" && b != "" && a[0] == b[0] {
      StrLeIff(a[1..], b[1..]);
      assert a == [a[0]] + a[1..] && b == [b[0]] + b[1..];
      forall k | DiffersAt(a[1..], b[1..], k) ensures DiffersAt(a, b, k + 1) {}
      forall k | DiffersAt(a, b, k) ensures DiffersAt(a[1..], b[1..], k - 1) {}
      if StrLe(a[1..], b[1..]) && !(a[1..] <= b[1..]) {
        var k :| DiffersAt(a[1..], b[1..], k) && a[1..][k] < b[1..][k];
        assert DiffersAt(a, b, k + 1);
      }
    } else if a != "" && b != "" {
      assert DiffersAt(a, b, 0);
    }
  }

  /** The texts agree before position `k` and not at it. */
  ghost predicate DiffersAt(a: string, b: string, k: int) {
    0 <= k < |a| && k < |b| && a[k] != b[k] && forall i :: 0 <= i < k ==> a[i] == b[i]
  }

  // ---------- sorting ----------

  ghost predicate TotalPreorder<T(!new)>(le: (T, T) -> bool) {
    && (forall x, y :: le(x, y) || le(y, x))
    && (forall x, y, z :: le(x, y) && le(y, z) ==> le(x, z))
  }

  ghost predicate Sorted<T>(xs: seq<T>, le: (T, T) -> bool) {
    forall i, j :: 0 <= i < j < |xs| ==> le(xs[i], xs[j])
  }

  function InsertSorted<T>(x: T, xs: seq<T>, le: (T, T) -> bool): (r: seq<T>)
    ensures multiset(r) == multiset(xs) + multiset{x}
  {
    if xs == [] then [x]
    else if le(x, xs[0]) then [x] + xs
    else
      var r := [xs[0]] + InsertSorted(x, xs[1..], le);
      assert xs == [xs[0]] + xs[1..];
      r
  }

  // Python's `sorted`: stable, because an element is inserted before its equals.
  function Sort<T>(xs: seq<T>, le: (T, T) -> bool): (r: seq<T>)
    ensures multiset(r) == multiset(xs)
    ensures |r| == |xs|
  {
    if xs == [] then []
    else
      assert xs == [xs[0]] + xs[1..];
      var r := InsertSorted(xs[0], Sort(xs[1..], le), le);
      assert |multiset(r)| == |multiset(xs)|;
      r
  }

  lemma SameElements<T>(xs: seq<T>, ys: seq<T>)
    requires multiset(xs) == multiset(ys)
    ensures forall x :: x in xs <==> x in ys
  {
    forall x ensures x in xs <==> x in ys {
      assert x in xs <==> x in multiset(xs);
      assert x in ys <==> x in multiset(ys);
    }
  }

  lemma {:induction false} InsertSortedIsSorted<T(!new)>(x: T, xs: seq<T>, le: (T, T) -> bool)
    requires TotalPreorder(le) && Sorted(xs, le)
    ensures Sorted(InsertSorted(x, xs, le), le)
  {
    if xs != [] && !le(x, xs[0]) {
      var tail := InsertSorted(x, xs[1..], le);
      InsertSortedIsSorted(x, xs[1..], le);
      forall y | y in tail ensures le(xs[0], y) {
        assert y in multiset(tail);
        assert y in multiset(xs[1..]) || y == x;
      }
    }
  }

  lemma {:induction false} SortIsSorted<T(!new)>(xs: seq<T>, le: (T, T) -> bool)
    requires TotalPreorder(le)
    ensures Sorted(Sort(xs, le), le)
  {
    if xs != [] {
      SortIsSorted(xs[1..], le);
      InsertSortedIsSorted(xs[0], Sort(xs[1..], le), le);
    }
  }

  lemma StrLeIsTotalPreorder()
    ensures TotalPreorder(StrLe)
  {
    forall x, y ensures StrLe(x, y) || StrLe(y, x) {
      StrLeTotal(x, y);
    }
    forall x, y, z | StrLe(x, y) && StrLe(y, z) ensures StrLe(x, z) {
      StrLeTransitive(x, y, z);
    }
  }

  // Sorting by a key and then by the printed form, as Python sorts pairs.
  predicate KeyLe<T>(key: T -> string, text: T -> string, a: T, b: T) {
    if key(a) == key(b) then StrLe(text(a), text(b)) else StrLe(key(a), key(b))
  }

  lemma KeyLeMeans<T>(key: T -> string, text: T -> string, a: T, b: T)
    ensures KeyLe(key, text, a, b) ==>
              StrLe(key(a), key(b)) && (key(a) == key(b) ==> StrLe(text(a), text(b)))
  {
    StrLeTotal(key(a), key(a));
  }

  lemma KeyLeIsTotalPreorder<T(!new)>(key: T -> string, text: T -> string)
    ensures TotalPreorder((a, b) => KeyLe(key, text, a, b))
  {
    forall x, y ensures KeyLe(key, text, x, y) || KeyLe(key, text, y, x) {
      StrLeTotal(key(x), key(y));
      StrLeTotal(text(x), text(y));
    }
    forall x, y, z | KeyLe(key, text, x, y) && KeyLe(key, text, y, z) ensures KeyLe(key, text, x, z) {
      if key(x) == key(y) == key(z) {
        StrLeTransitive(text(x), text(y), text(z));
      } else if key(x) == key(z) {
        StrLeAntisymmetric(key(x), key(y));
      } else {
        StrLeTotal(key(y), key(y));
        StrLeTransitive(key(x), key(y), key(z));
      }
    }
  }

  // Python's `sorted` of a set of strings, whatever order the set is traversed in.
  method SortSet(elements: set<string>) returns (xs: seq<string>)
    ensures Distinct(xs) && Sorted(xs, StrLe)
    ensures forall x :: x in xs <==> x in elements
  {
    StrLeIsTotalPreorder();
    xs := [];
    var left := elements;
    while left != {}
      invariant left <= elements && Distinct(xs) && Sorted(xs, StrLe)
      invariant forall x :: x in xs <==> x in elements - left
      decreases left
    {
      var x :| x in left;
      ghost var before := xs + [x];
      DistinctConcat(xs, [x]);
      InsertSortedIsSorted(x, xs, StrLe);
      xs := InsertSorted(x, xs, StrLe);
      DistinctPermutation(before, xs);
      SameElements(before, xs);
      left := left - {x};
    }
  }

  // `le` tells the elements of `xs` apart.
  ghost predicate Separates<T>(le: (T, T) -> bool, xs: seq<T>) {
    forall x, y :: x in xs && y in xs && le(x, y) && le(y, x) ==> x == y
  }

  lemma HeadIsLeast<T>(xs: seq<T>, le: (T, T) -> bool, x: T)
    requires Sorted(xs, le) && x in xs && x != xs[0]
    ensures le(xs[0], x)
  {
    var i :| 0 <= i < |xs| && xs[i] == x;
  }

  lemma SameHead<T>(xs: seq<T>, ys: seq<T>, le: (T, T) -> bool)
    requires Sorted(xs, le) && Sorted(ys, le) && multiset(xs) == multiset(ys)
    requires Separates(le, xs) && xs != []
    ensures ys != [] && xs[0] == ys[0]
  {
    SameElements(xs, ys);
    assert xs[0] in xs;
    if xs[0] != ys[0] {
      assert ys[0] in ys;
      HeadIsLeast(xs, le, ys[0]);
      HeadIsLeast(ys, le, xs[0]);
    }
  }

  lemma SameTails<T>(xs: seq<T>, ys: seq<T>)
    requires xs != [] && ys != [] && xs[0] == ys[0] && multiset(xs) == multiset(ys)
    ensures multiset(xs[1..]) == multiset(ys[1..])
    ensures xs[1..] == ys[1..] ==> xs == ys
  {
    assert xs == [xs[0]] + xs[1..] && ys == [ys[0]] + ys[1..];
    assert multiset(xs[1..]) == multiset(xs) - multiset{xs[0]};
    assert multiset(ys[1..]) == multiset(ys) - multiset{ys[0]};
  }

  // Two sorted arrangements of one multiset agree when the order tells their elements apart.
  lemma {:induction false} SortedUnique<T>(xs: seq<T>, ys: seq<T>, le: (T, T) -> bool)
    requires Sorted(xs, le) && Sorted(ys, le) && multiset(xs) == multiset(ys)
    requires Separates(le, xs)
    ensures xs == ys
  {
    if xs == [] {
      assert |multiset(ys)| == |multiset(xs)|;
    } else {
      SameHead(xs, ys, le);
      SameTails(xs, ys);
      assert forall x :: x in xs[1..] ==> x in xs;
      SortedUnique(xs[1..], ys[1..], le);
    }
  }
}
