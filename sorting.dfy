/**
 * Stable sorting and filtering of sequences.
 *
 * Python's `list.sort` / `sorted` (Timsort) and SQL's `ORDER BY` are library
 * code; they are modelled here by one stable insertion sort whose contract is
 * what those libraries promise: the result is ordered, is a permutation of
 * the input, and (for `list.sort`) keeps the input order of tied elements.
 */
module Sorting {

  /** `le` is a total preorder: any two elements compare, and it is transitive. */
  ghost predicate TotalPreorder<T(!new)>(le: (T, T) -> bool) {
    && (forall a, b :: le(a, b) || le(b, a))
    && (forall a, b, c :: le(a, b) && le(b, c) ==> le(a, c))
  }

  ghost predicate Sorted<T>(s: seq<T>, le: (T, T) -> bool) {
    forall i, j :: 0 <= i < j < |s| ==> le(s[i], s[j])
  }

  /** The comparator "by an integer key", as `sort(key=...)` uses it. */
  function ByKey<T>(key: T -> int): (T, T) -> bool {
    (a: T, b: T) => key(a) <= key(b)
  }

  lemma ByKeyPreorder<T(!new)>(key: T -> int)
    ensures TotalPreorder(ByKey(key))
  {
  }

  /** Puts `x` in front of the first element it is not greater than. */
  function Insert<T>(x: T, s: seq<T>, le: (T, T) -> bool): (r: seq<T>)
    ensures multiset(r) == multiset(s) + multiset{x}
    ensures |r| == |s| + 1
  {
    if s == [] then [x]
    else if le(x, s[0]) then [x] + s
    else
      var t := Insert(x, s[1..], le);
      assert s == [s[0]] + s[1..];
      [s[0]] + t
  }

  /** Stable insertion sort. */
  function Sort<T>(s: seq<T>, le: (T, T) -> bool): (r: seq<T>)
    ensures multiset(r) == multiset(s)
    ensures |r| == |s|
  {
    if s == [] then []
    else
      assert s == [s[0]] + s[1..];
      Insert(s[0], Sort(s[1..], le), le)
  }

  lemma {:induction false} InsertSorted<T(!new)>(x: T, s: seq<T>, le: (T, T) -> bool)
    requires TotalPreorder(le) && Sorted(s, le)
    ensures Sorted(Insert(x, s, le), le)
  {
    if s != [] && !le(x, s[0]) {
      InsertSorted(x, s[1..], le);
      var t := Insert(x, s[1..], le);
      var r := [s[0]] + t;
      forall j | 0 < j < |r|
        ensures le(r[0], r[j])
      {
        assert r[j] in multiset(t);
        assert r[j] == x || r[j] in multiset(s[1..]);
      }
    }
  }

  /** The result of `Sort` is ordered and is a permutation of the input. */
  lemma {:induction false} SortSorted<T(!new)>(s: seq<T>, le: (T, T) -> bool)
    requires TotalPreorder(le)
    ensures Sorted(Sort(s, le), le)
    ensures multiset(Sort(s, le)) == multiset(s)
  {
    if s != [] {
      SortSorted(s[1..], le);
      InsertSorted(s[0], Sort(s[1..], le), le);
    }
  }

  /** The elements of `s` that compare equal to `z`, in their order in `s`. */
  function Tied<T>(s: seq<T>, z: T, le: (T, T) -> bool): seq<T>
  {
    if s == [] then []
    else (if le(s[0], z) && le(z, s[0]) then [s[0]] else []) + Tied(s[1..], z, le)
  }

  lemma {:induction false} TiedInsert<T(!new)>(x: T, s: seq<T>, z: T, le: (T, T) -> bool)
    requires forall y :: le(x, z) && le(z, y) ==> le(x, y)
    ensures Tied(Insert(x, s, le), z, le)
         == (if le(x, z) && le(z, x) then [x] else []) + Tied(s, z, le)
  {
    if s == [] || le(x, s[0]) {
      TiedCons(x, s, z, le);
    } else {
      TiedInsert(x, s[1..], z, le);
      TiedBehind(x, s, z, le, Insert(x, s[1..], le));
    }
  }

  /** Putting `x` behind a head that is strictly below it adds `x` to the tie class behind the head's. */
  lemma TiedBehind<T>(x: T, s: seq<T>, z: T, le: (T, T) -> bool, t: seq<T>)
    requires s != [] && !le(x, s[0])
    requires forall y :: le(x, z) && le(z, y) ==> le(x, y)
    requires Tied(t, z, le) == (if le(x, z) && le(z, x) then [x] else []) + Tied(s[1..], z, le)
    ensures Tied([s[0]] + t, z, le) == (if le(x, z) && le(z, x) then [x] else []) + Tied(s, z, le)
  {
    var h := s[0];
    var cx := if le(x, z) && le(z, x) then [x] else [];
    var c0 := if le(h, z) && le(z, h) then [h] else [];
    TiedCons(s[0], t, z, le);
    TiedCons(s[0], s[1..], z, le);
    assert s == [s[0]] + s[1..];
    // x and the head cannot both be tied with z: that would put x below the head
    if cx != [] {
      assert le(x, z) && le(z, h) ==> le(x, h);
      assert c0 == [];
      assert [] + Tied(t, z, le) == Tied(t, z, le);
    } else {
      assert [] + Tied(s[1..], z, le) == Tied(s[1..], z, le);
    }
  }

  /** The tie class of a sequence with one more element in front. */
  lemma TiedCons<T>(y: T, t: seq<T>, z: T, le: (T, T) -> bool)
    ensures Tied([y] + t, z, le) == (if le(y, z) && le(z, y) then [y] else []) + Tied(t, z, le)
  {
    assert ([y] + t)[1..] == t;
  }

  /**
   * Stability: elements that compare equal keep their input order, so the
   * sort neither loses nor reorders the members of any tie class.
   */
  lemma {:induction false} SortStable<T(!new)>(s: seq<T>, z: T, le: (T, T) -> bool)
    requires TotalPreorder(le)
    ensures Tied(Sort(s, le), z, le) == Tied(s, z, le)
  {
    if s != [] {
      SortStable(s[1..], z, le);
      TiedInsert(s[0], Sort(s[1..], le), z, le);
    }
  }

  /** A list comprehension `[x for x in s if p(x)]`. */
  function Filter<T(!new)>(s: seq<T>, p: T -> bool): (r: seq<T>)
    ensures forall x :: x in r <==> x in s && p(x)
    ensures forall i :: 0 <= i < |r| ==> p(r[i])
    ensures |r| <= |s|
  {
    if s == [] then []
    else
      assert s == [s[0]] + s[1..];
      (if p(s[0]) then [s[0]] else []) + Filter(s[1..], p)
  }

  /** Filtering keeps every copy of an element that passes and none of one that does not. */
  lemma {:induction false} FilterCount<T(!new)>(s: seq<T>, p: T -> bool)
    ensures forall x :: multiset(Filter(s, p))[x] == if p(x) then multiset(s)[x] else 0
  {
    if s != [] {
      assert s == [s[0]] + s[1..];
      FilterCount(s[1..], p);
    }
  }

  /** Filtering keeps the whole sequence exactly when every element passes. */
  lemma {:induction false} FilterKeepsAll<T(!new)>(s: seq<T>, p: T -> bool)
    requires forall i :: 0 <= i < |s| ==> p(s[i])
    ensures Filter(s, p) == s
  {
    if s != [] {
      FilterKeepsAll(s[1..], p);
    }
  }

  /** Filtering drops the whole sequence when no element passes. */
  lemma {:induction false} FilterNone<T(!new)>(s: seq<T>, p: T -> bool)
    requires forall i :: 0 <= i < |s| ==> !p(s[i])
    ensures Filter(s, p) == []
  {
    if s != [] {
      FilterNone(s[1..], p);
    }
  }

  /** Filtering a sequence extended by one element extends the filtered sequence by that element when it passes. */
  lemma {:induction false} FilterSnoc<T(!new)>(s: seq<T>, x: T, p: T -> bool)
    ensures Filter(s + [x], p) == Filter(s, p) + (if p(x) then [x] else [])
  {
    if s == [] {
      assert [x][1..] == [];
    } else {
      assert (s + [x])[1..] == s[1..] + [x];
      FilterSnoc(s[1..], x, p);
    }
  }

  /** The tie class of a concatenation is the tie classes of its parts, in order. */
  lemma {:induction false} TiedAppend<T>(a: seq<T>, b: seq<T>, z: T, le: (T, T) -> bool)
    ensures Tied(a + b, z, le) == Tied(a, z, le) + Tied(b, z, le)
  {
    if a == [] {
      assert a + b == b;
    } else {
      assert (a + b)[1..] == a[1..] + b;
      TiedAppend(a[1..], b, z, le);
    }
  }
}
