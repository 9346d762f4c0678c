/** A stable sort driven by a "strictly before" relation, standing for
    JavaScript's `Array.prototype.sort` with a comparator: an element is
    placed ahead of an earlier one only when the comparator says it is
    strictly smaller, so equal elements keep their input order. */
module Sorting {

  /** `lt` is irreflexive and transitive on the elements of `s`. */
  ghost predicate StrictOrderOn<T(!new)>(lt: (T, T) -> bool, s: seq<T>)
  {
    && (forall a :: a in s ==> !lt(a, a))
    && (forall a, b, c :: a in s && b in s && c in s && lt(a, b) && lt(b, c) ==> lt(a, c))
  }

  /** No element of `s` is strictly before an element that precedes it. */
  ghost predicate SortedBy<T>(lt: (T, T) -> bool, s: seq<T>)
  {
    forall i, j :: 0 <= i < j < |s| ==> !lt(s[j], s[i])
  }

  /** Places `x` into `s` after every element it is not strictly before. */
  function Insert<T>(x: T, s: seq<T>, lt: (T, T) -> bool): (r: seq<T>)
    ensures |r| == |s| + 1
    ensures multiset(r) == multiset(s) + multiset{x}
  {
    if s == [] then [x]
    else if lt(x, s[0]) then [x] + s
    else
      assert s == [s[0]] + s[1..];
      [s[0]] + Insert(x, s[1..], lt)
  }

  /** The stable insertion sort of `s`: each element in turn is inserted into the sorted prefix. */
  function Sort<T>(s: seq<T>, lt: (T, T) -> bool): (r: seq<T>)
    ensures |r| == |s|
    ensures multiset(r) == multiset(s)
  {
    if s == [] then []
    else
      assert s == s[..|s| - 1] + [s[|s| - 1]];
      Insert(s[|s| - 1], Sort(s[..|s| - 1], lt), lt)
  }

  /** In a sorted sequence nothing after the head is strictly before the head. */
  lemma SortedHead<T>(lt: (T, T) -> bool, s: seq<T>)
    requires s != [] && SortedBy(lt, s)
    ensures forall a :: a in s[1..] ==> !lt(a, s[0])
  {
    forall a | a in s[1..] ensures !lt(a, s[0]) {
      var k :| 0 <= k < |s[1..]| && s[1..][k] == a;
      assert s[k + 1] == a;
    }
  }

  /** A head that no later element is strictly before keeps a sorted tail sorted. */
  lemma ConsSorted<T>(lt: (T, T) -> bool, h: T, t: seq<T>)
    requires SortedBy(lt, t)
    requires forall a :: a in t ==> !lt(a, h)
    ensures SortedBy(lt, [h] + t)
  {
    var r := [h] + t;
    forall i, j | 0 <= i < j < |r| ensures !lt(r[j], r[i]) {
      assert r[j] == t[j - 1];
      if i > 0 {
        assert r[i] == t[i - 1];
      }
    }
  }

  lemma {:induction false} InsertSorted<T(!new)>(x: T, s: seq<T>, lt: (T, T) -> bool)
    requires SortedBy(lt, s)
    requires StrictOrderOn(lt, [x] + s)
    ensures SortedBy(lt, Insert(x, s, lt))
  {
    if s == [] {
    } else if lt(x, s[0]) {
      SortedHead(lt, s);
      assert s[0] in [x] + s;
      forall a | a in s ensures !lt(a, x) {
        assert a in [x] + s;
      }
      ConsSorted(lt, x, s);
    } else {
      var t := s[1..];
      assert SortedBy(lt, t);
      assert forall a :: a in [x] + t ==> a in [x] + s;
      InsertSorted(x, t, lt);
      var rest := Insert(x, t, lt);
      SortedHead(lt, s);
      forall a | a in rest ensures !lt(a, s[0]) {
        assert a in multiset(rest);
      }
      ConsSorted(lt, s[0], rest);
    }
  }

  lemma {:induction false} SortSorted<T(!new)>(s: seq<T>, lt: (T, T) -> bool)
    requires StrictOrderOn(lt, s)
    ensures SortedBy(lt, Sort(s, lt))
  {
    if s != [] {
      var init, last := s[..|s| - 1], s[|s| - 1];
      assert s == init + [last];
      assert forall a :: a in init ==> a in s;
      SortSorted(init, lt);
      var sorted := Sort(init, lt);
      var xs := [last] + sorted;
      forall a | a in xs ensures a in s {
        if a != last {
          assert a in multiset(sorted);
        }
      }
      InsertSorted(last, sorted, lt);
    }
  }

  lemma {:induction false} InsertAfterAll<T>(x: T, s: seq<T>, lt: (T, T) -> bool)
    requires forall i :: 0 <= i < |s| ==> !lt(x, s[i])
    ensures Insert(x, s, lt) == s + [x]
  {
    if s != [] {
      InsertAfterAll(x, s[1..], lt);
      assert [s[0]] + (s[1..] + [x]) == s + [x];
    }
  }

  /** A sequence that is already sorted is left as it is. */
  lemma {:induction false} SortOfSortedIsIdentity<T>(s: seq<T>, lt: (T, T) -> bool)
    requires SortedBy(lt, s)
    ensures Sort(s, lt) == s
  {
    if s != [] {
      var init := s[..|s| - 1];
      assert SortedBy(lt, init);
      SortOfSortedIsIdentity(init, lt);
      InsertAfterAll(s[|s| - 1], init, lt);
      assert init + [s[|s| - 1]] == s;
    }
  }

  /** When no element is strictly before another (JavaScript's comparator
      returning 0 throughout), sorting leaves the sequence as it was. */
  lemma SortUnrelatedIsIdentity<T>(s: seq<T>, lt: (T, T) -> bool)
    requires forall i, j :: 0 <= i < |s| && 0 <= j < |s| ==> !lt(s[i], s[j])
    ensures Sort(s, lt) == s
  {
    SortOfSortedIsIdentity(s, lt);
  }
}
