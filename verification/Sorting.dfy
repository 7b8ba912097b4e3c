/** Library sorting: what a stable sort returns, and when its result does not depend on the input order. */
module Sorting {

  ghost predicate StrictWeakOrder<T(!new)>(less: (T, T) -> bool)
  {
    && (forall x :: !less(x, x))
    && (forall x, y, z :: less(x, y) && less(y, z) ==> less(x, z))
    && (forall x, y, z :: less(x, z) ==> less(x, y) || less(y, z))
  }

  ghost predicate Sorted<T>(s: seq<T>, less: (T, T) -> bool)
  {
    forall i, j :: 0 <= i < j < |s| ==> !less(s[j], s[i])
  }

  /** Puts `x`, which came before all of `s`, in front of everything it is not after. */
  function Insert<T>(x: T, s: seq<T>, less: (T, T) -> bool): (r: seq<T>)
    ensures |r| == |s| + 1
  {
    if s == [] || !less(s[0], x) then [x] + s else [s[0]] + Insert(x, s[1..], less)
  }

  function StableSort<T>(s: seq<T>, less: (T, T) -> bool): (r: seq<T>)
    ensures |r| == |s|
  {
    if s == [] then [] else Insert(s[0], StableSort(s[1..], less), less)
  }

  lemma {:induction false} InsertKeepsElements<T>(x: T, s: seq<T>, less: (T, T) -> bool)
    ensures multiset(Insert(x, s, less)) == multiset{x} + multiset(s)
  {
    if s == [] || !less(s[0], x) {
    } else {
      InsertKeepsElements(x, s[1..], less);
      assert s == [s[0]] + s[1..];
    }
  }

  lemma {:induction false} SortKeepsElements<T>(s: seq<T>, less: (T, T) -> bool)
    ensures multiset(StableSort(s, less)) == multiset(s)
  {
    if s != [] {
      SortKeepsElements(s[1..], less);
      InsertKeepsElements(s[0], StableSort(s[1..], less), less);
      assert s == [s[0]] + s[1..];
    }
  }

  lemma SortedInFront<T(!new)>(x: T, s: seq<T>, less: (T, T) -> bool)
    requires Sorted(s, less) && forall j :: 0 <= j < |s| ==> !less(s[j], x)
    ensures Sorted([x] + s, less)
  {
  }

  lemma NotBelowAny<T(!new)>(x: T, s: seq<T>, less: (T, T) -> bool)
    requires StrictWeakOrder(less) && Sorted(s, less) && s != [] && !less(s[0], x)
    ensures forall j :: 0 <= j < |s| ==> !less(s[j], x)
  {
    forall j | 0 <= j < |s|
      ensures !less(s[j], x)
    {
      assert j > 0 ==> !less(s[j], s[0]);
    }
  }

  lemma {:induction false} InsertSorts<T(!new)>(x: T, s: seq<T>, less: (T, T) -> bool)
    requires StrictWeakOrder(less) && Sorted(s, less)
    ensures Sorted(Insert(x, s, less), less)
  {
    if s == [] {
    } else if !less(s[0], x) {
      NotBelowAny(x, s, less);
      SortedInFront(x, s, less);
    } else {
      InsertSorts(x, s[1..], less);
      var t := Insert(x, s[1..], less);
      InsertKeepsElements(x, s[1..], less);
      hide Insert;
      forall j | 0 <= j < |t|
        ensures !less(t[j], s[0])
      {
        assert t[j] in multiset(t);
        if t[j] != x {
          assert t[j] in multiset(s[1..]);
        }
      }
      SortedInFront(s[0], t, less);
    }
  }

  lemma {:induction false} SortSorts<T(!new)>(s: seq<T>, less: (T, T) -> bool)
    requires StrictWeakOrder(less)
    ensures Sorted(StableSort(s, less), less)
  {
    if s != [] {
      SortSorts(s[1..], less);
      InsertSorts(s[0], StableSort(s[1..], less), less);
    }
  }

  lemma {:induction false} SortedIsFixed<T(!new)>(s: seq<T>, less: (T, T) -> bool)
    requires Sorted(s, less)
    ensures StableSort(s, less) == s
  {
    if s != [] {
      SortedIsFixed(s[1..], less);
    }
  }

  /** `i` is where the front of the stable order comes from: nothing is before s[i], and everything that stood
    * ahead of it is after it. */
  ghost predicate IsFirst<T>(s: seq<T>, less: (T, T) -> bool, i: nat)
  {
    && i < |s|
    && (forall j :: 0 <= j < |s| ==> !less(s[j], s[i]))
    && (forall j :: 0 <= j < i ==> less(s[i], s[j]))
  }

  lemma {:induction false} FrontOfSort<T(!new)>(s: seq<T>, less: (T, T) -> bool) returns (i: nat)
    requires StrictWeakOrder(less) && s != []
    ensures IsFirst(s, less, i) && StableSort(s, less)[0] == s[i]
  {
    if |s| == 1 {
      i := 0;
    } else {
      var k := FrontOfSort(s[1..], less);
      var rest := StableSort(s[1..], less);
      if !less(rest[0], s[0]) {
        i := 0;
        forall j | 0 <= j < |s|
          ensures !less(s[j], s[0])
        {
          if j > 0 {
            assert !less(s[1..][j - 1], s[1..][k]);
          }
        }
      } else {
        i := k + 1;
        forall j | 0 <= j < |s|
          ensures !less(s[j], s[i])
        {
          if j > 0 {
            assert !less(s[1..][j - 1], s[1..][k]);
          }
        }
        forall j | 0 <= j < i
          ensures less(s[i], s[j])
        {
          if j > 0 {
            assert less(s[1..][k], s[1..][j - 1]);
          }
        }
      }
    }
  }

  // ---- Records with distinct ids: any order of arrival sorts to the same sequence ----

  function By<V>(id: V -> nat): (V, V) -> bool
  {
    (a: V, b: V) => id(a) < id(b)
  }

  ghost predicate Increasing<V>(s: seq<V>, id: V -> nat)
  {
    forall i, j :: 0 <= i < j < |s| ==> id(s[i]) < id(s[j])
  }

  ghost predicate DistinctIds<V>(s: seq<V>, id: V -> nat)
  {
    forall i, j :: 0 <= i < j < |s| ==> id(s[i]) != id(s[j])
  }

  /** `s` lists the values of `m`, each once, in some order. */
  ghost predicate Lists<V>(s: seq<V>, m: map<nat, V>, id: V -> nat)
  {
    && |s| == |m|
    && DistinctIds(s, id)
    && forall i :: 0 <= i < |s| ==> id(s[i]) in m && m[id(s[i])] == s[i]
  }

  ghost predicate IsLeast(k: nat, ks: set<nat>)
  {
    k in ks && forall j :: j in ks ==> k <= j
  }

  function Least(ks: set<nat>): (k: nat)
    requires ks != {}
    ensures IsLeast(k, ks)
  {
    LeastExists(ks);
    var k :| k in ks && forall j :: j in ks ==> k <= j;
    k
  }

  lemma {:induction false} LeastExists(ks: set<nat>)
    requires ks != {}
    ensures exists k :: IsLeast(k, ks)
    decreases ks
  {
    var k :| k in ks;
    var rest := ks - {k};
    assert forall j :: j in ks ==> j == k || j in rest;
    if rest == {} {
      assert IsLeast(k, ks);
    } else {
      LeastExists(rest);
      var l :| IsLeast(l, rest);
      assert IsLeast(if k < l then k else l, ks);
    }
  }

  /** The values of `m` in increasing order of key. */
  function Ordered<V>(m: map<nat, V>): (s: seq<V>)
    ensures |s| == |m|
    decreases |m|
  {
    if m == map[] then []
    else
      var k := Least(m.Keys);
      RemovedSize(m, k);
      [m[k]] + Ordered(m - {k})
  }

  lemma RemovedSize<V>(m: map<nat, V>, k: nat)
    requires k in m
    ensures |m - {k}| == |m| - 1
  {
    assert (m - {k}).Keys == m.Keys - {k};
    assert |m.Keys - {k}| == |m.Keys| - 1;
    assert |m - {k}| == |(m - {k}).Keys|;
  }

  lemma {:induction false} OrderedLists<V>(m: map<nat, V>, id: V -> nat)
    requires forall k :: k in m ==> id(m[k]) == k
    ensures Increasing(Ordered(m), id) && Lists(Ordered(m), m, id)
    decreases |m|
  {
    if m != map[] {
      var k := Least(m.Keys);
      RemovedSize(m, k);
      OrderedLists(m - {k}, id);
    }
  }

  lemma {:induction false} ListedIds<V>(s: seq<V>, id: V -> nat)
    requires DistinctIds(s, id)
    ensures |set i | 0 <= i < |s| :: id(s[i])| == |s|
  {
    if s != [] {
      var n := |s| - 1;
      ListedIds(s[..n], id);
      var front := set i | 0 <= i < n :: id(s[..n][i]);
      assert (set i | 0 <= i < |s| :: id(s[i])) == front + {id(s[n])};
      assert id(s[n]) !in front;
    }
  }

  lemma FullSubset(a: set<nat>, b: set<nat>)
    requires a <= b && |a| == |b|
    ensures a == b
  {
    assert |b - a| == |b| - |a|;
  }

  /** A listing misses no key. */
  lemma ListingCovers<V>(s: seq<V>, m: map<nat, V>, id: V -> nat, k: nat) returns (i: nat)
    requires Lists(s, m, id) && k in m
    ensures i < |s| && id(s[i]) == k
  {
    var ids := set j | 0 <= j < |s| :: id(s[j]);
    ListedIds(s, id);
    assert ids <= m.Keys;
    assert |m| == |m.Keys|;
    FullSubset(ids, m.Keys);
    assert k in ids;
    i :| 0 <= i < |s| && id(s[i]) == k;
  }

  lemma {:induction false} IncreasingListingUnique<V>(s: seq<V>, m: map<nat, V>, id: V -> nat)
    requires Increasing(s, id) && Lists(s, m, id)
    ensures s == Ordered(m)
    decreases |m|
  {
    if m != map[] {
      var k := Least(m.Keys);
      RemovedSize(m, k);
      var i := ListingCovers(s, m, id, k);
      assert id(s[0]) == k;
      assert s == [m[k]] + s[1..];
      IncreasingListingUnique(s[1..], m - {k}, id);
    }
  }

  lemma {:induction false} InsertKeepsDistinct<V>(x: V, s: seq<V>, id: V -> nat)
    requires DistinctIds([x] + s, id)
    ensures DistinctIds(Insert(x, s, By(id)), id)
    ensures forall i :: 0 <= i <= |s| ==> Insert(x, s, By(id))[i] in [x] + s
  {
    if s != [] && By(id)(s[0], x) {
      var t := [x] + s[1..];
      forall i, j | 0 <= i < j < |t|
        ensures id(t[i]) != id(t[j])
      {
        var whole := [x] + s;
        assert t[j] == whole[j + 1] && t[i] == whole[if i == 0 then 0 else i + 1];
      }
      InsertKeepsDistinct(x, s[1..], id);
      var r := Insert(x, s[1..], By(id));
      forall i | 0 <= i < |r|
        ensures r[i] in [x] + s && id(r[i]) != id(s[0])
      {
        assert r[i] in t;
        var j :| 0 <= j < |t| && t[j] == r[i];
        assert t[j] == ([x] + s)[if j == 0 then 0 else j + 1] && s[0] == ([x] + s)[1];
      }
    }
  }

  lemma {:induction false} SortKeepsDistinct<V>(s: seq<V>, id: V -> nat)
    requires DistinctIds(s, id)
    ensures DistinctIds(StableSort(s, By(id)), id)
    ensures forall i :: 0 <= i < |s| ==> StableSort(s, By(id))[i] in s
  {
    if s != [] {
      SortKeepsDistinct(s[1..], id);
      var r := StableSort(s[1..], By(id));
      forall j | 0 <= j < |r|
        ensures id(r[j]) != id(s[0])
      {
        assert r[j] in s[1..];
      }
      InsertKeepsDistinct(s[0], r, id);
    }
  }

  /** Sorting by id turns every listing of a map, in whatever order, into the same sequence. */
  lemma SortingForgetsOrder<V(!new)>(s: seq<V>, m: map<nat, V>, id: V -> nat)
    requires Lists(s, m, id)
    ensures StableSort(s, By(id)) == Ordered(m)
  {
    var r := StableSort(s, By(id));
    SortSorts(s, By(id));
    SortKeepsDistinct(s, id);
    forall i, j | 0 <= i < j < |r|
      ensures id(r[i]) < id(r[j])
    {
      assert !By(id)(r[j], r[i]);
    }
    IncreasingListingUnique(r, m, id);
  }
}
