/**
 The stable sort behind `Array.prototype.sort`, over any total preorder, and the facts that decide
 when a sorted listing does not depend on the order in which the rows arrived.
 */
module StableSort {

  ghost predicate TotalPreorder<T(!new)>(leq: (T, T) -> bool) {
    && (forall x, y :: leq(x, y) || leq(y, x))
    && (forall x, y, z :: leq(x, y) && leq(y, z) ==> leq(x, z))
  }

  function Insert<T>(leq: (T, T) -> bool, x: T, s: seq<T>): seq<T> {
    if s == [] || leq(x, s[0]) then [x] + s
    else [s[0]] + Insert(leq, x, s[1..])
  }

  /** Stable: of two equivalent elements the one that stood first stays first. */
  function Sort<T>(leq: (T, T) -> bool, s: seq<T>): seq<T> {
    if s == [] then [] else Insert(leq, s[0], Sort(leq, s[1..]))
  }

  lemma {:induction false} InsertPermutes<T>(leq: (T, T) -> bool, x: T, s: seq<T>)
    ensures multiset(Insert(leq, x, s)) == multiset(s) + multiset{x}
  {
    if s != [] && !leq(x, s[0]) {
      InsertPermutes(leq, x, s[1..]);
      assert s == [s[0]] + s[1..];
    }
  }

  lemma {:induction false} SortPermutes<T>(leq: (T, T) -> bool, s: seq<T>)
    ensures multiset(Sort(leq, s)) == multiset(s)
  {
    if s != [] {
      SortPermutes(leq, s[1..]);
      InsertPermutes(leq, s[0], Sort(leq, s[1..]));
      assert s == [s[0]] + s[1..];
    }
  }

  lemma SortMembers<T>(leq: (T, T) -> bool, s: seq<T>, x: T)
    ensures x in Sort(leq, s) <==> x in s
  {
    SortPermutes(leq, s);
    assert x in multiset(Sort(leq, s)) <==> x in multiset(s);
  }

  ghost predicate Sorted<T(!new)>(leq: (T, T) -> bool, s: seq<T>) {
    forall i, j :: 0 <= i < j < |s| ==> leq(s[i], s[j])
  }

  lemma {:induction false} InsertSorted<T(!new)>(leq: (T, T) -> bool, x: T, s: seq<T>)
    requires TotalPreorder(leq) && Sorted(leq, s)
    ensures Sorted(leq, Insert(leq, x, s))
  {
    if s != [] && !leq(x, s[0]) {
      InsertSorted(leq, x, s[1..]);
      var r := Insert(leq, x, s[1..]);
      InsertPermutes(leq, x, s[1..]);
      forall i | 0 <= i < |r|
        ensures leq(s[0], r[i])
      {
        assert r[i] in multiset(r);
        assert r[i] == x || r[i] in s[1..];
      }
    }
  }

  lemma {:induction false} SortSorted<T(!new)>(leq: (T, T) -> bool, s: seq<T>)
    requires TotalPreorder(leq)
    ensures Sorted(leq, Sort(leq, s))
  {
    if s != [] {
      SortSorted(leq, s[1..]);
      InsertSorted(leq, s[0], Sort(leq, s[1..]));
    }
  }

  /** Distinct rows carry distinct keys: only then can a listing be independent of arrival order. */
  ghost predicate KeysDecide<T(!new)>(leq: (T, T) -> bool, s: seq<T>) {
    forall x, y :: x in s && y in s && leq(x, y) && leq(y, x) ==> x == y
  }

  lemma SameMinimum<T(!new)>(leq: (T, T) -> bool, s: seq<T>, t: seq<T>)
    requires TotalPreorder(leq) && Sorted(leq, s) && Sorted(leq, t)
    requires multiset(s) == multiset(t) && s != [] && t != []
    ensures Tied(leq, s[0], t[0])
  {
    assert s[0] in multiset(t) && t[0] in multiset(s);
    var i :| 0 <= i < |t| && t[i] == s[0];
    var j :| 0 <= j < |s| && s[j] == t[0];
    assert leq(s[0], s[0]) && leq(t[0], t[0]);
    assert i == 0 || leq(t[0], t[i]);
    assert j == 0 || leq(s[0], s[j]);
  }

  lemma TailsOfPermutation<T>(s: seq<T>, t: seq<T>)
    requires multiset(s) == multiset(t) && s != [] && t != [] && s[0] == t[0]
    ensures multiset(s[1..]) == multiset(t[1..])
  {
    assert s == [s[0]] + s[1..] && t == [t[0]] + t[1..];
    assert multiset(s[1..]) == multiset(s) - multiset{s[0]};
    assert multiset(t[1..]) == multiset(t) - multiset{t[0]};
  }

  lemma {:induction false} SortedUnique<T(!new)>(leq: (T, T) -> bool, s: seq<T>, t: seq<T>)
    requires TotalPreorder(leq) && Sorted(leq, s) && Sorted(leq, t)
    requires multiset(s) == multiset(t) && KeysDecide(leq, s)
    ensures s == t
  {
    assert |s| == |multiset(s)| == |multiset(t)| == |t|;
    if s != [] {
      SameMinimum(leq, s, t);
      assert t[0] in multiset(s);
      TailsOfPermutation(s, t);
      SortedUnique(leq, s[1..], t[1..]);
      assert s == [s[0]] + s[1..] && t == [t[0]] + t[1..];
    }
  }

  predicate Tied<T>(leq: (T, T) -> bool, x: T, y: T) {
    leq(x, y) && leq(y, x)
  }

  /** The elements equivalent to a pivot, in order. */
  function Ties<T>(leq: (T, T) -> bool, p: T, s: seq<T>): seq<T> {
    if s == [] then []
    else (if Tied(leq, p, s[0]) then [s[0]] else []) + Ties(leq, p, s[1..])
  }

  lemma TiesCons<T>(leq: (T, T) -> bool, p: T, x: T, s: seq<T>)
    ensures Ties(leq, p, [x] + s) == (if Tied(leq, p, x) then [x] else []) + Ties(leq, p, s)
  {
    assert ([x] + s)[1..] == s;
  }

  lemma {:induction false} InsertTies<T>(leq: (T, T) -> bool, p: T, x: T, s: seq<T>)
    requires Tied(leq, p, x) ==> forall y :: y in s && Tied(leq, p, y) ==> leq(x, y)
    ensures Ties(leq, p, Insert(leq, x, s)) == (if Tied(leq, p, x) then [x] else []) + Ties(leq, p, s)
  {
    if s == [] || leq(x, s[0]) {
      assert Insert(leq, x, s) == [x] + s;
      TiesCons(leq, p, x, s);
    } else {
      var y, rest := s[0], s[1..];
      InsertTies(leq, p, x, rest);
      TiesCons(leq, p, y, Insert(leq, x, rest));
      assert s == [y] + rest;
      TiesCons(leq, p, y, rest);
      assert !(Tied(leq, p, x) && Tied(leq, p, y));
    }
  }

  lemma TiedTransfer<T(!new)>(leq: (T, T) -> bool, p: T, x: T, y: T)
    requires TotalPreorder(leq) && Tied(leq, p, x) && Tied(leq, p, y)
    ensures Tied(leq, x, y)
  {
    assert leq(x, p) && leq(p, y);
  }

  /** Stability: sorting never reorders equivalent elements. */
  lemma {:induction false} SortStable<T(!new)>(leq: (T, T) -> bool, p: T, s: seq<T>)
    requires TotalPreorder(leq)
    ensures Ties(leq, p, Sort(leq, s)) == Ties(leq, p, s)
  {
    if s != [] {
      SortStable(leq, p, s[1..]);
      if Tied(leq, p, s[0]) {
        forall y | y in Sort(leq, s[1..]) && Tied(leq, p, y)
          ensures leq(s[0], y)
        {
          TiedTransfer(leq, p, s[0], y);
        }
      }
      InsertTies(leq, p, s[0], Sort(leq, s[1..]));
    }
  }

  ghost predicate Permutation<T>(s: seq<T>, t: seq<T>) {
    multiset(s) == multiset(t)
  }

  lemma SortOfPermutation<T(!new)>(leq: (T, T) -> bool, s: seq<T>, t: seq<T>)
    requires TotalPreorder(leq) && KeysDecide(leq, s) && Permutation(s, t)
    ensures Sort(leq, t) == Sort(leq, s)
  {
    SortSorted(leq, s);
    SortSorted(leq, t);
    SortPermutes(leq, s);
    SortPermutes(leq, t);
    forall x | x in Sort(leq, s)
      ensures x in s
    {
      SortMembers(leq, s, x);
    }
    SortedUnique(leq, Sort(leq, s), Sort(leq, t));
  }

  lemma TiedPairKeepsOrder<T(!new)>(leq: (T, T) -> bool, x: T, y: T, t: seq<T>)
    requires TotalPreorder(leq) && Tied(leq, x, y)
    ensures Ties(leq, x, Sort(leq, [x, y] + t)) == [x, y] + Ties(leq, x, t)
    ensures Ties(leq, x, Sort(leq, [y, x] + t)) == [y, x] + Ties(leq, x, t)
  {
    assert Tied(leq, y, x);
    TiedTransfer(leq, y, x, x);
    assert Tied(leq, x, x);
    SortStable(leq, x, [x, y] + t);
    SortStable(leq, x, [y, x] + t);
    TiesPair(leq, x, x, y, t);
    TiesPair(leq, x, y, x, t);
  }

  lemma TiesPair<T>(leq: (T, T) -> bool, p: T, x: T, y: T, t: seq<T>)
    requires Tied(leq, p, x) && Tied(leq, p, y)
    ensures Ties(leq, p, [x, y] + t) == [x, y] + Ties(leq, p, t)
  {
    assert [x, y] + t == [x] + ([y] + t);
    TiesCons(leq, p, x, [y] + t);
    TiesCons(leq, p, y, t);
  }

  /** Sorting forgets the arrival order exactly when no two different rows share a key. */
  lemma OrderIndependence<T(!new)>(leq: (T, T) -> bool, s: seq<T>)
    requires TotalPreorder(leq)
    ensures KeysDecide(leq, s) <==> forall t :: Permutation(s, t) ==> Sort(leq, t) == Sort(leq, s)
  {
    if KeysDecide(leq, s) {
      forall t | Permutation(s, t)
        ensures Sort(leq, t) == Sort(leq, s)
      {
        SortOfPermutation(leq, s, t);
      }
    } else {
      var x, y :| x in s && y in s && Tied(leq, x, y) && x != y;
      TiedRowsBetrayOrder(leq, s, x, y);
    }
  }

  lemma TiedRowsBetrayOrder<T(!new)>(leq: (T, T) -> bool, s: seq<T>, x: T, y: T)
    requires TotalPreorder(leq) && x in s && y in s && Tied(leq, x, y) && x != y
    ensures exists t :: Permutation(s, t) && Sort(leq, t) != Sort(leq, s)
  {
    var t := Without(s, x, y);
    SwappedPermutations(s, x, y, t);
    SwappedSortsDiffer(leq, x, y, t);
  }

  lemma SwappedSortsDiffer<T(!new)>(leq: (T, T) -> bool, x: T, y: T, t: seq<T>)
    requires TotalPreorder(leq) && Tied(leq, x, y) && x != y
    ensures Sort(leq, [x, y] + t) != Sort(leq, [y, x] + t)
  {
    TiedPairKeepsOrder(leq, x, y, t);
    HeadsDiffer(x, y, Ties(leq, x, t));
  }

  lemma HeadsDiffer<T>(x: T, y: T, t: seq<T>)
    requires x != y
    ensures [x, y] + t != [y, x] + t
  {
    assert ([x, y] + t)[0] != ([y, x] + t)[0];
  }

  lemma SwappedPermutations<T>(s: seq<T>, x: T, y: T, t: seq<T>)
    requires multiset(s) == multiset([x, y] + t)
    ensures Permutation(s, [x, y] + t) && Permutation(s, [y, x] + t)
  {
    assert multiset([x, y]) == multiset([y, x]);
  }

  /** s with one occurrence of x taken out. */
  lemma TakeOut<T>(s: seq<T>, x: T) returns (t: seq<T>)
    requires x in s
    ensures multiset(s) == multiset(t) + multiset{x}
  {
    var i :| 0 <= i < |s| && s[i] == x;
    t := s[..i] + s[i + 1..];
    assert s == s[..i] + [x] + s[i + 1..];
  }

  lemma Without<T>(s: seq<T>, x: T, y: T) returns (t: seq<T>)
    requires x in s && y in s && x != y
    ensures multiset(s) == multiset([x, y] + t)
  {
    var u := TakeOut(s, x);
    assert y in multiset(s);
    assert y in multiset(u);
    t := TakeOut(u, y);
  }
}
