/** Sorted listings of finite sets, and the order on strings by code point. */
module Ordering {

  ghost predicate StrictOrder<T(!new)>(lt: (T, T) -> bool) {
    && (forall a, b :: lt(a, b) ==> !lt(b, a))
    && forall a, b, c :: lt(a, b) && lt(b, c) ==> lt(a, c)
  }

  ghost predicate Ascending<T(!new)>(lt: (T, T) -> bool, xs: seq<T>) {
    forall i, j :: 0 <= i < j < |xs| ==> lt(xs[i], xs[j])
  }

  /** `xs` lists exactly the elements of `s`, each once, in ascending order. */
  ghost predicate Lists<T(!new)>(lt: (T, T) -> bool, xs: seq<T>, s: set<T>) {
    Ascending(lt, xs) && forall x :: x in xs <==> x in s
  }

  function Insert<T>(lt: (T, T) -> bool, xs: seq<T>, x: T): seq<T> {
    if xs == [] || lt(x, xs[0]) then [x] + xs else [xs[0]] + Insert(lt, xs[1..], x)
  }

  function Sort<T>(lt: (T, T) -> bool, xs: seq<T>): seq<T> {
    if xs == [] then [] else Insert(lt, Sort(lt, xs[..|xs| - 1]), xs[|xs| - 1])
  }

  lemma {:induction false} DistinctCount<T>(xs: seq<T>)
    requires forall i, j :: 0 <= i < j < |xs| ==> xs[i] != xs[j]
    ensures |set x | x in xs| == |xs|
    decreases |xs|
  {
    if xs != [] {
      var front, last := xs[..|xs| - 1], xs[|xs| - 1];
      DistinctCount(front);
      assert xs == front + [last];
      assert (set x | x in xs) == (set x | x in front) + {last};
      assert forall i :: 0 <= i < |front| ==> front[i] == xs[i];
    }
  }

  /** A set has at most one ascending listing. */
  lemma {:induction false} ListingIsUnique<T(!new)>(lt: (T, T) -> bool, xs: seq<T>, ys: seq<T>, s: set<T>)
    requires StrictOrder(lt) && Lists(lt, xs, s) && Lists(lt, ys, s)
    ensures xs == ys
    decreases |xs|
  {
    EmptyListing(lt, xs, s);
    EmptyListing(lt, ys, s);
    if xs != [] {
      assert xs[0] in ys && ys[0] in xs;
      assert xs[0] == ys[0];
      TailLists(lt, xs, s);
      TailLists(lt, ys, s);
      ListingIsUnique(lt, xs[1..], ys[1..], s - {xs[0]});
    }
  }

  lemma EmptyListing<T(!new)>(lt: (T, T) -> bool, xs: seq<T>, s: set<T>)
    requires Lists(lt, xs, s)
    ensures xs == [] <==> s == {}
  {
    if xs != [] {
      assert xs[0] in s;
    }
  }

  lemma TailLists<T(!new)>(lt: (T, T) -> bool, xs: seq<T>, s: set<T>)
    requires StrictOrder(lt) && Lists(lt, xs, s) && xs != []
    ensures Lists(lt, xs[1..], s - {xs[0]})
  {
    var tail := xs[1..];
    assert xs == [xs[0]] + tail;
    forall x
      ensures x in tail <==> x in s - {xs[0]}
    {
      assert x in xs <==> x == xs[0] || x in tail;
      forall i | 0 <= i < |tail|
        ensures tail[i] != xs[0]
      {
        assert lt(xs[0], xs[i + 1]);
      }
    }
  }

  lemma {:induction false} InsertKeepsListing<T(!new)>(lt: (T, T) -> bool, xs: seq<T>, s: set<T>, x: T)
    requires StrictOrder(lt) && Lists(lt, xs, s)
    requires forall y :: y in s ==> lt(x, y) || lt(y, x)
    ensures Lists(lt, Insert(lt, xs, x), s + {x})
    decreases |xs|
  {
    var r := Insert(lt, xs, x);
    if xs == [] || lt(x, xs[0]) {
      assert r == [x] + xs;
    } else {
      TailLists(lt, xs, s);
      var rest := Insert(lt, xs[1..], x);
      InsertKeepsListing(lt, xs[1..], s - {xs[0]}, x);
      assert xs[0] in xs;
      assert r == [xs[0]] + rest;
      forall j | 1 <= j < |r|
        ensures lt(r[0], r[j])
      {
        assert r[j] == rest[j - 1] && r[j] in rest;
        if r[j] != x {
          assert r[j] in xs[1..];
          var k :| 0 <= k < |xs[1..]| && xs[1..][k] == r[j];
          assert lt(xs[0], xs[k + 1]);
        }
      }
    }
  }

  /** Sorting pairwise comparable elements lists them. */
  lemma {:induction false} SortLists<T(!new)>(lt: (T, T) -> bool, xs: seq<T>)
    requires StrictOrder(lt)
    requires forall i, j :: 0 <= i < j < |xs| ==> lt(xs[i], xs[j]) || lt(xs[j], xs[i])
    ensures Lists(lt, Sort(lt, xs), set x | x in xs)
    decreases |xs|
  {
    if xs != [] {
      var front, last := xs[..|xs| - 1], xs[|xs| - 1];
      assert xs == front + [last];
      SortLists(lt, front);
      InsertKeepsListing(lt, Sort(lt, front), (set x | x in front), last);
      assert (set x | x in front) + {last} == set x | x in xs;
    }
  }

  predicate StringLess(a: string, b: string) {
    b != [] && (a == [] || a[0] < b[0] || (a[0] == b[0] && StringLess(a[1..], b[1..])))
  }

  /** The two texts are alike up to position `k`, and differ or end there. */
  predicate AlikeUpTo<T(==)>(a: seq<T>, b: seq<T>, k: int) {
    0 <= k <= |a| && k <= |b| && a[..k] == b[..k]
  }

  lemma AlikeTail<T>(a: seq<T>, b: seq<T>, k: int)
    requires |a| > 0 && |b| > 0
    ensures k > 0 && AlikeUpTo(a, b, k) <==> k > 0 && a[0] == b[0] && AlikeUpTo(a[1..], b[1..], k - 1)
  {
    if k > 0 && k <= |a| && k <= |b| {
      assert a[..k] == [a[0]] + a[1..][..k - 1] && b[..k] == [b[0]] + b[1..][..k - 1];
      if a[..k] == b[..k] {
        assert a[0] == a[..k][0] == b[0];
        assert a[1..][..k - 1] == a[..k][1..] && b[1..][..k - 1] == b[..k][1..];
      }
    }
  }

  /** Strings compare by the code points where they first differ, and a proper prefix is less. */
  lemma {:induction false} StringLessIff(a: string, b: string)
    ensures StringLess(a, b) <==> exists k :: AlikeUpTo(a, b, k) && k < |b| && (k == |a| || (a[k] as int) < b[k] as int)
    decreases |a|
  {
    if a == [] || b == [] || a[0] != b[0] {
      if b != [] {
        assert AlikeUpTo(a, b, 0);
      }
      if a != [] && b != [] {
        forall k
          ensures AlikeUpTo(a, b, k) ==> k == 0
        {
          AlikeTail(a, b, k);
        }
      }
    } else {
      StringLessIff(a[1..], b[1..]);
      forall k
        ensures AlikeUpTo(a, b, k) <==> k == 0 || AlikeUpTo(a[1..], b[1..], k - 1)
      {
        AlikeTail(a, b, k);
      }
      if k :| AlikeUpTo(a[1..], b[1..], k) && k < |b[1..]| && (k == |a[1..]| || (a[1..][k] as int) < b[1..][k] as int) {
        assert AlikeUpTo(a, b, k + 1);
      }
      if k :| AlikeUpTo(a, b, k) && k < |b| && (k == |a| || (a[k] as int) < b[k] as int) {
        assert k > 0 && AlikeUpTo(a[1..], b[1..], k - 1);
      }
    }
  }

  lemma StringLessAsymmetric(a: string, b: string)
    requires StringLess(a, b)
    ensures !StringLess(b, a)
  {
  }

  lemma StringLessTransitive(a: string, b: string, c: string)
    requires StringLess(a, b) && StringLess(b, c)
    ensures StringLess(a, c)
  {
  }

  lemma {:induction false} StringLessConnected(a: string, b: string)
    ensures a == b || StringLess(a, b) || StringLess(b, a)
  {
    if a != [] && b != [] && a[0] == b[0] {
      StringLessConnected(a[1..], b[1..]);
      assert a == [a[0]] + a[1..] && b == [b[0]] + b[1..];
    }
  }

  lemma StringLessIsStrictOrder()
    ensures StrictOrder(StringLess)
  {
    forall a, b | StringLess(a, b)
      ensures !StringLess(b, a)
    {
      StringLessAsymmetric(a, b);
    }
    forall a, b, c | StringLess(a, b) && StringLess(b, c)
      ensures StringLess(a, c)
    {
      StringLessTransitive(a, b, c);
    }
  }

  ghost predicate ListsStrings(xs: seq<string>, s: set<string>) {
    Lists(StringLess, xs, s)
  }

  lemma StringListingIsUnique(xs: seq<string>, ys: seq<string>, s: set<string>)
    requires ListsStrings(xs, s) && ListsStrings(ys, s)
    ensures xs == ys
  {
    StringLessIsStrictOrder();
    ListingIsUnique(StringLess, xs, ys, s);
  }

  method SortStrings(s: set<string>) returns (xs: seq<string>)
    ensures ListsStrings(xs, s)
  {
    StringLessIsStrictOrder();
    xs := [];
    var rest := s;
    while rest != {}
      invariant rest <= s
      invariant Lists(StringLess, xs, s - rest)
      decreases rest
    {
      var x :| x in rest;
      forall y | y in s - rest
        ensures StringLess(x, y) || StringLess(y, x)
      {
        StringLessConnected(x, y);
      }
      InsertKeepsListing(StringLess, xs, s - rest, x);
      assert s - (rest - {x}) == s - rest + {x};
      xs := Insert(StringLess, xs, x);
      rest := rest - {x};
    }
    assert s - rest == s;
  }

  lemma {:induction false} ListingExists(s: set<string>)
    ensures exists xs :: ListsStrings(xs, s)
    decreases s
  {
    StringLessIsStrictOrder();
    if s == {} {
      assert ListsStrings([], s);
    } else {
      var x :| x in s;
      ListingExists(s - {x});
      var shorter :| ListsStrings(shorter, s - {x});
      forall y | y in s - {x}
        ensures StringLess(x, y) || StringLess(y, x)
      {
        StringLessConnected(x, y);
      }
      InsertKeepsListing(StringLess, shorter, s - {x}, x);
      assert s - {x} + {x} == s;
      assert ListsStrings(Insert(StringLess, shorter, x), s);
    }
  }

  /** The sorted listing of a set of strings. */
  ghost function Sorted(s: set<string>): (xs: seq<string>)
    ensures ListsStrings(xs, s)
  {
    ListingExists(s);
    var xs :| ListsStrings(xs, s);
    xs
  }

  lemma ListingIsSorted(xs: seq<string>, s: set<string>)
    requires ListsStrings(xs, s)
    ensures xs == Sorted(s) && forall i :: 0 <= i < |xs| ==> xs[i] in s
  {
    StringListingIsUnique(xs, Sorted(s), s);
  }
}
