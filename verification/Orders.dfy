/**
  Sequences sorted by a key, newest first, and what a permutation keeps.
  The library sort the stores call is not stable, so callers may only use the
  contract of `SortDescending`: some sorted permutation of the input.
 */
module Orders {
  import opened Wrappers

  ghost predicate NoDuplicates<T>(xs: seq<T>) {
    forall i, j :: 0 <= i < j < |xs| ==> xs[i] != xs[j]
  }

  ghost predicate Descending<T>(xs: seq<T>, key: T -> int) {
    forall i, j :: 0 <= i < j < |xs| ==> key(xs[i]) >= key(xs[j])
  }

  /** `xs` lists the elements of `s`, each once, by descending key. */
  ghost predicate Lists<T(!new)>(xs: seq<T>, s: set<T>, key: T -> int) {
    && NoDuplicates(xs)
    && (forall x :: x in xs <==> x in s)
    && Descending(xs, key)
  }

  function Take<T>(xs: seq<T>, k: nat): (r: seq<T>)
    ensures |r| <= k && r <= xs
    ensures r != xs ==> |r| == k
  {
    if |xs| > k then xs[..k] else xs
  }

  function Cut<T>(xs: seq<T>, limit: Option<int>): (r: seq<T>)
    requires limit.Some? ==> limit.value >= 0
    ensures r <= xs
  {
    if limit.Some? then Take(xs, limit.value) else xs
  }

  lemma PrefixKeeps<T>(xs: seq<T>, r: seq<T>, key: T -> int)
    requires r <= xs
    ensures forall x :: x in r ==> x in xs
    ensures NoDuplicates(xs) ==> NoDuplicates(r)
    ensures Descending(xs, key) ==> Descending(r, key)
  {
    assert r == xs[..|r|];
  }

  lemma RestIsSmaller<T>(xs: seq<T>, r: seq<T>, key: T -> int)
    requires Descending(xs, key) && r <= xs
    ensures forall x, y :: x in xs && x !in r && y in r ==> key(x) <= key(y)
  {
    forall x, y | x in xs && x !in r && y in r ensures key(x) <= key(y) {
      assert xs == r + xs[|r|..];
      var i :| |r| <= i < |xs| && xs[i] == x;
      var j :| 0 <= j < |r| && r[j] == y;
    }
  }

  /** The elements that pass, in order. */
  function Kept<T>(xs: seq<T>, pass: T -> bool): seq<T> {
    if xs == [] then []
    else
      var n := |xs| - 1;
      Kept(xs[..n], pass) + if pass(xs[n]) then [xs[n]] else []
  }

  lemma {:induction false} KeptMembers<T(!new)>(xs: seq<T>, pass: T -> bool)
    ensures forall x :: x in Kept(xs, pass) <==> x in xs && pass(x)
  {
    if xs == [] {
    } else {
      var n := |xs| - 1;
      KeptMembers(xs[..n], pass);
      assert xs == xs[..n] + [xs[n]];
    }
  }

  lemma {:induction false} KeptInOrder<T(!new)>(xs: seq<T>, pass: T -> bool, key: T -> int)
    ensures NoDuplicates(xs) ==> NoDuplicates(Kept(xs, pass))
    ensures Descending(xs, key) ==> Descending(Kept(xs, pass), key)
  {
    if xs == [] {
    } else {
      var n := |xs| - 1;
      KeptInOrder(xs[..n], pass, key);
      KeptMembers(xs[..n], pass);
      var r := Kept(xs[..n], pass);
      forall i | 0 <= i < |r| ensures r[i] in xs[..n] {
        assert r[i] in Kept(xs[..n], pass);
      }
    }
  }

  /** A passing element adds to what is kept of the elements before it. */
  lemma {:induction false} KeptGrows<T>(xs: seq<T>, i: nat, pass: T -> bool)
    requires i < |xs| && pass(xs[i])
    ensures Kept(xs[..i], pass) < Kept(xs, pass)
  {
    var n := |xs| - 1;
    if i < n {
      KeptGrows(xs[..n], i, pass);
      assert xs[..n][..i] == xs[..i];
    }
  }

  lemma {:induction false} SameKept<T(!new)>(xs: seq<T>, p: T -> bool, q: T -> bool)
    requires forall x :: x in xs ==> p(x) == q(x)
    ensures Kept(xs, p) == Kept(xs, q)
  {
    if xs == [] {
    } else {
      SameKept(xs[..|xs| - 1], p, q);
    }
  }

  /** Puts `x` after the elements whose keys are at least its own. */
  function Insert<T>(ys: seq<T>, x: T, key: T -> int): seq<T> {
    if ys == [] || key(ys[0]) < key(x) then [x] + ys else [ys[0]] + Insert(ys[1..], x, key)
  }

  lemma {:induction false} InsertAdds<T>(ys: seq<T>, x: T, key: T -> int)
    ensures multiset(Insert(ys, x, key)) == multiset(ys) + multiset{x}
  {
    if ys == [] || key(ys[0]) < key(x) {
    } else {
      InsertAdds(ys[1..], x, key);
      assert ys == [ys[0]] + ys[1..];
    }
  }

  lemma {:induction false} InsertSorts<T>(ys: seq<T>, x: T, key: T -> int)
    requires Descending(ys, key)
    ensures Descending(Insert(ys, x, key), key)
    ensures forall y :: y in Insert(ys, x, key) ==> y == x || y in ys
  {
    if ys == [] || key(ys[0]) < key(x) {
    } else {
      InsertSorts(ys[1..], x, key);
      var r := Insert(ys[1..], x, key);
      forall j | 0 <= j < |r| ensures key(ys[0]) >= key(r[j]) {
        assert r[j] in r;
      }
    }
  }

  method SortDescending<T(==)>(xs: seq<T>, key: T -> int) returns (ys: seq<T>)
    ensures multiset(ys) == multiset(xs)
    ensures Descending(ys, key)
  {
    ys := [];
    for i := 0 to |xs|
      invariant multiset(ys) == multiset(xs[..i])
      invariant Descending(ys, key)
    {
      assert xs[..i + 1] == xs[..i] + [xs[i]];
      InsertAdds(ys, xs[i], key);
      InsertSorts(ys, xs[i], key);
      ys := Insert(ys, xs[i], key);
    }
    assert xs[..|xs|] == xs;
  }

  lemma PermutationKeeps<T>(xs: seq<T>, ys: seq<T>)
    requires multiset(xs) == multiset(ys)
    ensures |xs| == |ys|
    ensures forall x :: x in xs <==> x in ys
    ensures NoDuplicates(xs) ==> NoDuplicates(ys)
  {
    assert |xs| == |multiset(xs)| == |multiset(ys)| == |ys|;
    forall x ensures x in xs <==> x in ys {
      assert x in xs <==> x in multiset(xs);
      assert x in ys <==> x in multiset(ys);
    }
    CountsOnce(xs);
    CountsOnce(ys);
  }

  lemma CountsOnce<T>(xs: seq<T>)
    ensures NoDuplicates(xs) <==> forall x :: multiset(xs)[x] <= 1
  {
    if NoDuplicates(xs) {
      forall x ensures multiset(xs)[x] <= 1 {
        if x in xs { OccursOnce(xs, x); }
      }
    } else {
      var i, j :| 0 <= i < j < |xs| && xs[i] == xs[j];
      OccursTwice(xs, i, j);
    }
  }

  lemma OccursOnce<T>(xs: seq<T>, x: T)
    requires NoDuplicates(xs) && x in xs
    ensures multiset(xs)[x] == 1
  {
    var k :| 0 <= k < |xs| && xs[k] == x;
    assert xs == xs[..k] + [x] + xs[k + 1..];
    assert x !in xs[..k] && x !in xs[k + 1..];
  }

  lemma OccursTwice<T>(xs: seq<T>, i: nat, j: nat)
    requires i < j < |xs| && xs[i] == xs[j]
    ensures multiset(xs)[xs[i]] >= 2
  {
    assert xs == xs[..i] + [xs[i]] + xs[i + 1..];
    assert xs[i] == xs[i + 1..][j - i - 1];
    assert xs[i] in multiset(xs[i + 1..]);
  }

  lemma {:induction false} ListingLength<T>(xs: seq<T>, s: set<T>)
    requires NoDuplicates(xs)
    requires forall x :: x in xs <==> x in s
    ensures |xs| == |s|
  {
    if xs == [] {
      assert s == {};
    } else {
      assert xs[0] in s;
      forall x ensures x in xs[1..] <==> x in s - {xs[0]} {
        if x in xs[1..] {
          var i :| 0 <= i < |xs[1..]| && xs[1..][i] == x;
          assert xs[i + 1] == x;
        }
      }
      ListingLength(xs[1..], s - {xs[0]});
    }
  }

  // ---------- the first k keys of a listing ----------

  function Keys<T>(xs: seq<T>, key: T -> int): seq<int> {
    seq(|xs|, i requires 0 <= i < |xs| => key(xs[i]))
  }

  ghost function KeyAtLeast<T>(s: set<T>, t: int, key: T -> int): set<T> {
    set x | x in s && key(x) >= t
  }

  /** The i-th key reaches `t` exactly when more than i elements do. */
  lemma KeyByCounting<T(!new)>(xs: seq<T>, s: set<T>, key: T -> int, i: nat, t: int)
    requires Lists(xs, s, key) && i < |xs|
    ensures key(xs[i]) >= t <==> |KeyAtLeast(s, t, key)| > i
  {
    var high := KeyAtLeast(s, t, key);
    if key(xs[i]) >= t {
      var head := xs[..i + 1];
      var first := set x | x in head;
      ListingLength(head, first);
      assert first <= high by {
        forall x | x in first ensures x in high {
          var j :| 0 <= j <= i && head[j] == x;
          assert xs[j] == x;
        }
      }
      SubsetSize(first, high);
    } else {
      var first := set x | x in xs[..i];
      ListingLength(xs[..i], first);
      assert high <= first by {
        forall x | x in high ensures x in first {
          var j :| 0 <= j < |xs| && xs[j] == x;
          assert xs[..i][j] == x;
        }
      }
      SubsetSize(high, first);
    }
  }

  lemma {:induction false} SubsetSize<T>(a: set<T>, b: set<T>)
    requires a <= b
    ensures |a| <= |b|
  {
    if a == {} {
    } else {
      var x :| x in a;
      SubsetSize(a - {x}, b - {x});
    }
  }

  /** `part` misses no element of `whole` at or above a key that fewer than k of its own reach. */
  ghost predicate CoversTop<T(!new)>(part: set<T>, whole: set<T>, k: nat, key: T -> int) {
    forall t :: |KeyAtLeast(part, t, key)| < k ==> KeyAtLeast(whole, t, key) <= KeyAtLeast(part, t, key)
  }

  lemma ReachesKey<T(!new)>(xs: seq<T>, part: set<T>, ys: seq<T>, whole: set<T>, k: nat, key: T -> int, i: nat)
    requires Lists(xs, part, key) && Lists(ys, whole, key)
    requires CoversTop(part, whole, k, key)
    requires i < k && i < |ys|
    ensures i < |xs| && key(xs[i]) >= key(ys[i])
  {
    var t := key(ys[i]);
    KeyByCounting(ys, whole, key, i, t);
    var low := KeyAtLeast(part, t, key);
    assert |low| > i by {
      if |low| < k { SubsetSize(KeyAtLeast(whole, t, key), low); }
    }
    SubsetSize(low, part);
    ListingLength(xs, part);
    KeyByCounting(xs, part, key, i, t);
  }

  /** Then both have the same first k keys, however ties are broken. */
  lemma SameFirstKeys<T(!new)>(xs: seq<T>, part: set<T>, ys: seq<T>, whole: set<T>, k: nat, key: T -> int)
    requires Lists(xs, part, key) && Lists(ys, whole, key) && part <= whole
    requires CoversTop(part, whole, k, key)
    ensures Keys(Take(xs, k), key) == Keys(Take(ys, k), key)
  {
    var a, b := Take(xs, k), Take(ys, k);
    assert CoversTop(whole, part, k, key);
    if b != [] { ReachesKey(xs, part, ys, whole, k, key, |b| - 1); }
    if a != [] { ReachesKey(ys, whole, xs, part, k, key, |a| - 1); }
    forall i: nat | i < |a| ensures key(a[i]) == key(b[i]) {
      ReachesKey(xs, part, ys, whole, k, key, i);
      ReachesKey(ys, whole, xs, part, k, key, i);
    }
  }
}
