// The order in which miners and payees are ranked: largest work first, ties by name.
// Rust compares names as byte strings and Python as code points; on the ASCII names
// that reach the window both are the lexicographic order below.
module Ranking {
  import opened Prelude

  predicate StrLess(a: string, b: string) {
    if b == "" then false
    else if a == "" then true
    else a[0] < b[0] || (a[0] == b[0] && StrLess(a[1..], b[1..]))
  }

  lemma {:induction false} StrLessTotal(a: string, b: string)
    ensures a == b || StrLess(a, b) || StrLess(b, a)
  {
    if a != "" && b != "" && a[0] == b[0] {
      StrLessTotal(a[1..], b[1..]);
      assert a == [a[0]] + a[1..] && b == [b[0]] + b[1..];
    }
  }

  lemma {:induction false} StrLessAsymmetric(a: string, b: string)
    requires StrLess(a, b)
    ensures !StrLess(b, a) && a != b
  {
    if a != "" && a[0] == b[0] {
      StrLessAsymmetric(a[1..], b[1..]);
    }
  }

  lemma {:induction false} StrLessTransitive(a: string, b: string, c: string)
    requires StrLess(a, b) && StrLess(b, c)
    ensures StrLess(a, c)
  {
    if a != "" && a[0] == b[0] && b[0] == c[0] {
      StrLessTransitive(a[1..], b[1..], c[1..]);
    }
  }

  datatype Rank = Rank(work: nat, name: string)

  // a is ranked strictly before b.
  predicate Before(a: Rank, b: Rank) {
    a.work > b.work || (a.work == b.work && StrLess(a.name, b.name))
  }

  lemma BeforeTotal(a: Rank, b: Rank)
    ensures a == b || Before(a, b) || Before(b, a)
  {
    StrLessTotal(a.name, b.name);
  }

  lemma BeforeAsymmetric(a: Rank, b: Rank)
    requires Before(a, b)
    ensures !Before(b, a) && a != b
  {
    if a.work == b.work {
      StrLessAsymmetric(a.name, b.name);
    }
  }

  lemma BeforeTransitive(a: Rank, b: Rank, c: Rank)
    requires Before(a, b) && Before(b, c)
    ensures Before(a, c)
  {
    if a.work == b.work && b.work == c.work {
      StrLessTransitive(a.name, b.name, c.name);
    }
  }

  // Strictly ranked: no two elements share a rank.
  ghost predicate Ranked<T(!new)>(xs: seq<T>, key: T -> Rank) {
    forall i, j :: 0 <= i < j < |xs| ==> Before(key(xs[i]), key(xs[j]))
  }

  // Stable insertion sort, the specification of `sort_by` / `sorted` in this project:
  // by SortRanked and RankedUnique every sort of distinct ranks computes the same list.
  function Insert<T>(x: T, xs: seq<T>, key: T -> Rank): seq<T> {
    if xs == [] then [x]
    else if Before(key(xs[0]), key(x)) then [xs[0]] + Insert(x, xs[1..], key)
    else [x] + xs
  }

  function Sort<T>(xs: seq<T>, key: T -> Rank): seq<T> {
    if xs == [] then [] else Insert(xs[0], Sort(xs[1..], key), key)
  }

  lemma {:induction false} InsertMultiset<T>(x: T, xs: seq<T>, key: T -> Rank)
    ensures multiset(Insert(x, xs, key)) == multiset{x} + multiset(xs)
  {
    if xs != [] {
      assert xs == [xs[0]] + xs[1..];
      if Before(key(xs[0]), key(x)) {
        InsertMultiset(x, xs[1..], key);
      }
    }
  }

  lemma {:induction false} SortMultiset<T>(xs: seq<T>, key: T -> Rank)
    ensures multiset(Sort(xs, key)) == multiset(xs)
    ensures |Sort(xs, key)| == |xs|
  {
    if xs != [] {
      assert xs == [xs[0]] + xs[1..];
      SortMultiset(xs[1..], key);
      InsertMultiset(xs[0], Sort(xs[1..], key), key);
    }
    assert |multiset(Sort(xs, key))| == |multiset(xs)|;
  }

  // Sorting does not change a sum.
  lemma {:induction false} InsertSum<T(!new)>(x: T, xs: seq<T>, key: T -> Rank, f: T -> nat)
    ensures Sum(Insert(x, xs, key), f) == f(x) + Sum(xs, f)
  {
    if xs != [] && Before(key(xs[0]), key(x)) {
      InsertSum(x, xs[1..], key, f);
      SumCons(xs[0], Insert(x, xs[1..], key), f);
      SumCons(xs[0], xs[1..], f);
      assert xs == [xs[0]] + xs[1..];
    } else {
      SumCons(x, xs, f);
    }
  }

  lemma {:induction false} SortSum<T(!new)>(xs: seq<T>, key: T -> Rank, f: T -> nat)
    ensures Sum(Sort(xs, key), f) == Sum(xs, f)
  {
    if xs != [] {
      SortSum(xs[1..], key, f);
      InsertSum(xs[0], Sort(xs[1..], key), key, f);
      SumCons(xs[0], xs[1..], f);
      assert xs == [xs[0]] + xs[1..];
    }
  }

  lemma {:induction false} InsertRanked<T(!new)>(x: T, xs: seq<T>, key: T -> Rank)
    requires Ranked(xs, key)
    requires forall y :: y in xs ==> key(y) != key(x)
    ensures Ranked(Insert(x, xs, key), key)
  {
    if xs != [] {
      if Before(key(xs[0]), key(x)) {
        InsertRanked(x, xs[1..], key);
        var r := Insert(x, xs[1..], key);
        InsertMultiset(x, xs[1..], key);
        forall j | 0 <= j < |r| ensures Before(key(xs[0]), key(r[j])) {
          assert r[j] in multiset(r);
          assert r[j] == x || r[j] in xs[1..];
        }
      } else {
        BeforeTotal(key(xs[0]), key(x));
        assert xs[0] in xs;
        forall j | 0 <= j < |xs| ensures Before(key(x), key(xs[j])) {
          if j > 0 {
            BeforeTransitive(key(x), key(xs[0]), key(xs[j]));
          }
        }
      }
    }
  }

  ghost predicate DistinctKeys<T(!new)>(xs: seq<T>, key: T -> Rank) {
    forall i, j :: 0 <= i < j < |xs| ==> key(xs[i]) != key(xs[j])
  }

  lemma {:induction false} SortRanked<T(!new)>(xs: seq<T>, key: T -> Rank)
    requires DistinctKeys(xs, key)
    ensures Ranked(Sort(xs, key), key)
  {
    if xs != [] {
      SortRanked(xs[1..], key);
      SortMultiset(xs[1..], key);
      forall y | y in Sort(xs[1..], key) ensures key(y) != key(xs[0]) {
        assert y in multiset(Sort(xs[1..], key));
        assert y in xs[1..];
      }
      InsertRanked(xs[0], Sort(xs[1..], key), key);
    }
  }

  lemma RankedHead<T(!new)>(xs: seq<T>, ys: seq<T>, key: T -> Rank)
    requires Ranked(xs, key) && Ranked(ys, key)
    requires xs != [] && ys != []
    requires xs[0] in ys && ys[0] in xs
    ensures xs[0] == ys[0]
  {
    if xs[0] != ys[0] {
      var i :| 0 <= i < |ys| && ys[i] == xs[0];
      var j :| 0 <= j < |xs| && xs[j] == ys[0];
      BeforeAsymmetric(key(xs[0]), key(ys[0]));
    }
  }

  // A ranked list is determined by its contents.
  lemma {:induction false} RankedUnique<T(!new)>(xs: seq<T>, ys: seq<T>, key: T -> Rank)
    requires Ranked(xs, key) && Ranked(ys, key)
    requires multiset(xs) == multiset(ys)
    ensures xs == ys
  {
    assert |multiset(xs)| == |multiset(ys)|;
    if xs != [] {
      assert xs[0] in multiset(ys) && ys[0] in multiset(xs);
      RankedHead(xs, ys, key);
      assert xs == [xs[0]] + xs[1..] && ys == [ys[0]] + ys[1..];
      assert multiset(xs[1..]) == multiset(xs) - multiset{xs[0]};
      assert multiset(ys[1..]) == multiset(ys) - multiset{ys[0]};
      RankedUnique(xs[1..], ys[1..], key);
    }
  }

  lemma SortOfRanked<T(!new)>(xs: seq<T>, key: T -> Rank)
    requires Ranked(xs, key)
    ensures Sort(xs, key) == xs
  {
    forall i, j | 0 <= i < j < |xs| ensures key(xs[i]) != key(xs[j]) {
      BeforeAsymmetric(key(xs[i]), key(xs[j]));
    }
    SortRanked(xs, key);
    SortMultiset(xs, key);
    RankedUnique(Sort(xs, key), xs, key);
  }

  // Iteration order of an ordered map: its keys, least first.
  predicate IsLeast(k: string, s: set<string>) {
    k in s && forall j :: j in s && j != k ==> StrLess(k, j)
  }

  lemma {:induction false} LeastExists(s: set<string>)
    requires s != {}
    ensures exists k :: IsLeast(k, s)
  {
    var x :| x in s;
    var rest := s - {x};
    assert s == rest + {x};
    if rest == {} {
      assert IsLeast(x, s);
    } else {
      LeastExists(rest);
      var k :| IsLeast(k, rest);
      StrLessTotal(k, x);
      if StrLess(x, k) {
        forall j | j in s && j != x ensures StrLess(x, j) {
          if j != k {
            StrLessTransitive(x, k, j);
          }
        }
        assert IsLeast(x, s);
      } else {
        assert IsLeast(k, s);
      }
    }
  }

  lemma LeastUnique(k: string, k': string, s: set<string>)
    requires IsLeast(k, s) && IsLeast(k', s)
    ensures k == k'
  {
    if k != k' {
      StrLessAsymmetric(k, k');
    }
  }

  ghost function SortedKeys(s: set<string>): seq<string> {
    if s == {} then []
    else
      LeastExists(s);
      var k :| IsLeast(k, s);
      [k] + SortedKeys(s - {k})
  }

  lemma SortedKeysStep(k: string, s: set<string>)
    requires IsLeast(k, s)
    ensures SortedKeys(s) == [k] + SortedKeys(s - {k})
  {
    LeastExists(s);
    var k' :| IsLeast(k', s) && SortedKeys(s) == [k'] + SortedKeys(s - {k'});
    LeastUnique(k, k', s);
  }

  // The sorted key list names every key exactly once, in increasing order.
  lemma {:induction false} SortedKeysFaithful(s: set<string>)
    ensures forall k :: k in SortedKeys(s) <==> k in s
    ensures forall i, j :: 0 <= i < j < |SortedKeys(s)| ==> StrLess(SortedKeys(s)[i], SortedKeys(s)[j])
    ensures |SortedKeys(s)| == |s|
    decreases s
  {
    if s != {} {
      LeastExists(s);
      var k :| IsLeast(k, s) && SortedKeys(s) == [k] + SortedKeys(s - {k});
      SortedKeysFaithful(s - {k});
      assert |s| == |s - {k}| + 1;
      var tail := SortedKeys(s - {k});
      forall j | 0 <= j < |tail| ensures StrLess(k, tail[j]) {
        assert tail[j] in tail;
      }
    }
  }

  // Walk an ordered map's keys from least to greatest.
  method KeysInOrder(s: set<string>) returns (keys: seq<string>)
    ensures keys == SortedKeys(s)
  {
    keys := [];
    var rest := s;
    while rest != {}
      invariant keys + SortedKeys(rest) == SortedKeys(s)
      decreases rest
    {
      LeastExists(rest);
      var k :| k in rest && IsLeast(k, rest);
      SortedKeysStep(k, rest);
      assert keys + ([k] + SortedKeys(rest - {k})) == (keys + [k]) + SortedKeys(rest - {k});
      keys, rest := keys + [k], rest - {k};
    }
  }
}
