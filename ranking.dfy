/** The ranking rule of `sort_by_ping`: descriptors ordered by measured latency, an
    unreachable one counting as 99999 ms, with Python's stable `sorted` keeping the
    catalog order among equal keys. */
module Ranking {

  import opened Wrappers

  /** 99999 ms, the sort key of a descriptor without a latency, in tenths of a millisecond. */
  const UnreachableKey: nat := 999990

  /** The sort key of one latency. */
  function SortKey(latency: Option<nat>): (k: nat)
    ensures latency.Some? ==> k == latency.value
    ensures latency.None? ==> k == UnreachableKey
  {
    latency.GetOr(UnreachableKey)
  }

  function Keys(latencies: seq<Option<nat>>): (keys: seq<nat>)
    ensures |keys| == |latencies|
    ensures forall i :: 0 <= i < |latencies| ==> keys[i] == SortKey(latencies[i])
  {
    seq(|latencies|, i requires 0 <= i < |latencies| => SortKey(latencies[i]))
  }

  /** Position `i` goes before position `j` in a stable sort by `keys`. */
  predicate Before(keys: seq<nat>, i: nat, j: nat)
    requires i < |keys| && j < |keys|
  {
    keys[i] < keys[j] || (keys[i] == keys[j] && i < j)
  }

  predicate InRange(keys: seq<nat>, idx: seq<nat>) {
    forall a :: 0 <= a < |idx| ==> idx[a] < |keys|
  }

  /** `idx` lists positions of `keys` in stable ascending order. */
  predicate StablyOrdered(keys: seq<nat>, idx: seq<nat>) {
    InRange(keys, idx) && forall a, b :: 0 <= a < b < |idx| ==> Before(keys, idx[a], idx[b])
  }

  /** `[0, 1, ..., n - 1]`. */
  function Range(n: nat): (r: seq<nat>)
    ensures |r| == n
    ensures forall i :: 0 <= i < n ==> r[i] == i
  {
    if n == 0 then [] else Range(n - 1) + [n - 1]
  }

  /** Inserts position `i` into a stably ordered list of positions. */
  function Insert(keys: seq<nat>, i: nat, idx: seq<nat>): (r: seq<nat>)
    requires i < |keys| && InRange(keys, idx)
    ensures |r| == |idx| + 1
    ensures multiset(r) == multiset(idx) + multiset{i}
    ensures InRange(keys, r)
  {
    if idx == [] then [i]
    else if Before(keys, i, idx[0]) then [i] + idx
    else
      var rest := Insert(keys, i, idx[1..]);
      assert idx == [idx[0]] + idx[1..];
      [idx[0]] + rest
  }

  /** Insertion keeps the order when the new position is not already listed. */
  lemma {:induction false} InsertOrdered(keys: seq<nat>, i: nat, idx: seq<nat>)
    requires i < |keys| && StablyOrdered(keys, idx) && i !in idx
    ensures StablyOrdered(keys, Insert(keys, i, idx))
  {
    if idx == [] {
    } else if Before(keys, i, idx[0]) {
      forall b | 0 <= b < |idx| ensures Before(keys, i, idx[b]) {
        if b > 0 {
          assert Before(keys, idx[0], idx[b]);
        }
      }
      ConsOrdered(keys, i, idx);
    } else {
      assert StablyOrdered(keys, idx[1..]);
      InsertOrdered(keys, i, idx[1..]);
      var rest := Insert(keys, i, idx[1..]);
      forall b | 0 <= b < |rest| ensures Before(keys, idx[0], rest[b]) {
        assert rest[b] in multiset(rest);
        assert rest[b] in multiset(idx[1..]) + multiset{i};
        if rest[b] != i {
          var a :| 0 <= a < |idx[1..]| && idx[1..][a] == rest[b];
          assert idx[a + 1] == rest[b];
        }
      }
      ConsOrdered(keys, idx[0], rest);
    }
  }

  /** A position that goes before every listed one can be put in front. */
  lemma ConsOrdered(keys: seq<nat>, h: nat, idx: seq<nat>)
    requires h < |keys| && StablyOrdered(keys, idx)
    requires forall b :: 0 <= b < |idx| ==> Before(keys, h, idx[b])
    ensures StablyOrdered(keys, [h] + idx)
  {
    var r := [h] + idx;
    assert forall a :: 0 < a < |r| ==> r[a] == idx[a - 1];
  }

  /** The stable ascending order of the first `n` positions of `keys`: each position
      inserted in turn, as `sorted` places it (see `SortIndicesSorted`). */
  function SortIndices(keys: seq<nat>, n: nat): (r: seq<nat>)
    requires n <= |keys|
    ensures |r| == n && InRange(keys, r)
  {
    if n == 0 then [] else Insert(keys, n - 1, SortIndices(keys, n - 1))
  }

  /** `idx` lists each of the first `n` positions once, in stable key order. */
  predicate SortedPositions(keys: seq<nat>, idx: seq<nat>, n: nat) {
    multiset(idx) == multiset(Range(n)) && StablyOrdered(keys, idx)
  }

  /** `SortIndices` lists each of the first `n` positions once, in stable key order. */
  lemma {:induction false} SortIndicesSorted(keys: seq<nat>, n: nat)
    requires n <= |keys|
    ensures SortedPositions(keys, SortIndices(keys, n), n)
  {
    if n > 0 {
      SortIndicesSorted(keys, n - 1);
      SortStep(keys, n, SortIndices(keys, n - 1));
    }
  }

  /** Inserting position `n - 1` into the stable order of the first `n - 1` positions
      gives the stable order of the first `n`. */
  lemma SortStep(keys: seq<nat>, n: nat, prev: seq<nat>)
    requires 0 < n <= |keys| && SortedPositions(keys, prev, n - 1)
    ensures SortedPositions(keys, Insert(keys, n - 1, prev), n)
  {
    InsertPermutation(keys, n, prev);
    InsertOrdered(keys, n - 1, prev);
  }

  /** Inserting `n - 1` into a permutation of `Range(n - 1)` gives one of `Range(n)`;
      `n - 1` was not listed before. */
  lemma InsertPermutation(keys: seq<nat>, n: nat, prev: seq<nat>)
    requires 0 < n <= |keys| && InRange(keys, prev) && multiset(prev) == multiset(Range(n - 1))
    ensures multiset(Insert(keys, n - 1, prev)) == multiset(Range(n))
    ensures n - 1 !in prev
  {
    var last: nat := n - 1;
    RangeNext(n);
    assert last !in multiset(prev);
  }

  /** `Range(n)` adds `n - 1`, which `Range(n - 1)` does not hold. */
  lemma RangeNext(n: nat)
    requires n > 0
    ensures multiset(Range(n)) == multiset(Range(n - 1)) + multiset{(n - 1) as nat}
    ensures n - 1 !in multiset(Range(n - 1))
  {
    var r := Range(n - 1);
    assert forall x :: x in r ==> x < n - 1;
  }

  /** The order in which `sort_by_ping` lists descriptors with these latencies. */
  function RankOrder(latencies: seq<Option<nat>>): (r: seq<nat>)
    ensures |r| == |latencies|
    ensures forall a :: 0 <= a < |r| ==> r[a] < |latencies|
  {
    SortIndices(Keys(latencies), |latencies|)
  }

  lemma RankOrderSorted(latencies: seq<Option<nat>>)
    ensures multiset(RankOrder(latencies)) == multiset(Range(|latencies|))
    ensures StablyOrdered(Keys(latencies), RankOrder(latencies))
  {
    SortIndicesSorted(Keys(latencies), |latencies|);
    assert SortedPositions(Keys(latencies), RankOrder(latencies), |latencies|);
  }

  /** Picks `items[idx[0]], items[idx[1]], ...`. */
  function Pick<T>(items: seq<T>, idx: seq<nat>): (r: seq<T>)
    requires forall a :: 0 <= a < |idx| ==> idx[a] < |items|
    ensures |r| == |idx|
    ensures forall a :: 0 <= a < |idx| ==> r[a] == items[idx[a]]
  {
    seq(|idx|, a requires 0 <= a < |idx| => items[idx[a]])
  }

  /** `sorted(zip(configs, latencies), key=...)` projected on the descriptors. */
  function Rank(configs: seq<string>, latencies: seq<Option<nat>>): (r: seq<string>)
    requires |latencies| == |configs|
    ensures |r| == |configs|
  {
    Pick(configs, RankOrder(latencies))
  }

  /** A permutation of `Range(n)` lists every position below `n` exactly once. */
  lemma PermutationMembers(idx: seq<nat>, n: nat)
    requires multiset(idx) == multiset(Range(n))
    ensures |idx| == n
    ensures forall a :: 0 <= a < |idx| ==> idx[a] < n
    ensures forall i :: 0 <= i < n ==> i in idx
  {
    assert |idx| == |multiset(idx)| == |multiset(Range(n))| == n;
    forall a | 0 <= a < |idx| ensures idx[a] < n {
      assert idx[a] in multiset(Range(n));
    }
    forall i | 0 <= i < n ensures i in idx {
      assert Range(n)[i] == i;
      assert i in multiset(Range(n));
    }
  }

  /** Ranking reorders the descriptors and neither drops nor repeats any of them. */
  lemma {:induction false} RankIsPermutation(configs: seq<string>, latencies: seq<Option<nat>>)
    requires |latencies| == |configs|
    ensures multiset(Rank(configs, latencies)) == multiset(configs)
  {
    var idx := RankOrder(latencies);
    RankOrderSorted(latencies);
    PermutationMembers(idx, |configs|);
    PickPermutation(configs, idx, |configs|);
    assert configs[..|configs|] == configs;
  }

  lemma {:induction false} PickPermutation<T>(items: seq<T>, idx: seq<nat>, n: nat)
    requires n <= |items| && multiset(idx) == multiset(Range(n))
    requires forall a :: 0 <= a < |idx| ==> idx[a] < |items|
    ensures multiset(Pick(items, idx)) == multiset(items[..n])
    decreases n
  {
    if n == 0 {
      assert |multiset(idx)| == 0;
    } else {
      var m := n - 1;
      assert m in multiset(Range(n)) by { assert Range(n)[m] == m; }
      assert m in idx;
      var a :| 0 <= a < |idx| && idx[a] == m;
      var rest := RemoveLast(idx, a, n);
      forall b | 0 <= b < |rest| ensures rest[b] < |items| {
        if b < a { assert rest[b] == idx[b]; } else { assert rest[b] == idx[b + 1]; }
      }
      PickRemove(items, idx, a);
      PickPermutation(items, rest, m);
      TakeOneMore(items, m);
    }
  }

  /** One more element of a prefix adds exactly that element. */
  lemma TakeOneMore<T>(s: seq<T>, m: nat)
    requires m < |s|
    ensures multiset(s[..m + 1]) == multiset(s[..m]) + multiset{s[m]}
  {
    assert s[..m + 1] == s[..m] + [s[m]];
  }

  /** Taking the largest position `n - 1` (found at `a`) out of a permutation of
      `Range(n)` leaves a permutation of `Range(n - 1)`. */
  function RemoveLast(idx: seq<nat>, a: nat, n: nat): (rest: seq<nat>)
    requires n > 0 && a < |idx| && idx[a] == n - 1 && multiset(idx) == multiset(Range(n))
    ensures rest == idx[..a] + idx[a + 1..]
    ensures multiset(rest) == multiset(Range(n - 1))
  {
    var rest := idx[..a] + idx[a + 1..];
    var last: nat := n - 1;
    assert idx == idx[..a] + [last] + idx[a + 1..];
    assert Range(n) == Range(last) + [last];
    assert multiset(Range(n)) == multiset(Range(last)) + multiset{last};
    assert multiset(idx) == multiset(idx[..a]) + multiset{last} + multiset(idx[a + 1..]);
    assert multiset(rest) == multiset(idx[..a]) + multiset(idx[a + 1..]);
    Cancel(multiset(rest), multiset(Range(last)), last);
    rest
  }

  /** Picking along a list without its element at `a` drops exactly that pick. */
  lemma PickRemove<T>(items: seq<T>, idx: seq<nat>, a: nat)
    requires a < |idx| && forall b :: 0 <= b < |idx| ==> idx[b] < |items|
    ensures multiset(Pick(items, idx)) == multiset(Pick(items, idx[..a] + idx[a + 1..])) + multiset{items[idx[a]]}
  {
    var p := Pick(items, idx);
    var q := Pick(items, idx[..a] + idx[a + 1..]);
    assert p == q[..a] + [items[idx[a]]] + q[a..];
    assert q == q[..a] + q[a..];
  }

  /** The ranked list is ordered by sort key, and descriptors with equal keys keep the
      order they have in the catalog. */
  lemma RankOrdered(configs: seq<string>, latencies: seq<Option<nat>>)
    requires |latencies| == |configs|
    ensures var idx := RankOrder(latencies);
            |idx| == |configs|
            && (forall a :: 0 <= a < |idx| ==> idx[a] < |configs| && Rank(configs, latencies)[a] == configs[idx[a]])
            && (forall a, b :: 0 <= a < b < |idx| ==> SortKey(latencies[idx[a]]) <= SortKey(latencies[idx[b]]))
            && (forall a, b :: 0 <= a < b < |idx| && SortKey(latencies[idx[a]]) == SortKey(latencies[idx[b]]) ==> idx[a] < idx[b])
  {
    RankOrderSorted(latencies);
  }

  /** When every measured latency is below the sentinel, all unreachable descriptors come
      after all reachable ones. */
  lemma UnreachableLast(configs: seq<string>, latencies: seq<Option<nat>>)
    requires |latencies| == |configs|
    requires forall i :: 0 <= i < |latencies| && latencies[i].Some? ==> latencies[i].value < UnreachableKey
    ensures var idx := RankOrder(latencies);
            forall a, b :: 0 <= a < b < |idx| && latencies[idx[a]].None? ==> latencies[idx[b]].None?
  {
    RankOrdered(configs, latencies);
  }

  /** There is only one stable order: any listing of the positions that is stably
      ordered by the keys is the one `SortIndices` computes. */
  lemma {:induction false} StableOrderUnique(keys: seq<nat>, x: seq<nat>, y: seq<nat>)
    requires StablyOrdered(keys, x) && StablyOrdered(keys, y)
    requires multiset(x) == multiset(y)
    ensures x == y
  {
    if x == [] {
      assert |multiset(y)| == 0;
    } else {
      assert |y| == |multiset(y)| == |multiset(x)| > 0;
      assert x[0] in multiset(y) && y[0] in multiset(x);
      FirstBefore(keys, y, x[0]);
      FirstBefore(keys, x, y[0]);
      TailsAgree(keys, x, y);
      StableOrderUnique(keys, x[1..], y[1..]);
      assert x == [x[0]] + x[1..] && y == [y[0]] + y[1..];
    }
  }

  /** Two stably ordered lists with the same elements and the same head have stably
      ordered tails with the same elements. */
  lemma TailsAgree(keys: seq<nat>, x: seq<nat>, y: seq<nat>)
    requires StablyOrdered(keys, x) && StablyOrdered(keys, y)
    requires x != [] && y != [] && x[0] == y[0] && multiset(x) == multiset(y)
    ensures StablyOrdered(keys, x[1..]) && StablyOrdered(keys, y[1..])
    ensures multiset(x[1..]) == multiset(y[1..])
  {
    assert x == [x[0]] + x[1..] && y == [y[0]] + y[1..];
    assert multiset(x) == multiset(x[1..]) + multiset{x[0]};
    assert multiset(y) == multiset(y[1..]) + multiset{y[0]};
    Cancel(multiset(x[1..]), multiset(y[1..]), x[0]);
  }

  lemma Cancel(a: multiset<nat>, b: multiset<nat>, e: nat)
    requires a + multiset{e} == b + multiset{e}
    ensures a == b
  {
    forall z: nat ensures a[z] == b[z] {
      assert (a + multiset{e})[z] == (b + multiset{e})[z];
    }
  }

  /** The head of a stably ordered list goes before every other element of it. */
  lemma FirstBefore(keys: seq<nat>, idx: seq<nat>, e: nat)
    requires StablyOrdered(keys, idx) && e in idx
    ensures e == idx[0] || (e < |keys| && Before(keys, idx[0], e))
  {
    var b :| 0 <= b < |idx| && idx[b] == e;
  }

  /** `RankOrder` is the order of Python's stable `sorted` by key: it is the only stably
      ordered permutation of the positions. */
  lemma RankOrderIsStableSort(latencies: seq<Option<nat>>, idx: seq<nat>)
    requires multiset(idx) == multiset(Range(|latencies|))
    requires StablyOrdered(Keys(latencies), idx)
    ensures idx == RankOrder(latencies)
  {
    RankOrderSorted(latencies);
    StableOrderUnique(Keys(latencies), idx, RankOrder(latencies));
  }
}
