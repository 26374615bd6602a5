/**
 * `collections.Counter` over a sequence: the distinct elements in the order
 * they were first seen, each with its number of occurrences, and
 * `most_common(1)`, which picks the first-seen among the most frequent.
 */
module Tally {
  /** The number of occurrences of `x` in `xs`. */
  function Occurrences<T(==)>(xs: seq<T>, x: T): nat {
    if |xs| == 0 then 0
    else Occurrences(xs[..|xs| - 1], x) + (if xs[|xs| - 1] == x then 1 else 0)
  }

  lemma {:induction false} OccursPositive<T>(xs: seq<T>, x: T)
    ensures x in xs <==> Occurrences(xs, x) > 0
    decreases |xs|
  {
    if |xs| > 0 {
      var init := xs[..|xs| - 1];
      assert xs == init + [xs[|xs| - 1]];
      OccursPositive(init, x);
    }
  }

  /** The position of the first occurrence of `x` in `xs`. */
  function FirstIndex<T(==)>(xs: seq<T>, x: T): (r: nat)
    requires x in xs
    ensures r < |xs| && xs[r] == x && x !in xs[..r]
  {
    if xs[0] == x then 0
    else
      var r := FirstIndex(xs[1..], x) + 1;
      assert xs[..r] == [xs[0]] + xs[1..][..r - 1];
      r
  }

  type Table<T> = seq<(T, nat)>

  function Keys<T>(t: Table<T>): (r: seq<T>)
    ensures |r| == |t| && forall i :: 0 <= i < |t| ==> r[i] == t[i].0
  {
    seq(|t|, i requires 0 <= i < |t| => t[i].0)
  }

  predicate DistinctKeys<T(==)>(t: Table<T>) {
    forall i, j :: 0 <= i < j < |t| ==> t[i].0 != t[j].0
  }

  /** `counter[x]`: the count of the first entry for `x`, or 0. */
  function Lookup<T(==)>(t: Table<T>, x: T): nat {
    if |t| == 0 then 0 else if t[0].0 == x then t[0].1 else Lookup(t[1..], x)
  }

  /** In a table with distinct keys, each entry is what a lookup of its key finds. */
  lemma {:induction false} LookupAt<T>(t: Table<T>, i: nat)
    requires DistinctKeys(t) && i < |t|
    ensures Lookup(t, t[i].0) == t[i].1
    decreases i
  {
    if i > 0 {
      assert t[0].0 != t[i].0;
      LookupAt(t[1..], i - 1);
    }
  }

  /** The sum of the counts. */
  function Total<T>(t: Table<T>): nat {
    if |t| == 0 then 0 else t[0].1 + Total(t[1..])
  }

  /** `counter[x] += 1`: bumps an existing key in place, or appends a new one. */
  function Bump<T(==)>(t: Table<T>, x: T): (r: Table<T>)
    ensures x in Keys(t) ==> Keys(r) == Keys(t)
    ensures x !in Keys(t) ==> r == t + [(x, 1)]
    decreases |t|
  {
    if |t| == 0 then [(x, 1)]
    else if t[0].0 == x then
      var r := [(x, t[0].1 + 1)] + t[1..];
      assert Keys(r) == Keys(t);
      r
    else
      var rest := Bump(t[1..], x);
      var r := [t[0]] + rest;
      assert Keys(t) == [t[0].0] + Keys(t[1..]);
      assert Keys(r) == [t[0].0] + Keys(rest);
      assert x !in Keys(t) ==> r == t + [(x, 1)] by {
        if x !in Keys(t) {
          assert t == [t[0]] + t[1..];
        }
      }
      r
  }

  /** Bumping `x` adds one to its count and leaves every other count alone. */
  lemma {:induction false} BumpLookup<T>(t: Table<T>, x: T, y: T)
    ensures Lookup(Bump(t, x), y) == Lookup(t, y) + (if y == x then 1 else 0)
    decreases |t|
  {
    if |t| == 0 {
    } else if t[0].0 == x {
      ConsLookup((x, t[0].1 + 1), t[1..], y);
    } else {
      BumpLookup(t[1..], x, y);
      ConsLookup(t[0], Bump(t[1..], x), y);
    }
  }

  lemma {:induction false} BumpTotal<T>(t: Table<T>, x: T)
    ensures Total(Bump(t, x)) == Total(t) + 1
    decreases |t|
  {
    if |t| > 0 {
      if t[0].0 == x {
        assert ([(x, t[0].1 + 1)] + t[1..])[1..] == t[1..];
      } else {
        BumpTotal(t[1..], x);
        assert ([t[0]] + Bump(t[1..], x))[1..] == Bump(t[1..], x);
      }
    }
  }

  lemma {:induction false} BumpDistinct<T>(t: Table<T>, x: T)
    requires DistinctKeys(t)
    ensures DistinctKeys(Bump(t, x))
  {
    var r := Bump(t, x);
    if x in Keys(t) {
      forall i, j | 0 <= i < j < |r|
        ensures r[i].0 != r[j].0
      {
        assert Keys(r)[i] == Keys(t)[i] && Keys(r)[j] == Keys(t)[j];
      }
    } else {
      forall i, j | 0 <= i < j < |r|
        ensures r[i].0 != r[j].0
      {
        if j == |t| {
          assert Keys(t)[i] == r[i].0;
        }
      }
    }
  }

  lemma ConsLookup<T>(h: (T, nat), rest: Table<T>, y: T)
    ensures Lookup([h] + rest, y) == if h.0 == y then h.1 else Lookup(rest, y)
  {
    assert ([h] + rest)[1..] == rest;
  }

  /** `Counter(xs)`, keys in first-seen order. */
  function Count<T(==,!new)>(xs: seq<T>): (r: Table<T>)
    ensures DistinctKeys(r)
    ensures forall y :: y in Keys(r) <==> y in xs
    ensures forall y :: Lookup(r, y) == Occurrences(xs, y)
    ensures Total(r) == |xs|
    decreases |xs|
  {
    if |xs| == 0 then []
    else
      var init := xs[..|xs| - 1];
      var last := xs[|xs| - 1];
      assert xs == init + [last];
      var t := Count(init);
      BumpDistinct(t, last);
      BumpTotal(t, last);
      forall y
        ensures Lookup(Bump(t, last), y) == Occurrences(xs, y)
      {
        BumpLookup(t, last, y);
      }
      assert Keys(Bump(t, last)) == Keys(t) || Keys(Bump(t, last)) == Keys(t) + [last];
      Bump(t, last)
  }

  /** The keys come in the order of their first occurrence. */
  lemma {:induction false} CountFirstSeen<T(!new)>(xs: seq<T>, i: nat, j: nat)
    requires i < j < |Count(xs)|
    ensures Count(xs)[i].0 in xs && Count(xs)[j].0 in xs
    ensures FirstIndex(xs, Count(xs)[i].0) < FirstIndex(xs, Count(xs)[j].0)
    decreases |xs|
  {
    var r := Count(xs);
    assert r[i].0 in Keys(r) && r[j].0 in Keys(r);
    assert |xs| > 0;
    var init := xs[..|xs| - 1];
    var last := xs[|xs| - 1];
    Snoc(xs);
    var t := Count(init);
    if last in Keys(t) {
      assert Keys(r) == Keys(t);
      assert r[i].0 == t[i].0 && r[j].0 == t[j].0;
      CountFirstSeen(init, i, j);
      FirstIndexPrefix(init, last, t[i].0);
      FirstIndexPrefix(init, last, t[j].0);
    } else {
      assert r == t + [(last, 1)];
      if j < |t| {
        CountFirstSeen(init, i, j);
        FirstIndexPrefix(init, last, t[i].0);
        FirstIndexPrefix(init, last, t[j].0);
      } else {
        assert r[j].0 == last && last !in init;
        assert t[i].0 in init by { assert t[i].0 in Keys(t); }
        FirstIndexPrefix(init, last, t[i].0);
        assert FirstIndex(xs, last) == |init| by {
          assert forall k :: 0 <= k < |init| ==> xs[k] == init[k];
        }
      }
    }
  }

  lemma Snoc<T>(xs: seq<T>)
    requires |xs| > 0
    ensures xs == xs[..|xs| - 1] + [xs[|xs| - 1]]
  {
  }

  lemma FirstIndexPrefix<T>(init: seq<T>, last: T, x: T)
    requires x in init
    ensures FirstIndex(init + [last], x) == FirstIndex(init, x)
  {
    var xs := init + [last];
    var f := FirstIndex(init, x);
    assert xs[..f] == init[..f];
    assert xs[f] == x;
    var g := FirstIndex(xs, x);
    assert g <= f;
    assert g < |init|;
    assert init[g] == x;
  }

  /** `most_common(1)[0]`: the first entry whose count no other entry exceeds. */
  function MostCommon<T>(t: Table<T>): (i: nat)
    requires |t| > 0
    ensures i < |t|
    ensures forall k :: 0 <= k < |t| ==> t[k].1 <= t[i].1
    ensures forall k :: 0 <= k < i ==> t[k].1 < t[i].1
    decreases |t|
  {
    if |t| == 1 then 0
    else
      var j := MostCommon(t[1..]) + 1;
      if t[0].1 >= t[j].1 then 0 else j
  }

  /** The most common count is at least the average: it times the number of keys bounds the total. */
  lemma {:induction false} TotalAtMost<T>(t: Table<T>, m: nat)
    requires forall k :: 0 <= k < |t| ==> t[k].1 <= m
    ensures Total(t) <= |t| * m
    decreases |t|
  {
    if |t| > 0 {
      TotalAtMost(t[1..], m);
    }
  }

  /** A table with more than one key has no key holding the whole total. */
  lemma {:induction false} ShareBelowTotal<T>(t: Table<T>, i: nat)
    requires i < |t| && |t| > 1
    requires forall k :: 0 <= k < |t| ==> t[k].1 > 0
    ensures t[i].1 < Total(t)
    decreases |t|
  {
    if i == 0 {
      assert Total(t[1..]) >= t[1].1 by {
        TotalAtLeast(t[1..], 0);
      }
    } else {
      TotalAtLeast(t, i);
      assert Total(t) == t[0].1 + Total(t[1..]);
      TotalAtLeast(t[1..], i - 1);
    }
  }

  lemma {:induction false} TotalAtLeast<T>(t: Table<T>, i: nat)
    requires i < |t|
    ensures t[i].1 <= Total(t)
    decreases |t|
  {
    if i > 0 {
      TotalAtLeast(t[1..], i - 1);
    }
  }
}
