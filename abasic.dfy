/** Detection of the abasic (open-pore) current level of a read: sort the event
    means, ignore the top percent of them, and add an offset. */
module Abasic {
  import opened Events

  predicate Sorted(s: seq<real>)
  {
    forall i, j :: 0 <= i < j < |s| ==> s[i] <= s[j]
  }

  /** A value no larger than the head of a sorted sequence can go in front. */
  lemma SortedCons(h: real, t: seq<real>)
    requires Sorted(t) && (|t| > 0 ==> h <= t[0])
    ensures Sorted([h] + t)
  {
    var r := [h] + t;
    forall i, j | 0 <= i < j < |r| ensures r[i] <= r[j] {
      if i == 0 {
        assert r[j] == t[j - 1] && t[0] <= t[j - 1];
      } else {
        assert r[i] == t[i - 1] && r[j] == t[j - 1];
      }
    }
  }

  /** Insert `x` into a sorted sequence. */
  function Insert(x: real, s: seq<real>): (r: seq<real>)
    requires Sorted(s)
    ensures Sorted(r)
    ensures multiset(r) == multiset(s) + multiset{x}
    ensures |r| == |s| + 1 && (r[0] == x || (|s| > 0 && r[0] == s[0]))
  {
    if s == [] then [x]
    else if x <= s[0] then SortedCons(x, s); [x] + s
    else
      assert s == [s[0]] + s[1..];
      var rest := Insert(x, s[1..]);
      SortedCons(s[0], rest);
      [s[0]] + rest
  }

  /** Insertion sort; stands for `std::sort` on the copied means. */
  function Sort(s: seq<real>): (r: seq<real>)
    ensures Sorted(r)
    ensures multiset(r) == multiset(s)
    ensures |r| == |s|
  {
    if s == [] then []
    else
      assert s == [s[0]] + s[1..];
      Insert(s[0], Sort(s[1..]))
  }

  /** There is only one sorted arrangement of a multiset of means. */
  lemma {:induction false} SortedUnique(a: seq<real>, b: seq<real>)
    requires Sorted(a) && Sorted(b) && multiset(a) == multiset(b)
    ensures a == b
  {
    assert |a| == |multiset(a)| == |multiset(b)| == |b|;
    if a != [] {
      assert a[0] in multiset(b) && b[0] in multiset(a);
      var j :| 0 <= j < |b| && b[j] == a[0];
      var i :| 0 <= i < |a| && a[i] == b[0];
      assert a[0] == b[0];
      DropHead(a);
      DropHead(b);
      SortedUnique(a[1..], b[1..]);
    }
  }

  lemma DropHead(s: seq<real>)
    requires s != []
    ensures multiset(s[1..]) == multiset(s) - multiset{s[0]}
  {
    assert s == [s[0]] + s[1..];
  }

  lemma DropAt(s: seq<real>, j: nat)
    requires j < |s|
    ensures multiset(s[..j] + s[j + 1..]) == multiset(s) - multiset{s[j]}
  {
    assert s == s[..j] + [s[j]] + s[j + 1..];
  }

  /** The position read in the sorted means: `n * (1 - topPercent / 100)`
      truncated towards zero. */
  function Rank(n: nat, topPercent: real): (k: nat)
    requires 0.0 < topPercent <= 100.0
    ensures n > 0 ==> k < n
  {
    var f := 1.0 - topPercent / 100.0;
    assert 0.0 <= f < 1.0;
    assert 0.0 <= (n as real) * f;
    assert n > 0 ==> (n as real) * f < n as real;
    ((n as real) * f).Floor
  }

  /** A larger percentage of ignored top events never moves the rank up. */
  lemma RankAntitone(n: nat, p: real, q: real)
    requires 0.0 < p <= q <= 100.0
    ensures Rank(n, q) <= Rank(n, p)
  {
    var fp, fq := 1.0 - p / 100.0, 1.0 - q / 100.0;
    assert fq <= fp;
    assert (n as real) * fq <= (n as real) * fp;
  }

  /** The abasic level of a list of means: the mean at position Rank of the
      sorted means, plus `topOffset`. */
  function AbasicLevel(means: seq<real>, topPercent: real, topOffset: real): (level: real)
    requires |means| > 0 && 0.0 < topPercent <= 100.0
    ensures level - topOffset in multiset(means)
  {
    var sorted := Sort(means);
    var k := Rank(|means|, topPercent);
    assert sorted[k] in multiset(sorted);
    sorted[k] + topOffset
  }

  /** `detect_abasic_level`: copy the event means into a buffer, sort it, and
      read the level at the rank. */
  method DetectAbasicLevel(ev: seq<RawEvent>, topPercent: real, topOffset: real) returns (level: real)
    requires |ev| > 0 && 0.0 < topPercent <= 100.0
    ensures level == AbasicLevel(Means(ev), topPercent, topOffset)
  {
    var s := new real[|ev|];
    var i := 0;
    while i < |ev|
      invariant 0 <= i <= |ev|
      invariant forall k :: 0 <= k < i ==> s[k] == ev[k].mean
    {
      s[i] := ev[i].mean;
      i := i + 1;
    }
    assert s[..] == Means(ev);
    var sorted := Sort(s[..]);
    level := sorted[Rank(|ev|, topPercent)] + topOffset;
  }

  /** Any sorted arrangement of the means may be used to read the level. */
  lemma AbasicLevelFromAnySortedCopy(means: seq<real>, sorted: seq<real>, topPercent: real, topOffset: real)
    requires |means| > 0 && 0.0 < topPercent <= 100.0
    requires Sorted(sorted) && multiset(sorted) == multiset(means)
    ensures |sorted| == |means|
    ensures AbasicLevel(means, topPercent, topOffset) == sorted[Rank(|means|, topPercent)] + topOffset
  {
    assert |sorted| == |multiset(sorted)| == |means|;
    SortedUnique(Sort(means), sorted);
  }

  /** The level depends only on the multiset of means, not on event order. */
  lemma AbasicLevelOrderFree(a: seq<real>, b: seq<real>, topPercent: real, topOffset: real)
    requires |a| > 0 && 0.0 < topPercent <= 100.0
    requires multiset(a) == multiset(b)
    ensures |b| > 0
    ensures AbasicLevel(a, topPercent, topOffset) == AbasicLevel(b, topPercent, topOffset)
  {
    assert |b| == |multiset(b)| == |a|;
    AbasicLevelFromAnySortedCopy(b, Sort(a), topPercent, topOffset);
  }

  /** Ignoring more top events never raises the level. */
  lemma AbasicLevelAntitone(means: seq<real>, p: real, q: real, topOffset: real)
    requires |means| > 0 && 0.0 < p <= q <= 100.0
    ensures AbasicLevel(means, q, topOffset) <= AbasicLevel(means, p, topOffset)
  {
    var sorted := Sort(means);
    var i, j := Rank(|means|, q), Rank(|means|, p);
    RankAntitone(|means|, p, q);
    assert i <= j < |sorted|;
    assert sorted[i] <= sorted[j];
  }

  /** How many of the values are strictly below `v`, and how many at most `v`. */
  function CountBelow(s: seq<real>, v: real): nat
  {
    if s == [] then 0 else (if s[0] < v then 1 else 0) + CountBelow(s[1..], v)
  }

  function CountAtMost(s: seq<real>, v: real): nat
  {
    if s == [] then 0 else (if s[0] <= v then 1 else 0) + CountAtMost(s[1..], v)
  }

  lemma {:induction false} CountsOfConcat(a: seq<real>, b: seq<real>, v: real)
    ensures CountBelow(a + b, v) == CountBelow(a, v) + CountBelow(b, v)
    ensures CountAtMost(a + b, v) == CountAtMost(a, v) + CountAtMost(b, v)
  {
    if a == [] {
      assert a + b == b;
    } else {
      assert (a + b)[0] == a[0];
      assert (a + b)[1..] == a[1..] + b;
      CountsOfConcat(a[1..], b, v);
    }
  }

  /** The counts depend only on the multiset of values. */
  lemma {:induction false} CountsOfPermutation(a: seq<real>, b: seq<real>, v: real)
    requires multiset(a) == multiset(b)
    ensures CountBelow(a, v) == CountBelow(b, v) && CountAtMost(a, v) == CountAtMost(b, v)
    decreases |a|
  {
    assert |a| == |multiset(a)| == |multiset(b)| == |b|;
    if a != [] {
      assert a[0] in multiset(b);
      var j :| 0 <= j < |b| && b[j] == a[0];
      var rest := b[..j] + b[j + 1..];
      DropHead(a);
      DropAt(b, j);
      CountsOfPermutation(a[1..], rest, v);
      assert b == b[..j] + ([b[j]] + b[j + 1..]);
      assert [b[j]][1..] == [];
      CountsOfConcat(b[..j], [b[j]] + b[j + 1..], v);
      CountsOfConcat([b[j]], b[j + 1..], v);
      CountsOfConcat(b[..j], b[j + 1..], v);
    }
  }

  /** In a sorted sequence, the element at position k has at most k values
      strictly below it and more than k values at or below it. */
  lemma {:induction false} SortedRankCounts(t: seq<real>, k: nat)
    requires Sorted(t) && k < |t|
    ensures CountBelow(t, t[k]) <= k < CountAtMost(t, t[k])
  {
    var v := t[k];
    assert t == t[..k] + ([t[k]] + t[k + 1..]);
    CountsOfConcat(t[..k], [t[k]] + t[k + 1..], v);
    CountsOfConcat([t[k]], t[k + 1..], v);
    PrefixCounts(t[..k], v);
    SuffixBelowNone(t[k + 1..], v);
  }

  lemma {:induction false} PrefixCounts(p: seq<real>, v: real)
    requires forall i :: 0 <= i < |p| ==> p[i] <= v
    ensures CountBelow(p, v) <= |p| && CountAtMost(p, v) == |p|
  {
    if p != [] {
      PrefixCounts(p[1..], v);
    }
  }

  lemma {:induction false} SuffixBelowNone(q: seq<real>, v: real)
    requires forall i :: 0 <= i < |q| ==> v <= q[i]
    ensures CountBelow(q, v) == 0
  {
    if q != [] {
      SuffixBelowNone(q[1..], v);
    }
  }

  /** The element at position k of a sorted copy has at most k of the values
      strictly below it and more than k at or below it. */
  lemma SortedCopyRankCounts(means: seq<real>, sorted: seq<real>, k: nat)
    requires Sorted(sorted) && multiset(sorted) == multiset(means) && k < |sorted|
    ensures CountBelow(means, sorted[k]) <= k < CountAtMost(means, sorted[k])
  {
    SortedRankCounts(sorted, k);
    CountsOfPermutation(sorted, means, sorted[k]);
  }

  /** The level minus the offset is an order statistic of the means: at most
      Rank of them lie strictly below it, and more than Rank lie at or below it. */
  lemma AbasicLevelIsOrderStatistic(means: seq<real>, topPercent: real, topOffset: real)
    requires |means| > 0 && 0.0 < topPercent <= 100.0
    ensures CountBelow(means, AbasicLevel(means, topPercent, topOffset) - topOffset) <= Rank(|means|, topPercent)
    ensures Rank(|means|, topPercent) < CountAtMost(means, AbasicLevel(means, topPercent, topOffset) - topOffset)
  {
    var sorted, k := Sort(means), Rank(|means|, topPercent);
    SortedCopyRankCounts(means, sorted, k);
    assert AbasicLevel(means, topPercent, topOffset) - topOffset == sorted[k];
  }

  /** With the means 1, 2, ..., 100 and one percent ignored, the level is 100. */
  lemma HundredMeansExample()
    ensures AbasicLevel(seq(100, i => (i + 1) as real), 1.0, 0.0) == 100.0
  {
    var means := seq(100, i => (i + 1) as real);
    assert Rank(100, 1.0) == 99;
    AbasicLevelFromAnySortedCopy(means, means, 1.0, 0.0);
  }
}
