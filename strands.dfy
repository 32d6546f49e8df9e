/** Strand boundary detection: merge nearby islands, pick the island closest to
    the middle of the read as the hairpin, and derive the template and
    complement index ranges from it. */
module Strands {
  import opened Events
  import opened Islands

  /** The four trim margins, in events: after the read start, before the read
      end, before the hairpin start, after the hairpin end. */
  datatype Margins = Margins(afterStart: nat, beforeEnd: nat, beforeHairpin: nat, afterHairpin: nat)

  /** Template range [templateStart, templateEnd) and complement range
      [complementStart, complementEnd), as indices into the event table. A range
      whose end is not above its start is empty. */
  datatype StrandBounds = StrandBounds(templateStart: int, templateEnd: int, complementStart: int, complementEnd: int)
  {
    /** `strand_bounds[2 * st]` and `strand_bounds[2 * st + 1]`. */
    function Start(st: nat): int
      requires st < 2
    {
      if st == 0 then templateStart else complementStart
    }

    function End(st: nat): int
      requires st < 2
    {
      if st == 0 then templateEnd else complementEnd
    }
  }

  function Max(a: int, b: int): int { if a < b then b else a }

  function Min(a: int, b: int): int { if a < b then a else b }

  function Abs(x: int): nat { if x < 0 then -x else x }

  /** Islands this close (end of one to start of the next) are merged. */
  function MergeRadius(m: Margins): nat
  {
    Max(m.beforeHairpin, m.afterHairpin)
  }

  /** Consecutive islands are more than `radius` apart. */
  predicate Separated(s: seq<Island>, radius: nat)
  {
    forall k :: 1 <= k < |s| ==> s[k - 1].second + radius < s[k].first
  }

  /** One step of the merge: join `x` to the last island when it starts within
      `radius` of that island's end, otherwise append it. */
  function MergeStep(acc: seq<Island>, x: Island, radius: nat): seq<Island>
  {
    if |acc| > 0 && acc[|acc| - 1].second + radius >= x.first
    then acc[..|acc| - 1] + [Island(acc[|acc| - 1].first, x.second)]
    else acc + [x]
  }

  function MergeInto(acc: seq<Island>, s: seq<Island>, radius: nat): seq<Island>
    decreases |s|
  {
    if s == [] then acc else MergeInto(MergeStep(acc, s[0], radius), s[1..], radius)
  }

  /** The islands left once the merge pass reaches its fixed point. */
  function Merged(s: seq<Island>, radius: nat): seq<Island>
  {
    MergeInto([], s, radius)
  }

  lemma {:induction false} MergeIntoConcat(acc: seq<Island>, p: seq<Island>, q: seq<Island>, radius: nat)
    ensures MergeInto(acc, p + q, radius) == MergeInto(MergeInto(acc, p, radius), q, radius)
    decreases |p|
  {
    if p == [] {
      assert p + q == q;
    } else {
      assert (p + q)[0] == p[0] && (p + q)[1..] == p[1..] + q;
      MergeIntoConcat(MergeStep(acc, p[0], radius), p[1..], q, radius);
    }
  }

  lemma {:induction false} MergeIntoSeparated(acc: seq<Island>, p: seq<Island>, radius: nat)
    requires Separated(acc + p, radius)
    ensures MergeInto(acc, p, radius) == acc + p
    decreases |p|
  {
    if p == [] {
      assert acc + p == acc;
    } else {
      if |acc| > 0 {
        assert (acc + p)[|acc| - 1] == acc[|acc| - 1] && (acc + p)[|acc|] == p[0];
      }
      assert (acc + [p[0]]) + p[1..] == acc + p;
      MergeIntoSeparated(acc + [p[0]], p[1..], radius);
    }
  }

  /** A separated prefix passes through the merge unchanged. */
  lemma MergeSeparatedPrefix(p: seq<Island>, q: seq<Island>, radius: nat)
    requires Separated(p, radius)
    ensures Merged(p + q, radius) == MergeInto(p, q, radius)
  {
    MergeIntoConcat([], p, q, radius);
    assert [] + p == p;
    MergeIntoSeparated([], p, radius);
  }

  /** Joining islands i-1 and i of a list whose first i islands are separated,
      and rescanning, reaches the same fixed point as before the join. */
  lemma MergeRestart(cur: seq<Island>, i: nat, radius: nat)
    requires 1 <= i < |cur| && Separated(cur[..i], radius)
    requires cur[i - 1].second + radius >= cur[i].first
    ensures Merged(cur[..i - 1] + [Island(cur[i - 1].first, cur[i].second)] + cur[i + 1..], radius)
         == Merged(cur, radius)
  {
    var joined := Island(cur[i - 1].first, cur[i].second);
    var head := cur[..i - 1] + [joined];
    assert cur == cur[..i] + cur[i..];
    MergeSeparatedPrefix(cur[..i], cur[i..], radius);
    assert cur[i..][0] == cur[i] && cur[i..][1..] == cur[i + 1..];
    assert cur[..i][..i - 1] == cur[..i - 1];
    assert MergeStep(cur[..i], cur[i], radius) == head;
    assert Separated(head, radius);
    assert cur[..i - 1] + [joined] + cur[i + 1..] == head + cur[i + 1..];
    MergeSeparatedPrefix(head, cur[i + 1..], radius);
  }

  /** The merge loop of `detect_strands`: whenever an island starts within the
      radius of the previous one's end, the two are joined in place and the scan
      restarts from the beginning. */
  method MergeIslands(islands: seq<Island>, radius: nat) returns (merged: seq<Island>)
    ensures merged == Merged(islands, radius)
    ensures Separated(merged, radius)
  {
    merged := islands;
    var i := 1;
    while i < |merged|
      invariant 1 <= i && (i <= |merged| || merged == [])
      invariant forall k :: 1 <= k < i && k < |merged| ==> merged[k - 1].second + radius < merged[k].first
      invariant Merged(merged, radius) == Merged(islands, radius)
      decreases |merged|, |merged| - i
    {
      assert Separated(merged[..i], radius);
      if merged[i - 1].second + radius >= merged[i].first {
        MergeRestart(merged, i, radius);
        merged := merged[..i - 1] + [Island(merged[i - 1].first, merged[i].second)] + merged[i + 1..];
        i := 1;
      } else {
        i := i + 1;
      }
    }
    if merged != [] {
      assert merged[..|merged|] == merged;
    }
    MergeSeparatedPrefix(merged, [], radius);
    assert merged + [] == merged;
  }

  lemma {:induction false} MergeIntoKeepsSeparated(acc: seq<Island>, s: seq<Island>, radius: nat)
    requires Separated(acc, radius)
    ensures Separated(MergeInto(acc, s, radius), radius)
    decreases |s|
  {
    if s != [] {
      MergeIntoKeepsSeparated(MergeStep(acc, s[0], radius), s[1..], radius);
    }
  }

  lemma {:induction false} MergeIntoLength(acc: seq<Island>, s: seq<Island>, radius: nat)
    ensures |MergeInto(acc, s, radius)| <= |acc| + |s|
    ensures |acc| + |s| > 0 ==> |MergeInto(acc, s, radius)| > 0
    decreases |s|
  {
    if s != [] {
      MergeIntoLength(MergeStep(acc, s[0], radius), s[1..], radius);
    }
  }

  lemma {:induction false} MergeIntoKeepsFirst(acc: seq<Island>, s: seq<Island>, radius: nat)
    requires |acc| > 0
    ensures |MergeInto(acc, s, radius)| > 0 && MergeInto(acc, s, radius)[0].first == acc[0].first
    decreases |s|
  {
    if s != [] {
      MergeIntoKeepsFirst(MergeStep(acc, s[0], radius), s[1..], radius);
    }
  }

  /** One merge step keeps all but the last island of `acc`, and its last
      island ends where `x` does and starts where `x` or the joined island did. */
  lemma MergeStepShape(acc: seq<Island>, x: Island, radius: nat)
    ensures var r := MergeStep(acc, x, radius);
      && |acc| <= |r| <= |acc| + 1 && |r| > 0
      && r[|r| - 1].second == x.second
      && (forall k :: 0 <= k < |r| - 1 ==> r[k] == acc[k])
      && (r[|r| - 1].first == x.first || (|r| == |acc| && r[|r| - 1].first == acc[|acc| - 1].first))
  {
  }

  lemma {:induction false} MergeIntoTakesLast(acc: seq<Island>, s: seq<Island>, radius: nat)
    requires |s| > 0
    ensures |MergeInto(acc, s, radius)| > 0
    ensures MergeInto(acc, s, radius)[|MergeInto(acc, s, radius)| - 1].second == s[|s| - 1].second
    decreases |s|
  {
    var next := MergeStep(acc, s[0], radius);
    var r := MergeInto(acc, s, radius);
    assert r == MergeInto(next, s[1..], radius);
    if |s| == 1 {
      assert s[1..] == [];
      assert r == next;
      MergeStepShape(acc, s[0], radius);
      assert r[|r| - 1].second == s[0].second;
    } else {
      MergeIntoTakesLast(next, s[1..], radius);
      var last := s[1..][|s[1..]| - 1];
      assert last == s[|s| - 1];
      assert r[|r| - 1].second == last.second;
    }
  }

  /** The ends of the islands of a list. */
  function Firsts(s: seq<Island>): set<nat>
  {
    set k | 0 <= k < |s| :: s[k].first
  }

  function Seconds(s: seq<Island>): set<nat>
  {
    set k | 0 <= k < |s| :: s[k].second
  }

  lemma {:induction false} MergeIntoEndpoints(acc: seq<Island>, s: seq<Island>, radius: nat)
    ensures Firsts(MergeInto(acc, s, radius)) <= Firsts(acc) + Firsts(s)
    ensures Seconds(MergeInto(acc, s, radius)) <= Seconds(acc) + Seconds(s)
    decreases |s|
  {
    if s != [] {
      var next := MergeStep(acc, s[0], radius);
      MergeIntoEndpoints(next, s[1..], radius);
      MergeStepShape(acc, s[0], radius);
      forall k | 0 <= k < |next| ensures next[k].first in Firsts(acc) + Firsts(s) && next[k].second in Seconds(acc) + Seconds(s) {
        if k < |next| - 1 {
          assert next[k] == acc[k];
          assert acc[k].first in Firsts(acc) && acc[k].second in Seconds(acc);
        } else {
          assert s[0].first in Firsts(s) && s[0].second in Seconds(s);
          if next[k].first != s[0].first {
            assert acc[|acc| - 1].first in Firsts(acc);
          }
        }
      }
      forall k | 0 <= k < |s[1..]| ensures s[1..][k].first in Firsts(s) && s[1..][k].second in Seconds(s) {
        assert s[1..][k] == s[k + 1];
      }
    }
  }

  /** After the merge pass: consecutive islands are more than the radius apart,
      there are no more islands than before and none if there were none, the
      first island starts and the last one ends where they did, and every start
      and end is the start or end of an island of the input. */
  lemma MergedProperties(s: seq<Island>, radius: nat)
    ensures Separated(Merged(s, radius), radius)
    ensures |Merged(s, radius)| <= |s|
    ensures (|Merged(s, radius)| == 0) <==> (|s| == 0)
    ensures |s| > 0 ==> Merged(s, radius)[0].first == s[0].first
    ensures |s| > 0 ==> Merged(s, radius)[|Merged(s, radius)| - 1].second == s[|s| - 1].second
    ensures Firsts(Merged(s, radius)) <= Firsts(s) && Seconds(Merged(s, radius)) <= Seconds(s)
  {
    MergeIntoKeepsSeparated([], s, radius);
    MergeIntoLength([], s, radius);
    MergeIntoEndpoints([], s, radius);
    if |s| > 0 {
      MergeIntoKeepsFirst([s[0]], s[1..], radius);
      MergeIntoTakesLast([], s, radius);
    }
  }

  /** Two islands merge exactly when the gap between them is at most the radius. */
  lemma MergeTwo(a: Island, b: Island, radius: nat)
    ensures a.second + radius >= b.first ==> Merged([a, b], radius) == [Island(a.first, b.second)]
    ensures a.second + radius < b.first ==> Merged([a, b], radius) == [a, b]
  {
    assert [a, b][0] == a && [a, b][1..] == [b];
    assert MergeStep([], a, radius) == [a];
    assert [b][0] == b && [b][1..] == [];
    calc {
      Merged([a, b], radius);
      MergeInto(MergeStep([], a, radius), [b], radius);
      MergeInto([a], [b], radius);
      MergeInto(MergeStep([a], b, radius), [], radius);
    }
  }

  /** `dist_to_middle`: how far the nearer end of an island is from the middle
      event `n / 2`. */
  function DistToMiddle(p: Island, n: nat): nat
  {
    Min(Abs(p.first - n / 2), Abs(p.second - n / 2))
  }

  /** The island nearest to the middle of the read: every island is at least
      as far, and the earlier ones strictly farther. */
  function ClosestIsland(islands: seq<Island>, n: nat): (k: nat)
    requires |islands| > 0
    ensures k < |islands|
    ensures forall j :: 0 <= j < |islands| ==> DistToMiddle(islands[k], n) <= DistToMiddle(islands[j], n)
    ensures forall j :: 0 <= j < k ==> DistToMiddle(islands[k], n) < DistToMiddle(islands[j], n)
    decreases |islands|
  {
    if |islands| == 1 then 0
    else
      var front := islands[..|islands| - 1];
      var k := ClosestIsland(front, n);
      assert forall j :: 0 <= j < |front| ==> front[j] == islands[j];
      if DistToMiddle(islands[|islands| - 1], n) < DistToMiddle(islands[k], n) then |islands| - 1 else k
  }

  /** The bounds of a read without a detected hairpin: all of it, trimmed, is
      template, and the complement is empty. */
  function TemplateOnlyBounds(n: nat, m: Margins): StrandBounds
  {
    StrandBounds(m.afterStart, n - m.beforeEnd, 0, 0)
  }

  /** The bounds derived from hairpin island k of the merged list. The template
      start moves to the end of a leading island that begins within the start
      margins; the complement end moves to the start of a trailing island that
      ends within the end margins, a check that only a read of at least
      `afterHairpin + beforeEnd` events can pass (below that the unsigned
      threshold wraps to a huge value). The complement starts `afterHairpin`
      events after the START of the hairpin island. Indices are integers here,
      so a hairpin that starts within `beforeHairpin` of the read start gives a
      template end at or below its start. */
  function HairpinBounds(islands: seq<Island>, k: nat, n: nat, m: Margins): StrandBounds
    requires k < |islands|
  {
    var it := islands[k];
    var head := islands[0];
    var last := islands[|islands| - 1];
    StrandBounds(
      if head.first < m.afterStart + m.beforeHairpin then Max(m.afterStart, head.second) else m.afterStart,
      it.first - m.beforeHairpin,
      it.first + m.afterHairpin,
      if n >= m.afterHairpin + m.beforeEnd && last.second > n - (m.afterHairpin + m.beforeEnd)
      then Min(n - m.beforeEnd, last.first) else n - m.beforeEnd)
  }

  /** Unsigned 32-bit subtraction, as `unsigned` arithmetic does it. */
  const U32: int := 0x1_0000_0000

  function Sub32(a: nat, b: nat): (r: nat)
    ensures r < U32
  {
    (a - b) % U32
  }

  /** Unsigned 64-bit subtraction, as `size_t` arithmetic does it. */
  const U64: int := 0x1_0000_0000_0000_0000

  function Sub64(a: nat, b: nat): (r: nat)
    ensures r < U64
  {
    (a - b) % U64
  }

  /** HairpinBounds with the wrap-around of the subtractions of lines 718-729:
      `it->first - trim_margins()[2]` and `size - trim_margins()[1]` wrap below
      zero in 32 bits, and the threshold `size - (trim_margins()[3] +
      trim_margins()[1])` in the 64 bits of `size_t`, its margin sum in 32.
      The sums `trim_margins()[0] + trim_margins()[2]` and `it->first +
      trim_margins()[3]` are taken without wrap-around. */
  function HairpinBoundsAsWritten(islands: seq<Island>, k: nat, n: nat, m: Margins): StrandBounds
    requires k < |islands|
  {
    var it := islands[k];
    var head := islands[0];
    var last := islands[|islands| - 1];
    var end := Sub32(n, m.beforeEnd);
    StrandBounds(
      if head.first < m.afterStart + m.beforeHairpin then Max(m.afterStart, head.second) else m.afterStart,
      Sub32(it.first, m.beforeHairpin),
      it.first + m.afterHairpin,
      if last.second > Sub64(n, (m.afterHairpin + m.beforeEnd) % U32) then Min(end, last.first) else end)
  }

  /** The bounds `detect_strands` leaves: `init` when there is no island or the
      closest one lies outside the middle third of the read; otherwise the
      hairpin bounds of the closest island. */
  function FromIslands(islands: seq<Island>, n: nat, m: Margins, init: StrandBounds): StrandBounds
  {
    if |islands| == 0 then init
    else
      var k := ClosestIsland(islands, n);
      if DistToMiddle(islands[k], n) > n / 6 then init else HairpinBounds(islands, k, n, m)
  }

  /** The bounds of a read whose strands are detected: exact-run islands,
      merged, then FromIslands starting from the template-only bounds. */
  function DetectedBounds(ev: seq<RawEvent>, level: real, m: Margins): StrandBounds
  {
    FromIslands(Merged(ExactRuns(ev, level), MergeRadius(m)), |ev|, m, TemplateOnlyBounds(|ev|, m))
  }

  /** Both ranges index only events of a table of n events. */
  predicate InRead(b: StrandBounds, n: nat)
  {
    0 <= b.templateStart && b.templateEnd <= n && 0 <= b.complementStart && b.complementEnd <= n
  }

  /** The template range ends `beforeHairpin` events before the hairpin island
      starts and the complement range begins `afterHairpin` events after that
      start, so the template ends before the complement begins; every range
      lies inside the read when the islands start inside it. */
  lemma HairpinBoundsAroundHairpin(islands: seq<Island>, k: nat, n: nat, m: Margins)
    requires k < |islands|
    requires forall j :: 0 <= j < |islands| ==> islands[j].first <= n && islands[j].second <= n
    requires m.afterStart + m.beforeEnd <= n
    ensures HairpinBounds(islands, k, n, m).templateEnd + m.beforeHairpin == islands[k].first
    ensures HairpinBounds(islands, k, n, m).complementStart == islands[k].first + m.afterHairpin
    ensures HairpinBounds(islands, k, n, m).templateEnd <= HairpinBounds(islands, k, n, m).complementStart
    ensures m.afterStart <= HairpinBounds(islands, k, n, m).templateStart
    ensures HairpinBounds(islands, k, n, m).complementEnd <= n - m.beforeEnd
    ensures InRead(HairpinBounds(islands, k, n, m), n)
  {
  }

  /** Every island of the merged exact-run list lies inside the read. */
  lemma MergedRunsInRead(ev: seq<RawEvent>, level: real, radius: nat)
    ensures forall j :: 0 <= j < |Merged(ExactRuns(ev, level), radius)| ==>
      Merged(ExactRuns(ev, level), radius)[j].first <= |ev| &&
      Merged(ExactRuns(ev, level), radius)[j].second <= |ev|
  {
    var runs := ExactRuns(ev, level);
    var merged := Merged(runs, radius);
    ExactRunsAreMaximalRuns(ev, level);
    MergedProperties(runs, radius);
    forall j | 0 <= j < |merged| ensures merged[j].first <= |ev| && merged[j].second <= |ev| {
      assert merged[j].first in Firsts(merged) && merged[j].second in Seconds(merged);
      var a :| 0 <= a < |runs| && runs[a].first == merged[j].first;
      var b :| 0 <= b < |runs| && runs[b].second == merged[j].second;
    }
  }

  /** Detected bounds never index outside the event table. */
  lemma DetectedBoundsInRead(ev: seq<RawEvent>, level: real, m: Margins)
    requires m.afterStart + m.beforeEnd <= |ev|
    ensures InRead(DetectedBounds(ev, level, m), |ev|)
  {
    var merged := Merged(ExactRuns(ev, level), MergeRadius(m));
    MergedRunsInRead(ev, level, MergeRadius(m));
    if |merged| > 0 {
      HairpinBoundsAroundHairpin(merged, ClosestIsland(merged, |ev|), |ev|, m);
    }
  }

  /** When the hairpin candidate starts within `beforeHairpin` events of the
      read start, the unsigned template end wraps to a value above the read
      length while the template start stays in the read, so the template range
      looks non-empty. Here: 1000 events, one island [10, 500), all margins 50. */
  lemma TemplateEndWrapsAsWritten()
    ensures var islands := [Island(10, 500)];
      && DistToMiddle(islands[0], 1000) <= 1000 / 6
      && HairpinBoundsAsWritten(islands, 0, 1000, Margins(50, 50, 50, 50)).templateStart == 500
      && HairpinBoundsAsWritten(islands, 0, 1000, Margins(50, 50, 50, 50)).templateEnd == U32 - 40
      && HairpinBounds(islands, 0, 1000, Margins(50, 50, 50, 50)).templateEnd == -40
  {
  }

  /** Without wrap-around the same input yields an empty template range, which
      rejects the read. */
  lemma TemplateEndCorrected(islands: seq<Island>, k: nat, n: nat, m: Margins)
    requires k < |islands| && islands[k].first < m.beforeHairpin
    ensures HairpinBounds(islands, k, n, m).templateEnd < 0
    ensures HairpinBounds(islands, k, n, m).templateEnd < HairpinBounds(islands, k, n, m).templateStart
  {
  }

  /** The integer bounds are the unsigned ones wherever no subtraction wraps:
      the correction concerns only the template end of line 723. */
  lemma HairpinBoundsAgreeWithoutWrap(islands: seq<Island>, k: nat, n: nat, m: Margins)
    requires k < |islands| && m.beforeHairpin <= islands[k].first
    requires n < U32 && m.beforeEnd <= n && m.afterHairpin + m.beforeEnd < U32
    requires forall j :: 0 <= j < |islands| ==> islands[j].first <= n && islands[j].second <= n
    ensures HairpinBounds(islands, k, n, m) == HairpinBoundsAsWritten(islands, k, n, m)
  {
    var last := islands[|islands| - 1];
    assert Sub32(islands[k].first, m.beforeHairpin) == islands[k].first - m.beforeHairpin;
    assert Sub32(n, m.beforeEnd) == n - m.beforeEnd;
    if n >= m.afterHairpin + m.beforeEnd {
      assert Sub64(n, (m.afterHairpin + m.beforeEnd) % U32) == n - (m.afterHairpin + m.beforeEnd);
    } else {
      assert Sub64(n, (m.afterHairpin + m.beforeEnd) % U32) == n - (m.afterHairpin + m.beforeEnd) + U64;
      assert last.second <= n;
    }
  }

  /** A read of 150 events with a hairpin island [70, 80) and margins
      (0, 0, 0, 200) is shorter than `afterHairpin + beforeEnd`: the complement
      end stays at 150 instead of moving to the last island's start, and the
      complement range [270, 150) is empty. */
  lemma ShortReadComplementEndExample()
    ensures FromIslands([Island(70, 80)], 150, Margins(0, 0, 0, 200), TemplateOnlyBounds(150, Margins(0, 0, 0, 200)))
         == StrandBounds(0, 70, 270, 150)
    ensures HairpinBoundsAsWritten([Island(70, 80)], 0, 150, Margins(0, 0, 0, 200)) == StrandBounds(0, 70, 270, 150)
  {
    assert DistToMiddle(Island(70, 80), 150) == 5;
  }

  /** One island [480, 495) in 1000 events with margins 50: it is within the
      middle third (distance 5), the template is [50, 430), and the complement
      starts 50 events after the island's START: [530, 950). */
  lemma CentralIslandExample()
    ensures FromIslands([Island(480, 495)], 1000, Margins(50, 50, 50, 50), TemplateOnlyBounds(1000, Margins(50, 50, 50, 50)))
         == StrandBounds(50, 430, 530, 950)
  {
    assert DistToMiddle(Island(480, 495), 1000) == 5;
  }

  /** An island at the very start is outside the middle third: the read stays
      template-only. */
  lemma EdgeIslandExample()
    ensures FromIslands([Island(0, 10)], 1000, Margins(50, 50, 50, 50), TemplateOnlyBounds(1000, Margins(50, 50, 50, 50)))
         == StrandBounds(50, 950, 0, 0)
  {
    assert DistToMiddle(Island(0, 10), 1000) == 490;
  }

  /** A leading island [0, 8) lies within the start margins, but the template
      start is the larger of the margin and the island's end, so it stays 50. */
  lemma LeadingIslandExample()
    ensures HairpinBounds([Island(0, 8), Island(480, 495)], 1, 1000, Margins(50, 50, 50, 50)).templateStart == 50
  {
  }
}
