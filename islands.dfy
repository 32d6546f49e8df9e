/** The island finders: runs of high (open-pore) events in a read's event table.
    An event is high when its mean is at or above the abasic level. */
module Islands {
  import opened Events

  /** A run of high events. The exact-run finder reports half-open ranges
      [first, second); the windowed finders report inclusive ranges [first, second]. */
  datatype Island = Island(first: nat, second: nat)

  /** The shortest run the exact-run finder reports. */
  const MinRunLength: nat := 5

  predicate AllHigh(ev: seq<RawEvent>, level: real, i: nat, j: nat)
    requires i <= j <= |ev|
  {
    forall k :: i <= k < j ==> IsHigh(ev[k], level)
  }

  /** [i, j) is a non-empty run of high events that cannot be extended either way. */
  predicate IsMaximalRun(ev: seq<RawEvent>, level: real, i: nat, j: nat)
  {
    && i < j <= |ev|
    && AllHigh(ev, level, i, j)
    && (i == 0 || !IsHigh(ev[i - 1], level))
    && (j == |ev| || !IsHigh(ev[j], level))
  }

  /** Each island starts after the previous one ends. */
  predicate StrictlyOrdered(islands: seq<Island>)
  {
    forall k :: 0 < k < |islands| ==> islands[k - 1].second < islands[k].first
  }

  /** Every island is a maximal run of at least MinRunLength high events. */
  predicate IsRunList(ev: seq<RawEvent>, level: real, islands: seq<Island>)
  {
    forall k :: 0 <= k < |islands| ==>
      IsMaximalRun(ev, level, islands[k].first, islands[k].second) &&
      islands[k].second - islands[k].first >= MinRunLength
  }

  predicate StartsFrom(islands: seq<Island>, i: nat)
  {
    forall k :: 0 <= k < |islands| ==> i <= islands[k].first
  }

  /** The first position at or after j that holds no high event, or |ev|. */
  function RunEnd(ev: seq<RawEvent>, level: real, j: nat): (e: nat)
    requires j <= |ev|
    ensures j <= e <= |ev| && AllHigh(ev, level, j, e)
    ensures e == |ev| || !IsHigh(ev[e], level)
    decreases |ev| - j
  {
    if j == |ev| || !IsHigh(ev[j], level) then j else RunEnd(ev, level, j + 1)
  }

  lemma {:induction false} RunEndIsUnique(ev: seq<RawEvent>, level: real, j: nat, e: nat)
    requires j <= e <= |ev| && AllHigh(ev, level, j, e)
    requires e == |ev| || !IsHigh(ev[e], level)
    ensures RunEnd(ev, level, j) == e
    decreases e - j
  {
    if j < e {
      RunEndIsUnique(ev, level, j + 1, e);
    }
  }

  /** The islands the exact-run scan reports from position i on. */
  function RunsFrom(ev: seq<RawEvent>, level: real, i: nat): seq<Island>
    requires i <= |ev| + 1
    decreases |ev| + 1 - i
  {
    if i >= |ev| then []
    else if IsHigh(ev[i], level) then
      var j := RunEnd(ev, level, i + 1);
      (if j - i >= MinRunLength then [Island(i, j)] else []) + RunsFrom(ev, level, j + 1)
    else RunsFrom(ev, level, i + 1)
  }

  /** What `find_islands_5_consec` returns for a whole event table. */
  function ExactRuns(ev: seq<RawEvent>, level: real): seq<Island>
  {
    RunsFrom(ev, level, 0)
  }

  /** A run in front of later runs keeps the list a run list, ordered. */
  lemma ConsRunList(ev: seq<RawEvent>, level: real, p: Island, rest: seq<Island>)
    requires IsMaximalRun(ev, level, p.first, p.second) && p.second - p.first >= MinRunLength
    requires IsRunList(ev, level, rest) && StrictlyOrdered(rest) && StartsFrom(rest, p.second + 1)
    ensures IsRunList(ev, level, [p] + rest) && StrictlyOrdered([p] + rest) && StartsFrom([p] + rest, p.first)
  {
    var r := [p] + rest;
    assert r[0] == p;
    assert forall k :: 0 < k < |r| ==> r[k] == rest[k - 1];
  }

  lemma {:induction false} RunsFromSound(ev: seq<RawEvent>, level: real, i: nat)
    requires i <= |ev| + 1
    requires i == 0 || i > |ev| || !IsHigh(ev[i - 1], level)
    ensures IsRunList(ev, level, RunsFrom(ev, level, i))
    ensures StrictlyOrdered(RunsFrom(ev, level, i))
    ensures StartsFrom(RunsFrom(ev, level, i), i)
    decreases |ev| + 1 - i
  {
    if i < |ev| {
      if IsHigh(ev[i], level) {
        var j := RunEnd(ev, level, i + 1);
        RunsFromSound(ev, level, j + 1);
        var rest := RunsFrom(ev, level, j + 1);
        if j - i >= MinRunLength {
          assert AllHigh(ev, level, i, j);
          assert IsMaximalRun(ev, level, i, j);
          ConsRunList(ev, level, Island(i, j), rest);
          assert RunsFrom(ev, level, i) == [Island(i, j)] + rest;
        } else {
          assert RunsFrom(ev, level, i) == [] + rest;
        }
      } else {
        RunsFromSound(ev, level, i + 1);
      }
    }
  }

  lemma {:induction false} RunsFromComplete(ev: seq<RawEvent>, level: real, i: nat, a: nat, b: nat)
    requires i <= |ev| + 1
    requires i <= a && IsMaximalRun(ev, level, a, b) && b - a >= MinRunLength
    ensures Island(a, b) in RunsFrom(ev, level, i)
    decreases |ev| + 1 - i
  {
    assert IsHigh(ev[a], level);
    if IsHigh(ev[i], level) {
      var j := RunEnd(ev, level, i + 1);
      if a == i {
        RunEndIsUnique(ev, level, i + 1, b);
      } else {
        assert !IsHigh(ev[a - 1], level);
        assert j <= a - 1;
        RunsFromComplete(ev, level, j + 1, a, b);
      }
    } else {
      RunsFromComplete(ev, level, i + 1, a, b);
    }
  }

  /** The exact-run islands are precisely the maximal runs of at least
      MinRunLength high events, in increasing order. */
  lemma ExactRunsAreMaximalRuns(ev: seq<RawEvent>, level: real)
    ensures IsRunList(ev, level, ExactRuns(ev, level))
    ensures StrictlyOrdered(ExactRuns(ev, level))
    ensures forall a: nat, b: nat :: IsMaximalRun(ev, level, a, b) && b - a >= MinRunLength ==>
      Island(a, b) in ExactRuns(ev, level)
  {
    RunsFromSound(ev, level, 0);
    forall a: nat, b: nat | IsMaximalRun(ev, level, a, b) && b - a >= MinRunLength
      ensures Island(a, b) in ExactRuns(ev, level)
    {
      RunsFromComplete(ev, level, 0, a, b);
    }
  }

  /** `find_islands_5_consec`: scan the table; at each high event extend the run
      as far as it goes, report it if it holds at least MinRunLength events, and
      resume one past its end. */
  method FindIslands5Consec(ev: seq<RawEvent>, level: real) returns (islands: seq<Island>)
    ensures islands == ExactRuns(ev, level)
    ensures IsRunList(ev, level, islands) && StrictlyOrdered(islands)
    ensures forall a: nat, b: nat :: IsMaximalRun(ev, level, a, b) && b - a >= MinRunLength ==> Island(a, b) in islands
  {
    islands := [];
    var i := 0;
    while i < |ev|
      invariant i <= |ev| + 1
      invariant islands + RunsFrom(ev, level, i) == ExactRuns(ev, level)
      decreases |ev| + 1 - i
    {
      if IsHigh(ev[i], level) {
        var j := i + 1;
        while j < |ev| && IsHigh(ev[j], level)
          invariant i + 1 <= j <= |ev|
          invariant RunEnd(ev, level, j) == RunEnd(ev, level, i + 1)
        {
          j := j + 1;
        }
        if j - i >= MinRunLength {
          islands := islands + [Island(i, j)];
        }
        i := j + 1;
      } else {
        i := i + 1;
      }
    }
    ExactRunsAreMaximalRuns(ev, level);
  }

  /** The number of high events in [a, b). */
  function CountHigh(ev: seq<RawEvent>, level: real, a: nat, b: nat): nat
    requires a <= b <= |ev|
    decreases b - a
  {
    if a == b then 0 else (if IsHigh(ev[a], level) then 1 else 0) + CountHigh(ev, level, a + 1, b)
  }

  lemma {:induction false} CountHighSplit(ev: seq<RawEvent>, level: real, a: nat, m: nat, b: nat)
    requires a <= m <= b <= |ev|
    ensures CountHigh(ev, level, a, b) == CountHigh(ev, level, a, m) + CountHigh(ev, level, m, b)
    decreases m - a
  {
    if a < m {
      CountHighSplit(ev, level, a + 1, m, b);
    }
  }

  lemma {:induction false} CountHighNone(ev: seq<RawEvent>, level: real, a: nat, b: nat)
    requires a <= b <= |ev|
    requires forall k :: a <= k < b ==> !IsHigh(ev[k], level)
    ensures CountHigh(ev, level, a, b) == 0
    decreases b - a
  {
    if a < b {
      CountHighNone(ev, level, a + 1, b);
    }
  }

  /** A windowed island (inclusive range): it spans fewer than `windowSize`
      events, starts and ends on high events and holds at least `windowLoad`
      high events (exactly `windowLoad` when that is positive). */
  predicate IsWindowIsland(ev: seq<RawEvent>, level: real, windowSize: nat, windowLoad: nat, p: Island)
  {
    && p.first <= p.second < |ev|
    && p.second < p.first + windowSize
    && IsHigh(ev[p.first], level) && IsHigh(ev[p.second], level)
    && CountHigh(ev, level, p.first, p.second + 1) >= windowLoad
    && (windowLoad >= 1 ==> CountHigh(ev, level, p.first, p.second + 1) == windowLoad)
  }

  /** Some island ends at a position in [a, b). */
  ghost predicate EndsIn(islands: seq<Island>, a: nat, b: nat)
  {
    exists k :: 0 <= k < |islands| && a <= islands[k].second < b
  }

  /** No window of at most `windowSize` events holding `windowLoad` high events
      is passed over without an island ending inside it. */
  ghost predicate NoWindowMissed(ev: seq<RawEvent>, level: real, windowSize: nat, windowLoad: nat, islands: seq<Island>)
  {
    CompleteUpTo(ev, level, windowSize, windowLoad, islands, |ev|)
  }

  ghost predicate IsWindowedIslandList(ev: seq<RawEvent>, level: real, windowSize: nat, windowLoad: nat, islands: seq<Island>)
  {
    && (forall k :: 0 <= k < |islands| ==> IsWindowIsland(ev, level, windowSize, windowLoad, islands[k]))
    && StrictlyOrdered(islands)
    && NoWindowMissed(ev, level, windowSize, windowLoad, islands)
  }

  lemma EndsInAppend(islands: seq<Island>, p: Island, a: nat, b: nat)
    requires EndsIn(islands, a, b)
    ensures EndsIn(islands + [p], a, b)
  {
    var k :| 0 <= k < |islands| && a <= islands[k].second < b;
    assert (islands + [p])[k] == islands[k];
  }

  /** Every window of at most `windowSize` events that ends by position i and
      holds `windowLoad` high events has an island ending inside it. */
  ghost predicate CompleteUpTo(ev: seq<RawEvent>, level: real, windowSize: nat, windowLoad: nat, islands: seq<Island>, i: nat)
    requires i <= |ev|
  {
    windowLoad >= 1 ==>
      forall a: nat, b: nat :: a < b <= i && b - a <= windowSize && CountHigh(ev, level, a, b) >= windowLoad ==>
        EndsIn(islands, a, b)
  }

  /** The islands found so far are windowed islands, ordered, all ending before
      `reset`, the last one just before it. */
  ghost predicate FoundBefore(ev: seq<RawEvent>, level: real, windowSize: nat, windowLoad: nat, islands: seq<Island>, reset: nat)
  {
    && (forall k :: 0 <= k < |islands| ==>
         IsWindowIsland(ev, level, windowSize, windowLoad, islands[k]) && islands[k].second < reset)
    && StrictlyOrdered(islands)
    && (reset > 0 ==> |islands| > 0 && islands[|islands| - 1].second == reset - 1)
  }

  /** Every high event in [reset, ws) left the window before position i. */
  ghost predicate SkippedBefore(ev: seq<RawEvent>, level: real, windowSize: nat, reset: nat, ws: nat, i: nat)
    requires ws <= |ev|
  {
    forall k :: reset <= k < ws && IsHigh(ev[k], level) ==> k + windowSize <= i
  }

  lemma LowEventKeepsComplete(ev: seq<RawEvent>, level: real, windowSize: nat, windowLoad: nat, islands: seq<Island>, i: nat)
    requires i < |ev| && !IsHigh(ev[i], level)
    requires CompleteUpTo(ev, level, windowSize, windowLoad, islands, i)
    ensures CompleteUpTo(ev, level, windowSize, windowLoad, islands, i + 1)
  {
    var next := i + 1;
    forall a: nat, b: nat | windowLoad >= 1 && a < b <= next && b - a <= windowSize && CountHigh(ev, level, a, b) >= windowLoad
      ensures EndsIn(islands, a, b)
    {
      if b == next {
        CountHighSplit(ev, level, a, i, next);
        assert CountHigh(ev, level, a, i) >= windowLoad;
        var k :| 0 <= k < |islands| && a <= islands[k].second < i;
      }
    }
  }

  lemma PushKeepsComplete(ev: seq<RawEvent>, level: real, windowSize: nat, windowLoad: nat, islands: seq<Island>, p: Island, i: nat)
    requires i < |ev| && p.second == i
    requires CompleteUpTo(ev, level, windowSize, windowLoad, islands, i)
    ensures CompleteUpTo(ev, level, windowSize, windowLoad, islands + [p], i + 1)
  {
    var next := i + 1;
    assert (islands + [p])[|islands|] == p;
    forall a: nat, b: nat | windowLoad >= 1 && a < b <= next && b - a <= windowSize && CountHigh(ev, level, a, b) >= windowLoad
      ensures EndsIn(islands + [p], a, b)
    {
      if b < next {
        EndsInAppend(islands, p, a, b);
      } else {
        assert a <= (islands + [p])[|islands|].second < b;
      }
    }
  }

  /** When the count of the current window [ws, i] stays below `windowLoad`, no
      window ending at i reaches the load either, except one that reaches back
      before the last reset, where the last island ends. */
  lemma NoPushKeepsComplete(ev: seq<RawEvent>, level: real, windowSize: nat, windowLoad: nat,
                            islands: seq<Island>, reset: nat, ws: nat, i: nat)
    requires reset <= ws <= i < |ev|
    requires CountHigh(ev, level, ws, i + 1) < windowLoad
    requires SkippedBefore(ev, level, windowSize, reset, ws, i)
    requires FoundBefore(ev, level, windowSize, windowLoad, islands, reset)
    requires CompleteUpTo(ev, level, windowSize, windowLoad, islands, i)
    ensures CompleteUpTo(ev, level, windowSize, windowLoad, islands, i + 1)
  {
    var next := i + 1;
    forall a: nat, b: nat | windowLoad >= 1 && a < b <= next && b - a <= windowSize && CountHigh(ev, level, a, b) >= windowLoad
      ensures EndsIn(islands, a, b)
    {
      if b == next {
        if a < reset {
          assert a <= islands[|islands| - 1].second < next;
        } else if a < ws {
          CountHighNone(ev, level, a, ws);
          CountHighSplit(ev, level, a, ws, next);
        } else {
          CountHighSplit(ev, level, ws, a, next);
        }
      }
    }
  }

  /** Reporting the window [ws, i] when its count reaches the load keeps the
      found islands windowed and ordered, the new one ending just before the
      next reset point i + 1. */
  lemma PushKeepsFound(ev: seq<RawEvent>, level: real, windowSize: nat, windowLoad: nat,
                       islands: seq<Island>, reset: nat, ws: nat, i: nat)
    requires reset <= ws <= i < |ev| && i < ws + windowSize
    requires IsHigh(ev[ws], level) && IsHigh(ev[i], level)
    requires CountHigh(ev, level, ws, i + 1) >= windowLoad
    requires windowLoad >= 1 ==> CountHigh(ev, level, ws, i + 1) == windowLoad
    requires FoundBefore(ev, level, windowSize, windowLoad, islands, reset)
    ensures FoundBefore(ev, level, windowSize, windowLoad, islands + [Island(ws, i)], i + 1)
  {
    var p := Island(ws, i);
    var r := islands + [p];
    assert IsWindowIsland(ev, level, windowSize, windowLoad, p);
    assert r[|islands|] == p;
    forall k | 0 <= k < |r| ensures IsWindowIsland(ev, level, windowSize, windowLoad, r[k]) && r[k].second < i + 1 {
      if k < |islands| {
        assert r[k] == islands[k];
      }
    }
    forall k | 0 < k < |r| ensures r[k - 1].second < r[k].first {
      if k < |islands| {
        assert r[k - 1] == islands[k - 1] && r[k] == islands[k];
      }
    }
  }

  /** The two inner loops at a high event i: drop the events that fall out of a
      window of `windowSize` ending at i, then skip leading low events. */
  method SlideWindow(ev: seq<RawEvent>, level: real, windowSize: nat, windowLoad: nat,
                     i: nat, windowStart: nat, windowCount: nat, ghost reset: nat)
    returns (ws: nat, wc: nat)
    requires windowSize >= 1 && i < |ev| && IsHigh(ev[i], level)
    requires reset <= windowStart <= i && windowCount == CountHigh(ev, level, windowStart, i)
    requires windowLoad >= 1 ==> windowCount < windowLoad
    requires SkippedBefore(ev, level, windowSize, reset, windowStart, i)
    ensures reset <= ws <= i < ws + windowSize && IsHigh(ev[ws], level)
    ensures wc == CountHigh(ev, level, ws, i) && (windowLoad >= 1 ==> wc < windowLoad)
    ensures SkippedBefore(ev, level, windowSize, reset, ws, i)
  {
    ws, wc := windowStart, windowCount;
    while ws + windowSize <= i
      invariant reset <= ws <= i
      invariant wc == CountHigh(ev, level, ws, i)
      invariant windowLoad >= 1 ==> wc < windowLoad
      invariant SkippedBefore(ev, level, windowSize, reset, ws, i)
    {
      if IsHigh(ev[ws], level) {
        wc := wc - 1;
      }
      ws := ws + 1;
    }
    while ws < i && !IsHigh(ev[ws], level)
      invariant reset <= ws <= i < ws + windowSize
      invariant wc == CountHigh(ev, level, ws, i)
      invariant SkippedBefore(ev, level, windowSize, reset, ws, i)
    {
      ws := ws + 1;
    }
  }

  /** `find_hairpin_islands`: slide a window over the table, counting the high
      events in it; when the count reaches `windowLoad`, report the window from
      its start to the current event and restart after it. */
  method FindHairpinIslands(ev: seq<RawEvent>, level: real, windowSize: nat, windowLoad: nat)
    returns (islands: seq<Island>)
    requires windowSize >= 1
    ensures IsWindowedIslandList(ev, level, windowSize, windowLoad, islands)
  {
    islands := [];
    var i, windowStart, windowCount := 0, 0, 0;
    ghost var reset := 0;
    while i < |ev|
      invariant reset <= windowStart <= i <= |ev|
      invariant windowCount == CountHigh(ev, level, windowStart, i)
      invariant windowLoad >= 1 ==> windowCount < windowLoad
      invariant i == 0 || SkippedBefore(ev, level, windowSize, reset, windowStart, i - 1)
      invariant FoundBefore(ev, level, windowSize, windowLoad, islands, reset)
      invariant CompleteUpTo(ev, level, windowSize, windowLoad, islands, i)
    {
      var next := i + 1;
      if IsHigh(ev[i], level) {
        windowStart, windowCount := SlideWindow(ev, level, windowSize, windowLoad, i, windowStart, windowCount, reset);
        CountHighSplit(ev, level, windowStart, i, next);
        windowCount := windowCount + 1;
        if windowCount >= windowLoad {
          var p := Island(windowStart, i);
          PushKeepsComplete(ev, level, windowSize, windowLoad, islands, p, i);
          PushKeepsFound(ev, level, windowSize, windowLoad, islands, reset, windowStart, i);
          islands := islands + [p];
          windowStart := next;
          windowCount := 0;
          reset := next;
        } else {
          NoPushKeepsComplete(ev, level, windowSize, windowLoad, islands, reset, windowStart, i);
        }
      } else {
        CountHighSplit(ev, level, windowStart, i, next);
        LowEventKeepsComplete(ev, level, windowSize, windowLoad, islands, i);
      }
      i := next;
    }
  }

  /** `find_islands_5_of_10_consec`: the windowed finder with a window of 10
      events and a load of 5. */
  method FindIslands5Of10Consec(ev: seq<RawEvent>, level: real) returns (islands: seq<Island>)
    ensures IsWindowedIslandList(ev, level, 10, 5, islands)
  {
    islands := FindHairpinIslands(ev, level, 10, 5);
  }
}
