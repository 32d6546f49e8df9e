/** The strands of a read once loaded: their events, calibrated against the
    strand's time origin, their durations, and the scalings they add. */
module Loading {
  import opened Events
  import opened Strands
  import opened Scaling

  /** The time origin of strand st: the first raw event of the template
      range when both strands are scaled together, else of its own range. */
  function StrandOrigin(table: seq<RawEvent>, b: StrandBounds, st: nat, together: bool): int
    requires st < 2 && InRead(b, |table|) && b.Start(st) < b.End(st)
    requires together ==> b.templateStart < b.templateEnd
  {
    table[if together then b.templateStart else b.Start(st)].start
  }

  /** The events of strand st: the kept events of its range, calibrated
      against the strand's time origin. */
  function StrandEvents(table: seq<RawEvent>, b: StrandBounds, st: nat, together: bool, level: real, rate: real): seq<Event>
    requires st < 2 && InRead(b, |table|) && rate != 0.0
    requires together ==> b.templateStart < b.templateEnd
  {
    if b.Start(st) < b.End(st) then Filtered(table[b.Start(st)..b.End(st)], level, StrandOrigin(table, b, st, together), rate)
    else []
  }

  /** Every event of a strand is the calibration of a kept raw event of its
      range, and there are no more of them than the range holds; in order,
      they are exactly the calibrations of the events the filter keeps. */
  lemma StrandEventsComeFromRange(table: seq<RawEvent>, b: StrandBounds, st: nat, together: bool, level: real, rate: real)
    requires st < 2 && InRead(b, |table|) && rate != 0.0
    requires together ==> b.templateStart < b.templateEnd
    ensures b.Start(st) >= b.End(st) ==> StrandEvents(table, b, st, together, level, rate) == []
    ensures b.Start(st) < b.End(st) ==>
      && |StrandEvents(table, b, st, together, level, rate)| <= b.End(st) - b.Start(st)
      && forall k :: 0 <= k < |StrandEvents(table, b, st, together, level, rate)| ==>
           KeptFrom(StrandEvents(table, b, st, together, level, rate)[k], table, b.Start(st), b.End(st),
                    level, StrandOrigin(table, b, st, together), rate)
    ensures b.Start(st) < b.End(st) ==>
      var kept := KeptIndices(table[b.Start(st)..b.End(st)], level);
      && |StrandEvents(table, b, st, together, level, rate)| == |kept|
      && forall k :: 0 <= k < |kept| ==>
           && b.Start(st) + kept[k] < b.End(st)
           && StrandEvents(table, b, st, together, level, rate)[k]
              == Calibrate(table[b.Start(st) + kept[k]], StrandOrigin(table, b, st, together), rate)
  {
    if b.Start(st) < b.End(st) {
      var lo, hi := b.Start(st), b.End(st);
      FilteredFromRange(table, lo, hi, level, StrandOrigin(table, b, st, together), rate);
      FilteredIsKeptSubsequence(table[lo..hi], level, StrandOrigin(table, b, st, together), rate);
      assert forall i :: 0 <= i < hi - lo ==> table[lo..hi][i] == table[lo + i];
    }
  }

  /** The duration of a strand: the end of its last event, or 0 for a strand
      with fewer than minEvents events. */
  function TimeLength(es: seq<Event>, minEvents: nat): real
    requires minEvents >= 1
  {
    if |es| < minEvents then 0.0 else es[|es| - 1].start + es[|es| - 1].length
  }

  /** The per-strand scalings of a strand with enough events. */
  function StrandScalings(es: seq<Event>, st: nat, models: map<string, PoreModel>, minEvents: nat,
                          stats: seq<real> -> Stats): map<ModelKey, ScaleParams>
    requires st < 2 && Usable(models)
  {
    if |es| < minEvents then map[] else IndependentCandidates(stats(EventMeans(es)), st, models)
  }

  /** The per-strand scalings of both strands added to `pm`, template first. */
  function PerStrandScalings(pm: map<ModelKey, ScaleParams>, e0: seq<Event>, e1: seq<Event>, models: map<string, PoreModel>,
                             minEvents: nat, stats: seq<real> -> Stats): map<ModelKey, ScaleParams>
    requires Usable(models)
  {
    pm + StrandScalings(e0, 0, models, minEvents, stats) + StrandScalings(e1, 1, models, minEvents, stats)
  }

  function PerStrandKeys(keys: set<ModelKey>, e0: seq<Event>, e1: seq<Event>, models: map<string, PoreModel>,
                         minEvents: nat, stats: seq<real> -> Stats): set<ModelKey>
    requires Usable(models)
  {
    keys + StrandScalings(e0, 0, models, minEvents, stats).Keys + StrandScalings(e1, 1, models, minEvents, stats).Keys
  }

  /** The state the strands of `table` leave once loaded with bounds `b`,
      abasic level `level` and sampling rate `rate`: the time length `tl` of
      each strand, and the scalings `pm'` and keys `keys'` that extend `pm` and
      `keys`, jointly when `together`, else per strand. */
  ghost predicate Loaded(table: seq<RawEvent>, b: StrandBounds, together: bool, level: real, rate: real, tl: seq<real>,
                         pm': map<ModelKey, ScaleParams>, keys': set<ModelKey>,
                         pm: map<ModelKey, ScaleParams>, keys: set<ModelKey>,
                         models: map<string, PoreModel>, stats: seq<real> -> Stats, minEvents: nat)
  {
    && minEvents >= 1 && Usable(models) && rate != 0.0
    && InRead(b, |table|)
    && (together ==> b.templateStart < b.templateEnd)
    && var e0 := StrandEvents(table, b, 0, together, level, rate);
       var e1 := StrandEvents(table, b, 1, together, level, rate);
       && tl == [TimeLength(e0, minEvents), TimeLength(e1, minEvents)]
       && (together ==>
             && JointAdded(pm', pm, stats(EventMeans(e0)), stats(EventMeans(e1)), models, models.Keys)
             && JointKeysAdded(keys', keys, models, models.Keys))
       && (!together ==>
             && pm' == PerStrandScalings(pm, e0, e1, models, minEvents, stats)
             && keys' == PerStrandKeys(keys, e0, e1, models, minEvents, stats))
  }
}
