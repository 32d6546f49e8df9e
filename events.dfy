/** Event-detection events as read from a read's file, the calibrated events of
    one strand, and the filter that turns a range of the former into the latter. */
module Events {

  /** One row of the event-detection table: mean current, its standard
      deviation, and start and length in device ticks. */
  datatype RawEvent = RawEvent(mean: real, stdv: real, start: int, length: int)

  /** A calibrated event of one strand; start and length are in seconds. */
  datatype Event = Event(mean: real, correctedMean: real, stdv: real, start: real, length: real)

  /** The row a resized event table is padded with (all fields zero). */
  const ZeroEvent: RawEvent := RawEvent(0.0, 0.0, 0, 0)

  /** The largest standard deviation an event may have and still be kept. */
  const MaxStdv: real := 4.0

  /** An event at or above the abasic level: open pore, no strand in it. */
  predicate IsHigh(e: RawEvent, level: real)
  {
    e.mean >= level
  }

  /** The means of an event table, in table order. */
  function Means(ev: seq<RawEvent>): (m: seq<real>)
    ensures |m| == |ev|
    ensures forall i :: 0 <= i < |ev| ==> m[i] == ev[i].mean
  {
    seq(|ev|, i requires 0 <= i < |ev| => ev[i].mean)
  }

  /** Whether an event is kept for a strand: it must lie strictly below the
      abasic level and must not be noisier than MaxStdv. */
  function FilterEdEvent(e: RawEvent, level: real): (keep: bool)
    ensures keep <==> !IsHigh(e, level) && e.stdv <= MaxStdv
  {
    if e.mean >= level then false
    else if e.stdv > MaxStdv then false
    else true
  }

  /** A kept event in physical units: its start is taken relative to the start
      tick `origin`, and both times are divided by the sampling rate. */
  function Calibrate(e: RawEvent, origin: int, rate: real): (c: Event)
    requires rate != 0.0
    ensures c.mean == e.mean && c.correctedMean == e.mean && c.stdv == e.stdv
  {
    Event(e.mean, e.mean, e.stdv, (e.start - origin) as real / rate, e.length as real / rate)
  }

  /** A calibrated event's start and length, in seconds, are its sample
      offset from the origin and its sample length divided by the rate. */
  lemma CalibrateRescales(e: RawEvent, origin: int, rate: real)
    requires rate != 0.0
    ensures Calibrate(e, origin, rate).start * rate == (e.start - origin) as real
    ensures Calibrate(e, origin, rate).length * rate == e.length as real
  {
  }

  /** The positions in `s` of the events FilterEdEvent keeps, in increasing order. */
  function KeptIndices(s: seq<RawEvent>, level: real): seq<nat>
  {
    if s == [] then []
    else
      var front := KeptIndices(s[..|s| - 1], level);
      if FilterEdEvent(s[|s| - 1], level) then front + [|s| - 1] else front
  }

  /** The calibrated events of `s` that FilterEdEvent keeps, in their order. */
  function Filtered(s: seq<RawEvent>, level: real, origin: int, rate: real): seq<Event>
    requires rate != 0.0
  {
    if s == [] then []
    else
      var front := Filtered(s[..|s| - 1], level, origin, rate);
      if FilterEdEvent(s[|s| - 1], level) then front + [Calibrate(s[|s| - 1], origin, rate)] else front
  }

  /** KeptIndices lists exactly the kept positions, each once, in increasing order. */
  lemma {:induction false} KeptIndicesExact(s: seq<RawEvent>, level: real)
    ensures |KeptIndices(s, level)| <= |s|
    ensures forall k :: 0 <= k < |KeptIndices(s, level)| ==> KeptIndices(s, level)[k] < |s|
    ensures forall k, l :: 0 <= k < l < |KeptIndices(s, level)| ==>
      KeptIndices(s, level)[k] < KeptIndices(s, level)[l]
    ensures forall j :: 0 <= j < |s| ==> (j in KeptIndices(s, level) <==> FilterEdEvent(s[j], level))
  {
    if s != [] {
      var front := s[..|s| - 1];
      KeptIndicesExact(front, level);
      assert forall j :: 0 <= j < |s| - 1 ==> front[j] == s[j];
    }
  }

  /** Filtered is the order-preserving subsequence of kept events: its k-th
      element is the calibration of the event at the k-th kept position. */
  lemma {:induction false} FilteredIsKeptSubsequence(s: seq<RawEvent>, level: real, origin: int, rate: real)
    requires rate != 0.0
    ensures |Filtered(s, level, origin, rate)| == |KeptIndices(s, level)|
    ensures forall k :: 0 <= k < |KeptIndices(s, level)| ==>
      KeptIndices(s, level)[k] < |s| &&
      Filtered(s, level, origin, rate)[k] == Calibrate(s[KeptIndices(s, level)[k]], origin, rate)
  {
    KeptIndicesExact(s, level);
    if s != [] {
      var front := s[..|s| - 1];
      FilteredIsKeptSubsequence(front, level, origin, rate);
      KeptIndicesExact(front, level);
      assert forall j :: 0 <= j < |s| - 1 ==> front[j] == s[j];
    }
  }

  /** Every loaded event lies below the abasic level and is no noisier than MaxStdv. */
  lemma FilteredEventsAreQuiet(s: seq<RawEvent>, level: real, origin: int, rate: real)
    requires rate != 0.0
    ensures forall e :: e in Filtered(s, level, origin, rate) ==> e.mean < level && e.stdv <= MaxStdv
  {
    var r := Filtered(s, level, origin, rate);
    var idx := KeptIndices(s, level);
    FilteredIsKeptSubsequence(s, level, origin, rate);
    KeptIndicesExact(s, level);
    forall e | e in r ensures e.mean < level && e.stdv <= MaxStdv {
      var k :| 0 <= k < |r| && r[k] == e;
      assert idx[k] in idx;
    }
  }

  /** `e` is the calibration of an event of raw[lo..hi] that FilterEdEvent keeps. */
  ghost predicate KeptFrom(e: Event, raw: seq<RawEvent>, lo: nat, hi: nat, level: real, origin: int, rate: real)
    requires hi <= |raw| && rate != 0.0
  {
    exists j :: lo <= j < hi && FilterEdEvent(raw[j], level) && e == Calibrate(raw[j], origin, rate)
  }

  /** The events loaded from a range of the table are no more than the range
      holds, and each is the calibration of a kept event of the range. */
  lemma FilteredFromRange(raw: seq<RawEvent>, lo: nat, hi: nat, level: real, origin: int, rate: real)
    requires lo <= hi <= |raw| && rate != 0.0
    ensures |Filtered(raw[lo..hi], level, origin, rate)| <= hi - lo
    ensures forall k :: 0 <= k < |Filtered(raw[lo..hi], level, origin, rate)| ==>
      KeptFrom(Filtered(raw[lo..hi], level, origin, rate)[k], raw, lo, hi, level, origin, rate)
  {
    var s := raw[lo..hi];
    var r := Filtered(s, level, origin, rate);
    var idx := KeptIndices(s, level);
    FilteredIsKeptSubsequence(s, level, origin, rate);
    KeptIndicesExact(s, level);
    forall k | 0 <= k < |r| ensures KeptFrom(r[k], raw, lo, hi, level, origin, rate) {
      var j := lo + idx[k];
      assert idx[k] in idx && s[idx[k]] == raw[j];
      assert lo <= j < hi && FilterEdEvent(raw[j], level) && r[k] == Calibrate(raw[j], origin, rate);
    }
  }

  /** The means of calibrated events, the values their statistics are taken
      over (lines 225-230, 256-258). The source reads `mean` from two record
      types, the raw table entry and the loaded event; `Means` is the first and
      this the second, since Dafny's datatypes share no field accessor. */
  function EventMeans(es: seq<Event>): (m: seq<real>)
    ensures |m| == |es|
    ensures forall i :: 0 <= i < |es| ==> m[i] == es[i].mean
  {
    seq(|es|, i requires 0 <= i < |es| => es[i].mean)
  }

  /** `std::vector::resize`: cut to `n` rows, or pad with zero rows up to `n`. */
  function Resize(s: seq<RawEvent>, n: nat): (r: seq<RawEvent>)
    ensures |r| == n
    ensures forall i :: 0 <= i < n && i < |s| ==> r[i] == s[i]
    ensures forall i :: |s| <= i < n ==> r[i] == ZeroEvent
  {
    if n <= |s| then s[..n] else s + seq(n - |s|, _ => ZeroEvent)
  }

  /** The strand-building loop: walk the raw events in [lo, hi), keep the ones
      FilterEdEvent accepts and append their calibrations. */
  method LoadStrand(raw: seq<RawEvent>, lo: nat, hi: nat, level: real, origin: int, rate: real)
    returns (out: seq<Event>)
    requires lo <= hi <= |raw| && rate != 0.0
    ensures out == Filtered(raw[lo..hi], level, origin, rate)
    ensures |out| <= hi - lo
  {
    out := [];
    var j := lo;
    while j < hi
      invariant lo <= j <= hi
      invariant out == Filtered(raw[lo..j], level, origin, rate)
    {
      assert raw[lo..j + 1][..j - lo] == raw[lo..j];
      if FilterEdEvent(raw[j], level) {
        out := out + [Calibrate(raw[j], origin, rate)];
      }
      j := j + 1;
    }
    assert raw[lo..j] == raw[lo..hi];
    FilteredIsKeptSubsequence(raw[lo..hi], level, origin, rate);
    KeptIndicesExact(raw[lo..hi], level);
  }
}
