/** The summary of one read: which of its event-detection events belong to
    the template and complement strands, its abasic level, its initial pore
    model scalings, and the basecall group its results will go to. */
module Summary {
  import opened Wrappers
  import opened Events
  import opened Abasic
  import opened Islands
  import opened Strands
  import opened Scaling
  import opened Names
  import opened Loading

  /** The program-wide options the summary reads. */
  datatype Config = Config(
    minEdEvents: nat,
    maxEdEvents: nat,
    topPercent: real,
    topOffset: real,
    windowSize: nat,
    windowLoad: nat,
    templateOnly: bool,
    trim: Margins)
  {
    /** A top percentage in (0, 100] keeps the abasic rank inside the table;
        at least one required event keeps the time lengths defined. */
    predicate Valid()
    {
      0.0 < topPercent <= 100.0 && minEdEvents >= 1
    }
  }

  const DefaultConfig: Config := Config(10, 100000, 1.0, 0.0, 10, 5, false, Margins(50, 50, 50, 50))

  /** The first library call on a file that raises an HDF5 error, if any. */
  datatype FailPoint = NoFailure | AtOpen | AtSamplingRate | AtEdParams | AtEdEvents | AtBasecallGroups

  /** What a fast5 file offers the summary. */
  datatype Fast5File = Fast5File(
    failAt: FailPoint,
    hasSamplingRate: bool,
    samplingRate: real,
    hasEdEvents: bool,
    edReadId: string,
    edEvents: seq<RawEvent>,
    basecallGroups: seq<string>)

  /** The number of events used: all of the table, capped at maxEdEvents. */
  function NumEvents(file: Fast5File, cfg: Config): (n: nat)
    ensures n <= |file.edEvents| && n <= cfg.maxEdEvents
    ensures n == |file.edEvents| || n == cfg.maxEdEvents
  {
    if |file.edEvents| > cfg.maxEdEvents then cfg.maxEdEvents else |file.edEvents|
  }

  /** The event table the summary works on. */
  function Table(file: Fast5File, cfg: Config): seq<RawEvent>
  {
    Resize(file.edEvents, NumEvents(file, cfg))
  }

  /** The file gets as far as reading its sampling rate. */
  predicate ReadsSamplingRate(file: Fast5File)
  {
    file.failAt != AtOpen && file.hasSamplingRate && file.failAt != AtSamplingRate
  }

  /** The file gets as far as reading the event-detection parameters. */
  predicate ReachesEdParams(file: Fast5File)
  {
    && ReadsSamplingRate(file)
    && 1000.0 <= file.samplingRate <= 10000.0
    && file.hasEdEvents
    && file.failAt != AtEdParams
  }

  /** The read id: the one in the event-detection parameters when they are
      read and it is not empty, else the base file name. */
  function ReadIdOf(fileName: string, file: Fast5File): string
  {
    if ReachesEdParams(file) && file.edReadId != "" then file.edReadId else BaseName(fileName)
  }

  datatype Reason = HdfError | NoSamplingRate | BadSamplingRate | NoEdEvents | TooFewEvents | LowAbasicLevel | NoTemplate

  /** The strand bounds every read starts from. */
  const ClearedBounds: StrandBounds := StrandBounds(0, 0, 0, 0)

  /** The screening of a read: rejected at the first gate it fails, or passed
      with its event count and whether both strands are scaled together.
      Either way it carries the abasic level and strand bounds the read is
      left with: zero until the gate that computes them is reached. */
  datatype Verdict =
    | Rejected(reason: Reason, level: real, bounds: StrandBounds)
    | Passed(numEvents: nat, level: real, bounds: StrandBounds, together: bool)

  /** The first of the file-level checks that fails before the event table is
      in memory, if any. */
  function HeaderFault(file: Fast5File): Option<Reason>
  {
    if file.failAt == AtOpen then Some(HdfError)
    else if !file.hasSamplingRate then Some(NoSamplingRate)
    else if file.failAt == AtSamplingRate then Some(HdfError)
    else if file.samplingRate < 1000.0 || file.samplingRate > 10000.0 then Some(BadSamplingRate)
    else if !file.hasEdEvents then Some(NoEdEvents)
    else if file.failAt == AtEdParams || file.failAt == AtEdEvents then Some(HdfError)
    else None
  }

  /** The strand bounds of a table with abasic level `level`: the trimmed
      read as template when only the template is wanted, else the detected
      bounds. */
  function GateBounds(table: seq<RawEvent>, level: real, cfg: Config): StrandBounds
  {
    if cfg.templateOnly then TemplateOnlyBounds(|table|, cfg.trim) else DetectedBounds(table, level, cfg.trim)
  }

  /** The gates on the event table: enough events for the margins and the
      minimum strand length, an abasic level above 1, and a non-empty
      template range. */
  function GateEvents(table: seq<RawEvent>, cfg: Config, sst: bool): Verdict
    requires cfg.Valid()
  {
    var n := |table|;
    if n < cfg.trim.afterStart + cfg.trim.beforeEnd + cfg.minEdEvents then Rejected(TooFewEvents, 0.0, ClearedBounds)
    else
      var level := AbasicLevel(Means(table), cfg.topPercent, cfg.topOffset);
      if level <= 1.0 then Rejected(LowAbasicLevel, level, ClearedBounds)
      else
        var bounds := GateBounds(table, level, cfg);
        if bounds.templateEnd <= bounds.templateStart then Rejected(NoTemplate, level, bounds)
        else Passed(n, level, bounds, ScaleTogether(sst, bounds, cfg.minEdEvents))
  }

  function Screen(file: Fast5File, cfg: Config, sst: bool): Verdict
    requires cfg.Valid()
  {
    if HeaderFault(file).Some? then Rejected(HeaderFault(file).value, 0.0, ClearedBounds) else GateEvents(Table(file, cfg), cfg, sst)
  }

  /** A table that passes the gates has enough events, an abasic level above
      1, a non-empty template range, and bounds that index only its events. */
  lemma GatePassedIsSound(table: seq<RawEvent>, cfg: Config, sst: bool)
    requires cfg.Valid()
    ensures GateEvents(table, cfg, sst).Passed? ==>
      && GateEvents(table, cfg, sst).numEvents == |table|
      && |table| >= cfg.trim.afterStart + cfg.trim.beforeEnd + cfg.minEdEvents
      && GateEvents(table, cfg, sst).level > 1.0
      && GateEvents(table, cfg, sst).bounds.templateStart < GateEvents(table, cfg, sst).bounds.templateEnd
      && InRead(GateEvents(table, cfg, sst).bounds, |table|)
  {
    if GateEvents(table, cfg, sst).Passed? && !cfg.templateOnly {
      DetectedBoundsInRead(table, AbasicLevel(Means(table), cfg.topPercent, cfg.topOffset), cfg.trim);
    }
  }

  /** A read that passes has its capped event count, a sampling rate in
      range, and the properties of a passed table. */
  lemma ScreenPassedIsSound(file: Fast5File, cfg: Config, sst: bool)
    requires cfg.Valid()
    ensures Screen(file, cfg, sst).Passed? ==>
      && HeaderFault(file).None?
      && Screen(file, cfg, sst).numEvents == NumEvents(file, cfg)
      && Screen(file, cfg, sst).numEvents >= cfg.trim.afterStart + cfg.trim.beforeEnd + cfg.minEdEvents
      && Screen(file, cfg, sst).numEvents <= cfg.maxEdEvents
      && 1000.0 <= file.samplingRate <= 10000.0
      && Screen(file, cfg, sst).level > 1.0
      && Screen(file, cfg, sst).bounds.templateStart < Screen(file, cfg, sst).bounds.templateEnd
      && InRead(Screen(file, cfg, sst).bounds, Screen(file, cfg, sst).numEvents)
  {
    GatePassedIsSound(Table(file, cfg), cfg, sst);
  }

  /** A read too short for the margins and the minimum strand length is
      rejected before its events are looked at. */
  lemma ShortReadRejected(file: Fast5File, cfg: Config, sst: bool)
    requires cfg.Valid() && ReachesEdParams(file) && file.failAt != AtEdEvents
    requires |file.edEvents| < cfg.trim.afterStart + cfg.trim.beforeEnd + cfg.minEdEvents
    ensures Screen(file, cfg, sst) == Rejected(TooFewEvents, 0.0, ClearedBounds)
  {
  }

  /** With only the template wanted, a read that passes the event and level
      gates keeps the trimmed read as its template and has no complement. */
  lemma TemplateOnlyPasses(file: Fast5File, cfg: Config, sst: bool)
    requires cfg.Valid() && cfg.templateOnly
    requires Screen(file, cfg, sst).Passed?
    ensures Screen(file, cfg, sst).bounds == StrandBounds(cfg.trim.afterStart, NumEvents(file, cfg) - cfg.trim.beforeEnd, 0, 0)
    ensures !Screen(file, cfg, sst).together
  {
  }

  class Fast5Summary {
    const cfg: Config
    var fileName: string
    var baseFileName: string
    var readId: string
    var bcGrp: string
    var pmParams: map<ModelKey, ScaleParams>
    /** The keys under which state-transition parameters exist. */
    var stParamKeys: set<ModelKey>
    var strandBounds: StrandBounds
    var timeLength: seq<real>
    var numEdEvents: nat
    var samplingRate: real
    var abasicLevel: real
    var valid: bool
    var scaleStrandsTogether: bool
    /** The event-detection table, while it is held in memory. */
    var edEvents: Option<seq<RawEvent>>
    /** The loaded events of each strand, None while dropped. */
    var events: seq<Option<seq<Event>>>

    /** The shape every summary keeps between calls: a held table has the
        summary's event count, and a read with events has a non-empty template
        range inside its table and a sampling rate in range. */
    ghost predicate Valid()
      reads this`timeLength, this`events, this`edEvents, this`numEdEvents, this`strandBounds, this`samplingRate
    {
      && cfg.Valid()
      && |timeLength| == 2
      && |events| == 2
      && (edEvents.Some? ==> |edEvents.value| == numEdEvents)
      && (numEdEvents > 0 ==>
            && InRead(strandBounds, numEdEvents)
            && strandBounds.templateStart < strandBounds.templateEnd
            && 1000.0 <= samplingRate <= 10000.0)
    }

    /** An empty summary; it is not valid until summarized. */
    constructor(cfg: Config)
      requires cfg.Valid()
      ensures Valid() && !valid && this.cfg == cfg
      ensures numEdEvents == 0 && edEvents.None? && events == [None, None]
      ensures pmParams == map[] && stParamKeys == {} && bcGrp == ""
    {
      this.cfg := cfg;
      fileName, baseFileName, readId, bcGrp := "", "", "", "";
      pmParams, stParamKeys := map[], {};
      strandBounds := StrandBounds(0, 0, 0, 0);
      timeLength := [0.0, 0.0];
      numEdEvents := 0;
      samplingRate, abasicLevel := 0.0, 0.0;
      valid, scaleStrandsTogether := false, false;
      edEvents := None;
      events := [None, None];
    }

    /** `drop_events`: release both strands' events. */
    method DropEvents()
      modifies this`events
      ensures events == [None, None]
    {
      events := [None, None];
    }

    /** `load_ed_events`: hold the table, cut to the event count; on the first
        load the count is the table size capped at maxEdEvents. */
    method LoadEdEvents(table: seq<RawEvent>)
      modifies this`edEvents, this`numEdEvents
      ensures old(numEdEvents) == 0 ==> numEdEvents == (if |table| > cfg.maxEdEvents then cfg.maxEdEvents else |table|)
      ensures old(numEdEvents) != 0 ==> numEdEvents == old(numEdEvents)
      ensures edEvents == Some(Resize(table, numEdEvents))
    {
      if numEdEvents == 0 {
        if |table| > cfg.maxEdEvents {
          numEdEvents := cfg.maxEdEvents;
        } else {
          numEdEvents := |table|;
        }
      }
      edEvents := Some(Resize(table, numEdEvents));
    }

    /** `detect_strands`: find the exact runs above the abasic level, merge
        the close ones, and take the bounds from the island nearest the middle,
        if it lies in the middle third. */
    method DetectStrands()
      requires edEvents.Some? && |edEvents.value| == numEdEvents
      modifies this`strandBounds
      ensures strandBounds
           == FromIslands(Merged(ExactRuns(edEvents.value, abasicLevel), MergeRadius(cfg.trim)), numEdEvents, cfg.trim, old(strandBounds))
    {
      var table := edEvents.value;
      var islands := FindIslands5Consec(table, abasicLevel);
      islands := MergeIslands(islands, MergeRadius(cfg.trim));
      if |islands| == 0 {
        return;
      }
      var k := ClosestIsland(islands, |table|);
      if DistToMiddle(islands[k], |table|) > |table| / 6 {
        return;
      }
      strandBounds := HairpinBounds(islands, k, |table|, cfg.trim);
    }

    /** `load_events`: rebuild both strands' events from the table, reading
        the table back from the file (given as `reopened`) when it is not held,
        and releasing it again afterwards. */
    method LoadEvents(reopened: seq<RawEvent>)
      requires Valid() && valid
      modifies this`events
      ensures Valid()
      ensures numEdEvents == 0 ==> events == [None, None]
      ensures numEdEvents > 0 ==>
        var table := if edEvents.Some? then edEvents.value else Resize(reopened, numEdEvents);
        events == [Some(StrandEvents(table, strandBounds, 0, scaleStrandsTogether, abasicLevel, samplingRate)),
                   Some(StrandEvents(table, strandBounds, 1, scaleStrandsTogether, abasicLevel, samplingRate))]
    {
      DropEvents();
      if numEdEvents == 0 {
        return;
      }
      var table := if edEvents.Some? then edEvents.value else Resize(reopened, numEdEvents);
      var loaded: seq<seq<Event>> := [];
      for st := 0 to 2
        invariant |loaded| == st
        invariant forall s :: 0 <= s < st ==>
          loaded[s] == StrandEvents(table, strandBounds, s, scaleStrandsTogether, abasicLevel, samplingRate)
      {
        var lo, hi := strandBounds.Start(st), strandBounds.End(st);
        var strand: seq<Event> := [];
        if lo < hi {
          var origin := table[if scaleStrandsTogether then strandBounds.templateStart else lo].start;
          strand := LoadStrand(table, lo, hi, abasicLevel, origin, samplingRate);
        }
        loaded := loaded + [strand];
      }
      events := [Some(loaded[0]), Some(loaded[1])];
    }

    /** The time lengths of the two loaded strands. */
    method ComputeTimeLengths()
      requires Valid() && events[0].Some? && events[1].Some?
      modifies this`timeLength
      ensures Valid()
      ensures timeLength == [if |events[0].value| < cfg.minEdEvents then old(timeLength[0]) else TimeLength(events[0].value, cfg.minEdEvents),
                             if |events[1].value| < cfg.minEdEvents then old(timeLength[1]) else TimeLength(events[1].value, cfg.minEdEvents)]
    {
      for st := 0 to 2
        invariant |timeLength| == 2
        invariant forall s :: 0 <= s < st ==>
          (timeLength[s] == if |events[s].value| < cfg.minEdEvents then old(timeLength[s]) else TimeLength(events[s].value, cfg.minEdEvents))
        invariant forall s :: st <= s < 2 ==> timeLength[s] == old(timeLength[s])
      {
        var es := events[st].value;
        if |es| < cfg.minEdEvents {
          continue;
        }
        timeLength := timeLength[st := es[|es| - 1].start + es[|es| - 1].length];
      }
    }

    /** The joint branch of the initial scalings: every model pair is scaled
        on the statistics of both strands. */
    method ScaleJointly(models: map<string, PoreModel>, stats: seq<real> -> Stats)
      requires Usable(models) && |events| == 2 && events[0].Some? && events[1].Some?
      modifies this`pmParams, this`stParamKeys
      ensures JointAdded(pmParams, old(pmParams), stats(EventMeans(events[0].value)), stats(EventMeans(events[1].value)), models, models.Keys)
      ensures JointKeysAdded(stParamKeys, old(stParamKeys), models, models.Keys)
    {
      var r0 := stats(EventMeans(events[0].value));
      var r1 := stats(EventMeans(events[1].value));
      pmParams, stParamKeys := AddJoint(pmParams, stParamKeys, r0, r1, models);
    }

    /** The per-strand branch of the initial scalings: each strand with
        enough events has every model serving it scaled on its statistics. */
    method ScaleEachStrand(models: map<string, PoreModel>, stats: seq<real> -> Stats)
      requires Usable(models) && |events| == 2 && events[0].Some? && events[1].Some?
      modifies this`pmParams, this`stParamKeys
      ensures pmParams == PerStrandScalings(old(pmParams), events[0].value, events[1].value, models, cfg.minEdEvents, stats)
      ensures stParamKeys == PerStrandKeys(old(stParamKeys), events[0].value, events[1].value, models, cfg.minEdEvents, stats)
    {
      var e0, e1 := events[0].value, events[1].value;
      if |e0| >= cfg.minEdEvents {
        pmParams, stParamKeys := AddIndependent(pmParams, stParamKeys, stats(EventMeans(e0)), 0, models);
      } else {
        assert pmParams + map[] == pmParams;
      }
      ghost var mid := pmParams;
      if |e1| >= cfg.minEdEvents {
        pmParams, stParamKeys := AddIndependent(pmParams, stParamKeys, stats(EventMeans(e1)), 1, models);
      } else {
        assert mid + map[] == mid;
      }
    }

    /** The basecall group to write: `Nanocall_` and the first free tag. When
        every tag is taken and no group was chosen before, the program exits. */
    method ChooseBasecallGroup(groups: seq<string>) returns (exited: bool)
      modifies this`bcGrp
      ensures FirstFree(TagsIn(groups), 0).Some? ==> bcGrp == GroupPrefix + Pad3(FirstFree(TagsIn(groups), 0).value)
      ensures FirstFree(TagsIn(groups), 0).None? ==> bcGrp == old(bcGrp)
      ensures exited <==> bcGrp == ""
    {
      var used := UsedTags(groups);
      var tag := FreeTag(used);
      if tag.Some? {
        bcGrp := GroupPrefix + Pad3(tag.value);
      }
      exited := bcGrp == "";
    }

    /** The file-level part of `summarize`: open the file, read and check
        the sampling rate, read the event-detection parameters and the table.
        It stops at the first failed check or failing library call. */
    method ReadHeader(file: Fast5File) returns (fault: Option<Reason>)
      requires numEdEvents == 0
      modifies this`samplingRate, this`readId, this`edEvents, this`numEdEvents
      ensures fault == HeaderFault(file)
      ensures readId == (if ReachesEdParams(file) && file.edReadId != "" then file.edReadId else old(readId))
      ensures fault.None? ==>
        && samplingRate == file.samplingRate
        && 1000.0 <= samplingRate <= 10000.0
        && edEvents == Some(Table(file, cfg))
        && numEdEvents == NumEvents(file, cfg)
        && |edEvents.value| == numEdEvents
      ensures fault.Some? ==> numEdEvents == 0 && edEvents == old(edEvents)
      ensures samplingRate == if ReadsSamplingRate(file) then file.samplingRate else old(samplingRate)
    {
      if file.failAt == AtOpen {
        return Some(HdfError);
      }
      if !file.hasSamplingRate {
        return Some(NoSamplingRate);
      }
      if file.failAt == AtSamplingRate {
        return Some(HdfError);
      }
      samplingRate := file.samplingRate;
      if samplingRate < 1000.0 || samplingRate > 10000.0 {
        return Some(BadSamplingRate);
      }
      if !file.hasEdEvents {
        return Some(NoEdEvents);
      }
      if file.failAt == AtEdParams {
        return Some(HdfError);
      }
      if file.edReadId != "" {
        readId := file.edReadId;
      }
      if file.failAt == AtEdEvents {
        return Some(HdfError);
      }
      LoadEdEvents(file.edEvents);
      return None;
    }

    /** The gates on the held table of a cleared summary: enough events, the
        abasic level, and the strand bounds; a read that fails one is marked by
        no events. The level and the bounds are kept from the gate that
        computes them on, and the joint flag is set only when every gate
        passes. */
    method ScreenEvents(sst: bool, ghost v: Verdict) returns (passed: bool)
      requires cfg.Valid() && edEvents.Some? && |edEvents.value| == numEdEvents
      requires abasicLevel == 0.0 && strandBounds == ClearedBounds
      requires v == GateEvents(edEvents.value, cfg, sst)
      modifies this`numEdEvents, this`abasicLevel, this`strandBounds, this`scaleStrandsTogether
      ensures passed <==> v.Passed?
      ensures passed ==> numEdEvents == v.numEvents && scaleStrandsTogether == v.together
      ensures passed ==> InRead(strandBounds, numEdEvents) && strandBounds.templateStart < strandBounds.templateEnd
      ensures !passed ==> numEdEvents == 0 && scaleStrandsTogether == old(scaleStrandsTogether)
      ensures abasicLevel == v.level && strandBounds == v.bounds
    {
      var table := edEvents.value;
      if numEdEvents < cfg.trim.afterStart + cfg.trim.beforeEnd + cfg.minEdEvents {
        assert GateEvents(table, cfg, sst) == Rejected(TooFewEvents, 0.0, ClearedBounds);
        numEdEvents := 0;
        return false;
      }
      abasicLevel := DetectAbasicLevel(table, cfg.topPercent, cfg.topOffset);
      if abasicLevel <= 1.0 {
        assert GateEvents(table, cfg, sst) == Rejected(LowAbasicLevel, abasicLevel, ClearedBounds);
        numEdEvents := 0;
        return false;
      }
      strandBounds := TemplateOnlyBounds(numEdEvents, cfg.trim);
      if !cfg.templateOnly {
        DetectStrands();
      }
      assert strandBounds == GateBounds(table, abasicLevel, cfg);
      if strandBounds.templateEnd <= strandBounds.templateStart {
        assert GateEvents(table, cfg, sst) == Rejected(NoTemplate, abasicLevel, strandBounds);
        numEdEvents := 0;
        return false;
      }
      scaleStrandsTogether := ScaleTogether(sst, strandBounds, cfg.minEdEvents);
      assert GateEvents(table, cfg, sst) == Passed(numEdEvents, abasicLevel, strandBounds, scaleStrandsTogether);
      GatePassedIsSound(table, cfg, sst);
      return true;
    }

    /** Load both strands of the held table, their time lengths, and their
        initial scalings. */
    method LoadAndScale(models: map<string, PoreModel>, stats: seq<real> -> Stats)
      requires Valid() && valid && Usable(models) && numEdEvents > 0 && edEvents.Some?
      requires timeLength == [0.0, 0.0]
      modifies this`events, this`timeLength, this`pmParams, this`stParamKeys
      ensures Valid()
      ensures Loaded(edEvents.value, strandBounds, scaleStrandsTogether, abasicLevel, samplingRate, timeLength,
                     pmParams, stParamKeys, old(pmParams), old(stParamKeys), models, stats, cfg.minEdEvents)
    {
      ghost var table := edEvents.value;
      ghost var e0 := StrandEvents(table, strandBounds, 0, scaleStrandsTogether, abasicLevel, samplingRate);
      ghost var e1 := StrandEvents(table, strandBounds, 1, scaleStrandsTogether, abasicLevel, samplingRate);
      LoadEvents([]);
      assert events == [Some(e0), Some(e1)];
      ComputeTimeLengths();
      assert timeLength == [TimeLength(e0, cfg.minEdEvents), TimeLength(e1, cfg.minEdEvents)];
      if scaleStrandsTogether {
        ScaleJointly(models, stats);
      } else {
        ScaleEachStrand(models, stats);
      }
    }

    /** The end of `summarize`: an HDF5 error marks the read as having no
        events, and the strands and the table are released. */
    method Release(thrown: bool)
      modifies this`numEdEvents, this`events, this`edEvents
      ensures numEdEvents == if thrown then 0 else old(numEdEvents)
      ensures events == [None, None] && edEvents.None?
    {
      if thrown {
        numEdEvents := 0;
      }
      DropEvents();
      edEvents := None;
    }

    /** The start of `summarize`: name the read after file `fn`. */
    method Rename(fn: string)
      modifies this`valid, this`fileName, this`baseFileName, this`readId
      ensures valid && fileName == fn && baseFileName == BaseName(fn) && readId == BaseName(fn)
    {
      valid := true;
      fileName := fn;
      baseFileName := BaseName(fn);
      readId := baseFileName;
    }

    /** Clear what the previous read left in its strands and counts. */
    method ClearStrands()
      modifies this`strandBounds, this`timeLength, this`numEdEvents, this`abasicLevel
      ensures strandBounds == StrandBounds(0, 0, 0, 0) && timeLength == [0.0, 0.0]
      ensures numEdEvents == 0 && abasicLevel == 0.0
    {
      strandBounds := StrandBounds(0, 0, 0, 0);
      timeLength := [0.0, 0.0];
      numEdEvents := 0;
      abasicLevel := 0.0;
    }

    /** The header and the gates of a freshly cleared summary: read the
        header and the table and screen the read; a rejected read is left
        without events and with its table released. */
    method ReadAndScreen(file: Fast5File, sst: bool) returns (passed: bool)
      requires cfg.Valid() && |timeLength| == 2 && |events| == 2
      requires numEdEvents == 0 && abasicLevel == 0.0 && strandBounds == ClearedBounds
      modifies this`readId, this`strandBounds, this`numEdEvents, this`samplingRate, this`abasicLevel,
               this`scaleStrandsTogether, this`edEvents, this`events
      ensures Valid()
      ensures readId == (if ReachesEdParams(file) && file.edReadId != "" then file.edReadId else old(readId))
      ensures passed <==> Screen(file, cfg, sst).Passed?
      ensures abasicLevel == Screen(file, cfg, sst).level && strandBounds == Screen(file, cfg, sst).bounds
      ensures samplingRate == if ReadsSamplingRate(file) then file.samplingRate else old(samplingRate)
      ensures !passed ==> edEvents.None? && events == [None, None] && numEdEvents == 0
      ensures !passed ==> scaleStrandsTogether == old(scaleStrandsTogether)
      ensures passed ==>
        && edEvents == Some(Table(file, cfg))
        && numEdEvents == Screen(file, cfg, sst).numEvents
        && numEdEvents > 0
        && scaleStrandsTogether == Screen(file, cfg, sst).together
        && samplingRate == file.samplingRate
    {
      var fault := ReadHeader(file);
      if fault.Some? {
        Release(fault == Some(HdfError));
        passed := false;
      } else {
        ghost var table := edEvents.value;
        assert table == Table(file, cfg);
        ghost var v := GateEvents(table, cfg, sst);
        passed := ScreenEvents(sst, v);
        if !passed {
          Release(false);
        }
        assert v == Screen(file, cfg, sst);
      }
    }

    /** The first part of `summarize`: reset the summary for file `fn`, read
        the header and the table, and screen the read. */
    method Admit(fn: string, file: Fast5File, sst: bool) returns (passed: bool)
      requires Valid()
      modifies this`valid, this`fileName, this`baseFileName, this`readId, this`strandBounds, this`timeLength,
               this`numEdEvents, this`samplingRate, this`abasicLevel, this`scaleStrandsTogether, this`edEvents, this`events
      ensures valid && Valid()
      ensures fileName == fn && baseFileName == BaseName(fn) && readId == ReadIdOf(fn, file)
      ensures passed <==> Screen(file, cfg, sst).Passed?
      ensures abasicLevel == Screen(file, cfg, sst).level && strandBounds == Screen(file, cfg, sst).bounds
      ensures samplingRate == if ReadsSamplingRate(file) then file.samplingRate else old(samplingRate)
      ensures timeLength == [0.0, 0.0]
      ensures !passed ==> edEvents.None? && events == [None, None] && numEdEvents == 0
      ensures !passed ==> scaleStrandsTogether == old(scaleStrandsTogether)
      ensures passed ==>
        && edEvents == Some(Table(file, cfg))
        && numEdEvents == Screen(file, cfg, sst).numEvents
        && numEdEvents > 0
        && scaleStrandsTogether == Screen(file, cfg, sst).together
        && samplingRate == file.samplingRate
    {
      Rename(fn);
      ClearStrands();
      passed := ReadAndScreen(file, sst);
    }

    /** The end of `summarize` for a read whose strands are loaded: choose
        its basecall group. An HDF5 error while listing the groups leaves the
        read without events; the strands and the table are released unless
        the program exits. */
    method Conclude(failAt: FailPoint, groups: seq<string>) returns (exited: bool)
      requires Valid()
      modifies this`events, this`numEdEvents, this`edEvents, this`bcGrp
      ensures exited <==> failAt != AtBasecallGroups && FirstFree(TagsIn(groups), 0).None? && old(bcGrp) == ""
      ensures Valid()
      ensures !exited ==> edEvents.None? && events == [None, None]
      ensures !exited ==> numEdEvents == if failAt != AtBasecallGroups then old(numEdEvents) else 0
      ensures failAt == AtBasecallGroups ==> bcGrp == old(bcGrp)
      ensures failAt != AtBasecallGroups && FirstFree(TagsIn(groups), 0).Some? ==>
        bcGrp == GroupPrefix + Pad3(FirstFree(TagsIn(groups), 0).value)
    {
      if failAt == AtBasecallGroups {
        Release(true);
        return false;
      }
      exited := ChooseBasecallGroup(groups);
      if !exited {
        Release(false);
      }
    }

    /** The last part of `summarize` for a read that passed the gates: load
        and scale its strands, then choose its basecall group. */
    method Finish(models: map<string, PoreModel>, stats: seq<real> -> Stats, failAt: FailPoint, groups: seq<string>)
      returns (exited: bool)
      requires Valid() && valid && Usable(models) && numEdEvents > 0 && edEvents.Some?
      requires timeLength == [0.0, 0.0]
      modifies this`events, this`timeLength, this`pmParams, this`stParamKeys, this`numEdEvents, this`edEvents, this`bcGrp
      ensures Loaded(old(edEvents).value, strandBounds, scaleStrandsTogether, abasicLevel, samplingRate, timeLength,
                     pmParams, stParamKeys, old(pmParams), old(stParamKeys), models, stats, cfg.minEdEvents)
      ensures exited <==> failAt != AtBasecallGroups && FirstFree(TagsIn(groups), 0).None? && old(bcGrp) == ""
      ensures Valid()
      ensures !exited ==> edEvents.None? && events == [None, None]
      ensures !exited ==> numEdEvents == if failAt != AtBasecallGroups then old(numEdEvents) else 0
      ensures failAt == AtBasecallGroups ==> bcGrp == old(bcGrp)
      ensures failAt != AtBasecallGroups && FirstFree(TagsIn(groups), 0).Some? ==>
        bcGrp == GroupPrefix + Pad3(FirstFree(TagsIn(groups), 0).value)
    {
      ghost var pm0, keys0 := pmParams, stParamKeys;
      LoadAndScale(models, stats);
      ghost var table, b, together, level, rate := edEvents.value, strandBounds, scaleStrandsTogether, abasicLevel, samplingRate;
      ghost var tl, pm, keys := timeLength, pmParams, stParamKeys;
      assert Loaded(table, b, together, level, rate, tl, pm, keys, pm0, keys0, models, stats, cfg.minEdEvents);
      exited := Conclude(failAt, groups);
      assert strandBounds == b && scaleStrandsTogether == together && abasicLevel == level && samplingRate == rate;
      assert timeLength == tl && pmParams == pm && stParamKeys == keys;
    }

    /** The rest of `summarize` once the read is screened: finish a read that
        passed, and leave a rejected one as it is. */
    method Complete(passed: bool, models: map<string, PoreModel>, stats: seq<real> -> Stats, failAt: FailPoint,
                    groups: seq<string>)
      returns (exited: bool)
      requires Valid() && valid && Usable(models) && timeLength == [0.0, 0.0]
      requires passed ==> numEdEvents > 0 && edEvents.Some?
      modifies this`events, this`timeLength, this`pmParams, this`stParamKeys, this`numEdEvents, this`edEvents, this`bcGrp
      ensures Valid()
      ensures !passed ==> !exited && unchanged(this`events, this`timeLength, this`pmParams, this`stParamKeys,
                                              this`numEdEvents, this`edEvents, this`bcGrp)
      ensures passed ==> Loaded(old(edEvents).value, strandBounds, scaleStrandsTogether, abasicLevel, samplingRate,
                                timeLength, pmParams, stParamKeys, old(pmParams), old(stParamKeys), models, stats,
                                cfg.minEdEvents)
      ensures exited <==> passed && failAt != AtBasecallGroups && FirstFree(TagsIn(groups), 0).None? && old(bcGrp) == ""
      ensures passed && !exited ==> edEvents.None? && events == [None, None]
      ensures passed && !exited ==> numEdEvents == if failAt != AtBasecallGroups then old(numEdEvents) else 0
      ensures passed && failAt != AtBasecallGroups && FirstFree(TagsIn(groups), 0).Some? ==>
        bcGrp == GroupPrefix + Pad3(FirstFree(TagsIn(groups), 0).value)
    {
      exited := false;
      if passed {
        exited := Finish(models, stats, failAt, groups);
      }
    }

    /** `summarize`: reset the summary for file `fn`, screen the read, and on
        success record its strands, time lengths, scalings and basecall group;
        an HDF5 error leaves the read without events. The loaded events and
        the table are released in every case. `exited` reports that the
        program would stop for lack of a free basecall tag. */
    method Summarize(fn: string, file: Fast5File, models: map<string, PoreModel>, sst: bool, stats: seq<real> -> Stats)
      returns (exited: bool)
      requires Valid() && Usable(models)
      modifies this`valid, this`fileName, this`baseFileName, this`readId, this`bcGrp, this`pmParams, this`stParamKeys,
               this`strandBounds, this`timeLength, this`numEdEvents, this`samplingRate, this`abasicLevel,
               this`scaleStrandsTogether, this`edEvents, this`events
      ensures valid
      ensures fileName == fn && baseFileName == BaseName(fn) && readId == ReadIdOf(fn, file)
      ensures exited <==>
        && Screen(file, cfg, sst).Passed? && file.failAt != AtBasecallGroups
        && FirstFree(TagsIn(file.basecallGroups), 0).None? && old(bcGrp) == ""
      ensures Valid()
      ensures !exited ==> edEvents.None? && events == [None, None]
      ensures !exited ==>
        numEdEvents == (if Screen(file, cfg, sst).Passed? && file.failAt != AtBasecallGroups then Screen(file, cfg, sst).numEvents else 0)
      ensures abasicLevel == Screen(file, cfg, sst).level && strandBounds == Screen(file, cfg, sst).bounds
      ensures samplingRate == if ReadsSamplingRate(file) then file.samplingRate else old(samplingRate)
      ensures Screen(file, cfg, sst).Rejected? ==>
        && pmParams == old(pmParams) && stParamKeys == old(stParamKeys) && bcGrp == old(bcGrp)
        && timeLength == [0.0, 0.0] && scaleStrandsTogether == old(scaleStrandsTogether)
      ensures Screen(file, cfg, sst).Passed? ==>
        && scaleStrandsTogether == Screen(file, cfg, sst).together
        && samplingRate == file.samplingRate
        && Loaded(Table(file, cfg), strandBounds, scaleStrandsTogether, abasicLevel, samplingRate, timeLength,
                  pmParams, stParamKeys, old(pmParams), old(stParamKeys), models, stats, cfg.minEdEvents)
      ensures Screen(file, cfg, sst).Passed? && file.failAt != AtBasecallGroups && FirstFree(TagsIn(file.basecallGroups), 0).Some? ==>
        bcGrp == GroupPrefix + Pad3(FirstFree(TagsIn(file.basecallGroups), 0).value)
    {
      var passed := Admit(fn, file, sst);
      ghost var v := Screen(file, cfg, sst);
      assert passed <==> v.Passed?;
      exited := Complete(passed, models, stats, file.failAt, file.basecallGroups);
    }
  }
}
