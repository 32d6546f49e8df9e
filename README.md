# Fast5 read summary (nanocall)

This project models `Fast5_Summary`, the per-read summary that nanocall
builds before it basecalls a nanopore read. The summary reads a `.fast5`
file's event-detection table and then does the following:

- it caps the table at `max_ed_events`;
- it rejects reads that are too short, that have too low an abasic level,
  or that have no template strand;
- it finds the abasic level as an order statistic of the event means;
- it detects the hairpin from islands of high events, which splits the read
  into template and complement ranges;
- it loads the quiet events of each strand with times rescaled by the
  sampling rate;
- it computes initial pore-model scalings, per strand or jointly;
- it picks a free `Nanocall_NNN` basecall group.

Modules, one per concern of `src/nanocall/Fast5_Summary.hpp`:

| module | file | models |
|---|---|---|
| `Wrappers` | wrappers.dfy | `Option` and `Result` |
| `Events` | events.dfy | raw and loaded events, `filter_ed_event`, the per-strand loop of `load_events`, table resizing |
| `Abasic` | abasic.dfy | `detect_abasic_level`: a sorted copy of the means, the rank from the top percentage, the order-statistic meaning of the result |
| `Islands` | islands.dfy | `find_islands_5_consec` (exact runs), `find_hairpin_islands` and `find_islands_5_of_10_consec` (sliding windows) |
| `Strands` | strands.dfy | `detect_strands`: island merging, the island closest to the middle, the strand bounds |
| `Scaling` | scaling.dfy | the initial scalings of `summarize`, independent and joint; the `scale_strands_together` test |
| `Names` | names.dfy | base file name, basecall-group tags, the first free three-digit tag |
| `Loading` | loading.dfy | the state that loading and scaling the strands leaves: strand events, time lengths, scalings |
| `Summary` | summary.dfy | the options, the file as a value, the screening verdict, class `Fast5Summary` and its `summarize` |

`Fast5Summary` is a class whose fields are the fields of the C++ object.
`Summarize` runs `summarize` in three phases, each proved against functions
of the file:

- `Admit` resets the summary and names the read. Through `ReadAndScreen`
  it reads the header and the table, then applies the gates.
- `Complete` leaves a rejected read as it is and hands a passed one to
  `Finish`, which, through `LoadAndScale`, loads both strands, their time
  lengths and their scalings.
- `Conclude` chooses the basecall group and releases the events.

The file itself is a value, `Fast5File`. Its `failAt` field names the first
library call that raises an HDF5 error. The summary statistics and the pore
models are parameters.

## Model

| member | source | states |
|---|---|---|
| `Events.Means` | src/nanocall/Fast5_Summary.hpp:534-540 | the copy of the means has one entry per event, equal to that event's mean |
| `Events.FilterEdEvent` | src/nanocall/Fast5_Summary.hpp:734-745 | an event is kept exactly when its mean is below the abasic level and its stdv is at most 4 |
| `Events.Calibrate` | src/nanocall/Fast5_Summary.hpp:355-360 | a loaded event keeps the raw mean and stdv, and its corrected mean starts as the mean |
| `Events.CalibrateRescales` | src/nanocall/Fast5_Summary.hpp:359-360 | start times are measured from the origin event and, with lengths, divided by the sampling rate |
| `Events.KeptIndices` | src/nanocall/Fast5_Summary.hpp:351-353 | the positions of a range whose events `filter_ed_event` accepts, in the order the loop visits them; `Events.KeptIndicesExact` proves these are exactly the accepted positions, strictly increasing |
| `Events.Filtered` | src/nanocall/Fast5_Summary.hpp:351-364 | the calibrated kept events of a range, in loop order; `Events.FilteredIsKeptSubsequence`, `Events.FilteredEventsAreQuiet` and `Events.FilteredFromRange` state what it holds, and `Events.LoadStrand` computes it |
| `Events.KeptIndicesExact` | src/nanocall/Fast5_Summary.hpp:351-353 | the kept positions are strictly increasing positions of the range, and a position is kept iff the filter accepts its event |
| `Events.FilteredIsKeptSubsequence` | src/nanocall/Fast5_Summary.hpp:351-364 | the loaded strand is, in order, exactly the calibrated events at the kept positions |
| `Events.FilteredEventsAreQuiet` | src/nanocall/Fast5_Summary.hpp:351-364 | every loaded event has a mean below the abasic level and a stdv of at most 4 |
| `Events.FilteredFromRange` | src/nanocall/Fast5_Summary.hpp:348-365 | a strand loaded from a bound range has no more events than the range, and each is a kept calibrated event from the range |
| `Events.EventMeans` | src/nanocall/Fast5_Summary.hpp:225-230 | the means the statistics are taken over are the loaded events' means, in order |
| `Events.Resize` | src/nanocall/Fast5_Summary.hpp:524 | `resize(n)` keeps the first n events and pads with zero events |
| `Events.LoadStrand` | src/nanocall/Fast5_Summary.hpp:351-364 | the loop produces the filtered, calibrated events of the bound range |
| `Abasic.Insert` | src/nanocall/Fast5_Summary.hpp:541 | inserting into a sorted sequence keeps it sorted and adds exactly the inserted value |
| `Abasic.Sort` | src/nanocall/Fast5_Summary.hpp:541 | the sorted copy is sorted and a permutation of the means |
| `Abasic.SortedUnique` | src/nanocall/Fast5_Summary.hpp:541 | two sorted permutations of the same values are equal, so the sort used does not matter |
| `Abasic.Rank` | src/nanocall/Fast5_Summary.hpp:542 | the index `size * (1 - top_percent / 100)` lies inside a non-empty table for a top percentage in (0, 100] |
| `Abasic.RankAntitone` | src/nanocall/Fast5_Summary.hpp:542 | excluding a larger top percentage never gives a higher index |
| `Abasic.AbasicLevel` | src/nanocall/Fast5_Summary.hpp:541-542 | the level minus the offset is one of the event means |
| `Abasic.DetectAbasicLevel` | src/nanocall/Fast5_Summary.hpp:528-543 | the copy-into-array loop and sort return the abasic level of the table's means |
| `Abasic.AbasicLevelFromAnySortedCopy` | src/nanocall/Fast5_Summary.hpp:541-542 | the level is the ranked element of any sorted permutation of the means, plus the offset |
| `Abasic.AbasicLevelOrderFree` | src/nanocall/Fast5_Summary.hpp:534-542 | the level depends only on the multiset of means, not on their order |
| `Abasic.AbasicLevelAntitone` | src/nanocall/Fast5_Summary.hpp:93-97 | raising the top percentage never raises the level |
| `Abasic.SortedRankCounts` | src/nanocall/Fast5_Summary.hpp:541-542 | in a sorted sequence, the element at index k has at most k elements below it and more than k at most equal to it |
| `Abasic.SortedCopyRankCounts` | src/nanocall/Fast5_Summary.hpp:541-542 | the same counts hold in the unsorted means for the element the sorted copy has at index k |
| `Abasic.AbasicLevelIsOrderStatistic` | src/nanocall/Fast5_Summary.hpp:528-543 | at most rank-many means lie below the level minus the offset, and more than rank-many lie at or below it |
| `Abasic.HundredMeansExample` | src/nanocall/Fast5_Summary.hpp:542 | with means 1..100, top 1% and offset 0, the level is 100 |
| `Islands.RunEnd` | src/nanocall/Fast5_Summary.hpp:556-557 | the inner loop stops at the first low event after a run of high events, or at the end |
| `Islands.RunEndIsUnique` | src/nanocall/Fast5_Summary.hpp:556-557 | any end with that property is the one the inner loop finds |
| `Islands.RunsFrom` | src/nanocall/Fast5_Summary.hpp:552-569 | the islands the scan reports from position i on: a run of at least 5 high events is reported, and the scan resumes one past the low event that ends the run; `Islands.RunsFromSound` and `Islands.RunsFromComplete` state what it finds |
| `Islands.ExactRuns` | src/nanocall/Fast5_Summary.hpp:545-571 | `find_islands_5_consec` on a whole table, the scan from position 0; `Islands.ExactRunsAreMaximalRuns` characterises it and `Islands.FindIslands5Consec` computes it |
| `Islands.RunsFromSound` | src/nanocall/Fast5_Summary.hpp:552-569 | every island found from a run boundary is a maximal run of at least 5 high events, in strictly increasing order |
| `Islands.RunsFromComplete` | src/nanocall/Fast5_Summary.hpp:552-569 | every maximal run of at least 5 high events that starts after the scan point is found |
| `Islands.ExactRunsAreMaximalRuns` | src/nanocall/Fast5_Summary.hpp:545-571 | the islands are exactly the maximal high runs of length at least 5, ordered |
| `Islands.FindIslands5Consec` | src/nanocall/Fast5_Summary.hpp:545-571 | the loop returns those islands: sound, ordered and complete |
| `Islands.LowEventKeepsComplete` | src/nanocall/Fast5_Summary.hpp:621-648 | passing over a low event misses no window |
| `Islands.PushKeepsComplete` | src/nanocall/Fast5_Summary.hpp:639-645 | pushing an island ending at the current event misses no window ending there |
| `Islands.PushKeepsFound` | src/nanocall/Fast5_Summary.hpp:639-645 | the reported window [window_start, i] is a windowed island that starts after the previous island ends, and it ends just before the restart point |
| `Islands.NoPushKeepsComplete` | src/nanocall/Fast5_Summary.hpp:625-645 | a window that does not reach the load leaves no window ending at the current event that should have been reported |
| `Islands.SlideWindow` | src/nanocall/Fast5_Summary.hpp:625-637 | the two inner loops leave the window start on a high event less than `window_size` before the current one, with the count of high events between them |
| `Islands.FindHairpinIslands` | src/nanocall/Fast5_Summary.hpp:615-650 | every island is a window of fewer than `window_size` events holding exactly `window_load` high events (at least one for a load of 0), starting and ending high; the islands are ordered; and no loaded window is skipped |
| `Islands.FindIslands5Of10Consec` | src/nanocall/Fast5_Summary.hpp:573-611 | the same, with window 10 and load 5 |
| `Strands.MergeRadius` | src/nanocall/Fast5_Summary.hpp:667 | the merge distance `max(trim[2], trim[3])`, as `Strands.MergeTwo` uses it |
| `Strands.MergeStep` | src/nanocall/Fast5_Summary.hpp:667-673 | one merge: an island that starts within the radius of the last island's end extends it, any other is appended; `Strands.MergeTwo` states the two cases |
| `Strands.MergeInto` | src/nanocall/Fast5_Summary.hpp:665-676 | the left-to-right merge of a list onto an already merged prefix; `Strands.MergeRestart` relates it to the restarting loop |
| `Strands.Merged` | src/nanocall/Fast5_Summary.hpp:665-676 | the merge of the whole island list; `Strands.MergeIslands` computes it with the source's restarting loop and `Strands.MergedProperties` states that it is separated, no longer than the input, and keeps its outer endpoints |
| `Strands.MergeRestart` | src/nanocall/Fast5_Summary.hpp:665-676 | merging a pair and restarting the scan gives the same final list as the left-to-right merge |
| `Strands.MergeIslands` | src/nanocall/Fast5_Summary.hpp:665-676 | the restarting loop returns the merged list, in which no two neighbours lie within the merge radius |
| `Strands.MergedProperties` | src/nanocall/Fast5_Summary.hpp:665-676 | after merging, the list is separated and no longer than before, and it is empty iff the input is; it keeps the first start and the last end; every endpoint is an endpoint of an input island |
| `Strands.MergeTwo` | src/nanocall/Fast5_Summary.hpp:667-673 | two islands within the radius become one island spanning both; otherwise both are kept |
| `Strands.DistToMiddle` | src/nanocall/Fast5_Summary.hpp:694-697 | the distance of an island's nearer end from the middle event `n / 2`; `Strands.ClosestIsland` minimises it |
| `Strands.ClosestIsland` | src/nanocall/Fast5_Summary.hpp:694-698 | the chosen island is at minimal distance from the middle, and it is the first such island |
| `Strands.TemplateOnlyBounds` | src/nanocall/Fast5_Summary.hpp:202 | template [trim[0], n - trim[1]) and an empty complement; `Summary.TemplateOnlyPasses` states the outcome for a template-only read |
| `Strands.HairpinBounds` | src/nanocall/Fast5_Summary.hpp:718-729 | the four bounds from hairpin island k, with integer subtraction and the complement-end clamp only in a read of at least `trim[3] + trim[1]` events; `Strands.HairpinBoundsAroundHairpin` states its margins and `Strands.HairpinBoundsAgreeWithoutWrap` ties it to the unsigned code |
| `Strands.HairpinBoundsAsWritten` | src/nanocall/Fast5_Summary.hpp:718-729 | the same bounds with the wrap-around of the subtractions at lines 723, 725 and 726; `Strands.TemplateEndWrapsAsWritten` and `Strands.ShortReadComplementEndExample` exhibit it |
| `Strands.FromIslands` | src/nanocall/Fast5_Summary.hpp:685-729 | the initial bounds when there is no island or the closest island lies farther than n/6 from the middle, otherwise the hairpin bounds of the first closest island; `Strands.CentralIslandExample` and `Strands.EdgeIslandExample` show both branches |
| `Strands.DetectedBounds` | src/nanocall/Fast5_Summary.hpp:653-731 | `detect_strands` from the template-only bounds: exact runs, merged, then `Strands.FromIslands`; `Strands.DetectedBoundsInRead` proves the result indexes only the table |
| `Strands.Sub32` | src/nanocall/Fast5_Summary.hpp:723 | unsigned subtraction yields a value below 2^32 |
| `Strands.Sub64` | src/nanocall/Fast5_Summary.hpp:726 | `size_t` subtraction yields a value below 2^64 |
| `Strands.HairpinBoundsAroundHairpin` | src/nanocall/Fast5_Summary.hpp:718-729 | the template ends `trim[2]` before the hairpin start and the complement begins `trim[3]` after it; the start and end margins hold; all ranges index the read |
| `Strands.MergedRunsInRead` | src/nanocall/Fast5_Summary.hpp:661-676 | every merged island lies inside the read |
| `Strands.DetectedBoundsInRead` | src/nanocall/Fast5_Summary.hpp:653-731 | the bounds `detect_strands` leaves never index outside the table |
| `Strands.TemplateEndWrapsAsWritten` | src/nanocall/Fast5_Summary.hpp:723 | an island starting before `trim[2]` makes the unsigned template end wrap to 2^32 - 40 while the template start is 500 |
| `Strands.TemplateEndCorrected` | src/nanocall/Fast5_Summary.hpp:723 | without wrap-around such an island gives a template end below its start, which rejects the read |
| `Strands.HairpinBoundsAgreeWithoutWrap` | src/nanocall/Fast5_Summary.hpp:718-729 | when the hairpin starts at least `trim[2]` into the read, the read length and `trim[1] + trim[3]` are below 2^32, and every island lies inside the read, the integer bounds equal the unsigned bounds of lines 718-729, including a read shorter than `trim[3] + trim[1]`, where the wrapped threshold at line 726 never clamps the complement end |
| `Strands.ShortReadComplementEndExample` | src/nanocall/Fast5_Summary.hpp:725-729 | 150 events, island [70, 80), margins (0, 0, 0, 200): the complement end stays at 150, as the unsigned code computes it |
| `Strands.CentralIslandExample` | src/nanocall/Fast5_Summary.hpp:694-729 | one island [480, 495) of 1000 events gives template [50, 430) and complement [530, 950) |
| `Strands.EdgeIslandExample` | src/nanocall/Fast5_Summary.hpp:700-713 | an island outside the middle third leaves the template-only bounds |
| `Strands.LeadingIslandExample` | src/nanocall/Fast5_Summary.hpp:718-722 | a leading island inside the start margins moves the template start only to the larger of the margin and its end |
| `Scaling.Independent` | src/nanocall/Fast5_Summary.hpp:265-267 | scale = strand stdv / model stdv and shift = strand mean - scale * model mean; `Scaling.IndependentFits` states what these fit |
| `Scaling.IndependentFits` | src/nanocall/Fast5_Summary.hpp:265-267 | the per-strand scaling maps the model's stdv onto the strand's stdv and the model's mean onto the strand's mean |
| `Scaling.Joint` | src/nanocall/Fast5_Summary.hpp:237-241 | the average of the two per-strand scales and the averaged shift; `Scaling.JointBalances` and `Scaling.JointOfAgreeingStrands` state what they balance |
| `Scaling.JointBalances` | src/nanocall/Fast5_Summary.hpp:237-241 | the joint scale is the average of the two strand scales, and the joint shift splits the mean residuals evenly between the strands |
| `Scaling.JointOfAgreeingStrands` | src/nanocall/Fast5_Summary.hpp:237-241 | when both strands call for the same scaling, the joint scaling is that scaling |
| `Scaling.JointExample` | src/nanocall/Fast5_Summary.hpp:237-241 | strand means 80 and 100 with equal stdvs give scale 10 and shift 90 for a unit model |
| `Scaling.Key` | src/nanocall/Fast5_Summary.hpp:263-264 | `m_name` with the model name in strand st's slot and the other slot empty; `Scaling.KeyInjective` and `Scaling.KeysOfStrandsDiffer` show that keys do not collide unless both model names are empty |
| `Scaling.KeyInjective` | src/nanocall/Fast5_Summary.hpp:263-264 | per-strand keys of different model names differ |
| `Scaling.KeysOfStrandsDiffer` | src/nanocall/Fast5_Summary.hpp:263-264 | a template key never collides with a complement key unless both model names are empty |
| `Scaling.IndependentOver` | src/nanocall/Fast5_Summary.hpp:259-276 | the per-strand scalings of strand st for the models among a set of names that serve it |
| `Scaling.IndependentCandidates` | src/nanocall/Fast5_Summary.hpp:259-276 | the per-strand scalings of strand st for all models serving it; `Scaling.IndependentCandidatesExact` states its keys and values, and `Scaling.AddIndependent` computes it |
| `Scaling.JointAdded` | src/nanocall/Fast5_Summary.hpp:231-249 | the scalings gain the joint scaling under every key pairing a template model among the names with a complement model, and nothing else changes; `Scaling.AddJoint` establishes it |
| `Scaling.JointKeysAdded` | src/nanocall/Fast5_Summary.hpp:246-247 | the state-transition keys gain exactly the same joint keys; `Scaling.AddJoint` establishes it |
| `Scaling.IndependentCandidatesExact` | src/nanocall/Fast5_Summary.hpp:259-276 | a strand gets a scaling exactly for the models serving it (its own strand or both), each the independent scaling |
| `Scaling.AddIndependent` | src/nanocall/Fast5_Summary.hpp:253-277 | the loop over the models adds the strand's candidates to the scalings and their keys to the state-transition keys |
| `Scaling.AddPairs` | src/nanocall/Fast5_Summary.hpp:233-249 | the inner loop adds the joint scaling of one template model with every complement model |
| `Scaling.AddJoint` | src/nanocall/Fast5_Summary.hpp:223-250 | the nested loops add the joint scaling of every serving model pair, and their keys |
| `Scaling.JointAddedCompose` | src/nanocall/Fast5_Summary.hpp:231-249 | the joint additions of two sets of template models compose |
| `Scaling.JointKeysAddedCompose` | src/nanocall/Fast5_Summary.hpp:231-249 | the same, for the keys |
| `Scaling.JointAddedSkip` | src/nanocall/Fast5_Summary.hpp:232 | a model that does not serve the template adds no pair |
| `Scaling.JointKeysAddedSkip` | src/nanocall/Fast5_Summary.hpp:232 | the same, for the keys |
| `Scaling.ScaleTogether` | src/nanocall/Fast5_Summary.hpp:210-212 | asked for, and both bound ranges hold at least `min_ed_events` events, on integers; `Scaling.ScaleTogetherNeedsBothStrands` states it |
| `Scaling.ScaleTogetherAsWritten` | src/nanocall/Fast5_Summary.hpp:210-212 | the same test on 32-bit unsigned differences; `Scaling.InvertedComplementScaledTogetherAsWritten` exhibits the wrap |
| `Scaling.ScaleTogetherNeedsBothStrands` | src/nanocall/Fast5_Summary.hpp:210-212 | joint scaling is on only when asked for and both bound ranges hold at least `min_ed_events` events; an empty or inverted complement never turns it on |
| `Scaling.InvertedComplementScaledTogetherAsWritten` | src/nanocall/Fast5_Summary.hpp:210-212 | an island [400, 950) gives an empty complement [450, 400); the unsigned test still scales both strands together, the integer test does not |
| `Names.FindLastSlash` | src/nanocall/Fast5_Summary.hpp:143 | the position found is a slash with no slash after it, or -1 when there is none |
| `Names.AfterLastSlash` | src/nanocall/Fast5_Summary.hpp:143-144 | the path after its last slash, or the whole path without one; `Names.AfterLastSlashIsLastComponent` and `Names.AfterLastSlashOfJoin` state this |
| `Names.AfterLastSlashIsLastComponent` | src/nanocall/Fast5_Summary.hpp:143-144 | the name after the last slash is a slash-free suffix of the path, preceded by a slash when shorter |
| `Names.StripFast5` | src/nanocall/Fast5_Summary.hpp:145-148 | the name without a trailing `.fast5`; `Names.StripFast5Restores` states the round trip |
| `Names.StripFast5Restores` | src/nanocall/Fast5_Summary.hpp:145-148 | stripping `.fast5` and appending it again restores the name; names without the suffix are unchanged |
| `Names.BaseName` | src/nanocall/Fast5_Summary.hpp:142-148 | the stripped last path component; `Names.BaseNameIsLastComponent`, `Names.BaseNameRoundTrip` and `Names.ShortNameKept` state its properties |
| `Names.BaseNameAsWritten` | src/nanocall/Fast5_Summary.hpp:142-148 | the same with the short-name exception of line 145; `Names.BaseNameAsWrittenDiffers` and `Names.ShortNameExample` relate it to `Names.BaseName` |
| `Names.BaseNameIsLastComponent` | src/nanocall/Fast5_Summary.hpp:142-148 | the base name has no slash, and the path ends with it, possibly followed by `.fast5` |
| `Names.AfterLastSlashOfJoin` | src/nanocall/Fast5_Summary.hpp:143-144 | after joining a directory and a slash-free name, the name is what follows the last slash |
| `Names.BaseNameRoundTrip` | src/nanocall/Fast5_Summary.hpp:142-148 | the base name of `dir/name.fast5` is `name` |
| `Names.BaseNameAsWrittenDiffers` | src/nanocall/Fast5_Summary.hpp:145 | the code as written agrees on names of six characters or more and fails on shorter ones |
| `Names.ShortNameKept` | src/nanocall/Fast5_Summary.hpp:144-148 | a last component shorter than `.fast5` is its own base name |
| `Names.ShortNameExample` | src/nanocall/Fast5_Summary.hpp:145 | `reads/a.f5` fails as written, while its base name is `a.f5` |
| `Names.TagsIn` | src/nanocall/Fast5_Summary.hpp:283-293 | the tags of the groups named with the prefix plus a non-empty rest; `Names.UsedTags` computes the set |
| `Names.UsedTags` | src/nanocall/Fast5_Summary.hpp:282-293 | a tag is used iff it is non-empty and prefix + tag is one of the groups |
| `Names.Digit` | src/nanocall/Fast5_Summary.hpp:297 | a digit below ten prints as a character from '0' to '9' |
| `Names.Pad3` | src/nanocall/Fast5_Summary.hpp:297 | a tag below 1000 prints as three characters |
| `Names.Pad3RoundTrip` | src/nanocall/Fast5_Summary.hpp:297 | reading the three digits back gives the tag |
| `Names.Pad3Injective` | src/nanocall/Fast5_Summary.hpp:297 | two tags print the same iff they are equal |
| `Names.FirstFree` | src/nanocall/Fast5_Summary.hpp:294-303 | a free tag found is in range and unused |
| `Names.FreeTag` | src/nanocall/Fast5_Summary.hpp:294-303 | the loop finds the smallest unused tag, and finds none iff all 1000 are used |
| `Names.FirstTagsExclude` | src/nanocall/Fast5_Summary.hpp:294-297 | the first n tags do not include a later tag |
| `Names.FirstTagsSize` | src/nanocall/Fast5_Summary.hpp:294-297 | the first n tags are n distinct strings |
| `Names.FirstTagsUsed` | src/nanocall/Fast5_Summary.hpp:294-298 | if the first n tags are each used, the used set includes them |
| `Names.FreeTagExists` | src/nanocall/Fast5_Summary.hpp:294-309 | with fewer than 1000 used tags a free tag exists, so the program exits only when at least 1000 tags are used |
| `Loading.StrandOrigin` | src/nanocall/Fast5_Summary.hpp:359 | the start tick events are timed from: the template start when both strands are scaled together, else the strand's own start |
| `Loading.StrandEvents` | src/nanocall/Fast5_Summary.hpp:348-364 | the calibrated kept events of the strand's bound range, none for an empty range; `Loading.StrandEventsComeFromRange` states what they are and `Summary.Fast5Summary.LoadEvents` computes them |
| `Loading.StrandEventsComeFromRange` | src/nanocall/Fast5_Summary.hpp:348-365 | a strand's events are empty for an empty range; otherwise they are, in order, exactly the calibrations of the events of its bound range that the filter keeps, no more than the range holds, timed from the template start when both strands are scaled together and from the strand's own start when they are not |
| `Loading.TimeLength` | src/nanocall/Fast5_Summary.hpp:215-219 | the end time of a strand's last event, or 0 for a strand with fewer than `min_ed_events` events; `Summary.Fast5Summary.ComputeTimeLengths` computes it |
| `Loading.StrandScalings` | src/nanocall/Fast5_Summary.hpp:253-277 | a strand's per-strand scalings, none with fewer than `min_ed_events` events |
| `Loading.PerStrandScalings` | src/nanocall/Fast5_Summary.hpp:251-278 | the scalings extended by the template's per-strand scalings, then the complement's; `Summary.Fast5Summary.ScaleEachStrand` establishes it |
| `Loading.PerStrandKeys` | src/nanocall/Fast5_Summary.hpp:251-278 | the keys extended by the same entries; `Summary.Fast5Summary.ScaleEachStrand` establishes it |
| `Loading.Loaded` | src/nanocall/Fast5_Summary.hpp:213-278 | the state loading leaves: the strands' events, time lengths, and the joint or per-strand scalings added to the previous ones; `Summary.Fast5Summary.LoadAndScale`, `Summary.Fast5Summary.Finish` and `Summary.Fast5Summary.Summarize` establish it |
| `Summary.ReadsSamplingRate` | src/nanocall/Fast5_Summary.hpp:160-167 | the file opens and line 167 reads a sampling rate without error |
| `Summary.ReachesEdParams` | src/nanocall/Fast5_Summary.hpp:160-179 | the file opens, has a sampling rate in [1000, 10000] that reads without error, and has event-detection events whose parameters read without error |
| `Summary.ReadIdOf` | src/nanocall/Fast5_Summary.hpp:149-183 | the non-empty read id of the event-detection parameters once they are read, else the base name; `Summary.Fast5Summary.ReadHeader` and `Summary.Fast5Summary.Admit` establish it |
| `Summary.HeaderFault` | src/nanocall/Fast5_Summary.hpp:160-184 | the first of the file-level checks that fails, in source order, or none; `Summary.Fast5Summary.ReadHeader` stops exactly there |
| `Summary.NumEvents` | src/nanocall/Fast5_Summary.hpp:510-523 | the event count is the table size capped at `max_ed_events` |
| `Summary.Table` | src/nanocall/Fast5_Summary.hpp:505-524 | the file's table, cut or padded to `Summary.NumEvents`; `Summary.Fast5Summary.LoadEdEvents` holds it |
| `Summary.GateBounds` | src/nanocall/Fast5_Summary.hpp:202-203 | the template-only bounds when only the template is wanted, else the detected bounds |
| `Summary.GateEvents` | src/nanocall/Fast5_Summary.hpp:185-212 | the verdict of the three gates, carrying the level and the bounds as far as they are computed; `Summary.GatePassedIsSound` states what passing means and `Summary.Fast5Summary.ScreenEvents` computes it |
| `Summary.Screen` | src/nanocall/Fast5_Summary.hpp:157-212 | a header fault, or else the gates on the table; `Summary.ScreenPassedIsSound` and `Summary.ShortReadRejected` state its cases |
| `Summary.GatePassedIsSound` | src/nanocall/Fast5_Summary.hpp:185-209 | a table that passes has enough events for the margins and minimum, an abasic level above 1, and a non-empty template range inside the table |
| `Summary.ScreenPassedIsSound` | src/nanocall/Fast5_Summary.hpp:160-209 | a read that passes has no header fault, the capped event count, a sampling rate in [1000, 10000] and the gate properties |
| `Summary.ShortReadRejected` | src/nanocall/Fast5_Summary.hpp:185-191 | a read with too few events is rejected for that reason |
| `Summary.TemplateOnlyPasses` | src/nanocall/Fast5_Summary.hpp:202-203 | with `template_only`, a passing read's template is the trimmed read and there is no complement, so nothing is scaled jointly |
| `Summary.Fast5Summary.constructor` | src/nanocall/Fast5_Summary.hpp:134 | a new summary is not valid, holds no events and no table, and has no scalings and no basecall group |
| `Summary.Fast5Summary.DropEvents` | src/nanocall/Fast5_Summary.hpp:371-377 | both strands' events are released |
| `Summary.Fast5Summary.LoadEdEvents` | src/nanocall/Fast5_Summary.hpp:505-525 | on the first load the count becomes the table size capped at `max_ed_events`; a set count is kept; the held table is resized to the count |
| `Summary.Fast5Summary.DetectStrands` | src/nanocall/Fast5_Summary.hpp:653-731 | the bounds become those of the hairpin island nearest the middle of the merged exact runs, or stay as they were when there is none in the middle third; the complement end is clamped to the last island only in a read of at least `trim[3] + trim[1]` events |
| `Summary.Fast5Summary.LoadEvents` | src/nanocall/Fast5_Summary.hpp:321-370 | each strand's events are the filtered, calibrated events of its bound range, taken from the held table or from the table read back from the file; there are none when the read has no events |
| `Summary.Fast5Summary.ComputeTimeLengths` | src/nanocall/Fast5_Summary.hpp:215-219 | a strand with enough events gets the end time of its last event; the other keeps its time length |
| `Summary.Fast5Summary.ScaleJointly` | src/nanocall/Fast5_Summary.hpp:223-250 | every serving model pair gets its joint scaling, on the statistics of both strands |
| `Summary.Fast5Summary.ScaleEachStrand` | src/nanocall/Fast5_Summary.hpp:251-278 | each strand with enough events gets the scaling of every model serving it |
| `Summary.Fast5Summary.ChooseBasecallGroup` | src/nanocall/Fast5_Summary.hpp:280-309 | the group becomes `Nanocall_` plus the first free tag; with no free tag it keeps its old value, and the program exits iff that value is empty |
| `Summary.Fast5Summary.ReadHeader` | src/nanocall/Fast5_Summary.hpp:159-184 | it stops with exactly the first header fault; the read id is the non-empty id from the parameters once they are read; the sampling rate is the file's once line 167 reads it, else the old one; without a fault it holds the capped table and a sampling rate in range |
| `Summary.Fast5Summary.ScreenEvents` | src/nanocall/Fast5_Summary.hpp:185-212 | on a cleared summary, the read passes exactly when the gate verdict does; the abasic level and bounds are the verdict's whether it passes or not (zero until the gate that computes them); a passed read holds the verdict's joint flag, a rejected one has no events and keeps its old joint flag |
| `Summary.Fast5Summary.LoadAndScale` | src/nanocall/Fast5_Summary.hpp:213-278 | the strands, time lengths and scalings are those the held table determines |
| `Summary.Fast5Summary.Release` | src/nanocall/Fast5_Summary.hpp:311-318 | an HDF5 error clears the event count; events and table are released |
| `Summary.Fast5Summary.Rename` | src/nanocall/Fast5_Summary.hpp:140-149 | the summary is valid and named after the file, with the base name as read id |
| `Summary.Fast5Summary.ClearStrands` | src/nanocall/Fast5_Summary.hpp:150-153 | bounds, time lengths, event count and abasic level are reset |
| `Summary.Fast5Summary.ReadAndScreen` | src/nanocall/Fast5_Summary.hpp:157-209 | on a cleared summary: the read passes exactly when its verdict does; the level and bounds are the verdict's either way; the sampling rate is the file's once line 167 reads it, else the old one; a rejected read has no events, no table, an event count of 0 and its old joint flag; a passed read holds the capped table |
| `Summary.Fast5Summary.Admit` | src/nanocall/Fast5_Summary.hpp:138-212 | the read passes exactly when its screening verdict does; the abasic level and bounds are the verdict's either way and the time lengths are 0; the sampling rate is the file's once line 167 reads it, else the old one; a passed read holds the capped table, its event count and the joint flag; a rejected read has no events, no table and an event count of 0, and keeps its old joint flag |
| `Summary.Fast5Summary.Conclude` | src/nanocall/Fast5_Summary.hpp:279-318 | the program exits iff the group list is read, no tag is free and no group was chosen before; otherwise the events and table are released, and an HDF5 error clears the event count |
| `Summary.Fast5Summary.Finish` | src/nanocall/Fast5_Summary.hpp:213-318 | the loaded state is that of the held table, followed by the group choice and release of `Conclude` |
| `Summary.Fast5Summary.Complete` | src/nanocall/Fast5_Summary.hpp:213-319 | a rejected read keeps its events, table, scalings, time lengths and group and does not exit; a passed read is loaded from the held table and then concluded |
| `Summary.Fast5Summary.Summarize` | src/nanocall/Fast5_Summary.hpp:138-319 | the read is named, screened, and on passing loaded and scaled from its table and given the first free group; the abasic level and bounds are always the verdict's; the sampling rate is the file's once line 167 reads it, else the previous read's; a rejected read has time lengths 0 and keeps its scalings, group and joint flag; the events and table are always released unless the program exits |

## Left out

- HDF5 access: the file is the value `Fast5File`, which holds the fields the summary reads and the first call that raises an error. Opening, the `eventdetection_group` name ("000"), and the mutex (lines 332-335) are not modelled.
- `add_basecall_seq`, `add_basecall_events`, `add_basecall_model`, `add_basecall_model_params` (lines 379-437): these only write to the file.
- `operator<<`, `write_tsv_header` and `write_tsv` (lines 439-502): output formatting.
- Logging: the `LOG` and `std::clog` lines have no effect on the state.
- `alg::mean_stdv_of` is the parameter `stats`. `alg::min_of` is not visible, so the closest island is taken to be the first island at minimal distance.
- `update_logs` on loaded events: the log fields are not modelled.
- Floating point is modelled as real arithmetic. The `long` and `unsigned` casts in `dist_to_middle` are integer arithmetic, which they equal for indices below 2^31.
- `State_Transition_Parameters` are default-constructed placeholders, so only their keys are modelled (`stParamKeys`). `preferred_model` is not part of this model.
- `std::exit` is modelled as the result `exited`, after which the state is not released.
- The three-argument constructor is `constructor` followed by `Summarize`.
- Exceptions other than HDF5 errors are not modelled. The one `substr` can raise is a finding below.
- `FindHairpinIslands` and `FindIslands5Of10Consec` are modelled, but `detect_strands` uses `find_islands_5_consec`, as the source does.
- `num_ed_events` is left uninitialised by the C++ constructor; the model starts it at 0.
- `Summary.Fast5Summary.ReadAndScreen` and `Summary.Fast5Summary.ScreenEvents` require the cleared state of lines 150-153 (event count, abasic level and bounds zero), because they model the part of `summarize` that runs after those lines.
- `Summary.Fast5Summary.LoadEvents`: the file `load_events` reopens when the table is not held is the parameter `reopened`.
- `Abasic.Sort`: `std::sort` is modelled as insertion sort. `Abasic.SortedUnique` shows that the result does not depend on the algorithm.
- `Summary.Config.Valid` requires a top percentage in (0, 100] and at least one required event. The source indexes the sorted means and takes `rbegin()` of strands with at least `min_ed_events` events without checking either.
- 32-bit overflow of the unsigned sums is not modelled: `trim[0] + trim[1] + min_ed_events` (line 185), `second + max(trim[2], trim[3])` (line 667), `trim[0] + trim[2]` (line 719) and `it->first + trim[3]` (line 724) are integer sums in the model, `Strands.HairpinBoundsAsWritten` included. They overflow only for margins or indices near 2^32.
- `Islands.FindHairpinIslands` requires a window size of at least 1. With a window size of 0, the first inner loop (line 625) moves `window_start` past the current event. The unsigned `window_count` is then decremented below zero at line 629 and brought back to 0 at line 638. The source therefore reports no island for a load of at least 1, and the islands (i + 1, i) for a load of 0. The model does not cover this degenerate configuration.
- `Summary.Fast5Summary.Summarize` requires pore models with a non-zero stdv (`Scaling.Usable`), even for reads that are rejected before any scaling. Lines 238-239 and 266 divide by that stdv, which gives inf or NaN in floating point. Real arithmetic has no quotient by zero.
- `Summary.Fast5Summary.Finish`, `Summary.Fast5Summary.LoadAndScale`, `Summary.Fast5Summary.ScaleJointly` and `Summary.Fast5Summary.ScaleEachStrand` require `Scaling.Usable` for the same reason.
- `Scaling.AddIndependent`, `Scaling.AddPairs`, `Scaling.AddJoint`, `Scaling.IndependentCandidatesExact`, `Scaling.IndependentStep`, `Scaling.JointAddedCompose` and `Scaling.JointAddedSkip` require `Scaling.Usable` for the same reason.
- `Scaling.Independent` and `Scaling.Joint` require a non-zero model stdv, and so do `Scaling.IndependentFits`, `Scaling.JointBalances` and `Scaling.JointOfAgreeingStrands`: each divides by that stdv as lines 238 and 266 do.
- `Loading.StrandScalings`, `Loading.PerStrandScalings`, `Loading.PerStrandKeys` and the predicate `Loading.Loaded` require or include `Scaling.Usable` for the same reason.

## Notes on behaviour

Where the program's prose documentation and its code differ, the model
follows the code:

- The complement starts `trim_margins()[3]` events after the START of the
  hairpin island (line 724), not after its end.
- A strand's time origin is the raw event at its bound start (line 359), or
  at the template start when both strands are scaled together. It is not
  the strand's first kept event.
- Joint scaling compares the lengths of the bound ranges with
  `min_ed_events` (lines 210-212), not the numbers of filtered events.
- `pm_params_m`, `st_params_m` and `bc_grp` are not reset by `summarize`.
  The scalings accumulate over calls. If every tag is taken, a second call
  keeps the group chosen before instead of exiting.
- The complement end moves to the start of a trailing island only when the
  read has at least `trim_margins()[3] + trim_margins()[1]` events. In a
  shorter read the `size_t` threshold at line 726 wraps to a huge value, so
  the clamp never applies.
- `scale_strands_together` is assigned only after the gates pass.
- `valid` is set to true on every call, whatever the outcome.

## Findings

| source | as written | input that shows it | evidently intended | confidence | as-written member | corrected member |
|---|---|---|---|---|---|---|
| src/nanocall/Fast5_Summary.hpp:723 | `it->first - trim_margins()[2]` is unsigned and wraps around when the hairpin island starts within `trim[2]` events of the read start | 1000 events, one merged island [10, 500), margins 50: the template end is 2^32 - 40 and the start is 500, so the gate at line 204 passes | an empty template range (end -40), so the read is rejected | not executed | `Strands.TemplateEndWrapsAsWritten` | `Strands.TemplateEndCorrected` |
| src/nanocall/Fast5_Summary.hpp:210-212 | `strand_bounds[3] - strand_bounds[2]` is unsigned and wraps around when the complement range is inverted | 1000 events, one island [400, 950), margins 50: bounds (50, 350, 450, 400) and `sst` true turn joint scaling on | an inverted complement does not have `min_ed_events` events, so it is not scaled jointly | not executed | `Scaling.InvertedComplementScaledTogetherAsWritten` | `Scaling.ScaleTogetherNeedsBothStrands` |
| src/nanocall/Fast5_Summary.hpp:145 | `substr(size() - 6)` on a base name shorter than six characters asks for a start past the end and throws `std::out_of_range`, which the HDF5 handler does not catch | file name `reads/a.f5` | the name is kept unchanged because it does not end in `.fast5` | not executed | `Names.ShortNameExample` | `Names.ShortNameKept` |
