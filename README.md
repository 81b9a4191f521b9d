# timeboard, modelled in Dafny

timeboard is a Python library for business calendars. A timeboard rests on a
**frame**: a run of equal base units, such as hours or days. An **organizer**
partitions the frame (at marks, or at the periods of a marker), and
**patterns** of labels are applied to the resulting spans. A span that gets a
scalar label becomes one compound **workshift**. A **schedule** uses a
selector on labels to split the workshifts into on-duty and off-duty ones.
**Intervals** and **workshifts** answer queries against a schedule: count,
nth, first and last; overlap; what portion of; count periods; total duration;
rolling forward and back; work time. The module behind the packaged
calendars extends weekend holidays to working days and picks a calendar's
amendments.

This project models that core on integers and sequences:

- A frame is a strictly increasing sequence of integer start times plus an
  end time.
- Marks are base-unit positions that are already resolved.
- Labels are values of an arbitrary type, and selectors are functions from
  labels to `bool`.
- Errors are an `Error` datatype mirroring the library's exceptions.
- Ratios are exact `real`s.

Where the code changes things in place, the model does too:

- the labelling timeline (`_Timeline`) is a class over arrays;
- a `RememberingPattern` is a class with a cursor;
- the timeboard's schedule registry is a class with a `map` field;
- the while and for loops of `_find_my_bounds_in_idx`, `count_periods`,
  `rollback`, `amend`, `extend_weekends` and the loops of `__organize` are
  methods with loop invariants, each proved equal to a specification
  function;
- the loops of `get_ws_pos_by_ref_after/before` are proved against a
  direct statement instead: the result is the earliest (latest) workshift
  whose reference time is at or after (before) the point.

Everything else is functions and lemmas.

One module per source file:

| module | file | models |
|---|---|---|
| `Errors` | `errors.dfy` | the exceptions, `Result`, `Outcome` and `Option` |
| `Indexing` | `indexing.dfy` | sorted index lists: searchsorted, `nonzero`, `arange`, insert |
| `Frames` | `frames.dfy` | `_Frame` span checks, subspans, `partition_with_marker`, `_check_groupby_freq` |
| `Patterns` | `patterns.dfy` | `cycle`, `_skiperator` and `RememberingPattern` |
| `Organizers` | `organizers.dfy` | `Organizer.__init__` and the structure of layouts |
| `Bands` | `bands.dfy` | the workshift band: first and last base unit, duration, position |
| `Timelines` | `timelines.dfy` | `_Timeline`: applying patterns, organizing, banding, reference search, `reset`, `amend` |
| `Schedules` | `schedules.dfy` | `_Schedule` |
| `Intervals` | `intervals.dfy` | `Interval` and `_VoidInterval` |
| `Workshifts` | `workshifts.dfy` | `Workshift` |
| `Timeboards` | `timeboards.dfy` | `Timeboard`: argument checks, locating, `get_interval`, the schedule registry |
| `Calendars` | `calendars.dfy` | `extend_weekends` and `CalendarBase` |

Where the documentation and the code disagree, the model follows the code.

- `amend` raises OutOfBounds for an amendment outside the timeline only when
  `not_in_range == 'raise'`. Any other value skips such amendments, although
  the docstring says anything but `'ignore'` raises
  (timeboard/core.py:1051-1056).
- `CalendarBase._get_bounds` checks a custom start and a custom end against
  the calendar's range separately. It never checks that start is at most
  end.
- `drop_schedule` removes the default schedule like any other, because the
  code has no guard for it.

## Model

| member | source | states |
|---|---|---|
| Frames.GetLoc | timeboard/core.py:237-245 | None exactly when the point is before the first start or after the end. Otherwise the unit found contains the point. |
| Frames.GetLocUnique | timeboard/core.py:237-245 | Base units do not overlap: any unit containing the point is the one found. |
| Frames.CheckSpan | timeboard/core.py:263-281 | Pass iff 0 <= first <= last < n. OutOfBounds iff either end is outside the frame. VoidInterval iff both are inside but reversed. |
| Frames.LocateSubspans | timeboard/core.py:283-335 | Fails exactly when the span check fails, with its error. On success the parts tile first..last and number one more than the distinct marks in (first, last]. Each later part starts at the next mark in ascending order. |
| Frames.SplitPositions | timeboard/core.py:320-335 | The split positions are strictly increasing. They are exactly the distinct marks lying in (first, last]. |
| Frames.SplitBounds | timeboard/core.py:320-335 | Starting a new part at each increasing split position tiles first..last with one more part than there are splits. |
| Frames.SpanTilingOrdered | timeboard/core.py:283-335 | In a tiling every span lies inside the parent span and ends before every later span starts. |
| Frames.SpanTilingCovers | timeboard/core.py:283-335 | In a tiling every base unit of the parent span lies in some span. |
| Frames.CreateSubspans | timeboard/core.py:337-363 | Fails as `_locate_subspans` does. On success it gives the same bounds, with both dangles set to 0. |
| Frames.CreateSubspansTiles | timeboard/core.py:337-363 | The subspans tile the span and number one more than the distinct valid marks. |
| Frames.AttachDangles | timeboard/core.py:497-502 | Only the first span gets the leading dangle and only the last gets the trailing one. Bounds and other dangles are kept. |
| Frames.PartitionWithMarker | timeboard/core.py:365-513 | Ok iff the marker's period may group the base unit and the span is valid. A refused period gives UnacceptablePeriod. Without marks the result is the whole span with dangles -1. Otherwise the spans tile the span, the outer dangles come from the markup and the inner dangles are 0. |
| Frames.PrefixRun | timeboard/core.py:112-156 | The longest prefix whose characters satisfy the predicate: every character before it does, and the next one does not. |
| Frames.ParseFreq | timeboard/core.py:112-156 | A match has a non-empty upper-case or dash denomination inside the string. A factor other than 1 comes from a leading digit run. |
| Frames.ParseWrittenFreq | timeboard/core.py:112-156 | Parsing digits, denomination and a non-matching tail recovers the factor (1 for no digits) and the denomination. |
| Frames.ParseDenomination | timeboard/core.py:112-156 | A bare denomination parses with factor 1. |
| Frames.CheckGroupbyFreq | timeboard/core.py:88-156 | The subperiod relation gives true. Otherwise: an invalid group frequency, or a frequency that does not parse, gives false. Both factors 1 give false. With the same denomination, the result is ZeroDivision exactly when the base-unit factor is 0, and otherwise whether the base-unit factor divides the group factor. With different denominations and a base-unit factor other than 1, false. |
| Frames.GroupbyRecursesOnDenominations | timeboard/core.py:144-146 | A plain base unit against a multiplied group frequency of another denomination is decided by the subperiod relation of the bare denominations. |
| Frames.GroupbyMultipliedSameDenomination | timeboard/core.py:142-143 | For equal denominations the answer is whether the group factor is divisible by the base factor. A zero base factor raises ZeroDivision. |
| Frames.GroupbyOtherDenominations | timeboard/tests/test_partitioning.py:733-739 | Daily base units split by 2W (the fortnight test case) are accepted exactly when D is a subperiod of W. |
| Frames.GroupbyMultipliedMismatch | timeboard/tests/test_partitioning.py:790-794 | 48H base units split by 4D (a test case marked as not covered) give false, so the split is refused. |
| Patterns.Cycle | timeboard/core.py:1690-1698 | Labels drawn from `cycle(values)` after `from` draws: the k-th is values[(from + k) mod length]. An empty pattern yields nothing. |
| Patterns.CycleConcat | timeboard/core.py:1690-1698 | Drawing a and then b labels is drawing a + b labels: the cursor carries over between uses. |
| Patterns.SkiperatorAt | timeboard/core.py:51-85 | After skipping `skip` labels the iterator yields pattern[(skip + k) mod length]. |
| Patterns.RememberingPattern.constructor | timeboard/core.py:1690-1692 | Keeps the labels and starts with nothing drawn. |
| Patterns.RememberingPattern.Next | timeboard/core.py:1697-1698 | Yields the label at the cursor and advances it by one. With no labels it stops (StopIteration) and the cursor stays. |
| Patterns.RememberingPattern.Take | timeboard/core.py:1697-1698 | Drawing `count` labels continues the cycle from the cursor and advances it by the number drawn. |
| Organizers.AsMarker | timeboard/core.py:1351-1352 | A frequency string becomes a Marker with that period. |
| Organizers.MarksList | timeboard/core.py:1353 | A single mark becomes a one-element list, and a list is kept. |
| Organizers.MakeOrganizer | timeboard/core.py:1343-1356 | ValueError iff not exactly one of marker and marks is given. TypeError iff that check passes and the structure is not iterable. Otherwise the organizer keeps the structure and the given partitioning. |
| Organizers.ItemPatternsIncluded | timeboard/core.py:704-765 | The remembering patterns of any item are among those of the whole structure. These are the objects organizing may advance. |
| Bands.BandOf | timeboard/core.py:641-647 | The workshifts start exactly at the base units whose compound mask is set, and the band is valid. |
| Bands.WsLast | timeboard/core.py:787-798 | The last base unit of a workshift is at or after its first one and inside the frame. |
| Bands.WsDuration | timeboard/core.py:847-860 | Every workshift lasts at least one base unit. |
| Bands.WorkshiftsAdjacent | timeboard/core.py:784-798 | Each workshift starts right after the previous one ends. |
| Bands.WorkshiftsOrdered | timeboard/core.py:784-798 | An earlier workshift ends before a later one starts. |
| Bands.Containing | timeboard/core.py:893-916 | Every base unit lies in a workshift, between its first and last base unit. |
| Bands.ContainingUnique | timeboard/core.py:893-916 | That workshift is unique. |
| Bands.LeadingDurations | timeboard/core.py:847-860 | The first k workshifts last exactly as many base units as precede workshift k. |
| Bands.DurationsSumToFrame | timeboard/core.py:847-860 | The workshift durations add up to the length of the frame. |
| Bands.WsRefTime | timeboard/core.py:828-845 | The reference time lies between the workshift's start and end times. |
| Bands.WsPosition | timeboard/core.py:893-916 | OutOfBounds iff the point is outside the frame. Otherwise the workshift found spans the point. |
| Bands.EarlierWorkshiftsEndBefore | timeboard/core.py:893-916 | Workshifts before the one containing the point end before it. |
| Bands.LaterWorkshiftsStartAfter | timeboard/core.py:893-916 | Workshifts after the one containing the point start after it. |
| Timelines.Overwrite | timeboard/core.py:690-702 | Writing a run over a sequence keeps its length. |
| Timelines.ChangedWithinTrans | timeboard/core.py:734-754 | Changes confined to lo..mid followed by changes confined to mid+1..hi are confined to lo..hi. |
| Timelines.OverwriteWithin | timeboard/core.py:690-702 | Writing a run that fits before hi changes only labels inside at..hi. |
| Timelines.Values | timeboard/core.py:734-754 | A structure of scalar labels gives its labels in order. |
| Timelines.StartsKeptExtend | timeboard/core.py:734-754 | Processing one more span keeps the mask at the first unit of every span processed so far. |
| Timelines.CompoundExtend | timeboard/core.py:734-754 | Processing one more span with a scalar label extends the compound workshifts by that span and label. |
| Timelines.Firsts | timeboard/core.py:641-647 | The first base unit of each span, in order. |
| Timelines.CompoundSpansAreWorkshifts | timeboard/core.py:641-647 | After organizing a whole frame into compound spans, the workshifts start exactly at the spans' first units. |
| Timelines.FlatLabels | timeboard/core.py:734-754 | Span k of a structure of scalar labels gets structure[k mod length]. |
| Timelines.CompoundBand | timeboard/core.py:641-647 | After banding, span t is workshift t and carries the label placed on it. |
| Timelines.Timeline.constructor | timeboard/core.py:616-660 | Without an organizer every base unit is a workshift labeled with the default. |
| Timelines.Timeline.Partition | timeboard/core.py:723-732 | Success implies a valid span and spans that tile it. An invalid span fails. |
| Timelines.Timeline.ApplyPattern | timeboard/core.py:662-702 | Returns what `PatternOf` gives for the span and leaves the label and mask arrays and the cursors of the layout's RememberingPatterns as `PatternOf` leaves them. |
| Timelines.Timeline.WriteRun | timeboard/core.py:690-702 | The labels become the old ones with the run written at its position. |
| Timelines.Timeline.MakeCompound | timeboard/core.py:749-754 | The mask is cleared after the span's first unit up to its last, and kept elsewhere. |
| Timelines.Timeline.PlaceLabel | timeboard/core.py:749-754 | A scalar label makes the span one compound workshift with that label. Nothing outside the span changes. |
| Timelines.Timeline.PlaceNextLabel | timeboard/core.py:734-754 | Draws the pattern's next label, advances its cursor by one and makes the span one workshift with that label. |
| Timelines.Timeline.Organize | timeboard/core.py:704-765 | Returns the outcome of `OrganizeOf` on the arrays and cursors it starts from, and leaves the arrays and every cursor of the organizer's RememberingPatterns as `OrganizeOf` leaves them. It also keeps the old guarantees: changes stay inside the span, span starts keep their mask, a scalar-label structure makes span s one workshift labeled structure[s mod length], and a RememberingPattern structure draws one label per span. |
| Timelines.Timeline.OrganizeOf | timeboard/core.py:704-765 | A partition error is returned with the state unchanged. Only labels inside the span and the mask after its first unit can change. Only the cursors of the organizer's own RememberingPatterns can move. |
| Timelines.Timeline.LayoutsOf | timeboard/core.py:734-754 | The loop after n spans changes only labels from the span's start up to span n, and only the cursors of the organizer's RememberingPatterns. |
| Timelines.Timeline.LayoutsNext | timeboard/core.py:734-754 | After n spans got through, span n is taken with layout `structure[n mod length]` on the state the first n left. |
| Timelines.Timeline.LayoutsStopAt | timeboard/core.py:734-754 | An error in turn n is the result of the whole loop: later spans are not touched. |
| Timelines.Timeline.LayoutsPlaced | timeboard/core.py:734-754 | After a loop that got through n spans, span starts keep their mask. With a structure of scalar labels, spans 0..n-1 are compound workshifts labeled structure[k mod length]. |
| Timelines.Timeline.LayoutsSpan | timeboard/core.py:734-754 | When the loop got through n spans, turn k < n got through, and span k ends with the labels and mask turn k gave it with `structure[k mod length]`. |
| Timelines.Timeline.OrganizeSpans | timeboard/core.py:704-765 | A list structure that got through: every span k of the partition is as its turn with `structure[k mod length]` left it, whatever that layout is. |
| Timelines.Timeline.LayoutsOfPatterns | timeboard/core.py:734-754 | Plain patterns with one RememberingPattern: the loop fails with OutOfBounds iff a span has an unknown left dangle. Otherwise the mask is kept and the cursor moves by `Consumed`, the dangles plus lengths of the spans it filled. |
| Timelines.Timeline.PatternSpan | timeboard/core.py:734-754 | In such a structure, span k holds its pattern's labels after its dangle; for the RememberingPattern the cycle resumes where the earlier spans left it. |
| Timelines.Timeline.PatternSpans | timeboard/core.py:734-754 | The same for every span the loop went through. |
| Timelines.Timeline.OrganizePatterns | timeboard/core.py:704-765 | Organizing with plain patterns and one RememberingPattern: OutOfBounds iff some span of the partition has an unknown left dangle. Otherwise the mask is kept, each span holds its pattern's labels after its dangle with the RememberingPattern carried across spans, and its cursor moves by `Consumed`. |
| Timelines.Timeline.MemoryAcrossSpans | timeboard/tests/test_organizers.py:104-112 | Structure [rp, [x], rp] over three week-long spans, rp cycling a, b, c: labels a b c a b c a, seven x, then b c a b c a b. The cursor ends at 14. |
| Timelines.LabelOf | timeboard/core.py:749-754 | A scalar layout writes only the span: its first unit gets the label and the mask is cleared after it. With equal-length arrays the span becomes one compound workshift with that label. Cursors are untouched. |
| Timelines.PatternOf | timeboard/core.py:690-702 | OutOfBounds, with nothing changed, iff the leading skip is negative. Otherwise only the span's labels change, the mask is kept, and only this layout's RememberingPattern cursor moves. |
| Timelines.DrawnLabelsOf | timeboard/core.py:734-754 | Drawing labels for n spans changes only the units before span n, and advances the pattern's cursor by n (by 0 for an empty pattern). No other cursor moves. |
| Timelines.Cleared | timeboard/core.py:752-753 | Clears the mask after the span's first unit up to its last, and keeps it elsewhere. |
| Timelines.PatternTurn | timeboard/core.py:741-746 | With the RememberingPattern where the earlier spans left it, the turn on span k writes the labels of `PatternLabels`. |
| Timelines.ConsumedStep | timeboard/core.py:1661-1700 | One more span moves the RememberingPattern by its dangle plus its length when that span is the RememberingPattern's, and not at all otherwise. |
| Timelines.Timeline.PlaceLayouts | timeboard/core.py:734-754 | The loop pairing spans with `cycle(structure)` ends as `LayoutsOf` over all the spans, on the arrays and on the cursors. Changes stay inside the span, span starts keep their mask, and scalar labels give compound workshifts labeled in turn. |
| Timelines.Timeline.PlaceOne | timeboard/core.py:741-754 | One layout on one span ends as `LayoutOf`: a nested organizer recurses, a pattern is applied, a scalar becomes one compound workshift. Only that span changes. |
| Timelines.Timeline.PlaceTurn | timeboard/core.py:741-754 | Turn s of the loop applies layout `structure[s mod length]` to span s and ends as `LayoutsOf` after s+1 spans. The cursors of the other layouts are untouched. |
| Timelines.Timeline.Arrange | timeboard/core.py:638-639 | The organizer is applied to the whole frame; the outcome, labels and mask are those of `OrganizeOf` from the arrays and cursors it starts with. |
| Timelines.Timeline.PlaceRememberingLabels | timeboard/core.py:734-754 | Ends as `DrawnLabelsOf`: each span becomes one workshift with the pattern's next label, and the cursor advances by the number of spans. An empty pattern ends the loop at once and changes nothing. |
| Timelines.Timeline.MakeBand | timeboard/core.py:641-647 | The band is the compound mask's set positions, and each workshift takes the label of its first base unit. |
| Timelines.Timeline.WsPosByRefAfter | timeboard/core.py:918-953 | Ok iff the point is on the frame and some workshift's reference time is at or after it. The result is the earliest such workshift. Errors are OutOfBounds. |
| Timelines.Timeline.WsPosByRefBefore | timeboard/core.py:955-992 | Ok iff the point is on the frame and some workshift's reference time is at or before it. The result is the latest such workshift. Errors are OutOfBounds. |
| Timelines.Timeline.Reset | timeboard/core.py:998-1014 | Every workshift gets the given label, and the band is kept. |
| Timelines.Timeline.LocateAll | timeboard/core.py:1047-1060 | The locating loop of `amend` computes the located-amendments map or its error. |
| Timelines.Timeline.Amend | timeboard/core.py:1016-1063 | Atomic: on any error the labels are unchanged. On success the located workshifts get their amendment labels, every other label is kept, and the band is kept. |
| Timelines.Build | timeboard/core.py:616-660 | Without an organizer every base unit is one workshift labeled with the default. With one, the arrays start filled with the default and set, and the outcome, labels and mask are those of `OrganizeOf` from there. The timeline is then banded. |
| Timelines.Located | timeboard/core.py:1048-1056 | Each amendment's workshift is the one containing its point in time, or None exactly when the point is off the timeline. It keeps its label. |
| Timelines.LocateAmendments | timeboard/core.py:1047-1060 | Its only error kinds are KeyError, or OutOfBounds under 'raise'. What a success means is stated by `LocateAmendmentsMeaning`. |
| Timelines.LocateAmendmentsMeaning | timeboard/core.py:1047-1060 | Under 'raise', success means every point was located. Every located amendment is in the map with its label, and every key comes from an amendment. Without 'raise' the fold fails exactly when two amendments share a workshift. |
| Timelines.AddAmendment | timeboard/core.py:1050-1060 | One loop step: a missing position raises or is skipped, a position already taken is KeyError, and a new position is added. |
| Timelines.LocateStep | timeboard/core.py:1048-1060 | Locating one more amendment is one loop step on the map so far. |
| Timelines.SharedWorkshiftStep | timeboard/core.py:1057-1059 | A clash is either among the earlier amendments or between the last one and an earlier one. |
| Timelines.PrefixError | timeboard/core.py:1048-1060 | An error on a prefix of the amendments is the error of the whole call. |
| Schedules.Selected | timeboard/core.py:1184 | Element i is the selector applied to label i. |
| Schedules.MakeSchedule | timeboard/core.py:1179-1186 | The on-duty positions are the increasing positions whose label the selector accepts, and the off-duty positions are those it rejects. |
| Schedules.Index | timeboard/core.py:1200-1202 | The index is 0..n-1. |
| Schedules.SchedulePartition | timeboard/core.py:1184-1212 | Every position is either on or off duty, never both. On duty agrees with the selector, and the two lists add up to the timeline. |
| Schedules.WhereSplit | timeboard/core.py:1185-1186 | The positions of true and of false together number the flags. |
| Indexing.SearchLeft | timeboard/interval.py:307-318 | The first index whose entry is at least x, as `searchsorted(side='left')`. |
| Indexing.SearchRight | timeboard/interval.py:307-318 | The first index whose entry exceeds x, as `searchsorted(side='right')`. |
| Indexing.SearchLeftSorted | timeboard/interval.py:307-318 | In a sorted list every entry from the left search on is at least x. |
| Indexing.SearchRightSorted | timeboard/interval.py:307-318 | In a sorted list every entry from the right search on exceeds x. |
| Indexing.SearchLeftAtMostRight | timeboard/workshift.py:384-414 | The searches differ by at most one, and by one exactly when x is present. |
| Indexing.SearchMonotone | timeboard/interval.py:307-318 | Both searches are monotone in x. |
| Indexing.Insert | timeboard/core.py:320-335 | Inserting keeps a list strictly increasing and adds exactly the new value. |
| Indexing.IncreasingDistinct | timeboard/core.py:320-335 | A strictly increasing list has as many members as entries. |
| Indexing.IncreasingUnique | timeboard/core.py:320-335 | A strictly increasing list is determined by its members. |
| Indexing.SortedDistinct | timeboard/core.py:320-335 | `sorted(set(s))` is increasing, with exactly the members of s. |
| Indexing.Where | timeboard/core.py:1185-1186 | `nonzero` gives the increasing positions whose flag has the value, and all of them. |
| Indexing.Range | timeboard/core.py:1201-1202 | `arange(n)` is 0..n-1. |
| Indexing.RangeIncreasing | timeboard/core.py:1201-1202 | `arange(n)` is strictly increasing. |
| Indexing.Between | timeboard/interval.py:307-318 | The entries lying in [lo, hi], and nothing else. |
| Indexing.BetweenIsSlice | timeboard/interval.py:307-318 | In a sorted list those entries are the slice between the two searches. |
| Intervals.HandleBound | timeboard/interval.py:22-41 | A position or workshift bound is accepted iff it is in [0, n), otherwise OutOfBounds. Anything else is TypeError. |
| Intervals.MakeInterval | timeboard/interval.py:11-80 | Errors come in order: TypeError without bounds, IndexError with fewer than two, then each bound's error, then VoidInterval for a reversed non-void pair. A result is a valid interval. |
| Intervals.Length | timeboard/interval.py:59-70 | The length is 0 exactly for a void interval. |
| Intervals.DutyIdx | timeboard/interval.py:320-343 | `on`, `off` and `any` select the on-duty, off-duty and full index. Any other duty is ValueError. |
| Intervals.DutyIdxIncreasing | timeboard/interval.py:320-343 | The selected index is increasing and lies on the timeline. |
| Intervals.DutyBounds | timeboard/interval.py:298-318 | Found bounds are ordered indices of the list. |
| Intervals.DutyBoundsExact | timeboard/interval.py:298-318 | None iff no entry lies in [lo, hi]. Otherwise the bounds enclose exactly those entries. |
| Intervals.FindBoundsInIdx | timeboard/interval.py:298-318 | The two while loops compute those bounds. |
| Intervals.GetDutyIdx | timeboard/interval.py:320-343 | ValueError for an invalid duty. Otherwise the duty's index with its bounds in the interval; `any` gives the interval itself. |
| Intervals.DutyBoundsSlice | timeboard/interval.py:298-318 | The bounds cut the index to exactly its entries within the interval. |
| Intervals.RangeSlice | timeboard/interval.py:339-342 | For `any` the interval's own bounds cut the full index to its entries within. |
| Intervals.DutySlice | timeboard/interval.py:320-343 | For every duty the bounds cut the index to exactly its entries within the interval. |
| Intervals.SliceIncreasing | timeboard/interval.py:298-318 | A slice of an increasing index is increasing, with as many members as entries. |
| Intervals.DutySliceMembers | timeboard/interval.py:320-343 | The duty workshifts within the interval form an increasing list whose members are exactly those workshifts. |
| Intervals.CountIn | timeboard/interval.py:569-576 | The count from the bounds is the length of the slice they cut. |
| Intervals.Count | timeboard/interval.py:542-576 | A void interval counts 0. An invalid duty is ValueError. `any` gives the interval length. |
| Intervals.CountIsDutyCount | timeboard/interval.py:542-576 | The count is the number of duty workshifts within the interval. |
| Intervals.NthIn | timeboard/interval.py:483-494 | Ok iff -len <= n < len. The result is the n-th duty entry, counted from the end when n is negative. |
| Intervals.Nth | timeboard/interval.py:431-494 | A void interval is OutOfBounds. An invalid duty is ValueError. Other errors are OutOfBounds. |
| Intervals.First | timeboard/interval.py:496-517 | `first` is `nth(0)`. |
| Intervals.Last | timeboard/interval.py:519-540 | `last` is `nth(-1)`. |
| Intervals.NthIsKth | timeboard/interval.py:431-494 | nth(n) is defined iff -count <= n < count. It is the n-th duty workshift within the interval, from the end for negative n. |
| Intervals.FirstAndLastAreExtremes | timeboard/interval.py:496-540 | first and last are defined iff the interval has a duty workshift. They are then the least and the greatest such workshift. |
| Intervals.Overlap | timeboard/interval.py:578-648 | A void interval overlaps as void. Otherwise the result runs from the later start to the earlier end, and is void iff those cross. |
| Intervals.OverlapIsIntersection | timeboard/interval.py:578-648 | The overlap is valid, void when either side is void, and otherwise covers exactly the positions both intervals cover. |
| Intervals.WhatPortionOf | timeboard/interval.py:825-920 | A void interval gives 0.0. The only errors are ValueError and ZeroDivision. |
| Intervals.DutyInMonotone | timeboard/interval.py:866-920 | A contained interval has no more duty workshifts. |
| Intervals.WhatPortionOfBounds | timeboard/interval.py:866-920 | With a valid duty the portion is defined and lies in [0, 1]. |
| Intervals.WhatPortionOfContained | timeboard/interval.py:912-920 | An interval containing the other gives 1.0, or 0.0 when the other has no duty workshift. |
| Intervals.WhatPortionOfInvalidDuty | timeboard/interval.py:866-920 | An invalid duty gives 0.0 when the overlap is void, otherwise ValueError. |
| Intervals.WhatPortionOfValue | timeboard/interval.py:913-920 | For a valid duty: a void overlap gives 0.0; otherwise, with c the duty workshifts of the overlap and oc those of the other interval, c = 0 gives 0.0, and c > 0 implies oc > 0 and gives c / oc. |
| Intervals.IntervalDuration | timeboard/interval.py:984-1035 | A void interval lasts 0. An invalid duty is ValueError. It asks only that the duty lists lie on the timeline, which a built schedule gives. |
| Intervals.IntervalDurationValue | timeboard/interval.py:1026-1035 | For a valid duty whose positions ascend, as in every built schedule, the duration of a non-void interval is the total of the base units of exactly the duty workshifts inside it, all of them positions on the timeline. |
| Intervals.WholeDuration | timeboard/interval.py:984-1035 | The whole timeline's `any` duration is the number of base units. |
| Intervals.GatherPeriods | timeboard/interval.py:767-786 | One entry per period: its interval and count, or None for a period off the timeboard. A void period makes the call fail. |
| Intervals.StepGather | timeboard/interval.py:770-786 | OutOfBounds records None. VoidInterval becomes UnacceptablePeriod. Other errors pass through. Otherwise the period's interval and count. |
| Intervals.Gather | timeboard/interval.py:767-786 | The loop over the periods computes the gathered list or its error. |
| Intervals.GatherPrefixError | timeboard/interval.py:767-786 | An error on a prefix of the periods is the error of the whole loop. |
| Intervals.PeriodsWithDuty | timeboard/interval.py:815-821 | The result is the number of positions whose period has a non-zero duty count, at most all of them. It is defined exactly when every period is present; a missing period is TypeError, as comparing None in Python 3 is. |
| Intervals.CountBetween | timeboard/interval.py:801-812 | A reversed pair is VoidInterval. Otherwise the count of that interval. |
| Intervals.CombinePeriods | timeboard/interval.py:788-823 | A period position outside the gathered list is IndexError. |
| Intervals.CountPeriods | timeboard/interval.py:656-823 | The method with its loop computes the count of periods. |
| Intervals.CountPeriodsOf | timeboard/interval.py:656-823 | A void interval gives 0.0. An unsupported frequency is UnacceptablePeriod. No duty workshift gives 0.0. A gathering error propagates. |
| Intervals.NthBelow | timeboard/interval.py:431-494 | nth is a position on the timeline. |
| Intervals.GatherKeepsValid | timeboard/interval.py:767-786 | The gathered periods are valid intervals with counts. |
| Intervals.WholePeriodsCount | timeboard/interval.py:800-823 | When the interval takes all duty workshifts of its first and last period, and every period between has some, the result is the number of periods. |
| Intervals.CombineSeveralPeriods | timeboard/interval.py:800-823 | When the first and the last period differ, both are present with a non-zero duty count and both partial counts succeed: the result is c1/len1 + c2/len2 plus the number of periods strictly between them with a non-zero duty count; a missing period between them is TypeError. |
| Intervals.SinglePeriodCount | timeboard/interval.py:796-798 | In a single period the result is the interval's count over the period's count, within [0, 1], and 1.0 when they are equal. |
| Intervals.CountPeriodsNoDuty | timeboard/interval.py:761-765 | No duty workshift in the interval gives 0.0. |
| Workshifts.MakeWorkshift | timeboard/workshift.py:72-99 | Ok iff the location is below the number of workshifts, otherwise OutOfBounds. |
| Workshifts.GetDutyIndex | timeboard/workshift.py:254-275 | on, same-when-on and alt-when-off give the on-duty index. The symmetric cases give the off-duty index. any gives all positions. Anything else is ValueError. |
| Workshifts.SameAndAlt | timeboard/workshift.py:263-275 | A workshift is in its `same` index and not in its `alt` index. Every index is increasing. |
| Workshifts.DutyIndexPositions | timeboard/workshift.py:254-275 | Every duty index is increasing and lies on the timeline. |
| Workshifts.Rollforward | timeboard/workshift.py:277-414 | Errors are OutOfBounds, or ValueError for an invalid duty. |
| Workshifts.RollforwardZero | timeboard/workshift.py:384-414 | Zero steps find the least duty position at or after the workshift, defined iff one exists, and the workshift itself when it is on that duty. |
| Workshifts.RollforwardStep | timeboard/workshift.py:407-414 | One more step goes to the next duty position, with none in between. |
| Workshifts.NothingBetween | timeboard/workshift.py:407-414 | Consecutive entries of an increasing index have no entry between them. |
| Workshifts.LastAtMost | timeboard/workshift.py:522-540 | The downward loop ends at the last entry at most x, or -1. |
| Workshifts.LastAtMostSorted | timeboard/workshift.py:522-540 | In a sorted index that is the right search minus one. |
| Workshifts.RollbackOf | timeboard/workshift.py:416-558 | Errors are OutOfBounds, or ValueError for an invalid duty. |
| Workshifts.Rollback | timeboard/workshift.py:416-558 | The method with its while loop computes `rollback`. |
| Workshifts.RollbackZero | timeboard/workshift.py:522-558 | Zero steps find the greatest duty position at or before the workshift, defined iff one exists, and the workshift itself when it is on that duty. |
| Workshifts.LastAtMostIsLatest | timeboard/workshift.py:522-540 | Found iff some entry is at most x. It is the greatest such entry, and x itself when present. |
| Workshifts.ForwardBackOneStep | timeboard/workshift.py:384-401 | From a workshift not on the duty, rollforward(-1) is rollback(0), strictly after rollback(1). From one on the duty, the two coincide. |
| Workshifts.Add | timeboard/workshift.py:659-664 | `ws + n` is rollforward(n) on duty `on`. A non-integer operand is NotImplemented. |
| Workshifts.Sub | timeboard/workshift.py:666-673 | `ws - n` is rollback(n) on duty `on`. A non-integer operand is NotImplemented. |
| Workshifts.AddThenSub | timeboard/workshift.py:659-673 | From an on-duty workshift, (ws + n) - n is ws again. |
| Workshifts.RoundTrip | timeboard/workshift.py:407-414 | Going n entries ahead in an index and searching back from there returns to the same index entry. |
| Workshifts.Worktime | timeboard/workshift.py:560-657 | An invalid duty is ValueError. A false duty flag gives 0. Otherwise the label, which must be a number else TypeError, or the duration, by source. An unknown source is RuntimeError. |
| Workshifts.WorktimeSplits | timeboard/workshift.py:633-657 | Work time on duty plus off duty is the `any` work time. |
| Timeboards.LayoutOrganizer | timeboard/timeboard.py:173-184 | An Organizer is used as is. Another iterable becomes Organizer(marks=[], structure=[layout]). Anything else is TypeError. |
| Timeboards.NoMarksKeepSpan | timeboard/timeboard.py:173-184 | Partitioning at no marks keeps the whole span, so a wrapped layout covers the frame. |
| Timeboards.WrappedPatterns | timeboard/timeboard.py:173-184 | Wrapping a layout introduces no remembering patterns beyond its own. |
| Timeboards.CheckArgs | timeboard/timeboard.py:164-226 | Checked in order: layout TypeError, amendments TypeError, work-time source ValueError. Ok iff all pass, with the layout's organizer. |
| Timeboards.Locate | timeboard/timeboard.py:370-422 | A found workshift is within. OutOfBounds before the start is left and after the end is right. Between them a before- or after-search that failed is left or right. A containing search there is RuntimeError. Other errors pass through. |
| Timeboards.LocateContaining | timeboard/timeboard.py:370-422 | Locating any point succeeds. It is within iff the point is on the frame, and left iff before its start. |
| Timeboards.LocateMonotone | timeboard/timeboard.py:790-798 | Locating a later point never gives an earlier location. |
| Timeboards.InOrderTransitive | timeboard/timeboard.py:790-798 | The ordering of locations is transitive. |
| Timeboards.StripIntervalLocs | timeboard/timeboard.py:860-868 | The head moves one forward only if dropped and defined, and the tail one back likewise. Sides are kept. |
| Timeboards.StripKeepsOrNarrows | timeboard/timeboard.py:860-868 | Dropping nothing changes nothing, and stripping never widens a defined pair. |
| Timeboards.LocsByLength | timeboard/timeboard.py:818-839 | Length 0 is VoidInterval. An undefined start is returned as both ends. |
| Timeboards.ByLengthSpan | timeboard/timeboard.py:825-839 | A length of k covers |k| workshifts. Passing the frame's start or end marks that side undefined. |
| Timeboards.LocsByPeriod | timeboard/timeboard.py:841-858 | With clipping, an undefined left bound becomes 0 and an undefined right bound n-1. Without clipping the pair is stripped. |
| Timeboards.LocsFromReference | timeboard/timeboard.py:800-816 | No reference is the whole timeline and a pair keeps its sides. Anything else is TypeError. |
| Timeboards.IntervalFromLocs | timeboard/timeboard.py:764-788 | Out of order is VoidInterval. Both undefined: OutOfBounds on one side, PartialOutOfBounds on different sides. One undefined is PartialOutOfBounds. A result is a valid non-void interval. |
| Timeboards.IntervalFromLocsExact | timeboard/timeboard.py:764-788 | Ok iff the locations are in order and both defined within the timeline. The interval is then exactly those positions. |
| Timeboards.GetInterval | timeboard/timeboard.py:498-788 | An invalid `closed` is ValueError. Length together with period is TypeError. An unusable reference is TypeError. Length 0 is VoidInterval. A result is valid and non-void. |
| Timeboards.WholeTimeline | timeboard/timeboard.py:730-788 | The whole timeline closed on both sides is 0..n-1, and open on both sides is 1..n-2. |
| Timeboards.Timeboard.constructor | timeboard/timeboard.py:164-226 | Keeps the frame, band, labels and source, with only the default schedule registered. |
| Timeboards.Timeboard.AddSchedule | timeboard/timeboard.py:870-897 | A taken name is KeyError and changes nothing. Otherwise exactly that name is added with the selector, and the others are kept. |
| Timeboards.Timeboard.DropSchedule | timeboard/timeboard.py:899-911 | A missing name is KeyError and changes nothing. Otherwise only that name is removed. |
| Timeboards.Create | timeboard/timeboard.py:164-226 | An argument error is raised and creates nothing. A timeboard created keeps the frame and source and registers only the default schedule with the selector. |
| Calendars.Weekday | timeboard/calendars/calendarbase.py:124 | The day of the week lies in 0..6. |
| Calendars.IndexOf | timeboard/calendars/calendarbase.py:125-128 | The first position of the day in the weekend, or None (ValueError) exactly when absent. |
| Calendars.Probe | timeboard/calendars/calendarbase.py:147-148 | The probe stops at the first day in its direction that is not yet a key, past keys only. |
| Calendars.AddedDay | timeboard/calendars/calendarbase.py:133-148 | The new day is not yet a key. Going back (previous, or nearest when the position is in the first half) it lies before the weekend. Otherwise it lies after it. Only keys are passed on the way. |
| Calendars.ExtendStep | timeboard/calendars/calendarbase.py:124-149 | An off-weekend holiday adds nothing. A weekend holiday adds exactly one new day, with its label, and keeps every original entry. |
| Calendars.MaxOf | timeboard/calendars/calendarbase.py:123 | The greatest member of a non-empty set. |
| Calendars.SortedKeys | timeboard/calendars/calendarbase.py:123 | The keys in strictly increasing order. |
| Calendars.Extend | timeboard/calendars/calendarbase.py:85-151 | The for loop with its inner while loop computes `extend_weekends`. |
| Calendars.ExtendHoliday | timeboard/calendars/calendarbase.py:129-149 | One iteration of the loop adds the day its definition prescribes. |
| Calendars.FoldPrefix | timeboard/calendars/calendarbase.py:123-149 | Processing one more holiday is one loop step. |
| Calendars.FoldKeeps | timeboard/calendars/calendarbase.py:146-149 | Processing holidays never overwrites an existing entry. |
| Calendars.OriginalsKept | timeboard/calendars/calendarbase.py:146-149 | Original entries are never overwritten. |
| Calendars.FoldCount | timeboard/calendars/calendarbase.py:123-149 | Processing distinct holidays adds exactly one key per weekend holiday. |
| Calendars.OneDayPerWeekendHoliday | timeboard/calendars/calendarbase.py:123-149 | The result has one more key per weekend holiday than the input. |
| Calendars.SameHolidays | timeboard/calendars/calendarbase.py:123-128 | The weekend holidays of the sorted keys are those of the dictionary. |
| Calendars.FoldOffWeekend | timeboard/calendars/calendarbase.py:124-128 | Holidays off the weekend add nothing. |
| Calendars.NoWeekendHolidays | timeboard/calendars/calendarbase.py:124-128 | With no weekend holiday, or an empty weekend, the dictionary is unchanged. |
| Calendars.FoldLabels | timeboard/calendars/calendarbase.py:129-132 | Every added day carries the given label or, without one, the label of a weekend holiday. |
| Calendars.AddedLabels | timeboard/calendars/calendarbase.py:129-132 | Every added day carries the given label or, without one, the label of a weekend holiday being extended. |
| Calendars.AscendingOrder | timeboard/calendars/calendarbase.py:123-149 | Holidays go in ascending order. A Saturday and Sunday holiday with `previous` give a Thursday and Friday with the Sunday's and Saturday's labels. |
| Calendars.FoldFirstHoliday | timeboard/calendars/calendarbase.py:123-149 | The Saturday holiday, processed first, adds the Friday before it. |
| Calendars.FoldSecondHoliday | timeboard/calendars/calendarbase.py:123-149 | The Sunday holiday is processed second. |
| Calendars.WeekendKeysSorted | timeboard/calendars/calendarbase.py:123 | The two keys are visited Saturday first. |
| Calendars.SaturdayFirst | timeboard/calendars/calendarbase.py:133-149 | Saturday with `previous` adds the Friday. |
| Calendars.SundaySecond | timeboard/calendars/calendarbase.py:133-149 | Sunday with `previous` probes past the taken days to the Thursday. |
| Calendars.NearestTieGoesForward | timeboard/calendars/calendarbase.py:139-145 | With a one-day weekend `nearest` goes forward. |
| Calendars.CheckTime | timeboard/calendars/calendarbase.py:321-331 | Pass iff the point is within the calendar's range, otherwise OutOfBounds. |
| Calendars.GetBounds | timeboard/calendars/calendarbase.py:334-353 | Ok iff each given custom bound lies in the range, otherwise OutOfBounds. A bound not given defaults to the calendar's. |
| Calendars.BaseAmendments | timeboard/calendars/calendarbase.py:304-318 | The base calendar's amendments are the custom ones, or none. |
| Calendars.SelectAmendments | timeboard/calendars/calendarbase.py:373-381 | `do_not_amend` gives none. `only_custom_amendments` gives exactly the custom ones. Otherwise the class's. |
| Calendars.NewCalendar | timeboard/calendars/calendarbase.py:355-383 | Fails iff the bounds check fails. Otherwise the bounds and the selected amendments. |

## Left out

- Time: timestamps, periods and frequencies of the date library are not modelled. A frame is increasing integer start times, and `_Frame.__new__` is not modelled.
- Marks: `when.py` (mark generation through date offsets and Easter) is not part of this model. Marks are resolved base-unit positions.
- Dangles: the period arithmetic inside `partition_with_marker` (timeboard/core.py:414-496) is an input. A Marker carries a function from a span to its marks and dangles.
- Period rules: `is_subperiod` and the validity of a frequency string are uninterpreted predicates, the `PeriodRules` parameter.
- Rendering: `to_dataframe`, `__repr__`, `compact_str` and `__str__` are not modelled.
- National calendars: the holiday tables of `RU.py`, `UK.py` and `US.py` are not modelled. Neither are `nth_weekday_of_month` and `from_easter`, which are date-library arithmetic.
- Calendar inputs: a calendar's `parameters()` enter `Calendars.NewCalendar` as values. Building the Timeboard from them is `Timeboards.Create`.
- `_sum_labels`, `Interval.worktime` and `Interval.sum`: these use Python's polymorphic `sum`. Worktime's numeric label is an `Option<real>` input.
- Workshift indices: negative-index wrap-around in `Workshift.__init__` is not modelled; locations are `nat`.
- Names: `str(name)` in `add_schedule` and `_Schedule` is not modelled; names are strings.
- Amendment keys: their `get_timestamp` normalisation is left out; keys are day numbers or points in time.
- `extend_weekends` validates `how` with an assert. The model makes `how` a three-valued datatype, so the AssertionError path is not modelled. Python AssertionErrors elsewhere are left out for the same reason.
- Periods of `count_periods`: the `get_interval` result for each period, and the period positions of the first and last duty workshifts, are inputs. They come from date arithmetic.
- `Intervals.CombinePeriods`: the contract states only the IndexError case. The value is stated by `Intervals.SinglePeriodCount` (one period) and `Intervals.CombineSeveralPeriods` (several periods, first and last present with non-zero duty counts and both partial counts defined). No lemma states the value when a first or last period is missing, has a zero duty count or its partial count fails; the function body returns AttributeError, ZeroDivision or the count's error there.
- `Intervals.WhatPortionOf`: the contract states only the void case and the error kinds. The value for every valid duty is stated by `Intervals.WhatPortionOfValue`, and for an invalid duty by `Intervals.WhatPortionOfInvalidDuty`.
- `Intervals.FindBoundsInIdx` and `Intervals.DutyBounds` assume an increasing index, as every index a schedule builds is. The checks on the interval's schedule type are not modelled.
- `Timeboards.Create`: the contract does not restate the organized labels. Those are `Timelines.Build`'s, and Create only passes them to the timeboard. Argument processing of `Timeboard.__init__` beyond the layout, amendments and work-time checks (building the frame, the default selector) is not modelled.
- `Timeboards.GetInterval`: the dispatch over the arguments' Python types is a `Query` datatype. Locating the timestamps is `Timeboards.Locate`.
- Timeboard methods: `__call__`, `get_workshift` and `_handle_*` are not modelled. They resolve timestamps against the frame, which is `Bands.WsPosition` and `Timeboards.Locate` here.
- Timelines.Timeline.PlaceRememberingLabels: every label drawn from a RememberingPattern used as the whole structure is placed as a scalar label, so the span becomes one compound workshift. In the library each drawn element goes through the same dispatch as a layout (timeboard/core.py:741-754): a drawn Organizer would be applied recursively and a drawn iterable as a pattern. The model's labels are values of an arbitrary type, which cannot themselves be organizers or patterns. `Timelines.DrawnLabelsOf` has the same limit.
- Floating point: ratios are exact `real`s, so rounding is not modelled.
- Concurrency: there is none in the library.
