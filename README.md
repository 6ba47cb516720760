# Shift scheduler: a verified model of the scheduling core

This project models the core of a guard-duty shift scheduler. An ASP.NET Core
back end generates a roster of guard and standby ("כוננות") shifts for a
list of soldiers over a date range. A controller holds the current schedule
and lets the user swap two soldiers or replace one assignment. The web front
end turns a pasted list of names into soldiers and turns the checked boxes of
a constraints form into a soldier's forbidden days, hours and posts.

The model has six modules:

- `Domain` holds the entities and the time arithmetic.
  - Instants are whole seconds since 1970-01-01, which was a Thursday.
  - A date is a day number, and `DateText` renders it as `yyyy-MM-dd`.
  - `Weekday` numbers the days with Sunday as 0.
- `TimeSlots` models `GenerateTimeSlots`.
  - Each day's hour window is split into as many evenly spaced shifts as there are posts.
  - Offsets are rounded with `Math.Round`'s round-half-to-even rule.
  - Candidates outside the configured time range are skipped.
  - The loops are proved against a specification function `Plan`.
- `Availability` models `GetAvailableSoldiers` and the fallback filter.
  - The checks are: commander requirement, forbidden days, forbidden hours (including the midnight wrap and the next day), forbidden posts, already booked in the slot, 8 h guard spacing, and 4 h standby spacing unless the shift is continuous from a guard shift.
- `Ranking` models `SelectBestSoldier` and the `GetHoursSince*` and `CanBeContinuousFromGuard` helpers.
  - The rest key is `Rest = Finite(seconds) | Infinite`. `Infinite` stands for `double.MaxValue`.
  - A candidate is chosen as the first maximal element of a stable sort.
- `Assembler` models `GenerateScheduleAsync` as imperative methods over the per-soldier history map.
  - The guard pass runs first, then the standby pass.
  - The standby pass gives priority to the soldiers coming off the previous slot's guard posts, taken in groups of four.
  - The methods are proved equal to pure reference functions, which say who is assigned to which post:
    - `Give` assigns one post to a pick, appending the assignment and the soldier's history record.
    - `GuardFill` gives each guard post in order to its strict-or-relaxed pick.
    - `StandbyChoice` picks for one standby post: first the soldier at the continuity pointer, else the strict-or-relaxed pick.
    - `StandbyFill` applies `StandbyChoice` to each standby post in order.
    - `SlotFill` runs the guard pass and then the standby pass.
    - `Days` fills the slots one after another, handing each slot's guards and history to the next slot.
    - `Schedule` is `Days` over the numbered plan, starting from an empty history.
- `ScheduleStore` models the controller. Its class `ScheduleStore` holds the current schedule as a field, and its methods are the `generate`, `PUT`, `swap` and `replace` endpoints.
- `RosterInput` models the parsing of a pasted list of names and the collection of constraints in `frontend/app.js`.

Where the written code and its comments disagree, the model follows the code:

- The standby spacing test is `IsStandby && gapBefore || gapAfter`, with C#'s precedence. The gap after the slot is therefore checked against every recorded shift, guard shifts included, and not only against standby shifts (`Availability.StandbyConflict`).
- Spacing is rounded half to even, as `Math.Round` does by default, and not half away from zero.
- The third sort key repeats the second: ordering by fairness descending is the same as ordering by load ascending, because within one call every candidate's average is the same.

## Model

| member | source | states |
|---|---|---|
| TimeSlots.RoundHalfEven | src/ShiftScheduler.API/Services/SchedulerService.cs:363 | the result is within half a unit of n/d; at an exact half it is even (Math.Round's default) |
| TimeSlots.RoundedSpacingBounds | src/ShiftScheduler.API/Services/SchedulerService.cs:357-363 | the rounded offset of the k-th of spd shifts is between 0 and the day's available hours |
| TimeSlots.AvailableHours | src/ShiftScheduler.API/Services/SchedulerService.cs:351-353 | the inclusive count of hours from the start hour to the end hour, wrapping past midnight when the end is earlier; always 1..24 |
| TimeSlots.StartHourOffset | src/ShiftScheduler.API/Services/SchedulerService.cs:363-364 | the start hour is in 0..23 and equals the day start plus the rounded offset, less 24 at most once |
| TimeSlots.DayPlan | src/ShiftScheduler.API/Services/SchedulerService.cs:360-423 | a day yields at most one slot per candidate shift |
| TimeSlots.PastEnd | src/ShiftScheduler.API/Services/SchedulerService.cs:376-412 | the candidate is skipped exactly when the end-side rules reject it (predicate `Kept`) |
| TimeSlots.GenerateTimeSlots | src/ShiftScheduler.API/Services/SchedulerService.cs:318-429 | the slots are exactly the kept candidates of every day from start date to end date, in order, numbered 0, 1, 2, … |
| TimeSlots.AddDaySlots | src/ShiftScheduler.API/Services/SchedulerService.cs:341-423 | one day appends its kept candidates in order and continues the running shift number |
| TimeSlots.AddCandidate | src/ShiftScheduler.API/Services/SchedulerService.cs:358-422 | one candidate is appended, numbered on, exactly when it passes the skip rules; otherwise nothing changes |
| TimeSlots.CandidateOnItsDay | src/ShiftScheduler.API/Services/SchedulerService.cs:363-366 | a candidate shift starts on its own day, at the computed hour |
| TimeSlots.AtHourSplits | src/ShiftScheduler.API/Services/SchedulerService.cs:366 | an hour in 0..23 added to a date falls on that date at that hour |
| TimeSlots.DayPlanSound | src/ShiftScheduler.API/Services/SchedulerService.cs:360-423 | every slot of a day lies on that day, lasts exactly the shift length and passed the skip rules |
| TimeSlots.PlanBetweenSound | src/ShiftScheduler.API/Services/SchedulerService.cs:339-426 | every slot of a run of days lies on one of those days and passed the skip rules |
| TimeSlots.PlanWindowsInRange | src/ShiftScheduler.API/Services/SchedulerService.cs:331-412 | every slot is within the date range, starts no earlier than the total start and meets the end-hour rule |
| TimeSlots.DayPlanComplete | src/ShiftScheduler.API/Services/SchedulerService.cs:360-423 | every candidate of a day that passes the skip rules is emitted |
| TimeSlots.PlanBetweenComplete | src/ShiftScheduler.API/Services/SchedulerService.cs:339-426 | every kept candidate of every day in a run of days is emitted |
| TimeSlots.PlanComplete | src/ShiftScheduler.API/Services/SchedulerService.cs:339-426 | every kept candidate of every day from start date to end date is in the plan |
| TimeSlots.PlanBetweenOrdered | src/ShiftScheduler.API/Services/SchedulerService.cs:339-426 | slot dates never decrease along the slots of a run of days |
| TimeSlots.PlanBetweenPrefix | src/ShiftScheduler.API/Services/SchedulerService.cs:339-426 | adding a day leaves the slots of the earlier days first and unchanged |
| TimeSlots.PlanBetweenLastDay | src/ShiftScheduler.API/Services/SchedulerService.cs:339-426 | the slots after those of the earlier days lie on the added day |
| TimeSlots.PlanOrdered | src/ShiftScheduler.API/Services/SchedulerService.cs:339-426 | slot dates never decrease along the plan |
| Domain.DateText | src/ShiftScheduler.API/Services/SchedulerService.cs:66 | ten characters: dashes at positions 4 and 7, decimal digits everywhere else |
| Domain.DigitsSpell | src/ShiftScheduler.API/Services/SchedulerService.cs:66 | the zero-padded rendering of n in w digits reads back as n modulo 10^w |
| Domain.DateTextSpells | src/ShiftScheduler.API/Services/SchedulerService.cs:66 | the date text reads back as the calendar year (last four digits), month and day of the day number |
| Domain.DateFields | src/ShiftScheduler.API/Services/SchedulerService.cs:66 | the three fields of `yyyy-MM-dd` read back as the year modulo 10000, the month and the day modulo 100 |
| Availability.Range | src/ShiftScheduler.API/Services/SchedulerService.cs:474-477 | an hour is listed exactly when lo <= h < hi |
| Availability.ShiftHours | src/ShiftScheduler.API/Services/SchedulerService.cs:468-501 | the hours checked are start..end-1, or start..23 then 0..end-1 when the shift crosses midnight |
| Availability.AvailableSoldiers | src/ShiftScheduler.API/Services/SchedulerService.cs:431-579 | a soldier is returned exactly when listed and every rule admits them; roster order is kept |
| Availability.FallbackSoldiers | src/ShiftScheduler.API/Services/SchedulerService.cs:106-118 | a soldier is returned exactly when listed, allowed by the commander rule and not yet booked in the slot; roster order is kept |
| Availability.AvailableWithinFallback | src/ShiftScheduler.API/Services/SchedulerService.cs:82-131 | the strict list is contained in the relaxed list, so an empty relaxed list means the strict one is empty too |
| Availability.GuardRestIsSpacing | src/ShiftScheduler.API/Services/SchedulerService.cs:526-554 | the guard test passes exactly when every recorded guard shift ends at least 8 h before the slot or starts at least 8 h after it |
| Availability.StandbyRestIsSpacing | src/ShiftScheduler.API/Services/SchedulerService.cs:557-573 | the standby test, as parenthesised in the code, passes exactly when standby shifts that ended before the slot ended at least 4 h earlier and every shift starting after the slot starts at least 4 h later |
| Availability.AdmittedMeetsEveryRule | src/ShiftScheduler.API/Services/SchedulerService.cs:440-577 | an admitted soldier meets the commander rule and is not booked in the slot; the weekday and the post are not forbidden; no hour from the start hour to the end (through 23 and on from 0 when the shift crosses midnight) is forbidden on the start day, and when the start day lists hours and the shift crosses midnight, no hour 0..end-1 is forbidden on the next day |
| Availability.NextDayNeedsStartDay | src/ShiftScheduler.API/Services/SchedulerService.cs:461-495 | when the start day has no forbidden hours, the shift passes the hours check whatever the next day forbids |
| Ranking.LatestEndBefore | src/ShiftScheduler.API/Services/SchedulerService.cs:638-641 | the latest end among shifts of the kind that ended before the start, and nothing exactly when there is none |
| Ranking.HoursSince | src/ShiftScheduler.API/Services/SchedulerService.cs:628-693 | top key exactly when the history is empty; 24 h when no shift of the kind ended before; else the least time since such a shift ended, always positive |
| Ranking.LatestEndIsMaxOfKinds | src/ShiftScheduler.API/Services/SchedulerService.cs:628-693 | the last shift of any kind ended at the later of the last guard end and the last standby end |
| Ranking.PrimaryKey | src/ShiftScheduler.API/Services/SchedulerService.cs:608-622 | guard post: rest since the last guard shift; standby post: 1000 h when continuous from a guard shift, else rest since the last standby shift |
| Ranking.OutranksIsStrictWeakOrder | src/ShiftScheduler.API/Services/SchedulerService.cs:608-624 | the sort order is irreflexive, asymmetric, transitive, and incomparability is transitive |
| Ranking.BestIndex | src/ShiftScheduler.API/Services/SchedulerService.cs:597-625 | no candidate outranks the chosen one, and it outranks every candidate before it |
| Ranking.SelectBestSoldier | src/ShiftScheduler.API/Services/SchedulerService.cs:581-626 | nothing exactly for an empty list; otherwise the first candidate of the stable descending sort |
| Ranking.LighterWinsTies | src/ShiftScheduler.API/Services/SchedulerService.cs:623-624 | among candidates with equal primary keys, the winner holds no more shifts than any other |
| Ranking.NoHistoryBeatsContinuity | src/ShiftScheduler.API/Services/SchedulerService.cs:618-620 | for a standby post, a soldier with no history outranks one who is continuous from a guard shift |
| Assembler.GuardPositions | src/ShiftScheduler.API/Services/SchedulerService.cs:77 | exactly the guard posts, in order |
| Assembler.StandbyPositions | src/ShiftScheduler.API/Services/SchedulerService.cs:78 | exactly the standby posts, in order |
| Assembler.StrictOrRelaxed | src/ShiftScheduler.API/Services/SchedulerService.cs:82-131 | a pick is a listed soldier who meets the commander rule and is free in the slot; it comes from the available list when that is non-empty; nobody is picked exactly when every soldier is barred or booked |
| Assembler.Commit | src/ShiftScheduler.API/Services/SchedulerService.cs:133-151 | one assignment is appended and one record is added to that soldier's history; the slot invariant is kept |
| Assembler.FillGuard | src/ShiftScheduler.API/Services/SchedulerService.cs:80-155 | the pick is the strict-or-relaxed choice; with a pick, exactly one assignment of that soldier to the post is appended and exactly that soldier's history gains this slot's record (the `Give` step); with none, nothing changes; afterwards the post is covered and the slot invariant holds |
| Assembler.GuardStep | src/ShiftScheduler.API/Services/SchedulerService.cs:80-155 | one guard post is handled as `Give` of the strict-or-relaxed pick on the state before it; posts before it stay covered, it is covered now, the slot invariant is kept and the guard ids still match the assignments |
| Assembler.GuardPass | src/ShiftScheduler.API/Services/SchedulerService.cs:74-156 | the history and the assignments are exactly the reference guard pass `GuardFill` over the guard posts in order; every guard post is filled or nobody could fill it; the guard ids returned are the assigned soldiers in order |
| Assembler.GuardFillStep | src/ShiftScheduler.API/Services/SchedulerService.cs:80-155 | the guard pass from post k is post k given to its strict-or-relaxed pick, then the pass from post k+1 |
| Assembler.PreviousGuardCandidates | src/ShiftScheduler.API/Services/SchedulerService.cs:160-173 | exactly the soldiers of the previous guard pass that the first standby post admits, in roster order, and none if either list is empty |
| Assembler.GroupByFour | src/ShiftScheduler.API/Services/SchedulerService.cs:175-180 | the groups are non-empty, hold at most 4 soldiers each, all but the last hold exactly 4, and together they concatenate to the list |
| Assembler.OfferContinuity | src/ShiftScheduler.API/Services/SchedulerService.cs:199-238 | the pointer advances by one soldier per offer until the groups run out; the soldier is taken exactly when they are available and not yet assigned in the slot |
| Assembler.ChooseStandby | src/ShiftScheduler.API/Services/SchedulerService.cs:187-282 | the pick and the new pointer are exactly `StandbyChoice`: the soldier at the continuity pointer when someone is available and that soldier is available and free, otherwise the strict-or-relaxed pick; a pick meets the commander rule and is free in the slot; nobody is picked exactly when every soldier is barred or booked; the pointer moves by one only when someone is available |
| Assembler.CursorInRange | src/ShiftScheduler.API/Services/SchedulerService.cs:175-238 | the continuity pointer, read as a position in the flattened candidate list, is within that list |
| Assembler.StandbyChoiceSound | src/ShiftScheduler.API/Services/SchedulerService.cs:187-282 | the reference standby choice picks a listed soldier who meets the commander rule and is free in the slot, and picks nobody only when every soldier is barred or booked |
| Assembler.StandbyChoiceCursor | src/ShiftScheduler.API/Services/SchedulerService.cs:187-238 | the reference standby choice advances the pointer by one exactly when someone is available and the list is not used up, and takes the soldier at the pointer when that soldier is available and free |
| Assembler.FillStandby | src/ShiftScheduler.API/Services/SchedulerService.cs:185-303 | the new history, assignments and pointer are `Give` of the `StandbyChoice` pick on the old state; in particular the soldier at the continuity pointer is assigned when available and free, and the pointer moves only when someone is available; afterwards the post is covered and the slot invariant holds |
| Assembler.StandbyPass | src/ShiftScheduler.API/Services/SchedulerService.cs:158-304 | the history and the assignments are exactly the reference standby pass `StandbyFill` over the standby posts in order, the pointer starting at the first previous-guard candidate; every standby post is filled or nobody could fill it; earlier assignments are kept |
| Assembler.StandbyStep | src/ShiftScheduler.API/Services/SchedulerService.cs:185-303 | one standby post is handled as the reference pass prescribes for it; posts before it stay covered and it is covered now |
| Assembler.StandbyFillStep | src/ShiftScheduler.API/Services/SchedulerService.cs:185-303 | the standby pass from post k is post k given to its `StandbyChoice` pick, then the pass from post k+1 with the moved pointer |
| Assembler.StandbyCovered | src/ShiftScheduler.API/Services/SchedulerService.cs:158-304 | covering every post of the standby list covers every standby post of the roster |
| Assembler.FillSlot | src/ShiftScheduler.API/Services/SchedulerService.cs:62-311 | the slot's history and assignments are exactly `SlotFill` (the guard pass, then the standby pass from the previous slot's guards) and the guard ids are that guard pass's soldiers; the entry carries its date text, number and times; no soldier appears twice; every assignment names a real post and a soldier who fits it; every post is covered |
| Assembler.InitHistory | src/ShiftScheduler.API/Services/SchedulerService.cs:40-46 | every soldier starts with an empty history, and the map is `EmptyHistory` of the roster |
| Assembler.GenerateSchedule | src/ShiftScheduler.API/Services/SchedulerService.cs:27-316 | empty posts or soldiers fail with the matching error; otherwise the result is exactly `Schedule`, the reference run over the planned slots, and it has one entry per planned slot, in order, each filled as FillSlot states |
| Assembler.FillSlots | src/ShiftScheduler.API/Services/SchedulerService.cs:57-313 | the schedule is exactly `Days` over the numbered slots, starting with no previous guards, and has one filled entry per planned slot |
| Assembler.AddDay | src/ShiftScheduler.API/Services/SchedulerService.cs:62-311 | one slot is appended as `Days` prescribes, its guards becoming the next slot's previous guards |
| Assembler.ExtendDays | src/ShiftScheduler.API/Services/SchedulerService.cs:62-311 | appending the filled slot keeps the schedule plus the rest of the run equal to the reference run |
| Assembler.DaysStep | src/ShiftScheduler.API/Services/SchedulerService.cs:62-311 | the run from slot i is slot i's entry followed by the run from slot i+1 with its guards and history |
| Assembler.Give | src/ShiftScheduler.API/Services/SchedulerService.cs:133-151 | giving a post keeps the set of tracked soldiers and only appends to the assignments |
| Assembler.GuardFill | src/ShiftScheduler.API/Services/SchedulerService.cs:74-156 | the reference guard pass keeps the set of tracked soldiers |
| Assembler.StandbyChoice | src/ShiftScheduler.API/Services/SchedulerService.cs:187-282 | the reference standby choice picks only tracked soldiers |
| Assembler.StandbyFill | src/ShiftScheduler.API/Services/SchedulerService.cs:158-304 | the reference standby pass keeps the set of tracked soldiers |
| Assembler.SlotFill | src/ShiftScheduler.API/Services/SchedulerService.cs:62-311 | the reference slot fill keeps the set of tracked soldiers |
| Assembler.Days | src/ShiftScheduler.API/Services/SchedulerService.cs:57-313 | the reference run yields one entry per slot |
| Assembler.EmptyHistory | src/ShiftScheduler.API/Services/SchedulerService.cs:40-46 | every soldier is tracked and every history is empty |
| ScheduleStore.SwapAssignments | src/ShiftScheduler.API/Controllers/ScheduleController.cs:82-94 | each assignment is swapped by the first-soldier-then-second rule, pointwise |
| ScheduleStore.SwapAll | src/ShiftScheduler.API/Controllers/ScheduleController.cs:79-95 | shifts and posts are unchanged; soldier 1 becomes soldier 2; otherwise soldier 2 becomes soldier 1; anyone else is untouched |
| ScheduleStore.SwapTwiceRestoresIds | src/ShiftScheduler.API/Controllers/ScheduleController.cs:79-95 | swapping twice restores every soldier id |
| ScheduleStore.FindShift | src/ShiftScheduler.API/Controllers/ScheduleController.cs:108 | the first shift with that date and number, or nothing exactly when none exists |
| ScheduleStore.FindTarget | src/ShiftScheduler.API/Controllers/ScheduleController.cs:113-115 | the first assignment on the post (held by the old soldier when one is named), or nothing exactly when none exists |
| ScheduleStore.ScheduleStore.constructor | src/ShiftScheduler.API/Controllers/ScheduleController.cs:12 | the schedule starts empty |
| ScheduleStore.ScheduleStore.Update | src/ShiftScheduler.API/Controllers/ScheduleController.cs:66-71 | the schedule is replaced wholesale |
| ScheduleStore.ScheduleStore.SwapSoldiers | src/ShiftScheduler.API/Controllers/ScheduleController.cs:73-98 | a request with either id missing is refused and nothing changes; otherwise the schedule becomes SwapAll of the old one |
| ScheduleStore.ScheduleStore.ReplaceAssignment | src/ShiftScheduler.API/Controllers/ScheduleController.cs:100-132 | a request missing its date, post or new soldier is refused; an unknown shift is not found; otherwise only that shift changes, by overwriting the target assignment or appending a new one |
| ScheduleStore.ScheduleStore.Generate | src/ShiftScheduler.API/Controllers/ScheduleController.cs:25-64 | succeeds exactly when the dates are ordered, any given hours are in 0..23 and there are posts and soldiers; otherwise nothing changes; on success the schedule is exactly the reference run `Schedule` of the request |
| ScheduleStore.ReplacedShiftHoldsNewSoldier | src/ShiftScheduler.API/Controllers/ScheduleController.cs:117-129 | after a replacement the shift holds the new soldier on the requested post |
| RosterInput.Trim | frontend/app.js:444 | the result neither starts nor ends with white space |
| RosterInput.TrimmedIsFixed | frontend/app.js:444 | trimming a trimmed string changes nothing |
| RosterInput.TrimEmptyIsAllWs | frontend/app.js:447 | a string trims to nothing exactly when it is all white space |
| RosterInput.Split | frontend/app.js:457 | at least one piece, and no piece contains the separator |
| RosterInput.SplitJoin | frontend/app.js:457 | joining the pieces with the separator gives back the input |
| RosterInput.JoinNewPiece | frontend/app.js:457 | starting a new empty piece adds one separator to the join |
| RosterInput.JoinExtendLast | frontend/app.js:457 | extending the last piece by a character extends the join by it |
| RosterInput.Clean | frontend/app.js:457 | every name kept is non-empty and trimmed; there are no more names than pieces |
| RosterInput.CleanInOrder | frontend/app.js:457 | the names kept are a subsequence of the trimmed pieces, in piece order, none empty |
| RosterInput.CleanKeepsAll | frontend/app.js:457 | every non-empty trimmed piece is kept as often as it occurs |
| RosterInput.Trims | frontend/app.js:457 | one trimmed piece per piece |
| RosterInput.Words | frontend/app.js:465 | every word is non-empty and contains no white space |
| RosterInput.WordsCoverText | frontend/app.js:465 | the words written one after the other are exactly the non-space characters of the text, in order |
| RosterInput.NonWsAppend | frontend/app.js:465 | dropping white space distributes over concatenation |
| RosterInput.NonWsOfWord | frontend/app.js:465 | a string without white space is unchanged by dropping white space |
| RosterInput.WordsOfSingle | frontend/app.js:474 | a single word splits to itself |
| RosterInput.WordsOfPair | frontend/app.js:474 | two words joined by a space split apart again |
| RosterInput.PairedCount | frontend/app.js:471-478 | pairing n words yields (n + 1) / 2 names |
| RosterInput.PairedSplitsBack | frontend/app.js:471-478 | splitting the paired names into words again gives back the words, in order |
| RosterInput.PairedAreTrimmed | frontend/app.js:471-478 | every paired name is non-empty and trimmed |
| RosterInput.PairWords | frontend/app.js:471-478 | the loop yields the pairing of the words |
| RosterInput.NamesAreTrimmed | frontend/app.js:452-480 | every parsed name is non-empty and trimmed, in every branch |
| RosterInput.NoNamesOnlyFromCommas | frontend/app.js:452-482 | a non-blank input yields no names only when it has a comma, no newline, and every character is a comma or white space |
| RosterInput.JoinAllWs | frontend/app.js:457 | pieces of white space joined by a separator hold only the separator and white space |
| RosterInput.ParseNames | frontend/app.js:443-482 | blank input is refused as empty; otherwise the names per branch, refused when there are none |
| RosterInput.KeepDays | frontend/app.js:783-785 | every day kept is in 0..6, and a day is kept exactly when it parsed to a number in 0..6 |
| RosterInput.KeepDaysInOrder | frontend/app.js:783-785 | the kept days, as parsed values, are a subsequence of the values, in order |
| RosterInput.KeepDaysKeepsAll | frontend/app.js:783-785 | each day 0..6 is kept as often as it was checked |
| RosterInput.HoursFor | frontend/app.js:789-798 | the hours collected for a day are all in 0..23 |
| RosterInput.HoursForEmpty | frontend/app.js:789-798 | a day collects no hours exactly when no counted box names that day |
| RosterInput.CollectStep | frontend/app.js:790-797 | one more box keeps the map grouped: each key is a day with hours and maps to exactly that day's hours so far |
| RosterInput.CollectHoursByDay | frontend/app.js:788-798 | a day is a key exactly when some counted box names it, and it maps to that day's hours in box order |
| RosterInput.DropEmpty | frontend/app.js:800-805 | exactly the days with a non-empty list remain, each list unchanged |
| RosterInput.DropEmptyAfterCollect | frontend/app.js:800-805 | after collecting, removing empty lists removes nothing |
| RosterInput.NullIfEmpty | frontend/app.js:811-815 | null exactly for an empty list |
| RosterInput.SaveConstraints | frontend/app.js:783-815 | days 0..6, hours 0..23 grouped by day in box order, and posts as checked; each category is null exactly when empty, so none is an empty list |

## Left out

- Console logging, the repositories and the settings service are not modelled. The posts, the soldiers and the shift length (in whole seconds) become parameters of `GenerateSchedule` and `Generate`.
- `DateTime` and `double` become integers. Shift lengths are whole seconds, and rest times are compared in seconds rather than as fractional hours. The ordering is the same for every whole-second input.
- `double.MaxValue` and `1000.0` become the keys `Infinite` and `Finite(3600000)`. The 24-hour default is `Finite(86400)`.
- Ranking.SelectBestSoldier: the `previousSlot` and `previousGuardSoldiers` parameters are not modelled, because the source never reads them. The fairness score is modelled as the number of shifts held, ascending. This gives the same order because the average in that score is the same for every candidate in one call.
- Assembler.OfferContinuity: the branch for a group index within range but a soldier index past the group's end is not modelled. Groups are never empty and the soldier index is reset on every group change, so that branch cannot run.
- The ASP.NET plumbing is not modelled: JSON binding, HTTP status bodies, the catch-all that answers 500, and `Get`. Null request strings are modelled as the empty string, which `string.IsNullOrEmpty` treats alike. A null `PositionName` is `None`.
- Aliasing of the shared assignment objects between the controller's list and the lists it returned earlier is not modelled. The schedule is a value held in one field.
- Concurrency between requests to the static schedule is not modelled.
- RosterInput: the DOM reads, notifications, the `fetch` calls that create soldiers and the `markAllAsCommanders` flag are not modelled. Checkbox values arrive already parsed: `parseInt` is the `Option<int>` given, with `None` for `NaN`. An undefined `data-day` is `None`.
- RosterInput.IsWs follows ECMAScript's white space and line terminators. `split(/\s+/)` is modelled by its effect after `.filter(w => w)`, namely the maximal runs of non-space characters.
- Domain.DateTextSpells: the month and the day are read back modulo 100 and the year modulo 10000. That the calendar conversion yields months 1..12 and days 1..31 is not proved. `DateTime` years are 1..9999, so the year field loses nothing.
