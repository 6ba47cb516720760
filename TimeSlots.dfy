/** Partition of the requested date range into shift windows
    (SchedulerService.GenerateTimeSlots).

    Each day gets `shiftsPerDay` candidate starts spread evenly over the day's
    hour window; a candidate outside the global range is skipped and consumes
    no shift number. `Plan` is the specification of the emitted windows, and
    the method `GenerateTimeSlots` is proved to produce exactly it, numbered
    0, 1, 2, ... */
module TimeSlots {
  import opened Domain

  /** A shift window before it is numbered. */
  datatype Window = Window(date: int, start: int, end: int)

  /** `Math.Round(n / d)` with .NET's default rounding: to nearest, ties to even. */
  function RoundHalfEven(n: int, d: int): (r: int)
    requires d > 0
    ensures -d <= 2 * (n - r * d) <= d
    ensures 2 * (n - r * d) == d || 2 * (n - r * d) == -d ==> r % 2 == 0
  {
    var q, rem := n / d, n % d;
    assert n == q * d + rem;
    if 2 * rem < d || (2 * rem == d && q % 2 == 0) then
      assert n - q * d == rem;
      q
    else
      assert (q + 1) * d == q * d + d;
      assert n - (q + 1) * d == rem - d;
      q + 1
  }

  /** Rounding `k * avail / spd` for a shift index below `spd` stays in `0..avail`. */
  lemma RoundedSpacingBounds(k: int, avail: int, spd: int)
    requires 0 <= k < spd && 1 <= avail
    ensures 0 <= RoundHalfEven(k * avail, spd) <= avail
  {
    var n := k * avail;
    var r := RoundHalfEven(n, spd);
    MulMonotone(k, spd - 1, avail);
    MulMonotone(0, k, avail);
    assert (spd - 1) * avail == spd * avail - avail;
    assert 0 * avail == 0;
    assert (avail + 1) * spd == avail * spd + spd;
    assert spd * avail == avail * spd;
    assert r * spd < (avail + 1) * spd;
    MulCancel(r, avail + 1, spd);
    assert (-1) * spd == -spd;
    assert (-1) * spd < r * spd;
    MulCancel(-1, r, spd);
  }

  /** Total start and end of the requested range (lines 331-332). */
  function TotalStart(config: ScheduleConfig): int {
    if config.startHour.Some? then AtHour(DayOf(config.startDate), config.startHour.value)
    else AtHour(DayOf(config.startDate), 0)
  }

  /** Without an end hour the range ends one second before the day after EndDate. */
  function TotalEnd(config: ScheduleConfig): int {
    if config.endHour.Some? then AtHour(DayOf(config.endDate), config.endHour.value)
    else AtHour(DayOf(config.endDate) + 1, 0) - 1
  }

  /** First and last hour of a day's window: StartHour only bounds the first
      day and EndHour only the last one. */
  function DayStartHour(config: ScheduleConfig, day: int): int {
    if day == DayOf(config.startDate) && config.startHour.Some? then config.startHour.value else 0
  }

  function DayEndHour(config: ScheduleConfig, day: int): int {
    if day == DayOf(config.endDate) && config.endHour.Some? then config.endHour.value else 23
  }

  /** Hours available in a day's window, counting both end hours; a window
      whose end precedes its start wraps past midnight. */
  function AvailableHours(startHour: int, endHour: int): (n: int)
    requires 0 <= startHour <= 23 && 0 <= endHour <= 23
    ensures 1 <= n <= 24
    ensures endHour >= startHour ==> startHour + n == endHour + 1
    ensures endHour < startHour ==> startHour + n == endHour + 25
  {
    if endHour >= startHour then endHour - startHour + 1 else 24 - startHour + endHour + 1
  }

  /** Hour of the day at which the `k`-th of `spd` evenly spaced shifts starts:
      the window start plus round(k * avail / spd), brought back below 24. */
  function StartHourOffset(dayStart: int, k: int, avail: int, spd: int): (h: int)
    requires 0 <= dayStart <= 23 && 1 <= avail <= 24 && 0 <= k < spd
    ensures 0 <= h <= 23
    ensures h == dayStart + RoundHalfEven(k * avail, spd) || h == dayStart + RoundHalfEven(k * avail, spd) - 24
  {
    RoundedSpacingBounds(k, avail, spd);
    var h := dayStart + RoundHalfEven(k * avail, spd);
    if h >= 24 then h - 24 else h
  }

  /** Start instant of the `k`-th candidate shift of `day`. */
  function CandidateStart(config: ScheduleConfig, spd: int, day: int, k: int): int
    requires HoursInRange(config) && 0 <= k < spd
  {
    var s := DayStartHour(config, day);
    AtHour(day, StartHourOffset(s, k, AvailableHours(s, DayEndHour(config, day)), spd))
  }

  /** The skip rules of lines 370-412: false when the candidate is dropped. */
  predicate Kept(config: ScheduleConfig, day: int, start: int, end: int) {
    if start < TotalStart(config) then false
    else if day == DayOf(config.endDate) && config.endHour.Some? then
      var endHour := config.endHour.value;
      !(DayOf(start) == day && HourOf(start) > endHour) &&
      !(DayOf(end) == day && HourOf(end) > endHour) &&
      !(DayOf(end) > day && end > TotalEnd(config))
    else
      end <= TotalEnd(config)
  }

  /** The emitted windows of one day among its first `k` candidates. */
  function DayPlan(config: ScheduleConfig, len: nat, spd: nat, day: int, k: nat): (ws: seq<Window>)
    requires HoursInRange(config) && k <= spd
    ensures |ws| <= k
  {
    if k == 0 then []
    else
      var start := CandidateStart(config, spd, day, k - 1);
      DayPlan(config, len, spd, day, k - 1) +
      (if Kept(config, day, start, start + len) then [Window(day, start, start + len)] else [])
  }

  /** The emitted windows of the days `lo .. hi-1`, in day order. */
  function PlanBetween(config: ScheduleConfig, len: nat, spd: nat, lo: int, hi: int): seq<Window>
    requires HoursInRange(config)
    decreases hi - lo
  {
    if hi <= lo then []
    else PlanBetween(config, len, spd, lo, hi - 1) + DayPlan(config, len, spd, hi - 1, spd)
  }

  /** Every window the generator emits, from StartDate's day to EndDate's day inclusive. */
  function Plan(config: ScheduleConfig, len: nat, spd: nat): seq<Window>
    requires HoursInRange(config)
  {
    PlanBetween(config, len, spd, DayOf(config.startDate), DayOf(config.endDate) + 1)
  }

  function Numbered(w: Window, n: int): TimeSlot {
    TimeSlot(w.date, n, w.start, w.end)
  }

  function Unnumbered(slots: seq<TimeSlot>): (ws: seq<Window>)
    ensures |ws| == |slots|
    ensures forall i | 0 <= i < |slots| :: ws[i] == Window(slots[i].date, slots[i].start, slots[i].end)
  {
    seq(|slots|, i requires 0 <= i < |slots| => Window(slots[i].date, slots[i].start, slots[i].end))
  }

  lemma UnnumberedAppend(slots: seq<TimeSlot>, t: TimeSlot)
    ensures Unnumbered(slots + [t]) == Unnumbered(slots) + [Window(t.date, t.start, t.end)]
  {
    assert Unnumbered(slots + [t])[..|slots|] == Unnumbered(slots);
  }

  lemma DayPlanStep(config: ScheduleConfig, len: nat, spd: nat, day: int, k: nat)
    requires HoursInRange(config) && k < spd
    ensures DayPlan(config, len, spd, day, k + 1) ==
            DayPlan(config, len, spd, day, k) +
            (var start := CandidateStart(config, spd, day, k);
             if Kept(config, day, start, start + len) then [Window(day, start, start + len)] else [])
  {
  }

  /** The end-side skip test of lines 376-412, for a candidate that does not
      start before the total start. */
  method PastEnd(config: ScheduleConfig, currentDate: int, shiftStart: int, shiftEnd: int) returns (shouldSkip: bool)
    requires TotalStart(config) <= shiftStart
    ensures shouldSkip == !Kept(config, currentDate, shiftStart, shiftEnd)
  {
    var isLastDay := currentDate == DayOf(config.endDate);
    var endHour := config.endHour.GetOr(23);
    var totalEndTime := TotalEnd(config);
    shouldSkip := false;
    if isLastDay && config.endHour.Some? {
      if DayOf(shiftStart) == currentDate && HourOf(shiftStart) > endHour {
        shouldSkip := true;
      }
      if !shouldSkip && DayOf(shiftEnd) == currentDate && HourOf(shiftEnd) > endHour {
        shouldSkip := true;
      }
      if !shouldSkip && DayOf(shiftEnd) > currentDate && shiftEnd > totalEndTime {
        shouldSkip := true;
      }
    } else {
      if shiftEnd > totalEndTime {
        shouldSkip := true;
      }
    }
  }

  /** GenerateTimeSlots: the emitted slots are exactly `Plan`, numbered contiguously from 0. */
  method GenerateTimeSlots(config: ScheduleConfig, shiftSeconds: nat, shiftsPerDay: nat) returns (slots: seq<TimeSlot>)
    requires HoursInRange(config)
    ensures |slots| == |Plan(config, shiftSeconds, shiftsPerDay)|
    ensures forall i | 0 <= i < |slots| :: slots[i] == Numbered(Plan(config, shiftSeconds, shiftsPerDay)[i], i)
  {
    slots := [];
    var startDate := DayOf(config.startDate);
    var endDate := DayOf(config.endDate);
    var currentDate := startDate;
    while currentDate <= endDate
      invariant currentDate == startDate || startDate < currentDate <= endDate + 1
      invariant forall i | 0 <= i < |slots| :: slots[i].shiftNumber == i
      invariant Unnumbered(slots) == PlanBetween(config, shiftSeconds, shiftsPerDay, startDate, currentDate)
      decreases endDate - currentDate
    {
      slots := AddDaySlots(config, shiftSeconds, shiftsPerDay, currentDate, slots);
      currentDate := currentDate + 1;
    }
  }

  /** The body of the day loop of GenerateTimeSlots: appends the kept
      candidates of one day, numbering them on from the slots so far. */
  method AddDaySlots(config: ScheduleConfig, shiftSeconds: nat, shiftsPerDay: nat, currentDate: int, slots0: seq<TimeSlot>)
    returns (slots: seq<TimeSlot>)
    requires HoursInRange(config)
    requires forall i | 0 <= i < |slots0| :: slots0[i].shiftNumber == i
    ensures forall i | 0 <= i < |slots| :: slots[i].shiftNumber == i
    ensures Unnumbered(slots) == Unnumbered(slots0) + DayPlan(config, shiftSeconds, shiftsPerDay, currentDate, shiftsPerDay)
  {
    slots := slots0;
    var shiftNum := 0;
    while shiftNum < shiftsPerDay
      invariant 0 <= shiftNum <= shiftsPerDay
      invariant forall i | 0 <= i < |slots| :: slots[i].shiftNumber == i
      invariant Unnumbered(slots) == Unnumbered(slots0) + DayPlan(config, shiftSeconds, shiftsPerDay, currentDate, shiftNum)
    {
      slots := AddCandidate(config, shiftSeconds, shiftsPerDay, currentDate, shiftNum, slots);
      DayPlanStep(config, shiftSeconds, shiftsPerDay, currentDate, shiftNum);
      shiftNum := shiftNum + 1;
    }
  }

  /** One pass of the inner loop of lines 358-422: computes the candidate's
      start hour and appends it, numbered on, unless a skip rule drops it. */
  method AddCandidate(config: ScheduleConfig, shiftSeconds: nat, shiftsPerDay: nat, currentDate: int, shiftNum: nat,
                      slots0: seq<TimeSlot>)
    returns (slots: seq<TimeSlot>)
    requires HoursInRange(config) && shiftNum < shiftsPerDay
    requires forall i | 0 <= i < |slots0| :: slots0[i].shiftNumber == i
    ensures forall i | 0 <= i < |slots| :: slots[i].shiftNumber == i
    ensures Unnumbered(slots) == Unnumbered(slots0) +
            (var start := CandidateStart(config, shiftsPerDay, currentDate, shiftNum);
             if Kept(config, currentDate, start, start + shiftSeconds) then [Window(currentDate, start, start + shiftSeconds)] else [])
  {
    slots := slots0;
    var shiftNumber := |slots|;
    var hasEndHour := config.endHour.Some?;
    var startHour := config.startHour.GetOr(0);
    var endHour := config.endHour.GetOr(23);
    var totalStartTime := TotalStart(config);
    var isFirstDay := currentDate == DayOf(config.startDate);
    var isLastDay := currentDate == DayOf(config.endDate);
    var dayStartHour := if isFirstDay && config.startHour.Some? then startHour else 0;
    var dayEndHour := if isLastDay && hasEndHour then endHour else 23;
    assert dayStartHour == DayStartHour(config, currentDate) && dayEndHour == DayEndHour(config, currentDate);
    var dayAvailableHours := AvailableHours(dayStartHour, dayEndHour);
    var shiftStartHour := StartHourOffset(dayStartHour, shiftNum, dayAvailableHours, shiftsPerDay);
    var shiftStart := AtHour(currentDate, shiftStartHour);
    var shiftEnd := shiftStart + shiftSeconds;
    assert shiftStart == CandidateStart(config, shiftsPerDay, currentDate, shiftNum);
    if shiftStart < totalStartTime {
      return;
    }
    var shouldSkip := PastEnd(config, currentDate, shiftStart, shiftEnd);
    assert shouldSkip == !Kept(config, currentDate, shiftStart, shiftEnd);
    if !shouldSkip {
      UnnumberedAppend(slots, TimeSlot(currentDate, shiftNumber, shiftStart, shiftEnd));
      slots := slots + [TimeSlot(currentDate, shiftNumber, shiftStart, shiftEnd)];
    }
  }

  // ---------------------------------------------------------------------------
  // What the emitted windows satisfy.

  /** The end-side rule: on the last day with an explicit end hour the shift
      starts no later than that hour and, if it ends the same day, ends no
      later than it, else ends by the total end; every other shift ends by
      the total end. */
  predicate EndsInRange(config: ScheduleConfig, w: Window) {
    if w.date == DayOf(config.endDate) && config.endHour.Some? then
      HourOf(w.start) <= config.endHour.value &&
      (DayOf(w.end) == w.date ==> HourOf(w.end) <= config.endHour.value) &&
      (DayOf(w.end) > w.date ==> w.end <= TotalEnd(config))
    else
      w.end <= TotalEnd(config)
  }

  /** Shape of an emitted window: on its own day within the date range, exactly
      the shift length long, not before the total start, within the end rule. */
  predicate WindowInRange(config: ScheduleConfig, len: nat, w: Window) {
    DayOf(config.startDate) <= w.date <= DayOf(config.endDate) &&
    DayOf(w.start) == w.date &&
    w.end == w.start + len &&
    TotalStart(config) <= w.start &&
    EndsInRange(config, w)
  }

  lemma CandidateOnItsDay(config: ScheduleConfig, spd: int, day: int, k: int)
    requires HoursInRange(config) && 0 <= k < spd
    ensures DayOf(CandidateStart(config, spd, day, k)) == day
    ensures HourOf(CandidateStart(config, spd, day, k)) ==
            StartHourOffset(DayStartHour(config, day), k,
                            AvailableHours(DayStartHour(config, day), DayEndHour(config, day)), spd)
  {
    var s := DayStartHour(config, day);
    var h := StartHourOffset(s, k, AvailableHours(s, DayEndHour(config, day)), spd);
    AtHourSplits(day, h);
  }

  /** An hour of a day falls on that day, at that hour. */
  lemma AtHourSplits(day: int, h: int)
    requires 0 <= h < 24
    ensures DayOf(AtHour(day, h)) == day && HourOf(AtHour(day, h)) == h
  {
    var t := AtHour(day, h);
    assert t == day * 86400 + h * 3600;
    assert t / 86400 == day;
    assert t / 3600 == day * 24 + h;
  }

  lemma {:induction false} DayPlanSound(config: ScheduleConfig, len: nat, spd: nat, day: int, k: nat, w: Window)
    requires HoursInRange(config) && k <= spd
    requires w in DayPlan(config, len, spd, day, k)
    ensures w.date == day && DayOf(w.start) == day && w.end == w.start + len && Kept(config, day, w.start, w.end)
  {
    var start := CandidateStart(config, spd, day, k - 1);
    if w in DayPlan(config, len, spd, day, k - 1) {
      DayPlanSound(config, len, spd, day, k - 1, w);
    } else {
      CandidateOnItsDay(config, spd, day, k - 1);
    }
  }

  lemma {:induction false} PlanBetweenSound(config: ScheduleConfig, len: nat, spd: nat, lo: int, hi: int, w: Window)
    requires HoursInRange(config)
    requires w in PlanBetween(config, len, spd, lo, hi)
    ensures lo <= w.date < hi && DayOf(w.start) == w.date && w.end == w.start + len && Kept(config, w.date, w.start, w.end)
    decreases hi - lo
  {
    if w in PlanBetween(config, len, spd, lo, hi - 1) {
      PlanBetweenSound(config, len, spd, lo, hi - 1, w);
    } else {
      DayPlanSound(config, len, spd, hi - 1, spd, w);
    }
  }

  /** Every emitted window lies within the requested range (lines 331-332, 363-412). */
  lemma PlanWindowsInRange(config: ScheduleConfig, len: nat, spd: nat, w: Window)
    requires HoursInRange(config)
    requires w in Plan(config, len, spd)
    ensures WindowInRange(config, len, w)
  {
    PlanBetweenSound(config, len, spd, DayOf(config.startDate), DayOf(config.endDate) + 1, w);
  }

  lemma {:induction false} DayPlanComplete(config: ScheduleConfig, len: nat, spd: nat, day: int, k: nat, j: nat)
    requires HoursInRange(config) && k <= spd && j < k
    requires Kept(config, day, CandidateStart(config, spd, day, j), CandidateStart(config, spd, day, j) + len)
    ensures Window(day, CandidateStart(config, spd, day, j), CandidateStart(config, spd, day, j) + len)
            in DayPlan(config, len, spd, day, k)
  {
    if j < k - 1 {
      DayPlanComplete(config, len, spd, day, k - 1, j);
    }
  }

  lemma {:induction false} PlanBetweenComplete(config: ScheduleConfig, len: nat, spd: nat, lo: int, hi: int, day: int, j: nat)
    requires HoursInRange(config) && lo <= day < hi && j < spd
    requires Kept(config, day, CandidateStart(config, spd, day, j), CandidateStart(config, spd, day, j) + len)
    ensures Window(day, CandidateStart(config, spd, day, j), CandidateStart(config, spd, day, j) + len)
            in PlanBetween(config, len, spd, lo, hi)
    decreases hi - lo
  {
    if day < hi - 1 {
      PlanBetweenComplete(config, len, spd, lo, hi - 1, day, j);
    } else {
      DayPlanComplete(config, len, spd, day, spd, j);
    }
  }

  /** Conversely, no candidate that passes the skip rules is lost: every
      kept candidate of every day in the range is emitted. */
  lemma PlanComplete(config: ScheduleConfig, len: nat, spd: nat, day: int, j: nat)
    requires HoursInRange(config) && DayOf(config.startDate) <= day <= DayOf(config.endDate) && j < spd
    requires Kept(config, day, CandidateStart(config, spd, day, j), CandidateStart(config, spd, day, j) + len)
    ensures Window(day, CandidateStart(config, spd, day, j), CandidateStart(config, spd, day, j) + len)
            in Plan(config, len, spd)
  {
    PlanBetweenComplete(config, len, spd, DayOf(config.startDate), DayOf(config.endDate) + 1, day, j);
  }

  /** Emission order is day order. */
  lemma {:induction false} PlanBetweenOrdered(config: ScheduleConfig, len: nat, spd: nat, lo: int, hi: int, i: int, j: int)
    requires HoursInRange(config)
    requires 0 <= i <= j < |PlanBetween(config, len, spd, lo, hi)|
    ensures PlanBetween(config, len, spd, lo, hi)[i].date <= PlanBetween(config, len, spd, lo, hi)[j].date
    decreases hi - lo
  {
    var front := PlanBetween(config, len, spd, lo, hi - 1);
    if j < |front| {
      PlanBetweenPrefix(config, len, spd, lo, hi, i);
      PlanBetweenPrefix(config, len, spd, lo, hi, j);
      PlanBetweenOrdered(config, len, spd, lo, hi - 1, i, j);
    } else {
      PlanBetweenLastDay(config, len, spd, lo, hi, j);
      if i < |front| {
        PlanBetweenPrefix(config, len, spd, lo, hi, i);
        PlanBetweenDate(config, len, spd, lo, hi - 1, i);
      } else {
        PlanBetweenLastDay(config, len, spd, lo, hi, i);
      }
    }
  }

  /** The windows of the days before the last come first, unchanged. */
  lemma PlanBetweenPrefix(config: ScheduleConfig, len: nat, spd: nat, lo: int, hi: int, i: int)
    requires HoursInRange(config)
    requires 0 <= i < |PlanBetween(config, len, spd, lo, hi - 1)|
    ensures i < |PlanBetween(config, len, spd, lo, hi)|
    ensures PlanBetween(config, len, spd, lo, hi)[i] == PlanBetween(config, len, spd, lo, hi - 1)[i]
  {
  }

  /** The windows after those of the days before the last lie on the last day. */
  lemma PlanBetweenLastDay(config: ScheduleConfig, len: nat, spd: nat, lo: int, hi: int, i: int)
    requires HoursInRange(config)
    requires |PlanBetween(config, len, spd, lo, hi - 1)| <= i < |PlanBetween(config, len, spd, lo, hi)|
    ensures PlanBetween(config, len, spd, lo, hi)[i].date == hi - 1
  {
    var front := PlanBetween(config, len, spd, lo, hi - 1);
    var last := DayPlan(config, len, spd, hi - 1, spd);
    assert PlanBetween(config, len, spd, lo, hi) == front + last;
    DayPlanDate(config, len, spd, hi - 1, spd, i - |front|);
  }

  lemma DayPlanDate(config: ScheduleConfig, len: nat, spd: nat, day: int, k: nat, i: int)
    requires HoursInRange(config) && k <= spd
    requires 0 <= i < |DayPlan(config, len, spd, day, k)|
    ensures DayPlan(config, len, spd, day, k)[i].date == day
  {
    DayPlanSound(config, len, spd, day, k, DayPlan(config, len, spd, day, k)[i]);
  }

  lemma PlanBetweenDate(config: ScheduleConfig, len: nat, spd: nat, lo: int, hi: int, i: int)
    requires HoursInRange(config)
    requires 0 <= i < |PlanBetween(config, len, spd, lo, hi)|
    ensures PlanBetween(config, len, spd, lo, hi)[i].date < hi
  {
    PlanBetweenSound(config, len, spd, lo, hi, PlanBetween(config, len, spd, lo, hi)[i]);
  }

  lemma PlanOrdered(config: ScheduleConfig, len: nat, spd: nat, i: int, j: int)
    requires HoursInRange(config)
    requires 0 <= i <= j < |Plan(config, len, spd)|
    ensures Plan(config, len, spd)[i].date <= Plan(config, len, spd)[j].date
  {
    PlanBetweenOrdered(config, len, spd, DayOf(config.startDate), DayOf(config.endDate) + 1, i, j);
  }
}
