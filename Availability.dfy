/** The eligibility filter of the engine (SchedulerService.GetAvailableSoldiers)
    and the relaxed fallback filter the assembler uses when it finds nobody.

    A soldier's history is the list of shifts already given to it in this run;
    every check of a soldier reads only its own history, so the per-soldier
    predicate `Admits` takes that list, and `AvailableSoldiers` applies it to
    the roster in order. */
module Availability {
  import opened Domain

  /** Minimum rest between two guard shifts, between two standby shifts, and
      the window within which a standby shift counts as continuous from a
      guard shift (8, 4 and 1 hours). */
  const GuardRest: int := 8 * SecondsPerHour
  const StandbyRest: int := 4 * SecondsPerHour
  const ContinuityWindow: int := 1 * SecondsPerHour

  // ---------------------------------------------------------------------------
  // The individual checks, in the order the filter applies them.

  /** A commander post takes commanders only. */
  predicate CommanderAllows(s: Soldier, p: Position) {
    !(p.requiresCommander && !s.isCommander)
  }

  /** The slot's weekday is not among the forbidden ones. */
  predicate DayAllowed(days: Option<seq<int>>, weekday: int) {
    days.None? || weekday !in days.value
  }

  /** The hours `lo .. hi-1`. */
  function Range(lo: int, hi: int): (r: seq<int>)
    requires lo <= hi
    ensures forall h :: h in r <==> lo <= h < hi
    decreases hi - lo
  {
    if lo == hi then [] else [lo] + Range(lo + 1, hi)
  }

  /** The hours of a shift checked against the start day's list: from the
      start hour up to (not including) the end hour, wrapping past midnight
      when the end hour is below the start hour. */
  function ShiftHours(startHour: int, endHour: int): (hs: seq<int>)
    requires 0 <= startHour <= 23 && 0 <= endHour <= 23
    ensures forall h :: h in hs <==>
      if endHour < startHour then startHour <= h < 24 || 0 <= h < endHour
      else startHour <= h < endHour
  {
    if endHour < startHour then Range(startHour, 24) + Range(0, endHour)
    else Range(startHour, endHour)
  }

  /** Does the map list at least one forbidden hour under this key? */
  predicate HasHours(byDay: map<string, seq<int>>, key: string) {
    key in byDay && |byDay[key]| > 0
  }

  /** The forbidden-hours rule: nothing is checked unless the start day has a
      non-empty list; then no hour of the shift may be in it, and a shift that
      wraps past midnight may not touch the next day's list before its end hour. */
  predicate HoursAllowed(byDay: Option<map<string, seq<int>>>, weekday: int, startHour: int, endHour: int)
    requires 0 <= weekday < 7 && 0 <= startHour <= 23 && 0 <= endHour <= 23
  {
    var key := DayKey(weekday);
    var next := DayKey((weekday + 1) % 7);
    byDay.None? || !HasHours(byDay.value, key) ||
    ((endHour < startHour && HasHours(byDay.value, next) ==>
        forall h | 0 <= h < endHour :: h !in byDay.value[next]) &&
     (forall h | h in ShiftHours(startHour, endHour) :: h !in byDay.value[key]))
  }

  predicate PositionAllowed(positions: Option<seq<string>>, p: Position) {
    positions.None? || p.id !in positions.value
  }

  /** The three constraint categories; a soldier without constraints passes. */
  predicate ConstraintsAllow(c: Option<SoldierConstraints>, p: Position, slot: TimeSlot) {
    c.None? ||
    (DayAllowed(c.value.forbiddenDaysOfWeek, Weekday(slot.date)) &&
     HoursAllowed(c.value.forbiddenHoursByDay, Weekday(slot.date), HourOf(slot.start), HourOf(slot.end)) &&
     PositionAllowed(c.value.forbiddenPositions, p))
  }

  /** The guard rest rule against every recorded guard shift: no overlap, and
      at least `GuardRest` seconds between the two on whichever side it lies. */
  predicate GuardRestOk(slot: TimeSlot, recs: seq<SoldierAssignment>) {
    forall g | g in recs && !g.isStandbyPosition ::
      !(slot.start < g.shiftEnd && slot.end > g.shiftStart) &&
      (g.shiftEnd <= slot.start ==> slot.start - g.shiftEnd >= GuardRest) &&
      (slot.end <= g.shiftStart ==> g.shiftStart - slot.end >= GuardRest)
  }

  /** Some guard shift of the history ended less than an hour before or after
      `start` (SchedulerService.CanBeContinuousFromGuard; an empty history has none). */
  predicate ContinuousFromGuard(recs: seq<SoldierAssignment>, start: int) {
    exists a | a in recs :: !a.isStandbyPosition && -ContinuityWindow < start - a.shiftEnd < ContinuityWindow
  }

  /** The record the standby rule rejects. As written the "after" half is not
      restricted to standby records: `IsStandby && before || after`. */
  predicate StandbyConflict(slot: TimeSlot, a: SoldierAssignment) {
    (a.isStandbyPosition && 0 <= slot.start - a.shiftEnd < StandbyRest) ||
    (0 <= a.shiftStart - slot.end < StandbyRest)
  }

  predicate StandbyRestOk(slot: TimeSlot, recs: seq<SoldierAssignment>) {
    ContinuousFromGuard(recs, slot.start) || forall a | a in recs :: !StandbyConflict(slot, a)
  }

  /** The rest rule applies only once the soldier holds some shift. */
  predicate RestOk(p: Position, slot: TimeSlot, recs: seq<SoldierAssignment>) {
    recs == [] || (if p.isStandby then StandbyRestOk(slot, recs) else GuardRestOk(slot, recs))
  }

  /** Does the strict filter keep soldier `s` for post `p` in `slot`, given its history? */
  predicate Admits(s: Soldier, p: Position, slot: TimeSlot, recs: seq<SoldierAssignment>) {
    CommanderAllows(s, p) &&
    ConstraintsAllow(s.constraints, p, slot) &&
    !Booked(recs, slot) &&
    RestOk(p, slot, recs)
  }

  /** GetAvailableSoldiers: the soldiers the strict filter keeps, in roster order. */
  function AvailableSoldiers(soldiers: seq<Soldier>, p: Position, slot: TimeSlot, history: History): (r: seq<Soldier>)
    requires Tracked(soldiers, history)
    ensures forall s :: s in r <==> s in soldiers && Admits(s, p, slot, history[s.id])
    ensures Subsequence(r, soldiers)
  {
    if soldiers == [] then []
    else
      var rest := AvailableSoldiers(soldiers[1..], p, slot, history);
      if Admits(soldiers[0], p, slot, history[soldiers[0].id]) then [soldiers[0]] + rest else rest
  }

  /** The relaxed filter of lines 106-118 and 257-269: commander rule and not
      already booked in this slot, in roster order. */
  function FallbackSoldiers(soldiers: seq<Soldier>, p: Position, slot: TimeSlot, history: History): (r: seq<Soldier>)
    requires Tracked(soldiers, history)
    ensures forall s :: s in r <==> s in soldiers && CommanderAllows(s, p) && !Booked(history[s.id], slot)
    ensures Subsequence(r, soldiers)
  {
    if soldiers == [] then []
    else
      var rest := FallbackSoldiers(soldiers[1..], p, slot, history);
      var s := soldiers[0];
      if CommanderAllows(s, p) && !Booked(history[s.id], slot) then [s] + rest else rest
  }

  // ---------------------------------------------------------------------------
  // What the filter guarantees.

  /** The fallback only relaxes the filter: every soldier the strict filter
      keeps is also kept by the fallback, so the fallback is empty only when
      the strict filter is. */
  lemma AvailableWithinFallback(soldiers: seq<Soldier>, p: Position, slot: TimeSlot, history: History)
    requires Tracked(soldiers, history)
    ensures forall s | s in AvailableSoldiers(soldiers, p, slot, history) ::
      s in FallbackSoldiers(soldiers, p, slot, history)
    ensures FallbackSoldiers(soldiers, p, slot, history) == [] ==> AvailableSoldiers(soldiers, p, slot, history) == []
  {
    var a := AvailableSoldiers(soldiers, p, slot, history);
    if a != [] {
      assert a[0] in FallbackSoldiers(soldiers, p, slot, history);
    }
  }

  /** Shifts whose start does not follow their end. */
  predicate WellFormed(recs: seq<SoldierAssignment>) {
    forall a | a in recs :: a.shiftStart <= a.shiftEnd
  }

  /** The guard rule, read as spacing: for a slot and history of well-formed
      shifts, the rule holds exactly when every guard shift of the history
      ends at least 8 hours before the slot starts or starts at least 8 hours
      after it ends. */
  lemma GuardRestIsSpacing(slot: TimeSlot, recs: seq<SoldierAssignment>)
    requires slot.start <= slot.end && WellFormed(recs)
    ensures GuardRestOk(slot, recs) <==>
      forall g | g in recs && !g.isStandbyPosition ::
        g.shiftEnd + GuardRest <= slot.start || slot.end + GuardRest <= g.shiftStart
  {
    if GuardRestOk(slot, recs) {
      forall g | g in recs && !g.isStandbyPosition
        ensures g.shiftEnd + GuardRest <= slot.start || slot.end + GuardRest <= g.shiftStart
      {
        assert g.shiftStart <= g.shiftEnd;
      }
    }
  }

  /** The standby rule, read as spacing: unless a guard shift ended within an
      hour of the slot start, every standby shift that ended by the slot
      start ended at least 4 hours before it, and every recorded shift of
      either kind that starts at or after the slot end starts at least 4
      hours after it. */
  lemma StandbyRestIsSpacing(slot: TimeSlot, recs: seq<SoldierAssignment>)
    ensures StandbyRestOk(slot, recs) <==>
      ContinuousFromGuard(recs, slot.start) ||
      ((forall a | a in recs && a.isStandbyPosition && a.shiftEnd <= slot.start ::
          a.shiftEnd + StandbyRest <= slot.start) &&
       (forall a | a in recs && slot.end <= a.shiftStart :: slot.end + StandbyRest <= a.shiftStart))
  {
  }

  /** A soldier admitted to a post is no soldier the relaxed filter would drop,
      holds no shift at the slot, and passes each constraint category: when the
      start day lists forbidden hours, no hour the shift covers on the start
      day (past midnight included) is listed for it, and a shift crossing
      midnight touches none of the next day's listed hours before its end. */
  lemma AdmittedMeetsEveryRule(s: Soldier, p: Position, slot: TimeSlot, recs: seq<SoldierAssignment>)
    requires Admits(s, p, slot, recs)
    ensures p.requiresCommander ==> s.isCommander
    ensures forall r | r in recs :: !(r.date == slot.date && r.shiftNumber == slot.shiftNumber)
    ensures s.constraints.Some? && s.constraints.value.forbiddenDaysOfWeek.Some? ==>
      Weekday(slot.date) !in s.constraints.value.forbiddenDaysOfWeek.value
    ensures s.constraints.Some? && s.constraints.value.forbiddenPositions.Some? ==>
      p.id !in s.constraints.value.forbiddenPositions.value
    ensures var sh, eh := HourOf(slot.start), HourOf(slot.end);
            var key, next := DayKey(Weekday(slot.date)), DayKey((Weekday(slot.date) + 1) % 7);
            s.constraints.Some? && s.constraints.value.forbiddenHoursByDay.Some? &&
            HasHours(s.constraints.value.forbiddenHoursByDay.value, key) ==>
      var byDay := s.constraints.value.forbiddenHoursByDay.value;
      (forall h | sh <= h < 24 && (h < eh || eh < sh) :: h !in byDay[key]) &&
      (forall h | 0 <= h < eh && eh < sh :: h !in byDay[key]) &&
      (eh < sh && HasHours(byDay, next) ==> forall h | 0 <= h < eh :: h !in byDay[next])
  {
    var sh, eh := HourOf(slot.start), HourOf(slot.end);
    if s.constraints.Some? && s.constraints.value.forbiddenHoursByDay.Some? &&
       HasHours(s.constraints.value.forbiddenHoursByDay.value, DayKey(Weekday(slot.date))) {
      var byDay := s.constraints.value.forbiddenHoursByDay.value;
      var hs := ShiftHours(sh, eh);
      forall h | (sh <= h < 24 && (h < eh || eh < sh)) || (0 <= h < eh && eh < sh)
        ensures h !in byDay[DayKey(Weekday(slot.date))]
      {
        assert h in hs;
      }
    }
  }

  /** Next-day hours are consulted only when the start day has a non-empty
      list: without one, the forbidden-hours rule passes whatever the next day
      forbids. */
  lemma NextDayNeedsStartDay(byDay: map<string, seq<int>>, weekday: int, startHour: int, endHour: int)
    requires 0 <= weekday < 7 && 0 <= startHour <= 23 && 0 <= endHour <= 23
    requires !HasHours(byDay, DayKey(weekday))
    ensures HoursAllowed(Some(byDay), weekday, startHour, endHour)
  {
  }
}
