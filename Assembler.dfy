/** The assembly loop of the engine (SchedulerService.GenerateScheduleAsync).

    For every time slot the guard posts are filled first, then the standby
    posts. A post goes to the best soldier the strict filter keeps or, when it
    keeps nobody, to the best soldier of the relaxed fallback. Standby posts
    are first offered, one candidate per post, to the soldiers who held a
    guard post in the previous slot; the source keeps them in groups of four
    and walks a (group, member) pointer through the groups. Every assignment
    is recorded in the per-soldier history that the filter and the ranking
    read. */
module Assembler {
  import opened Domain
  import opened TimeSlots
  import opened Availability
  import opened Ranking

  /** Why generation refuses to start (InvalidOperationException). */
  datatype EngineError = NoPositions | NoSoldiers

  // ---------------------------------------------------------------------------
  // What holds within one slot.

  /** For every tracked soldier: its history books this slot exactly when the
      slot's assignment list names it. */
  predicate SlotBookings(history: History, assignments: seq<ShiftAssignment>, slot: TimeSlot) {
    forall id | id in history :: Booked(history[id], slot) <==> Holds(assignments, id)
  }

  /** Every recorded shift has a shift number below `n`. */
  predicate RecordsBefore(history: History, n: int) {
    forall id | id in history :: forall r | r in history[id] :: r.shiftNumber < n
  }

  /** No soldier id appears twice in a slot. */
  predicate DistinctSoldiers(assignments: seq<ShiftAssignment>) {
    forall i, j | 0 <= i < j < |assignments| :: assignments[i].soldierId != assignments[j].soldierId
  }

  /** The assignment names post `p`, and some soldier of the roster with the
      assigned id meets the post's commander requirement. */
  predicate Fits(a: ShiftAssignment, p: Position, soldiers: seq<Soldier>) {
    a.positionId == p.id && a.positionName == p.name &&
    exists w | w in soldiers :: w.id == a.soldierId && CommanderAllows(w, p)
  }

  /** Every assignment is for one of the posts, and names a soldier of the roster. */
  predicate Legitimate(assignments: seq<ShiftAssignment>, positions: seq<Position>, soldiers: seq<Soldier>) {
    forall a | a in assignments ::
      (exists p | p in positions :: Fits(a, p, soldiers)) &&
      (exists w | w in soldiers :: w.id == a.soldierId && w.name == a.soldierName)
  }

  /** Post `p` was filled, or nobody could have taken it: every soldier is a
      non-commander barred from a commander post or already holds a shift in
      this slot. */
  predicate Covered(p: Position, soldiers: seq<Soldier>, assignments: seq<ShiftAssignment>) {
    (exists a | a in assignments :: a.positionId == p.id) ||
    forall s | s in soldiers :: !CommanderAllows(s, p) || Holds(assignments, s.id)
  }

  /** The invariant of the slot being filled. */
  predicate SlotState(slot: TimeSlot, positions: seq<Position>, soldiers: seq<Soldier>,
                      history: History, assignments: seq<ShiftAssignment>) {
    Tracked(soldiers, history) &&
    SlotBookings(history, assignments, slot) &&
    RecordsBefore(history, slot.shiftNumber + 1) &&
    DistinctSoldiers(assignments) &&
    Legitimate(assignments, positions, soldiers)
  }

  /** What a finished slot satisfies. */
  predicate SlotFilled(day: DaySchedule, positions: seq<Position>, soldiers: seq<Soldier>) {
    DistinctSoldiers(day.assignments) &&
    Legitimate(day.assignments, positions, soldiers) &&
    forall p | p in positions :: Covered(p, soldiers, day.assignments)
  }

  /** Filling more posts never uncovers one. */
  lemma CoveredGrows(p: Position, soldiers: seq<Soldier>, xs: seq<ShiftAssignment>, ys: seq<ShiftAssignment>)
    requires xs <= ys && Covered(p, soldiers, xs)
    ensures Covered(p, soldiers, ys)
  {
    assert forall a | a in xs :: a in ys by {
      forall a | a in xs ensures a in ys {
        var i :| 0 <= i < |xs| && xs[i] == a;
        assert ys[i] == a;
      }
    }
  }

  /** The posts `ps[..k]` stay covered when more are filled, and `ps[k]` joins them. */
  lemma CoveredStep(ps: seq<Position>, k: int, soldiers: seq<Soldier>, xs: seq<ShiftAssignment>, ys: seq<ShiftAssignment>)
    requires 0 <= k < |ps| && xs <= ys
    requires forall j | 0 <= j < k :: Covered(ps[j], soldiers, xs)
    requires Covered(ps[k], soldiers, ys)
    ensures forall j | 0 <= j < k + 1 :: Covered(ps[j], soldiers, ys)
  {
    forall j | 0 <= j < k + 1 ensures Covered(ps[j], soldiers, ys) {
      if j < k {
        CoveredGrows(ps[j], soldiers, xs, ys);
      }
    }
  }

  // ---------------------------------------------------------------------------
  // Positions by kind (lines 77-78).

  function GuardPositions(positions: seq<Position>): (r: seq<Position>)
    ensures forall p :: p in r <==> p in positions && !p.isStandby
    ensures Subsequence(r, positions)
  {
    if positions == [] then []
    else
      var rest := GuardPositions(positions[1..]);
      if !positions[0].isStandby then [positions[0]] + rest else rest
  }

  function StandbyPositions(positions: seq<Position>): (r: seq<Position>)
    ensures forall p :: p in r <==> p in positions && p.isStandby
    ensures Subsequence(r, positions)
  {
    if positions == [] then []
    else
      var rest := StandbyPositions(positions[1..]);
      if positions[0].isStandby then [positions[0]] + rest else rest
  }

  // ---------------------------------------------------------------------------
  // Choosing and recording one soldier.

  /** Lines 82-131: the best soldier the strict filter keeps or, if it keeps
      nobody, the best of the relaxed fallback. Nobody exactly when every
      soldier is barred by the commander rule or already booked in the slot. */
  function StrictOrRelaxed(p: Position, slot: TimeSlot, soldiers: seq<Soldier>, history: History): (r: Option<Soldier>)
    requires Tracked(soldiers, history)
    ensures r.Some? ==> r.value in soldiers && CommanderAllows(r.value, p) && !Booked(history[r.value.id], slot)
    ensures r.Some? && AvailableSoldiers(soldiers, p, slot, history) != [] ==>
      r.value in AvailableSoldiers(soldiers, p, slot, history)
    ensures r.None? <==> forall s | s in soldiers :: !CommanderAllows(s, p) || Booked(history[s.id], slot)
  {
    var avail := AvailableSoldiers(soldiers, p, slot, history);
    AvailableWithinFallback(soldiers, p, slot, history);
    if avail != [] then SelectBestSoldier(avail, p, slot, history)
    else
      var fallback := FallbackSoldiers(soldiers, p, slot, history);
      assert fallback == [] ==> forall s | s in soldiers :: !CommanderAllows(s, p) || Booked(history[s.id], slot);
      SelectBestSoldier(fallback, p, slot, history)
  }

  // ---------------------------------------------------------------------------
  // The assembly as a function of its inputs: who takes each post, and what
  // the history then records. The methods below are proved to compute it.

  /** The assignment the caller sees (lines 135-141 and 286-292). */
  function AssignmentOf(p: Position, s: Soldier): ShiftAssignment {
    ShiftAssignment(p.id, p.name, s.id, s.name)
  }

  /** The record kept in the soldier's history (lines 143-150 and 294-301). */
  function RecordOf(slot: TimeSlot, p: Position): SoldierAssignment {
    SoldierAssignment(slot.date, slot.shiftNumber, p.id, p.isStandby, slot.start, slot.end)
  }

  /** A slot being filled: the history of the whole run and the slot's assignments. */
  datatype Fill = Fill(history: History, assignments: seq<ShiftAssignment>)

  /** Post `p` goes to the pick, if there is one: one assignment is appended
      to the slot and one record to the picked soldier's history. */
  function Give(slot: TimeSlot, p: Position, pick: Option<Soldier>, f: Fill): (r: Fill)
    requires pick.Some? ==> pick.value.id in f.history
    ensures r.history.Keys == f.history.Keys
    ensures f.assignments <= r.assignments
  {
    match pick
    case None => f
    case Some(s) => Fill(f.history[s.id := f.history[s.id] + [RecordOf(slot, p)]], f.assignments + [AssignmentOf(p, s)])
  }

  /** The guard pass (lines 80-156): each guard post in turn goes to the
      strict-or-relaxed pick on the history as it stands after the posts before it. */
  function GuardFill(slot: TimeSlot, guards: seq<Position>, soldiers: seq<Soldier>, f: Fill): (r: Fill)
    requires Tracked(soldiers, f.history)
    ensures r.history.Keys == f.history.Keys
    decreases |guards|
  {
    if guards == [] then f
    else GuardFill(slot, guards[1..], soldiers, Give(slot, guards[0], StrictOrRelaxed(guards[0], slot, soldiers, f.history), f))
  }

  /** The choice for one standby post with the continuity cursor at `c`
      (lines 187-282): when the strict filter keeps somebody and candidates
      remain, the candidate under the cursor is taken if the filter keeps its
      id and it is free in the slot, and the cursor moves on either way; the
      post otherwise goes to the strict-or-relaxed pick. */
  function StandbyChoice(slot: TimeSlot, p: Position, soldiers: seq<Soldier>, f: Fill, flat: seq<Soldier>, c: int)
    : (r: (Option<Soldier>, int))
    requires Tracked(soldiers, f.history)
    ensures r.0.Some? ==> r.0.value.id in f.history
  {
    var avail := AvailableSoldiers(soldiers, p, slot, f.history);
    if avail != [] && 0 <= c < |flat| then
      if (exists a | a in avail :: a.id == flat[c].id) && !Holds(f.assignments, flat[c].id) then
        (Some(flat[c]), c + 1)
      else
        (StrictOrRelaxed(p, slot, soldiers, f.history), c + 1)
    else
      (StrictOrRelaxed(p, slot, soldiers, f.history), c)
  }

  /** The standby pass (lines 183-303): each standby post in turn, the cursor
      running through the previous-guard candidates `flat`. */
  function StandbyFill(slot: TimeSlot, standby: seq<Position>, soldiers: seq<Soldier>, flat: seq<Soldier>, c: int, f: Fill)
    : (r: Fill)
    requires Tracked(soldiers, f.history)
    ensures r.history.Keys == f.history.Keys
    decreases |standby|
  {
    if standby == [] then f
    else
      var choice := StandbyChoice(slot, standby[0], soldiers, f, flat, c);
      StandbyFill(slot, standby[1..], soldiers, flat, choice.1, Give(slot, standby[0], choice.0, f))
  }

  /** One slot (lines 62-311): the guard pass on an empty slot, then the
      standby pass, offering first the candidates drawn from `previousGuard`. */
  function SlotFill(slot: TimeSlot, positions: seq<Position>, soldiers: seq<Soldier>, previousGuard: seq<string>,
                    history: History): (r: Fill)
    requires Tracked(soldiers, history)
    ensures r.history.Keys == history.Keys
  {
    var g := GuardFill(slot, GuardPositions(positions), soldiers, Fill(history, []));
    var standby := StandbyPositions(positions);
    var flat := PreviousGuardCandidates(soldiers, previousGuard, standby, slot, g.history);
    StandbyFill(slot, standby, soldiers, flat, 0, g)
  }

  /** The ids of the soldiers the guard pass of a slot assigns, in order:
      the previous-guard list of the next slot (lines 153, 308). */
  function GuardIds(slot: TimeSlot, positions: seq<Position>, soldiers: seq<Soldier>, history: History): seq<string>
    requires Tracked(soldiers, history)
  {
    SoldierIds(GuardFill(slot, GuardPositions(positions), soldiers, Fill(history, [])).assignments)
  }

  /** The ids of a list of assignments, in order. */
  function SoldierIds(assignments: seq<ShiftAssignment>): (ids: seq<string>)
    ensures IdsOf(ids, assignments)
  {
    seq(|assignments|, i requires 0 <= i < |assignments| => assignments[i].soldierId)
  }

  /** The schedule entries of a run of slots, each filled on the history the
      slots before it left behind. */
  function Days(slots: seq<TimeSlot>, positions: seq<Position>, soldiers: seq<Soldier>, previousGuard: seq<string>,
                history: History): (r: seq<DaySchedule>)
    requires Tracked(soldiers, history)
    ensures |r| == |slots|
    decreases |slots|
  {
    if slots == [] then []
    else
      var slot := slots[0];
      var f := SlotFill(slot, positions, soldiers, previousGuard, history);
      [DaySchedule(DateText(slot.date), slot.shiftNumber, slot.start, slot.end, f.assignments)] +
      Days(slots[1..], positions, soldiers, GuardIds(slot, positions, soldiers, history), f.history)
  }

  /** An empty history for every soldier of the roster. */
  function EmptyHistory(soldiers: seq<Soldier>): (h: History)
    ensures Tracked(soldiers, h)
    ensures forall id | id in h :: h[id] == []
  {
    if soldiers == [] then map[]
    else EmptyHistory(soldiers[..|soldiers| - 1])[soldiers[|soldiers| - 1].id := []]
  }

  /** The numbered slots of a plan. */
  function NumberedPlan(plan: seq<Window>): (slots: seq<TimeSlot>)
    ensures |slots| == |plan|
  {
    seq(|plan|, i requires 0 <= i < |plan| => Numbered(plan[i], i))
  }

  /** What a whole run produces for valid inputs. */
  function Schedule(config: ScheduleConfig, positions: seq<Position>, soldiers: seq<Soldier>, shiftSeconds: nat)
    : seq<DaySchedule>
    requires HoursInRange(config)
  {
    Days(NumberedPlan(Plan(config, shiftSeconds, |positions|)), positions, soldiers, [], EmptyHistory(soldiers))
  }

  /** Lines 133-151 and 284-302: append the assignment to the slot and the
      shift to the soldier's history. */
  method Commit(slot: TimeSlot, p: Position, s: Soldier, positions: seq<Position>, soldiers: seq<Soldier>,
                history0: History, assignments0: seq<ShiftAssignment>)
    returns (history: History, assignments: seq<ShiftAssignment>)
    requires SlotState(slot, positions, soldiers, history0, assignments0)
    requires p in positions && s in soldiers && !Booked(history0[s.id], slot)
    requires exists w | w in soldiers :: w.id == s.id && CommanderAllows(w, p)
    ensures assignments == assignments0 + [AssignmentOf(p, s)]
    ensures history == history0[s.id := history0[s.id] + [RecordOf(slot, p)]]
    ensures history.Keys == history0.Keys
    ensures SlotState(slot, positions, soldiers, history, assignments)
  {
    var a := ShiftAssignment(p.id, p.name, s.id, s.name);
    var rec := SoldierAssignment(slot.date, slot.shiftNumber, p.id, p.isStandby, slot.start, slot.end);
    assignments := assignments0 + [a];
    history := history0[s.id := history0[s.id] + [rec]];
    assert !Holds(assignments0, s.id);
    forall id | id in history
      ensures Booked(history[id], slot) <==> Holds(assignments, id)
    {
      if id == s.id {
        assert rec in history[id] && a in assignments;
      } else {
        assert history[id] == history0[id];
        assert Holds(assignments, id) ==> Holds(assignments0, id);
      }
    }
    assert Fits(a, p, soldiers);
  }

  /** One guard post (lines 80-155). */
  method FillGuard(slot: TimeSlot, p: Position, positions: seq<Position>, soldiers: seq<Soldier>,
                   history0: History, assignments0: seq<ShiftAssignment>)
    returns (history: History, assignments: seq<ShiftAssignment>, picked: Option<Soldier>)
    requires SlotState(slot, positions, soldiers, history0, assignments0) && p in positions
    ensures picked == StrictOrRelaxed(p, slot, soldiers, history0)
    ensures picked.None? ==> history == history0 && assignments == assignments0
    ensures picked.Some? ==> assignments == assignments0 + [AssignmentOf(p, picked.value)]
    ensures picked.Some? ==> history == history0[picked.value.id := history0[picked.value.id] + [RecordOf(slot, p)]]
    ensures Fill(history, assignments) == Give(slot, p, picked, Fill(history0, assignments0))
    ensures assignments0 <= assignments
    ensures history.Keys == history0.Keys
    ensures SlotState(slot, positions, soldiers, history, assignments)
    ensures Covered(p, soldiers, assignments)
  {
    history, assignments := history0, assignments0;
    picked := StrictOrRelaxed(p, slot, soldiers, history0);
    if picked.Some? {
      history, assignments := Commit(slot, p, picked.value, positions, soldiers, history0, assignments0);
      assert assignments[|assignments| - 1].positionId == p.id;
    } else {
      forall s | s in soldiers && CommanderAllows(s, p) ensures Holds(assignments, s.id) {
        assert Booked(history0[s.id], slot);
      }
    }
  }

  /** The ids of a slot's assignments, in order. */
  predicate IdsOf(ids: seq<string>, assignments: seq<ShiftAssignment>) {
    |ids| == |assignments| && forall i | 0 <= i < |assignments| :: ids[i] == assignments[i].soldierId
  }

  /** One step of the guard pass: fill guard post `k` and record who took it. */
  method GuardStep(slot: TimeSlot, guards: seq<Position>, k: int, positions: seq<Position>, soldiers: seq<Soldier>,
                   history0: History, assignments0: seq<ShiftAssignment>, guardIds0: seq<string>)
    returns (history: History, assignments: seq<ShiftAssignment>, guardIds: seq<string>)
    requires 0 <= k < |guards| && guards[k] in positions
    requires SlotState(slot, positions, soldiers, history0, assignments0)
    requires forall j | 0 <= j < k :: Covered(guards[j], soldiers, assignments0)
    requires IdsOf(guardIds0, assignments0)
    ensures history.Keys == history0.Keys
    ensures SlotState(slot, positions, soldiers, history, assignments)
    ensures forall j | 0 <= j < k + 1 :: Covered(guards[j], soldiers, assignments)
    ensures IdsOf(guardIds, assignments)
    ensures Fill(history, assignments) ==
            Give(slot, guards[k], StrictOrRelaxed(guards[k], slot, soldiers, history0), Fill(history0, assignments0))
  {
    var picked;
    history, assignments, picked := FillGuard(slot, guards[k], positions, soldiers, history0, assignments0);
    guardIds := guardIds0;
    if picked.Some? {
      IdsOfAppend(guardIds, assignments0, ShiftAssignment(guards[k].id, guards[k].name, picked.value.id, picked.value.name));
      guardIds := guardIds + [picked.value.id];
    }
    CoveredStep(guards, k, soldiers, assignments0, assignments);
  }

  lemma IdsOfUnique(ids: seq<string>, ids': seq<string>, assignments: seq<ShiftAssignment>)
    requires IdsOf(ids, assignments) && IdsOf(ids', assignments)
    ensures ids == ids'
  {
  }

  lemma IdsOfAppend(ids: seq<string>, assignments: seq<ShiftAssignment>, a: ShiftAssignment)
    requires IdsOf(ids, assignments)
    ensures IdsOf(ids + [a.soldierId], assignments + [a])
  {
  }

  /** The guard pass: every guard post in roster order; the ids assigned are
      the previous-guard list of the next slot. */
  method GuardPass(slot: TimeSlot, positions: seq<Position>, soldiers: seq<Soldier>, history0: History)
    returns (history: History, assignments: seq<ShiftAssignment>, guardIds: seq<string>)
    requires SlotState(slot, positions, soldiers, history0, [])
    ensures history.Keys == history0.Keys
    ensures SlotState(slot, positions, soldiers, history, assignments)
    ensures forall p | p in positions && !p.isStandby :: Covered(p, soldiers, assignments)
    ensures IdsOf(guardIds, assignments)
    ensures Fill(history, assignments) == GuardFill(slot, GuardPositions(positions), soldiers, Fill(history0, []))
  {
    var guards := GuardPositions(positions);
    history, assignments, guardIds := history0, [], [];
    assert guards[0..] == guards;
    for k := 0 to |guards|
      invariant history.Keys == history0.Keys
      invariant SlotState(slot, positions, soldiers, history, assignments)
      invariant forall j | 0 <= j < k :: Covered(guards[j], soldiers, assignments)
      invariant IdsOf(guardIds, assignments)
      invariant GuardFill(slot, guards[k..], soldiers, Fill(history, assignments)) ==
                GuardFill(slot, guards, soldiers, Fill(history0, []))
    {
      GuardFillStep(slot, guards, k, soldiers, Fill(history, assignments));
      history, assignments, guardIds := GuardStep(slot, guards, k, positions, soldiers, history, assignments, guardIds);
    }
  }

  lemma GuardFillStep(slot: TimeSlot, guards: seq<Position>, k: int, soldiers: seq<Soldier>, f: Fill)
    requires 0 <= k < |guards| && Tracked(soldiers, f.history)
    ensures GuardFill(slot, guards[k..], soldiers, f) ==
            GuardFill(slot, guards[k + 1..], soldiers,
                      Give(slot, guards[k], StrictOrRelaxed(guards[k], slot, soldiers, f.history), f))
  {
    assert guards[k..][1..] == guards[k + 1..];
  }

  // ---------------------------------------------------------------------------
  // Soldiers coming off guard, offered standby posts first (lines 158-238).

  /** Lines 160-173: the soldiers of the roster, in roster order, whose id held
      a guard post in the previous slot and whom the strict filter keeps for
      the first standby post; nobody when either list is empty. */
  function PreviousGuardCandidates(soldiers: seq<Soldier>, previousGuard: seq<string>, standby: seq<Position>,
                                   slot: TimeSlot, history: History): (r: seq<Soldier>)
    requires Tracked(soldiers, history)
    ensures forall s :: s in r <==>
      s in soldiers && previousGuard != [] && standby != [] &&
      s.id in previousGuard && Admits(s, standby[0], slot, history[s.id])
    ensures Subsequence(r, soldiers)
  {
    if soldiers == [] || previousGuard == [] || standby == [] then []
    else
      var s := soldiers[0];
      var rest := PreviousGuardCandidates(soldiers[1..], previousGuard, standby, slot, history);
      if s.id in previousGuard && AvailableSoldiers([s], standby[0], slot, history) != [] then [s] + rest else rest
  }

  /** `groups` cuts `flat` into consecutive runs of four, the last possibly shorter. */
  predicate GroupsOf(flat: seq<Soldier>, groups: seq<seq<Soldier>>) {
    4 * |groups| - 4 < |flat| <= 4 * |groups| &&
    forall k | 0 <= k < |groups| ::
      4 * k < |flat| && groups[k] == flat[4 * k .. if 4 * k + 4 < |flat| then 4 * k + 4 else |flat|]
  }

  /** Lines 176-180. */
  method GroupByFour(flat: seq<Soldier>) returns (groups: seq<seq<Soldier>>)
    ensures GroupsOf(flat, groups)
  {
    groups := [];
    var i := 0;
    while i < |flat|
      invariant i == 4 * |groups|
      invariant |groups| > 0 ==> 4 * |groups| - 4 < |flat|
      invariant forall k | 0 <= k < |groups| ::
        4 * k < |flat| && groups[k] == flat[4 * k .. if 4 * k + 4 < |flat| then 4 * k + 4 else |flat|]
    {
      groups := groups + [flat[i .. if i + 4 < |flat| then i + 4 else |flat|]];
      i := i + 4;
    }
  }

  /** The (group, member) pointer is valid: inside a group, or one past the
      last group with member 0. Groups are never empty, so the source's branch
      for a member index past the end of its group never runs. */
  predicate PointerOk(groups: seq<seq<Soldier>>, gi: int, si: int) {
    0 <= gi <= |groups| && 0 <= si &&
    (gi < |groups| ==> si < |groups[gi]|) &&
    (gi == |groups| ==> si == 0)
  }

  /** The pointer as a position in the flat candidate list. */
  function Cursor(groups: seq<seq<Soldier>>, flatLen: int, gi: int, si: int): int {
    if gi < |groups| then 4 * gi + si else flatLen
  }

  /** Lines 200-238, run when the strict filter keeps somebody for the post:
      the candidate under the pointer is taken exactly when the filter keeps a
      soldier with its id and it holds no post in this slot yet; either way
      the pointer moves on by one candidate. */
  method OfferContinuity(avail: seq<Soldier>, assignments: seq<ShiftAssignment>,
                         groups: seq<seq<Soldier>>, gi0: int, si0: int, ghost flat: seq<Soldier>)
    returns (pick: Option<Soldier>, gi: int, si: int)
    requires GroupsOf(flat, groups) && PointerOk(groups, gi0, si0)
    ensures PointerOk(groups, gi, si)
    ensures var c := Cursor(groups, |flat|, gi0, si0);
            Cursor(groups, |flat|, gi, si) == (if c < |flat| then c + 1 else c) &&
            (pick.Some? <==>
               c < |flat| && (exists a | a in avail :: a.id == flat[c].id) && !Holds(assignments, flat[c].id)) &&
            (pick.Some? ==> pick.value == flat[c])
  {
    pick, gi, si := None, gi0, si0;
    if gi < |groups| {
      var group := groups[gi];
      var candidate := group[si];
      assert candidate == flat[4 * gi + si];
      if (exists a | a in avail :: a.id == candidate.id) && !Holds(assignments, candidate.id) {
        pick := Some(candidate);
      }
      si := si + 1;
      if si >= |group| {
        gi := gi + 1;
        si := 0;
      }
    }
  }

  /** The soldier chosen for one standby post (lines 187-282): the next
      previous-guard soldier when available and free, else the strict or
      relaxed pick. */
  method ChooseStandby(slot: TimeSlot, p: Position, soldiers: seq<Soldier>,
                       history0: History, assignments0: seq<ShiftAssignment>,
                       groups: seq<seq<Soldier>>, gi0: int, si0: int, ghost flat: seq<Soldier>)
    returns (picked: Option<Soldier>, gi: int, si: int)
    requires Tracked(soldiers, history0)
    requires GroupsOf(flat, groups) && PointerOk(groups, gi0, si0)
    requires forall s | s in flat :: s in soldiers
    ensures PointerOk(groups, gi, si)
    ensures (picked, Cursor(groups, |flat|, gi, si)) ==
            StandbyChoice(slot, p, soldiers, Fill(history0, assignments0), flat, Cursor(groups, |flat|, gi0, si0))
    ensures picked.Some? ==>
      picked.value in soldiers && !Booked(history0[picked.value.id], slot) &&
      exists w | w in soldiers :: w.id == picked.value.id && CommanderAllows(w, p)
    ensures picked.None? ==> forall s | s in soldiers :: !CommanderAllows(s, p) || Booked(history0[s.id], slot)
    ensures var c := Cursor(groups, |flat|, gi0, si0);
            var avail := AvailableSoldiers(soldiers, p, slot, history0);
            (avail == [] || c == |flat| ==> gi == gi0 && si == si0) &&
            (avail != [] && c < |flat| ==> Cursor(groups, |flat|, gi, si) == c + 1) &&
            ((avail != [] && c < |flat| && (exists a | a in avail :: a.id == flat[c].id) &&
              !Holds(assignments0, flat[c].id)) ==> picked == Some(flat[c]))
  {
    ghost var c := Cursor(groups, |flat|, gi0, si0);
    ghost var f := Fill(history0, assignments0);
    CursorInRange(groups, flat, gi0, si0);
    gi, si := gi0, si0;
    var avail := AvailableSoldiers(soldiers, p, slot, history0);
    picked := None;
    if avail != [] {
      picked, gi, si := OfferContinuity(avail, assignments0, groups, gi0, si0, flat);
    }
    if picked.None? {
      picked := StrictOrRelaxed(p, slot, soldiers, history0);
    }
    assert (picked, Cursor(groups, |flat|, gi, si)) == StandbyChoice(slot, p, soldiers, f, flat, c);
    StandbyChoiceSound(slot, p, soldiers, f, flat, c);
    StandbyChoiceCursor(slot, p, soldiers, f, flat, c);
  }

  /** The pointer, read as a cursor, lies within the candidate list. */
  lemma CursorInRange(groups: seq<seq<Soldier>>, flat: seq<Soldier>, gi: int, si: int)
    requires GroupsOf(flat, groups) && PointerOk(groups, gi, si)
    ensures 0 <= Cursor(groups, |flat|, gi, si) <= |flat|
  {
    if gi < |groups| {
      assert |groups[gi]| <= |flat| - 4 * gi;
    }
  }

  /** A standby pick meets the commander rule and is free in the slot, and
      nobody is picked only when every soldier is barred or booked. */
  lemma StandbyChoiceSound(slot: TimeSlot, p: Position, soldiers: seq<Soldier>, f: Fill, flat: seq<Soldier>, c: int)
    requires Tracked(soldiers, f.history)
    requires forall s | s in flat :: s in soldiers
    ensures var pick := StandbyChoice(slot, p, soldiers, f, flat, c).0;
            (pick.Some? ==>
               pick.value in soldiers && !Booked(f.history[pick.value.id], slot) &&
               exists w | w in soldiers :: w.id == pick.value.id && CommanderAllows(w, p)) &&
            (pick.None? ==> forall s | s in soldiers :: !CommanderAllows(s, p) || Booked(f.history[s.id], slot))
  {
    var avail := AvailableSoldiers(soldiers, p, slot, f.history);
    if avail != [] && 0 <= c < |flat| && (exists a | a in avail :: a.id == flat[c].id) && !Holds(f.assignments, flat[c].id) {
      var a :| a in avail && a.id == flat[c].id;
      assert CommanderAllows(a, p) && !Booked(f.history[a.id], slot);
    }
  }

  /** The cursor moves on by one exactly when the strict filter keeps somebody
      and candidates remain, and then the candidate under it is taken when the
      filter keeps its id and it is free in the slot. */
  lemma StandbyChoiceCursor(slot: TimeSlot, p: Position, soldiers: seq<Soldier>, f: Fill, flat: seq<Soldier>, c: int)
    requires Tracked(soldiers, f.history) && 0 <= c <= |flat|
    ensures var choice := StandbyChoice(slot, p, soldiers, f, flat, c);
            var avail := AvailableSoldiers(soldiers, p, slot, f.history);
            (avail == [] || c == |flat| ==> choice.1 == c) &&
            (avail != [] && c < |flat| ==> choice.1 == c + 1) &&
            ((avail != [] && c < |flat| && (exists a | a in avail :: a.id == flat[c].id) &&
              !Holds(f.assignments, flat[c].id)) ==> choice.0 == Some(flat[c]))
  {
  }

  /** One standby post (lines 185-303). */
  method FillStandby(slot: TimeSlot, p: Position, positions: seq<Position>, soldiers: seq<Soldier>,
                     history0: History, assignments0: seq<ShiftAssignment>,
                     groups: seq<seq<Soldier>>, gi0: int, si0: int, ghost flat: seq<Soldier>)
    returns (history: History, assignments: seq<ShiftAssignment>, gi: int, si: int)
    requires SlotState(slot, positions, soldiers, history0, assignments0) && p in positions
    requires GroupsOf(flat, groups) && PointerOk(groups, gi0, si0)
    requires forall s | s in flat :: s in soldiers
    ensures PointerOk(groups, gi, si)
    ensures history.Keys == history0.Keys
    ensures SlotState(slot, positions, soldiers, history, assignments)
    ensures assignments0 <= assignments
    ensures Covered(p, soldiers, assignments)
    ensures var c := Cursor(groups, |flat|, gi0, si0);
            var avail := AvailableSoldiers(soldiers, p, slot, history0);
            (avail == [] || c == |flat| ==> gi == gi0 && si == si0) &&
            (avail != [] && c < |flat| ==> Cursor(groups, |flat|, gi, si) == c + 1) &&
            (avail != [] && c < |flat| && (exists a | a in avail :: a.id == flat[c].id) &&
             !Holds(assignments0, flat[c].id) ==>
               assignments == assignments0 + [AssignmentOf(p, flat[c])])
    ensures var choice := StandbyChoice(slot, p, soldiers, Fill(history0, assignments0), flat, Cursor(groups, |flat|, gi0, si0));
            Fill(history, assignments) == Give(slot, p, choice.0, Fill(history0, assignments0)) &&
            Cursor(groups, |flat|, gi, si) == choice.1
  {
    var picked;
    picked, gi, si := ChooseStandby(slot, p, soldiers, history0, assignments0, groups, gi0, si0, flat);
    if picked.Some? {
      history, assignments := Commit(slot, p, picked.value, positions, soldiers, history0, assignments0);
      assert assignments[|assignments| - 1].positionId == p.id;
    } else {
      history, assignments := history0, assignments0;
      forall s | s in soldiers && CommanderAllows(s, p) ensures Holds(assignments, s.id) {
        assert Booked(history0[s.id], slot);
      }
    }
  }

  /** The standby pass: every standby post in roster order, the pointer
      running through the previous-guard candidates. */
  method StandbyPass(slot: TimeSlot, positions: seq<Position>, soldiers: seq<Soldier>, previousGuard: seq<string>,
                     history0: History, assignments0: seq<ShiftAssignment>)
    returns (history: History, assignments: seq<ShiftAssignment>)
    requires SlotState(slot, positions, soldiers, history0, assignments0)
    ensures history.Keys == history0.Keys
    ensures SlotState(slot, positions, soldiers, history, assignments)
    ensures assignments0 <= assignments
    ensures forall p | p in positions && p.isStandby :: Covered(p, soldiers, assignments)
    ensures var standby := StandbyPositions(positions);
            Fill(history, assignments) ==
            StandbyFill(slot, standby, soldiers, PreviousGuardCandidates(soldiers, previousGuard, standby, slot, history0),
                        0, Fill(history0, assignments0))
  {
    var standby := StandbyPositions(positions);
    var flat := PreviousGuardCandidates(soldiers, previousGuard, standby, slot, history0);
    var groups := GroupByFour(flat);
    var gi, si := 0, 0;
    history, assignments := history0, assignments0;
    ghost var target := StandbyFill(slot, standby, soldiers, flat, 0, Fill(history0, assignments0));
    assert standby[0..] == standby;
    assert Cursor(groups, |flat|, 0, 0) == 0;
    for k := 0 to |standby|
      invariant PointerOk(groups, gi, si)
      invariant history.Keys == history0.Keys
      invariant SlotState(slot, positions, soldiers, history, assignments)
      invariant assignments0 <= assignments
      invariant forall j | 0 <= j < k :: Covered(standby[j], soldiers, assignments)
      invariant StandbyFill(slot, standby[k..], soldiers, flat, Cursor(groups, |flat|, gi, si), Fill(history, assignments)) == target
    {
      history, assignments, gi, si := StandbyStep(slot, standby, k, positions, soldiers, history, assignments, groups, gi, si, flat);
    }
    StandbyCovered(positions, soldiers, assignments);
  }

  /** Covering every post of the standby list covers every standby post. */
  lemma StandbyCovered(positions: seq<Position>, soldiers: seq<Soldier>, assignments: seq<ShiftAssignment>)
    requires forall j | 0 <= j < |StandbyPositions(positions)| :: Covered(StandbyPositions(positions)[j], soldiers, assignments)
    ensures forall p | p in positions && p.isStandby :: Covered(p, soldiers, assignments)
  {
    var standby := StandbyPositions(positions);
    forall p | p in positions && p.isStandby ensures Covered(p, soldiers, assignments) {
      var j :| 0 <= j < |standby| && standby[j] == p;
      assert Covered(standby[j], soldiers, assignments);
    }
  }

  /** One step of the standby pass: fill standby post `k`. */
  method StandbyStep(slot: TimeSlot, standby: seq<Position>, k: int, positions: seq<Position>, soldiers: seq<Soldier>,
                     history0: History, assignments0: seq<ShiftAssignment>,
                     groups: seq<seq<Soldier>>, gi0: int, si0: int, ghost flat: seq<Soldier>)
    returns (history: History, assignments: seq<ShiftAssignment>, gi: int, si: int)
    requires 0 <= k < |standby| && standby[k] in positions
    requires SlotState(slot, positions, soldiers, history0, assignments0)
    requires GroupsOf(flat, groups) && PointerOk(groups, gi0, si0)
    requires forall s | s in flat :: s in soldiers
    requires forall j | 0 <= j < k :: Covered(standby[j], soldiers, assignments0)
    ensures PointerOk(groups, gi, si)
    ensures history.Keys == history0.Keys
    ensures SlotState(slot, positions, soldiers, history, assignments)
    ensures assignments0 <= assignments
    ensures forall j | 0 <= j < k + 1 :: Covered(standby[j], soldiers, assignments)
    ensures StandbyFill(slot, standby[k + 1..], soldiers, flat, Cursor(groups, |flat|, gi, si), Fill(history, assignments)) ==
            StandbyFill(slot, standby[k..], soldiers, flat, Cursor(groups, |flat|, gi0, si0), Fill(history0, assignments0))
  {
    StandbyFillStep(slot, standby, k, soldiers, flat, Cursor(groups, |flat|, gi0, si0), Fill(history0, assignments0));
    history, assignments, gi, si := FillStandby(slot, standby[k], positions, soldiers, history0, assignments0, groups, gi0, si0, flat);
    CoveredStep(standby, k, soldiers, assignments0, assignments);
  }

  lemma StandbyFillStep(slot: TimeSlot, standby: seq<Position>, k: int, soldiers: seq<Soldier>, flat: seq<Soldier>,
                        c: int, f: Fill)
    requires 0 <= k < |standby| && Tracked(soldiers, f.history)
    ensures var choice := StandbyChoice(slot, standby[k], soldiers, f, flat, c);
            StandbyFill(slot, standby[k..], soldiers, flat, c, f) ==
            StandbyFill(slot, standby[k + 1..], soldiers, flat, choice.1, Give(slot, standby[k], choice.0, f))
  {
    assert standby[k..][1..] == standby[k + 1..];
  }

  /** One slot: guard pass, then standby pass (lines 62-311). */
  method FillSlot(slot: TimeSlot, positions: seq<Position>, soldiers: seq<Soldier>, previousGuard: seq<string>,
                  history0: History)
    returns (day: DaySchedule, history: History, guardIds: seq<string>)
    requires Tracked(soldiers, history0) && RecordsBefore(history0, slot.shiftNumber)
    ensures day == DaySchedule(DateText(slot.date), slot.shiftNumber, slot.start, slot.end, day.assignments)
    ensures SlotFilled(day, positions, soldiers)
    ensures history.Keys == history0.Keys
    ensures Tracked(soldiers, history) && RecordsBefore(history, slot.shiftNumber + 1)
    ensures Fill(history, day.assignments) == SlotFill(slot, positions, soldiers, previousGuard, history0)
    ensures guardIds == GuardIds(slot, positions, soldiers, history0)
  {
    assert SlotBookings(history0, [], slot);
    var assignments;
    history, assignments, guardIds := GuardPass(slot, positions, soldiers, history0);
    IdsOfUnique(guardIds, SoldierIds(assignments), assignments);
    ghost var afterGuard := assignments;
    history, assignments := StandbyPass(slot, positions, soldiers, previousGuard, history, assignments);
    forall p | p in positions && !p.isStandby ensures Covered(p, soldiers, assignments) {
      CoveredGrows(p, soldiers, afterGuard, assignments);
    }
    day := DaySchedule(DateText(slot.date), slot.shiftNumber, slot.start, slot.end, assignments);
  }

  // ---------------------------------------------------------------------------
  // The whole run.

  /** Lines 40-46: an empty history for every soldier. */
  method InitHistory(soldiers: seq<Soldier>) returns (history: History)
    ensures Tracked(soldiers, history)
    ensures forall id | id in history :: history[id] == []
    ensures history == EmptyHistory(soldiers)
  {
    history := map[];
    for k := 0 to |soldiers|
      invariant history == EmptyHistory(soldiers[..k])
    {
      history := history[soldiers[k].id := []];
      assert soldiers[..k + 1][..k] == soldiers[..k];
    }
    assert soldiers[..|soldiers|] == soldiers;
  }

  /** GenerateScheduleAsync, with the rosters and the shift length as
      parameters. Empty rosters are refused before anything is built;
      otherwise the result holds one shift per generated window, in order,
      numbered from 0, each filled by the rules above. */
  /** Entry `n` of the schedule is the planned window `w`, filled. */
  predicate EntryFor(day: DaySchedule, w: Window, n: int, positions: seq<Position>, soldiers: seq<Soldier>) {
    day.date == DateText(w.date) && day.shiftNumber == n &&
    day.start == w.start && day.end == w.end &&
    SlotFilled(day, positions, soldiers)
  }

  method GenerateSchedule(config: ScheduleConfig, positions: seq<Position>, soldiers: seq<Soldier>, shiftSeconds: nat)
    returns (r: Result<seq<DaySchedule>, EngineError>)
    requires HoursInRange(config)
    ensures positions == [] ==> r == Failure(NoPositions)
    ensures positions != [] && soldiers == [] ==> r == Failure(NoSoldiers)
    ensures positions != [] && soldiers != [] ==> r.Success?
    ensures r.Success? ==>
      var plan := Plan(config, shiftSeconds, |positions|);
      |r.value| == |plan| &&
      forall i | 0 <= i < |plan| :: EntryFor(r.value[i], plan[i], i, positions, soldiers)
    ensures r.Success? ==> r.value == Schedule(config, positions, soldiers, shiftSeconds)
  {
    if positions == [] {
      return Failure(NoPositions);
    }
    if soldiers == [] {
      return Failure(NoSoldiers);
    }
    var history := InitHistory(soldiers);
    var slots := GenerateTimeSlots(config, shiftSeconds, |positions|);
    ghost var plan := Plan(config, shiftSeconds, |positions|);
    assert slots == NumberedPlan(plan);
    var schedule := FillSlots(slots, plan, positions, soldiers, history);
    return Success(schedule);
  }

  /** The slot loop of lines 62-309, from a fresh history. */
  method FillSlots(slots: seq<TimeSlot>, ghost plan: seq<Window>, positions: seq<Position>, soldiers: seq<Soldier>,
                   history0: History)
    returns (schedule: seq<DaySchedule>)
    requires slots == NumberedPlan(plan)
    requires Tracked(soldiers, history0) && RecordsBefore(history0, 0)
    ensures |schedule| == |plan|
    ensures forall i | 0 <= i < |plan| :: EntryFor(schedule[i], plan[i], i, positions, soldiers)
    ensures schedule == Days(slots, positions, soldiers, [], history0)
  {
    var history := history0;
    var previousGuard: seq<string> := [];
    schedule := [];
    ghost var target := Days(slots, positions, soldiers, [], history0);
    assert slots[0..] == slots;
    AppendNothing(target);
    for i := 0 to |slots|
      invariant |schedule| == i
      invariant Tracked(soldiers, history) && RecordsBefore(history, i)
      invariant forall k | 0 <= k < i :: EntryFor(schedule[k], plan[k], k, positions, soldiers)
      invariant schedule + Days(slots[i..], positions, soldiers, previousGuard, history) == target
    {
      assert slots[i] == Numbered(plan[i], i);
      schedule, previousGuard, history := AddDay(slots[i], i, slots, plan, positions, soldiers, schedule, previousGuard, history);
    }
    assert slots[|slots|..] == [];
    AppendNothing(schedule);
  }

  lemma AppendNothing<T>(xs: seq<T>)
    ensures [] + xs == xs && xs + [] == xs
  {
  }

  /** One pass of the slot loop (lines 62-309): fill the slot and append its entry. */
  method AddDay(slot: TimeSlot, i: int, ghost slots: seq<TimeSlot>, ghost plan: seq<Window>,
                positions: seq<Position>, soldiers: seq<Soldier>,
                schedule0: seq<DaySchedule>, previousGuard0: seq<string>, history0: History)
    returns (schedule: seq<DaySchedule>, previousGuard: seq<string>, history: History)
    requires 0 <= i < |slots| && |slots| == |plan| && slot == slots[i] && slot == Numbered(plan[i], i)
    requires |schedule0| == i && Tracked(soldiers, history0) && RecordsBefore(history0, i)
    requires forall k | 0 <= k < i :: EntryFor(schedule0[k], plan[k], k, positions, soldiers)
    ensures |schedule| == i + 1 && Tracked(soldiers, history) && RecordsBefore(history, i + 1)
    ensures forall k | 0 <= k < i + 1 :: EntryFor(schedule[k], plan[k], k, positions, soldiers)
    ensures schedule + Days(slots[i + 1..], positions, soldiers, previousGuard, history) ==
            schedule0 + Days(slots[i..], positions, soldiers, previousGuard0, history0)
  {
    var day;
    day, history, previousGuard := FillSlot(slot, positions, soldiers, previousGuard0, history0);
    ExtendEntries(schedule0, day, plan, positions, soldiers);
    ExtendDays(schedule0, day, slots, i, positions, soldiers, previousGuard0, history0, previousGuard, history);
    schedule := schedule0 + [day];
  }

  lemma ExtendDays(schedule0: seq<DaySchedule>, day: DaySchedule, slots: seq<TimeSlot>, i: int,
                   positions: seq<Position>, soldiers: seq<Soldier>,
                   previousGuard0: seq<string>, history0: History, previousGuard: seq<string>, history: History)
    requires 0 <= i < |slots| && Tracked(soldiers, history0) && Tracked(soldiers, history)
    requires day == DaySchedule(DateText(slots[i].date), slots[i].shiftNumber, slots[i].start, slots[i].end, day.assignments)
    requires Fill(history, day.assignments) == SlotFill(slots[i], positions, soldiers, previousGuard0, history0)
    requires previousGuard == GuardIds(slots[i], positions, soldiers, history0)
    ensures (schedule0 + [day]) + Days(slots[i + 1..], positions, soldiers, previousGuard, history) ==
            schedule0 + Days(slots[i..], positions, soldiers, previousGuard0, history0)
  {
    DaysStep(slots, i, positions, soldiers, previousGuard0, history0, day, previousGuard, history);
    AppendRegroup(schedule0, day, Days(slots[i + 1..], positions, soldiers, previousGuard, history));
  }

  lemma AppendRegroup<T>(xs: seq<T>, x: T, ys: seq<T>)
    ensures (xs + [x]) + ys == xs + ([x] + ys)
  {
  }

  /** The entries of slots `i..` are slot `i`'s entry, then those of the
      slots after it, filled on the history slot `i` leaves. */
  lemma DaysStep(slots: seq<TimeSlot>, i: int, positions: seq<Position>, soldiers: seq<Soldier>,
                 previousGuard0: seq<string>, history0: History, day: DaySchedule, previousGuard: seq<string>,
                 history: History)
    requires 0 <= i < |slots| && Tracked(soldiers, history0) && Tracked(soldiers, history)
    requires day == DaySchedule(DateText(slots[i].date), slots[i].shiftNumber, slots[i].start, slots[i].end, day.assignments)
    requires Fill(history, day.assignments) == SlotFill(slots[i], positions, soldiers, previousGuard0, history0)
    requires previousGuard == GuardIds(slots[i], positions, soldiers, history0)
    ensures Days(slots[i..], positions, soldiers, previousGuard0, history0) ==
            [day] + Days(slots[i + 1..], positions, soldiers, previousGuard, history)
  {
    assert slots[i..][0] == slots[i] && slots[i..][1..] == slots[i + 1..];
  }

  lemma ExtendEntries(schedule: seq<DaySchedule>, day: DaySchedule, plan: seq<Window>,
                      positions: seq<Position>, soldiers: seq<Soldier>)
    requires |schedule| < |plan|
    requires forall k | 0 <= k < |schedule| :: EntryFor(schedule[k], plan[k], k, positions, soldiers)
    requires EntryFor(day, plan[|schedule|], |schedule|, positions, soldiers)
    ensures forall k | 0 <= k <= |schedule| :: EntryFor((schedule + [day])[k], plan[k], k, positions, soldiers)
  {
  }
}
