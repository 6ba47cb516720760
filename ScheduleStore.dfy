/** The current schedule held by the API (ScheduleController) and the edits
    made to it: regeneration, wholesale update, swapping two soldiers
    everywhere, and replacing one assignment of one shift.

    The controller keeps the schedule in a static list that every request
    shares; here it is the one field of a `ScheduleStore` object. An absent
    string in a request is modelled as the empty string, which the source
    treats the same way (`string.IsNullOrEmpty`). */
module ScheduleStore {
  import opened Domain
  import opened TimeSlots
  import opened Assembler

  /** The HTTP outcome; on `Ok` the body is the current schedule. */
  datatype Status = Ok | BadRequest | NotFound

  /** Body of POST /api/schedule/swap. */
  datatype SwapRequest = SwapRequest(soldier1Id: string, soldier1Name: string, soldier2Id: string, soldier2Name: string)

  /** Body of POST /api/schedule/replace; a missing position name is `None`. */
  datatype ReplaceRequest = ReplaceRequest(
    date: string, shiftNumber: int, positionId: string, positionName: Option<string>,
    oldSoldierId: string, newSoldierId: string, newSoldierName: string)

  // ---------------------------------------------------------------------------
  // Swapping.

  /** One assignment after the swap: soldier 1 becomes soldier 2, else
      soldier 2 becomes soldier 1, else it is left alone. */
  function SwapOne(a: ShiftAssignment, req: SwapRequest): ShiftAssignment {
    if a.soldierId == req.soldier1Id then a.(soldierId := req.soldier2Id, soldierName := req.soldier2Name)
    else if a.soldierId == req.soldier2Id then a.(soldierId := req.soldier1Id, soldierName := req.soldier1Name)
    else a
  }

  function SwapAssignments(list: seq<ShiftAssignment>, req: SwapRequest): (r: seq<ShiftAssignment>)
    ensures |r| == |list|
    ensures forall j | 0 <= j < |list| :: r[j] == SwapOne(list[j], req)
  {
    seq(|list|, j requires 0 <= j < |list| => SwapOne(list[j], req))
  }

  /** The whole schedule after a swap: same shifts, same assignment lists
      position by position, and only the soldier fields of the assignments
      held by either soldier rewritten. */
  function SwapAll(schedule: seq<DaySchedule>, req: SwapRequest): (r: seq<DaySchedule>)
    ensures |r| == |schedule|
    ensures forall i | 0 <= i < |schedule| ::
      r[i].date == schedule[i].date && r[i].shiftNumber == schedule[i].shiftNumber &&
      r[i].start == schedule[i].start && r[i].end == schedule[i].end &&
      |r[i].assignments| == |schedule[i].assignments|
    ensures forall i, j | 0 <= i < |schedule| && 0 <= j < |schedule[i].assignments| ::
      var a, b := schedule[i].assignments[j], r[i].assignments[j];
      b.positionId == a.positionId && b.positionName == a.positionName &&
      (a.soldierId == req.soldier1Id ==> b.soldierId == req.soldier2Id && b.soldierName == req.soldier2Name) &&
      (a.soldierId == req.soldier2Id && a.soldierId != req.soldier1Id ==>
         b.soldierId == req.soldier1Id && b.soldierName == req.soldier1Name) &&
      (a.soldierId != req.soldier1Id && a.soldierId != req.soldier2Id ==> b == a)
  {
    seq(|schedule|, i requires 0 <= i < |schedule| =>
      schedule[i].(assignments := SwapAssignments(schedule[i].assignments, req)))
  }

  /** Swapping twice with the same request puts every soldier id back. */
  lemma SwapTwiceRestoresIds(schedule: seq<DaySchedule>, req: SwapRequest)
    ensures var twice := SwapAll(SwapAll(schedule, req), req);
      |twice| == |schedule| &&
      forall i | 0 <= i < |schedule| ::
        |twice[i].assignments| == |schedule[i].assignments| &&
        forall j | 0 <= j < |schedule[i].assignments| ::
          twice[i].assignments[j].soldierId == schedule[i].assignments[j].soldierId
  {
    var once := SwapAll(schedule, req);
    var twice := SwapAll(once, req);
    forall i, j | 0 <= i < |schedule| && 0 <= j < |schedule[i].assignments|
      ensures twice[i].assignments[j].soldierId == schedule[i].assignments[j].soldierId
    {
      var a := schedule[i].assignments[j];
      assert once[i].assignments[j] == SwapOne(a, req);
      assert twice[i].assignments[j] == SwapOne(SwapOne(a, req), req);
    }
  }

  // ---------------------------------------------------------------------------
  // Replacing.

  /** Index of the first shift with this date text and shift number. */
  function FindShift(schedule: seq<DaySchedule>, date: string, shiftNumber: int): (r: Option<nat>)
    ensures r.None? <==> forall i | 0 <= i < |schedule| :: !(schedule[i].date == date && schedule[i].shiftNumber == shiftNumber)
    ensures r.Some? ==>
      r.value < |schedule| &&
      schedule[r.value].date == date && schedule[r.value].shiftNumber == shiftNumber &&
      forall i | 0 <= i < r.value :: !(schedule[i].date == date && schedule[i].shiftNumber == shiftNumber)
  {
    if schedule == [] then None
    else if schedule[0].date == date && schedule[0].shiftNumber == shiftNumber then Some(0)
    else match FindShift(schedule[1..], date, shiftNumber)
      case None => None
      case Some(i) => Some(i + 1)
  }

  /** The assignment a replace request targets: for the position, and held
      by the old soldier when one is named. */
  predicate Targets(a: ShiftAssignment, positionId: string, oldSoldierId: string) {
    a.positionId == positionId && (oldSoldierId == "" || a.soldierId == oldSoldierId)
  }

  /** Index of the first targeted assignment. */
  function FindTarget(list: seq<ShiftAssignment>, positionId: string, oldSoldierId: string): (r: Option<nat>)
    ensures r.None? <==> forall j | 0 <= j < |list| :: !Targets(list[j], positionId, oldSoldierId)
    ensures r.Some? ==>
      r.value < |list| && Targets(list[r.value], positionId, oldSoldierId) &&
      forall j | 0 <= j < r.value :: !Targets(list[j], positionId, oldSoldierId)
  {
    if list == [] then None
    else if Targets(list[0], positionId, oldSoldierId) then Some(0)
    else match FindTarget(list[1..], positionId, oldSoldierId)
      case None => None
      case Some(j) => Some(j + 1)
  }

  /** The request names a date, a position and a new soldier. */
  predicate ReplaceComplete(req: ReplaceRequest) {
    req.date != "" && req.positionId != "" && req.newSoldierId != ""
  }

  /** The controller's own checks on a generation request (lines 32-39). */
  predicate ConfigAccepted(config: ScheduleConfig) {
    config.startDate < config.endDate && HoursInRange(config)
  }

  class ScheduleStore {
    var current: seq<DaySchedule>

    constructor()
      ensures current == []
    {
      current := [];
    }

    /** PUT /api/schedule: the supplied list becomes the current schedule. */
    method Update(schedule: seq<DaySchedule>) returns (status: Status)
      modifies this
      ensures status == Ok && current == schedule
    {
      current := schedule;
      status := Ok;
    }

    /** POST /api/schedule/swap: both ids are required; then every assignment
        of either soldier goes to the other, in place. */
    method SwapSoldiers(req: SwapRequest) returns (status: Status)
      modifies this
      ensures req.soldier1Id == "" || req.soldier2Id == "" ==> status == BadRequest && current == old(current)
      ensures req.soldier1Id != "" && req.soldier2Id != "" ==> status == Ok && current == SwapAll(old(current), req)
    {
      if req.soldier1Id == "" || req.soldier2Id == "" {
        return BadRequest;
      }
      var i := 0;
      while i < |current|
        invariant 0 <= i <= |current| == |old(current)|
        invariant forall k | 0 <= k < i :: current[k] == SwapAll(old(current), req)[k]
        invariant forall k | i <= k < |current| :: current[k] == old(current)[k]
      {
        var day := current[i];
        var list := day.assignments;
        var j := 0;
        while j < |list|
          invariant 0 <= j <= |list| == |day.assignments|
          invariant forall m | 0 <= m < j :: list[m] == SwapOne(day.assignments[m], req)
          invariant forall m | j <= m < |list| :: list[m] == day.assignments[m]
        {
          var a := list[j];
          if a.soldierId == req.soldier1Id {
            list := list[j := a.(soldierId := req.soldier2Id, soldierName := req.soldier2Name)];
          } else if a.soldierId == req.soldier2Id {
            list := list[j := a.(soldierId := req.soldier1Id, soldierName := req.soldier1Name)];
          }
          j := j + 1;
        }
        assert list == SwapAssignments(day.assignments, req);
        current := current[i := day.(assignments := list)];
        i := i + 1;
      }
      assert current == SwapAll(old(current), req);
      status := Ok;
    }

    /** POST /api/schedule/replace: date, position and new soldier are
        required; the shift is the first with the date and number; the first
        targeted assignment gets the new soldier or, when there is none, a new
        assignment for the position is appended. Nothing else changes. */
    method ReplaceAssignment(req: ReplaceRequest) returns (status: Status)
      modifies this
      ensures !ReplaceComplete(req) ==> status == BadRequest && current == old(current)
      ensures ReplaceComplete(req) && FindShift(old(current), req.date, req.shiftNumber).None? ==>
        status == NotFound && current == old(current)
      ensures ReplaceComplete(req) && FindShift(old(current), req.date, req.shiftNumber).Some? ==>
        var i := FindShift(old(current), req.date, req.shiftNumber).value;
        var before := old(current)[i].assignments;
        status == Ok && |current| == |old(current)| &&
        current == old(current)[i := old(current)[i].(assignments := current[i].assignments)] &&
        match FindTarget(before, req.positionId, req.oldSoldierId)
        case Some(j) =>
          current[i].assignments ==
            before[j := before[j].(soldierId := req.newSoldierId, soldierName := req.newSoldierName)]
        case None =>
          current[i].assignments ==
            before + [ShiftAssignment(req.positionId, req.positionName.GetOr(""), req.newSoldierId, req.newSoldierName)]
    {
      if !ReplaceComplete(req) {
        return BadRequest;
      }
      var found := FindShift(current, req.date, req.shiftNumber);
      if found.None? {
        return NotFound;
      }
      var i := found.value;
      var day := current[i];
      var list := day.assignments;
      var target := FindTarget(list, req.positionId, req.oldSoldierId);
      var j: nat;
      if target.None? {
        list := list + [ShiftAssignment(req.positionId, req.positionName.GetOr(""), "", "")];
        j := |list| - 1;
      } else {
        j := target.value;
      }
      list := list[j := list[j].(soldierId := req.newSoldierId, soldierName := req.newSoldierName)];
      current := current[i := day.(assignments := list)];
      status := Ok;
    }

    /** POST /api/schedule/generate: the controller's checks first, then the
        engine; an engine refusal is a bad request that keeps the current
        schedule, and a produced schedule replaces it. */
    method Generate(config: ScheduleConfig, positions: seq<Position>, soldiers: seq<Soldier>, shiftSeconds: nat)
      returns (status: Status)
      modifies this
      ensures status != NotFound
      ensures status == Ok <==> ConfigAccepted(config) && positions != [] && soldiers != []
      ensures status != Ok ==> current == old(current)
      ensures status == Ok ==>
        var plan := Plan(config, shiftSeconds, |positions|);
        |current| == |plan| &&
        forall i | 0 <= i < |plan| :: EntryFor(current[i], plan[i], i, positions, soldiers)
      ensures status == Ok ==> current == Schedule(config, positions, soldiers, shiftSeconds)
    {
      if config.startDate >= config.endDate {
        return BadRequest;
      }
      if config.startHour.Some? && (config.startHour.value < 0 || config.startHour.value > 23) {
        return BadRequest;
      }
      if config.endHour.Some? && (config.endHour.value < 0 || config.endHour.value > 23) {
        return BadRequest;
      }
      var result := GenerateSchedule(config, positions, soldiers, shiftSeconds);
      if result.Failure? {
        return BadRequest;
      }
      current := result.value;
      status := Ok;
    }
  }

  /** After a successful replace the shift holds an assignment of the
      position to the new soldier. */
  lemma ReplacedShiftHoldsNewSoldier(before: seq<ShiftAssignment>, req: ReplaceRequest)
    ensures var after := match FindTarget(before, req.positionId, req.oldSoldierId)
              case Some(j) => before[j := before[j].(soldierId := req.newSoldierId, soldierName := req.newSoldierName)]
              case None => before + [ShiftAssignment(req.positionId, req.positionName.GetOr(""), req.newSoldierId, req.newSoldierName)];
            exists a | a in after :: a.positionId == req.positionId && a.soldierId == req.newSoldierId && a.soldierName == req.newSoldierName
  {
    match FindTarget(before, req.positionId, req.oldSoldierId)
    case Some(j) =>
      var after := before[j := before[j].(soldierId := req.newSoldierId, soldierName := req.newSoldierName)];
      assert after[j] in after;
    case None =>
      var after := before + [ShiftAssignment(req.positionId, req.positionName.GetOr(""), req.newSoldierId, req.newSoldierName)];
      assert after[|before|] in after;
  }
}
