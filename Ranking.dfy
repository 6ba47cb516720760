/** The ranking heuristic of the engine (SchedulerService.SelectBestSoldier
    with GetHoursSinceLastShift/GuardShift/StandbyShift and
    CanBeContinuousFromGuard).

    Candidates are ordered by a primary rest key, descending, then by the
    number of shifts already held, ascending, and the first of the stable
    order wins. Within one call the average load is the same for every
    candidate, so "fairness descending" is "load ascending"; the third key,
    load ascending again, adds nothing. */
module Ranking {
  import opened Domain
  import opened Availability

  /** A rest key: seconds of rest, or the no-history sentinel, which compares
      above every finite key. */
  datatype Rest = Finite(seconds: int) | Infinite

  /** Strictly greater rest key. */
  predicate RestAbove(a: Rest, b: Rest) {
    match (a, b)
    case (Infinite, Finite(_)) => true
    case (Finite(x), Finite(y)) => x > y
    case _ => false
  }

  /** Rest keyed when history exists but no shift of the kind precedes the
      slot (24 hours), and the key given to a standby candidate continuous
      from a guard shift (1000 hours). */
  const NoRecentShift: int := 24 * SecondsPerHour
  const ContinuityKey: int := 1000 * SecondsPerHour

  /** Which shifts a "hours since" query looks at. */
  datatype Kind = AnyShift | GuardShift | StandbyShift

  predicate OfKind(a: SoldierAssignment, kind: Kind) {
    match kind
    case AnyShift => true
    case GuardShift => !a.isStandbyPosition
    case StandbyShift => a.isStandbyPosition
  }

  /** Shifts of the kind that ended strictly before `start`. */
  predicate EndedBefore(a: SoldierAssignment, kind: Kind, start: int) {
    OfKind(a, kind) && a.shiftEnd < start
  }

  /** End of the latest shift of the kind that ended before `start`, if any. */
  function LatestEndBefore(recs: seq<SoldierAssignment>, kind: Kind, start: int): (r: Option<int>)
    ensures r.None? <==> forall a | a in recs :: !EndedBefore(a, kind, start)
    ensures r.Some? ==> exists a | a in recs :: EndedBefore(a, kind, start) && a.shiftEnd == r.value
    ensures r.Some? ==> forall a | a in recs && EndedBefore(a, kind, start) :: a.shiftEnd <= r.value
  {
    if recs == [] then None
    else
      var last := recs[|recs| - 1];
      var front := LatestEndBefore(recs[..|recs| - 1], kind, start);
      assert forall a | a in recs :: a in recs[..|recs| - 1] || a == last;
      if !EndedBefore(last, kind, start) then front
      else if front.None? || front.value < last.shiftEnd then Some(last.shiftEnd)
      else front
  }

  /** GetHoursSince*: no history at all is the top key; a history with no
      shift of the kind before the slot is 24 hours; otherwise the time since
      the latest such shift ended. */
  function HoursSince(recs: seq<SoldierAssignment>, kind: Kind, start: int): (r: Rest)
    ensures r.Infinite? <==> recs == []
    ensures recs != [] && (forall a | a in recs :: !EndedBefore(a, kind, start)) ==> r == Finite(NoRecentShift)
    ensures r.Finite? ==> r.seconds > 0
    ensures r.Finite? && (exists a | a in recs :: EndedBefore(a, kind, start)) ==>
      (exists a | a in recs :: EndedBefore(a, kind, start) && r.seconds == start - a.shiftEnd) &&
      (forall a | a in recs && EndedBefore(a, kind, start) :: r.seconds <= start - a.shiftEnd)
  {
    if recs == [] then Infinite
    else match LatestEndBefore(recs, kind, start)
      case None => Finite(NoRecentShift)
      case Some(e) => Finite(start - e)
  }

  /** The latest end of any shift is the later of the latest guard end and
      the latest standby end, so the time since the last shift is the
      smaller of the two per-kind times. */
  lemma LatestEndIsMaxOfKinds(recs: seq<SoldierAssignment>, start: int)
    ensures var any := LatestEndBefore(recs, AnyShift, start);
            var g := LatestEndBefore(recs, GuardShift, start);
            var s := LatestEndBefore(recs, StandbyShift, start);
            (any.None? <==> g.None? && s.None?) &&
            (any.Some? ==> any.value == if g.None? then s.value
                                        else if s.None? then g.value
                                        else if g.value < s.value then s.value else g.value)
  {
    var any := LatestEndBefore(recs, AnyShift, start);
    var g := LatestEndBefore(recs, GuardShift, start);
    var s := LatestEndBefore(recs, StandbyShift, start);
    if any.Some? {
      var a :| a in recs && EndedBefore(a, AnyShift, start) && a.shiftEnd == any.value;
      if a.isStandbyPosition {
        assert EndedBefore(a, StandbyShift, start);
      } else {
        assert EndedBefore(a, GuardShift, start);
      }
      if g.Some? {
        var b :| b in recs && EndedBefore(b, GuardShift, start) && b.shiftEnd == g.value;
        assert EndedBefore(b, AnyShift, start);
      }
      if s.Some? {
        var b :| b in recs && EndedBefore(b, StandbyShift, start) && b.shiftEnd == s.value;
        assert EndedBefore(b, AnyShift, start);
      }
    } else {
      forall a | a in recs
        ensures !EndedBefore(a, GuardShift, start) && !EndedBefore(a, StandbyShift, start)
      {
        assert !EndedBefore(a, AnyShift, start);
      }
    }
  }

  /** The primary key: rest since the last guard shift for a guard post; for a
      standby post, the continuity key when a guard shift ended within an
      hour, else rest since the last standby shift. */
  function PrimaryKey(p: Position, recs: seq<SoldierAssignment>, start: int): (k: Rest)
    ensures !p.isStandby ==> k == HoursSince(recs, GuardShift, start)
    ensures p.isStandby && ContinuousFromGuard(recs, start) ==> k == Finite(ContinuityKey)
    ensures p.isStandby && !ContinuousFromGuard(recs, start) ==> k == HoursSince(recs, StandbyShift, start)
  {
    if !p.isStandby then HoursSince(recs, GuardShift, start)
    else if ContinuousFromGuard(recs, start) then Finite(ContinuityKey)
    else HoursSince(recs, StandbyShift, start)
  }

  /** A candidate's sort key: primary key and number of shifts held. */
  datatype Rank = Rank(key: Rest, load: nat)

  function RankOf(s: Soldier, p: Position, slot: TimeSlot, history: History): Rank
    requires s.id in history
  {
    Rank(PrimaryKey(p, history[s.id], slot.start), |history[s.id]|)
  }

  /** `a` sorts strictly before `b`: a higher key, or an equal key and a
      lighter load. */
  predicate Outranks(a: Rank, b: Rank) {
    RestAbove(a.key, b.key) || (a.key == b.key && a.load < b.load)
  }

  /** Outranking is a strict weak order: irreflexive, and "not below" is
      transitive through it, so a stable sort by it is well defined. */
  lemma OutranksIsStrictWeakOrder(a: Rank, b: Rank, c: Rank)
    ensures !Outranks(a, a)
    ensures Outranks(a, b) ==> !Outranks(b, a)
    ensures Outranks(a, b) && Outranks(b, c) ==> Outranks(a, c)
    ensures Outranks(a, c) ==> Outranks(a, b) || Outranks(b, c)
  {
  }

  /** Index of the first candidate that no candidate outranks: what a stable
      descending sort puts first. */
  function BestIndex(ranks: seq<Rank>): (i: nat)
    requires ranks != []
    ensures i < |ranks|
    ensures forall j | 0 <= j < |ranks| :: !Outranks(ranks[j], ranks[i])
    ensures forall j | 0 <= j < i :: Outranks(ranks[i], ranks[j])
  {
    if |ranks| == 1 then 0
    else
      var b := BestIndex(ranks[..|ranks| - 1]);
      var last := |ranks| - 1;
      if Outranks(ranks[last], ranks[b]) then
        assert forall j | 0 <= j < last :: Outranks(ranks[last], ranks[j]) by {
          forall j | 0 <= j < last ensures Outranks(ranks[last], ranks[j]) {
            OutranksIsStrictWeakOrder(ranks[last], ranks[b], ranks[j]);
            OutranksIsStrictWeakOrder(ranks[j], ranks[b], ranks[last]);
          }
        }
        last
      else b
  }

  function Ranks(cands: seq<Soldier>, p: Position, slot: TimeSlot, history: History): (rs: seq<Rank>)
    requires forall s | s in cands :: s.id in history
    ensures |rs| == |cands|
    ensures forall i | 0 <= i < |cands| :: rs[i] == RankOf(cands[i], p, slot, history)
  {
    seq(|cands|, i requires 0 <= i < |cands| => RankOf(cands[i], p, slot, history))
  }

  /** SelectBestSoldier: nothing exactly for an empty list; otherwise the
      earliest candidate that no other candidate outranks, which outranks
      every candidate before it. */
  function SelectBestSoldier(cands: seq<Soldier>, p: Position, slot: TimeSlot, history: History): (r: Option<Soldier>)
    requires forall s | s in cands :: s.id in history
    ensures r.None? <==> cands == []
    ensures r.Some? ==>
      exists i | 0 <= i < |cands| ::
        cands[i] == r.value &&
        (forall j | 0 <= j < |cands| :: !Outranks(RankOf(cands[j], p, slot, history), RankOf(cands[i], p, slot, history))) &&
        (forall j | 0 <= j < i :: Outranks(RankOf(cands[i], p, slot, history), RankOf(cands[j], p, slot, history)))
  {
    if cands == [] then None
    else
      var rs := Ranks(cands, p, slot, history);
      var i := BestIndex(rs);
      Some(cands[i])
  }

  /** Fewer shifts win among candidates whose primary keys tie: two candidates
      with the same key and different loads are never chosen over the lighter. */
  lemma LighterWinsTies(cands: seq<Soldier>, p: Position, slot: TimeSlot, history: History, j: int)
    requires forall s | s in cands :: s.id in history
    requires 0 <= j < |cands|
    requires SelectBestSoldier(cands, p, slot, history).Some?
    ensures var w := SelectBestSoldier(cands, p, slot, history).value;
            w in cands &&
            (PrimaryKey(p, history[w.id], slot.start) == PrimaryKey(p, history[cands[j].id], slot.start) ==>
               |history[w.id]| <= |history[cands[j].id]|)
  {
    var w := SelectBestSoldier(cands, p, slot, history).value;
    var i :| 0 <= i < |cands| && cands[i] == w &&
      (forall j | 0 <= j < |cands| :: !Outranks(RankOf(cands[j], p, slot, history), RankOf(cands[i], p, slot, history)));
    assert !Outranks(RankOf(cands[j], p, slot, history), RankOf(cands[i], p, slot, history));
  }

  /** For a standby post a soldier with no history at all outranks one who is
      continuous from a guard shift: the no-history key is above 1000 hours. */
  lemma NoHistoryBeatsContinuity(p: Position, recs: seq<SoldierAssignment>, start: int, newLoad: nat, load: nat)
    requires p.isStandby && ContinuousFromGuard(recs, start)
    ensures Outranks(Rank(PrimaryKey(p, [], start), newLoad), Rank(PrimaryKey(p, recs, start), load))
  {
    assert !ContinuousFromGuard([], start);
  }
}
