/** Entities of the shift scheduler and the time arithmetic they rely on.

    Instants are whole seconds since 1970-01-01T00:00 (a Thursday); a calendar
    date is a day number, the instant of its midnight divided by 86400. Dafny's
    `/` and `%` floor, which is what DateTime's `.Date` and `.Hour` do for every
    representable instant. */
module Domain {

  datatype Option<+T> = None | Some(value: T) {
    function GetOr(default: T): T {
      match this
      case Some(v) => v
      case None => default
    }
  }

  datatype Result<+R, +E> = Success(value: R) | Failure(error: E)

  const SecondsPerHour: int := 3600
  const SecondsPerDay: int := 86400

  /** Day number of an instant (`DateTime.Date`). */
  function DayOf(t: int): int { t / SecondsPerDay }

  /** Hour of the day of an instant (`DateTime.Hour`). */
  function HourOf(t: int): (h: int)
    ensures 0 <= h < 24
  {
    (t / SecondsPerHour) % 24
  }

  /** Midnight of a day plus a number of hours (`date.AddHours(h)`). */
  function AtHour(day: int, hour: int): int { day * SecondsPerDay + hour * SecondsPerHour }

  /** `(int)date.DayOfWeek`: Sunday = 0 ... Saturday = 6; day 0 was a Thursday. */
  function Weekday(day: int): (w: int)
    ensures 0 <= w < 7
  {
    (day + 4) % 7
  }

  /** `n.ToString()` for a weekday, the key of the forbidden-hours dictionary. */
  function DayKey(weekday: int): string
    requires 0 <= weekday < 10
  {
    [('0' as int + weekday) as char]
  }

  /** A guard or standby post (Models/Position.cs). */
  datatype Position = Position(id: string, name: string, requiresCommander: bool, isStandby: bool)

  /** Per-soldier availability constraints (Models/Soldier.cs); an absent category is unconstrained. */
  datatype SoldierConstraints = SoldierConstraints(
    forbiddenPositions: Option<seq<string>>,
    forbiddenDaysOfWeek: Option<seq<int>>,
    forbiddenHoursByDay: Option<map<string, seq<int>>>)

  datatype Soldier = Soldier(id: string, name: string, isCommander: bool, constraints: Option<SoldierConstraints>)

  /** Request for one generation run; StartDate and EndDate are full instants. */
  datatype ScheduleConfig = ScheduleConfig(startDate: int, endDate: int, startHour: Option<int>, endHour: Option<int>)

  /** The engine is only called with hours the controller has validated. */
  predicate HoursInRange(config: ScheduleConfig) {
    (config.startHour.Some? ==> 0 <= config.startHour.value <= 23) &&
    (config.endHour.Some? ==> 0 <= config.endHour.value <= 23)
  }

  /** One filled post in one shift: what the caller sees. */
  datatype ShiftAssignment = ShiftAssignment(positionId: string, positionName: string, soldierId: string, soldierName: string)

  /** One shift of the produced schedule; `date` is the "yyyy-MM-dd" text of its day. */
  datatype DaySchedule = DaySchedule(date: string, shiftNumber: int, start: int, end: int, assignments: seq<ShiftAssignment>)

  /** A shift window produced by the time-slot generator. */
  datatype TimeSlot = TimeSlot(date: int, shiftNumber: int, start: int, end: int)

  /** The engine's memory of one shift held by one soldier. */
  datatype SoldierAssignment = SoldierAssignment(
    date: int, shiftNumber: int, positionId: string, isStandbyPosition: bool, shiftStart: int, shiftEnd: int)

  /** Per-soldier history, keyed by soldier id. */
  type History = map<string, seq<SoldierAssignment>>

  /** Does this history already hold a shift at the slot's (date, shift number)? */
  predicate Booked(records: seq<SoldierAssignment>, slot: TimeSlot) {
    exists r | r in records :: r.date == slot.date && r.shiftNumber == slot.shiftNumber
  }

  /** Does some assignment of the list name this soldier id? */
  predicate Holds(assignments: seq<ShiftAssignment>, soldierId: string) {
    exists a | a in assignments :: a.soldierId == soldierId
  }

  /** Every soldier of the roster has a history entry. */
  predicate Tracked(soldiers: seq<Soldier>, history: History) {
    forall s | s in soldiers :: s.id in history
  }

  // ---------------------------------------------------------------------------
  // "yyyy-MM-dd" text of a day number (civil-from-days on the proleptic
  // Gregorian calendar), the format of DaySchedule.Date.

  function Digit(d: int): char
    requires 0 <= d < 10
  {
    ('0' as int + d) as char
  }

  function Digits(n: int, width: nat): (s: string)
    decreases width
    ensures |s| == width
    ensures forall i | 0 <= i < |s| :: '0' <= s[i] <= '9'
  {
    if width == 0 then [] else Digits(n / 10, width - 1) + [Digit(n % 10)]
  }

  /** Year, month and day of a day number. */
  function CivilFromDays(day: int): (int, int, int) {
    var z := day + 719468;
    var era := z / 146097;
    var doe := z - era * 146097;
    var yoe := (doe - doe / 1460 + doe / 36524 - doe / 146096) / 365;
    var doy := doe - (365 * yoe + yoe / 4 - yoe / 100);
    var mp := (5 * doy + 2) / 153;
    var d := doy - (153 * mp + 2) / 5 + 1;
    var m := if mp < 10 then mp + 3 else mp - 9;
    (yoe + era * 400 + (if m <= 2 then 1 else 0), m, d)
  }

  function DateText(day: int): (s: string)
    ensures |s| == 10 && s[4] == '-' && s[7] == '-'
    ensures forall i | 0 <= i < 10 && i != 4 && i != 7 :: '0' <= s[i] <= '9'
  {
    var (y, m, d) := CivilFromDays(day);
    Digits(y, 4) + "-" + Digits(m, 2) + "-" + Digits(d, 2)
  }

  /** `10` to the power `n`. */
  function Pow10(n: nat): (p: nat)
    ensures p >= 1
  {
    if n == 0 then 1 else 10 * Pow10(n - 1)
  }

  /** The number a string of decimal digits spells, most significant first. */
  function DigitsValue(s: string): int {
    if s == [] then 0 else 10 * DigitsValue(s[..|s| - 1]) + (s[|s| - 1] as int - '0' as int)
  }

  /** `Digits(n, width)` spells the last `width` decimal digits of `n`. */
  lemma {:induction false} DigitsSpell(n: int, width: nat)
    ensures DigitsValue(Digits(n, width)) == n % Pow10(width)
    decreases width
  {
    if width > 0 {
      var s := Digits(n, width);
      DigitsSpell(n / 10, width - 1);
      assert s[..|s| - 1] == Digits(n / 10, width - 1);
      ModTens(n, Pow10(width - 1));
    }
  }

  /** The remainder modulo `10 * p` is the remainder of `n / 10` modulo `p`
      followed by the last digit of `n`. */
  lemma ModTens(n: int, p: int)
    requires 1 <= p
    ensures n % (10 * p) == 10 * ((n / 10) % p) + n % 10
  {
    var q, r := n / 10, n % 10;
    var a, b := q / p, q % p;
    assert n == a * (10 * p) + (10 * b + r) by {
      assert q == a * p + b;
      assert a * (10 * p) == 10 * (a * p);
    }
    DivModUnique(n, 10 * p, a, 10 * b + r);
  }

  /** The date text reads back as the year (its last four digits), the
      month and the day of the calendar date of `day`. */
  lemma DateTextSpells(day: int)
    ensures var s := DateText(day);
            var (y, m, d) := CivilFromDays(day);
            DigitsValue(s[..4]) == y % 10000 && DigitsValue(s[5..7]) == m % 100 && DigitsValue(s[8..]) == d % 100
  {
    var (y, m, d) := CivilFromDays(day);
    DateFields(y, m, d);
  }

  lemma DateFields(y: int, m: int, d: int)
    ensures var s := Digits(y, 4) + "-" + Digits(m, 2) + "-" + Digits(d, 2);
            DigitsValue(s[..4]) == y % 10000 && DigitsValue(s[5..7]) == m % 100 && DigitsValue(s[8..]) == d % 100
  {
    DashedFields(Digits(y, 4), Digits(m, 2), Digits(d, 2));
    Pow10Fields();
    DigitsSpell(y, 4);
    DigitsSpell(m, 2);
    DigitsSpell(d, 2);
  }

  lemma Pow10Fields()
    ensures Pow10(2) == 100 && Pow10(4) == 10000
  {
    assert Pow10(1) == 10;
    assert Pow10(3) == 1000;
  }

  /** The three fields of a dashed date are where the format puts them. */
  lemma DashedFields(a: string, b: string, c: string)
    requires |a| == 4 && |b| == 2 && |c| == 2
    ensures var s := a + "-" + b + "-" + c;
            s[..4] == a && s[5..7] == b && s[8..] == c
  {
  }

  // ---------------------------------------------------------------------------
  // Arithmetic.

  lemma MulMonotone(a: int, b: int, c: int)
    requires a <= b && 0 <= c
    ensures a * c <= b * c
  {
    assert b * c - a * c == (b - a) * c;
  }

  lemma MulCancel(a: int, b: int, c: int)
    requires 0 < c && a * c < b * c
    ensures a < b
  {
    if b <= a {
      MulMonotone(b, a, c);
      assert false;
    }
  }

  /** Euclidean division has one quotient and one remainder. */
  lemma DivModUnique(n: int, d: int, q: int, r: int)
    requires 0 < d && 0 <= r < d && n == q * d + r
    ensures n / d == q && n % d == r
  {
    var q0, r0 := n / d, n % d;
    assert q * d < (q0 + 1) * d by {
      assert (q0 + 1) * d == q0 * d + d;
    }
    MulCancel(q, q0 + 1, d);
    assert q0 * d < (q + 1) * d by {
      assert (q + 1) * d == q * d + d;
    }
    MulCancel(q0, q + 1, d);
  }

  // ---------------------------------------------------------------------------
  // Sequences.

  /** Is `xs` obtained from `ys` by deleting elements, keeping the order? */
  predicate Subsequence<T(==)>(xs: seq<T>, ys: seq<T>)
    decreases |ys|
  {
    |xs| <= |ys| &&
    (xs == [] ||
     (ys != [] &&
      ((xs[0] == ys[0] && Subsequence(xs[1..], ys[1..])) || Subsequence(xs, ys[1..]))))
  }

  /** An element in front of both sequences may be kept or dropped. */
  lemma SubsequenceCons<T>(x: T, xs: seq<T>, ys: seq<T>)
    requires Subsequence(xs, ys)
    ensures Subsequence([x] + xs, [x] + ys)
    ensures Subsequence(xs, [x] + ys)
  {
    assert ([x] + xs)[1..] == xs;
    assert ([x] + ys)[1..] == ys;
  }
}
