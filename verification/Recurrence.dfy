/** The recurrence arithmetic of scheduler.py. Instants are microseconds since a
    UTC midnight; UTC has no daylight saving, so a day always has the same length. */
module Recurrence {
  import opened Common

  const MINUTE: int := 60_000_000
  const HOUR: int := 60 * MINUTE
  const DAY: int := 24 * HOUR
  const WEEK: int := 7 * DAY

  /** A stored `when_spec`: a one-shot, or a `{recur, at}` object whose `at` was
      read as an hour and a minute. */
  datatype WhenSpec = OneShot | Recurring(recur: string, hour: int, minute: int)

  /** `now.replace(...)` raises ValueError outside these ranges; an hourly
      recurrence ignores the hour. */
  predicate FieldsInRange(spec: WhenSpec)
    requires spec.Recurring?
  {
    0 <= spec.minute < 60 && (spec.recur == "hourly" || 0 <= spec.hour < 24)
  }

  /** Whether the schedule fires again; the ValueError makes a one-shot of it. */
  predicate Repeats(spec: WhenSpec) {
    spec.Recurring? && FieldsInRange(spec)
  }

  /** Distance of the grid from the start of its hour (hourly) or day (otherwise). */
  function Offset(spec: WhenSpec): (offset: int)
    requires Repeats(spec)
    ensures 0 <= offset < (if spec.recur == "hourly" then HOUR else DAY)
  {
    if spec.recur == "hourly" then spec.minute * MINUTE else spec.hour * HOUR + spec.minute * MINUTE
  }

  function Period(spec: WhenSpec): int
    requires Repeats(spec)
  {
    if spec.recur == "hourly" then HOUR else if spec.recur == "weekly" then WEEK else DAY
  }

  /** `_compute_next_fire`. */
  function NextFire(spec: WhenSpec, now: int): (next: Option<int>)
    ensures next.Some? <==> Repeats(spec)
    ensures next.Some? ==> next.value > now
  {
    if !Repeats(spec) then None
    else
      var target := now - now % (if spec.recur == "hourly" then HOUR else DAY) + Offset(spec);
      Some(if target <= now then target + Period(spec) else target)
  }

  /** `t` is the first instant after `now` at `offset` within a `period`. */
  ghost predicate IsNextOnGrid(now: int, period: int, offset: int, t: int)
    requires period > 0
  {
    && t > now && t % period == offset
    && forall u :: u > now && u % period == offset ==> t <= u
  }

  /** The grid instant within one period after `now` is the first one. */
  lemma WithinOnePeriodIsFirst(now: int, period: int, offset: int, t: int)
    requires period > 0 && now < t <= now + period && t % period == offset
    ensures IsNextOnGrid(now, period, offset, t)
  {
    forall u | u > now && u % period == offset ensures t <= u {
      if u < t {
        ModDifference(t, u, period);
        DivModUnique(t - u, period, 0, t - u);
      }
    }
  }

  lemma MulIsAtLeast(m: int, k: int)
    requires m > 0 && k >= 1
    ensures m * k >= m
  {
  }

  /** Quotient and remainder are determined by the division equation. */
  lemma DivModUnique(a: int, m: int, q: int, r: int)
    requires m > 0 && 0 <= r < m && a == m * q + r
    ensures a / m == q && a % m == r
  {
    var q', r' := a / m, a % m;
    assert a == m * q' + r';
    assert m * (q - q') == r' - r;
    if q > q' {
      MulIsAtLeast(m, q - q');
    } else if q < q' {
      MulIsAtLeast(m, q' - q);
    }
  }

  lemma ModAddMultiple(a: int, q: int, m: int)
    requires m > 0
    ensures (a + m * q) % m == a % m
  {
    assert m * (a / m + q) == m * (a / m) + m * q;
    DivModUnique(a + m * q, m, a / m + q, a % m);
  }

  lemma ModDifference(a: int, b: int, m: int)
    requires m > 0 && a % m == b % m
    ensures (a - b) % m == 0
  {
    assert m * (a / m - b / m) == m * (a / m) - m * (b / m);
    DivModUnique(a - b, m, a / m - b / m, 0);
  }

  /** The grid instant of the current period, and the one after it. */
  lemma GridAround(now: int, period: int, offset: int)
    requires period > 0 && 0 <= offset < period
    ensures var t := now - now % period + offset;
      t % period == offset && (t + period) % period == offset && now - period < t <= now + period
  {
    var q := now / period;
    var t := now - now % period + offset;
    assert now == period * q + now % period;
    DivModUnique(t, period, q, offset);
    assert period * (q + 1) == period * q + period;
    DivModUnique(t + period, period, q + 1, offset);
  }

  /** Daily and hourly recurrences fire at the first grid instant after now: the minute of
      the hour, or the time of the day, that the spec names. */
  lemma NextFireIsFirstOnGrid(spec: WhenSpec, now: int)
    requires Repeats(spec) && spec.recur != "weekly"
    ensures IsNextOnGrid(now, Period(spec), Offset(spec), NextFire(spec, now).value)
    ensures if spec.recur == "hourly" then Period(spec) == 3_600_000_000 && Offset(spec) == 60_000_000 * spec.minute
            else Period(spec) == 86_400_000_000 && Offset(spec) == 3_600_000_000 * spec.hour + 60_000_000 * spec.minute
  {
    GridAround(now, Period(spec), Offset(spec));
    WithinOnePeriodIsFirst(now, Period(spec), Offset(spec), NextFire(spec, now).value);
  }

  /** The due time after firing at `fired` something that was due at `due`. Late
      fires skip whole periods and stay on the grid: nothing drifts. */
  lemma LateFireSkipsWholePeriods(spec: WhenSpec, due: int, fired: int)
    requires Repeats(spec) && spec.recur != "weekly"
    requires due % Period(spec) == Offset(spec) && due <= fired
    ensures NextFire(spec, fired).value == due + Period(spec) * (1 + (fired - due) / Period(spec))
  {
    var p := Period(spec);
    var missed := (fired - due) / p;
    var t := due + p * (1 + missed);
    assert fired < t <= fired + p by {
      assert (fired - due) == p * missed + (fired - due) % p;
      assert p * (1 + missed) == p + p * missed;
    }
    ModAddMultiple(due, 1 + missed, p);
    WithinOnePeriodIsFirst(fired, p, Offset(spec), t);
    NextFireIsFirstOnGrid(spec, fired);
  }

  /** The due times of a run in which fire number k happened at `fires[k]`. */
  function DueTimes(spec: WhenSpec, due0: int, fires: seq<int>): (dues: seq<int>)
    requires Repeats(spec)
    ensures |dues| == |fires| + 1 && dues[0] == due0
    ensures forall k :: 0 <= k < |fires| ==> dues[k + 1] == NextFire(spec, fires[k]).value
  {
    if fires == [] then [due0]
    else
      var last := |fires| - 1;
      DueTimes(spec, due0, fires[..last]) + [NextFire(spec, fires[last]).value]
  }

  /** Every fire of the run happened within one period of its due time. */
  predicate Punctual(spec: WhenSpec, due0: int, fires: seq<int>)
    requires Repeats(spec)
  {
    var dues := DueTimes(spec, due0, fires);
    forall k :: 0 <= k < |fires| ==> dues[k] <= fires[k] < dues[k] + Period(spec)
  }

  lemma NextOccurrence(spec: WhenSpec, due0: int, k: nat, fired: int)
    requires Repeats(spec) && spec.recur != "weekly" && due0 % Period(spec) == Offset(spec)
    requires due0 + k * Period(spec) <= fired < due0 + k * Period(spec) + Period(spec)
    ensures NextFire(spec, fired).value == due0 + (k + 1) * Period(spec)
  {
    var p := Period(spec);
    var due := due0 + k * p;
    assert k * p == p * k && (k + 1) * p == k * p + p;
    ModAddMultiple(due0, k, p);
    DivModUnique(fired - due, p, 0, fired - due);
    LateFireSkipsWholePeriods(spec, due, fired);
  }

  /** Over a whole punctual run of a daily or hourly schedule no occurrence is
      skipped and none is repeated. */
  lemma {:induction false} PunctualRunVisitsEveryOccurrence(spec: WhenSpec, due0: int, fires: seq<int>)
    requires Repeats(spec) && spec.recur != "weekly"
    requires due0 % Period(spec) == Offset(spec) && Punctual(spec, due0, fires)
    ensures forall k :: 0 <= k <= |fires| ==> DueTimes(spec, due0, fires)[k] == due0 + k * Period(spec)
  {
    if fires != [] {
      var last := |fires| - 1;
      var dues, before := DueTimes(spec, due0, fires), DueTimes(spec, due0, fires[..last]);
      assert Punctual(spec, due0, fires[..last]) by {
        forall k | 0 <= k < last ensures before[k] <= fires[..last][k] < before[k] + Period(spec) {
          assert before[k] == dues[k] && fires[..last][k] == fires[k];
        }
      }
      PunctualRunVisitsEveryOccurrence(spec, due0, fires[..last]);
      assert dues[last] == before[last] == due0 + last * Period(spec);
      NextOccurrence(spec, due0, last, fires[last]);
      forall k | 0 <= k <= |fires| ensures dues[k] == due0 + k * Period(spec) {
        if k <= last { assert dues[k] == before[k]; }
      }
    }
  }

  function UtcDay(t: int): int { t / DAY }

  lemma WholeWeeks(days: int)
    ensures (days * DAY) % WEEK == 0 <==> days % 7 == 0
    ensures (days * DAY + WEEK) % WEEK == (days * DAY) % WEEK
  {
    var q, r := days / 7, days % 7;
    assert days * DAY == WEEK * q + r * DAY;
    DivModUnique(days * DAY, WEEK, q, r * DAY);
    ModAddMultiple(days * DAY, 1, WEEK);
  }

  /** In whole days: the next due time is today's or, if that is past, in seven days. */
  lemma WeeklyInDays(spec: WhenSpec, due: int, fired: int)
    requires Repeats(spec) && spec.recur == "weekly" && due % DAY == Offset(spec)
    ensures var days := UtcDay(fired) - UtcDay(due);
      NextFire(spec, fired).value == due + days * DAY + (if fired % DAY < Offset(spec) then 0 else WEEK)
  {
    var d, f := UtcDay(due), UtcDay(fired);
    assert due == d * DAY + Offset(spec) && fired == f * DAY + fired % DAY;
    assert (f - d) * DAY == f * DAY - d * DAY;
  }

  /** `weekly` has no weekday of its own: it means "today at HH:MM if that is still
      ahead, otherwise in seven days". However late the fire, the schedule keeps to
      its weekday exactly when the fire happens on that weekday (in UTC). */
  lemma WeeklyKeepsItsDay(spec: WhenSpec, due: int, fired: int)
    requires Repeats(spec) && spec.recur == "weekly"
    requires due % DAY == Offset(spec) && due <= fired
    ensures (NextFire(spec, fired).value - due) % WEEK == 0 <==> (UtcDay(fired) - UtcDay(due)) % 7 == 0
  {
    WeeklyInDays(spec, due, fired);
    WholeWeeks(UtcDay(fired) - UtcDay(due));
  }

  /** The next due time is the very next week's exactly when the fire happens on its
      due UTC day, or on the day a week later but before the due time. */
  lemma WeeklyIsSevenDaysOn(spec: WhenSpec, due: int, fired: int)
    requires Repeats(spec) && spec.recur == "weekly"
    requires due % DAY == Offset(spec) && due <= fired
    ensures NextFire(spec, fired).value == due + WEEK
      <==> UtcDay(fired) == UtcDay(due) || (UtcDay(fired) == UtcDay(due) + 7 && fired < due + WEEK)
  {
    var days := UtcDay(fired) - UtcDay(due);
    WeeklyInDays(spec, due, fired);
    assert due == UtcDay(due) * DAY + Offset(spec) && fired == UtcDay(fired) * DAY + fired % DAY;
    assert fired - due == days * DAY + fired % DAY - Offset(spec);
  }

  /** Monday 23:50 fired at 00:10 on Tuesday is next due on Tuesday, a day later. */
  lemma WeeklyMovesWhenFiredAfterMidnight()
    ensures var spec := Recurring("weekly", 23, 50);
      var due := 23 * HOUR + 50 * MINUTE;
      NextFire(spec, due + 20 * MINUTE) == Some(due + DAY)
  {
  }

  lemma NextWeek(spec: WhenSpec, due0: int, k: nat, fired: int)
    requires Repeats(spec) && spec.recur == "weekly" && due0 % DAY == Offset(spec)
    requires due0 + k * WEEK <= fired && UtcDay(fired) == UtcDay(due0 + k * WEEK)
    ensures NextFire(spec, fired).value == due0 + (k + 1) * WEEK
  {
    assert k * WEEK == DAY * (7 * k) && (k + 1) * WEEK == k * WEEK + WEEK;
    ModAddMultiple(due0, 7 * k, DAY);
    WeeklyIsSevenDaysOn(spec, due0 + k * WEEK, fired);
  }

  /** Every fire of the run happened on its due UTC day, and not early. */
  predicate OnDueDays(spec: WhenSpec, due0: int, fires: seq<int>)
    requires Repeats(spec)
  {
    var dues := DueTimes(spec, due0, fires);
    forall k :: 0 <= k < |fires| ==> dues[k] <= fires[k] && UtcDay(fires[k]) == UtcDay(dues[k])
  }

  /** A weekly run in which every fire happens on its due UTC day never leaves its
      weekday: the due times are exactly seven days apart. */
  lemma {:induction false} WeeklyRunOnDueDays(spec: WhenSpec, due0: int, fires: seq<int>)
    requires Repeats(spec) && spec.recur == "weekly" && due0 % DAY == Offset(spec)
    requires OnDueDays(spec, due0, fires)
    ensures forall k :: 0 <= k <= |fires| ==> DueTimes(spec, due0, fires)[k] == due0 + k * WEEK
  {
    if fires != [] {
      var last := |fires| - 1;
      var dues, before := DueTimes(spec, due0, fires), DueTimes(spec, due0, fires[..last]);
      DueTimesOfPrefix(spec, due0, fires);
      PrefixOnDueDays(spec, due0, fires);
      WeeklyRunOnDueDays(spec, due0, fires[..last]);
      assert dues[last] == before[last] == due0 + last * WEEK;
      NextWeek(spec, due0, last, fires[last]);
    }
  }

  lemma PrefixOnDueDays(spec: WhenSpec, due0: int, fires: seq<int>)
    requires Repeats(spec) && fires != [] && OnDueDays(spec, due0, fires)
    ensures OnDueDays(spec, due0, fires[..|fires| - 1])
  {
    var last := |fires| - 1;
    var dues, before := DueTimes(spec, due0, fires), DueTimes(spec, due0, fires[..last]);
    DueTimesOfPrefix(spec, due0, fires);
    forall k | 0 <= k < last ensures before[k] <= fires[..last][k] && UtcDay(fires[..last][k]) == UtcDay(before[k]) {
      assert before[k] == dues[k] && fires[..last][k] == fires[k];
    }
  }

  lemma DueTimesOfPrefix(spec: WhenSpec, due0: int, fires: seq<int>)
    requires Repeats(spec) && fires != []
    ensures DueTimes(spec, due0, fires)
         == DueTimes(spec, due0, fires[..|fires| - 1]) + [NextFire(spec, fires[|fires| - 1]).value]
  {
  }
}
