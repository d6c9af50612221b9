/**
 The wall-clock scheduler of processor/cmd/processor/profiles.go: fixed minute
 marks, and the hour/minute case split that decides whether a schedule is due.
 Instants are minutes on an endless line; a zone offset turns one into a minute of
 the local week, which starts on Monday.
 */
module Schedule {

  const HOUR := 60
  const DAY := 24 * HOUR
  const WEEK := 7 * DAY

  /** profileScheduleMinutes */
  const MARKS: seq<int> := [0, 10, 15, 20, 30, 40, 45, 50]

  /** An active_hours entry: an ISO weekday and the (hour, minute) pairs it produces. */
  datatype Entry = Entry(day: int, fires: seq<(int, int)>)

  predicate InRange(day: int, fire: (int, int))
  {
    1 <= day <= 7 && 0 <= fire.0 < 24 && 0 <= fire.1 < 60
  }

  // ----- the case split -------------------------------------------------------------

  /** isoDow, for weekdays counted from Sunday. */
  function IsoDow(weekday: int): int
  {
    if weekday == 0 then 7 else weekday
  }

  function Yesterday(dow: int): int
  {
    if dow - 1 < 1 then 7 else dow - 1
  }

  /** The three tests matchesTimeWindow makes for one fire. */
  predicate FireMatches(day: int, fire: (int, int), nowDow: int, yesterdayDow: int, nowHour: int, nowMin: int)
  {
    var (fireHour, fireMin) := fire;
    || (day == nowDow && fireHour == nowHour && nowMin >= fireMin && nowMin - fireMin < 10)
    || (nowMin < 10 && day == nowDow && fireHour == nowHour - 1 && fireMin > 50)
    || (nowHour == 0 && nowMin < 10 && day == yesterdayDow && fireHour == 23 && fireMin > 50)
  }

  method MatchesTimeWindow(e: Entry, nowDow: int, yesterdayDow: int, nowHour: int, nowMin: int) returns (due: bool)
    ensures due <==> exists i :: 0 <= i < |e.fires| &&
                       FireMatches(e.day, e.fires[i], nowDow, yesterdayDow, nowHour, nowMin)
  {
    for k := 0 to |e.fires|
      invariant forall i :: 0 <= i < k ==> !FireMatches(e.day, e.fires[i], nowDow, yesterdayDow, nowHour, nowMin)
    {
      if FireMatches(e.day, e.fires[k], nowDow, yesterdayDow, nowHour, nowMin) {
        return true;
      }
    }
    return false;
  }

  /** The minute of the week at which an entry fires. */
  function FireMinute(day: int, fire: (int, int)): int
  {
    (day - 1) * DAY + fire.0 * HOUR + fire.1
  }

  /** Minutes since the fire, around the week. */
  function Elapsed(fireMinute: int, now: int): int
  {
    (now - fireMinute) % WEEK
  }

  /** isScheduleActive at a local minute of the week: weekday, hour and minute are
      taken apart, and every fire of every entry is tried. */
  method IsScheduleActive(entries: seq<Entry>, now: int) returns (active: bool)
    requires 0 <= now < WEEK
    ensures active <==> exists k, i :: 0 <= k < |entries| && 0 <= i < |entries[k].fires| &&
                          Due(entries[k].day, entries[k].fires[i], now)
  {
    var weekday := (now / DAY + 1) % 7;
    var nowDow := IsoDow(weekday);
    var yesterdayDow := nowDow - 1;
    if yesterdayDow < 1 {
      yesterdayDow := 7;
    }
    for j := 0 to |entries|
      invariant forall k, i :: 0 <= k < j && 0 <= i < |entries[k].fires| ==>
                !Due(entries[k].day, entries[k].fires[i], now)
    {
      var due := MatchesTimeWindow(entries[j], nowDow, yesterdayDow, now % DAY / HOUR, now % HOUR);
      if due {
        return true;
      }
    }
    return false;
  }

  /** The case split at a local minute of the week. */
  predicate Due(day: int, fire: (int, int), now: int)
    requires 0 <= now < WEEK
  {
    var dow := now / DAY + 1;
    FireMatches(day, fire, dow, Yesterday(dow), now % DAY / HOUR, now % HOUR)
  }

  lemma TakeApart(now: int) returns (d: int, h: int, m: int)
    requires 0 <= now < WEEK
    ensures 0 <= d < 7 && 0 <= h < 24 && 0 <= m < 60 && now == d * DAY + h * HOUR + m
    ensures now / DAY == d && now % DAY / HOUR == h && now % HOUR == m
  {
    d, h, m := now / DAY, now % DAY / HOUR, now % HOUR;
    assert now == d * DAY + now % DAY;
    assert now % DAY == h * HOUR + now % DAY % HOUR;
    assert now % DAY % HOUR == m by {
      assert now == (d * 24 + h) * HOUR + now % DAY % HOUR;
    }
  }

  lemma ElapsedApart(d: int, h: int, m: int, day: int, fire: (int, int))
    requires 0 <= d < 7 && 0 <= h < 24 && 0 <= m < 60 && InRange(day, fire)
    ensures var x := (d - (day - 1)) * DAY + (h - fire.0) * HOUR + (m - fire.1);
            Elapsed(FireMinute(day, fire), d * DAY + h * HOUR + m) == if x < 0 then x + WEEK else x
  {
  }

  /** The window in terms of the minutes since the fire. */
  predicate InWindow(x: int, m: int, fireMin: int)
  {
    x < 10 || (x <= 18 && m < 10 && fireMin > 50)
  }

  lemma DueSameDay(h: int, m: int, fire: (int, int))
    requires 0 <= h < 24 && 0 <= m < 60 && InRange(1, fire)
    ensures var y := (h - fire.0) * HOUR + (m - fire.1);
            FireMatches(1, fire, 1, 7, h, m) <==> y >= 0 && InWindow(y, m, fire.1)
  {
  }

  lemma DueNextDay(h: int, m: int, fire: (int, int))
    requires 0 <= h < 24 && 0 <= m < 60 && InRange(1, fire)
    ensures var y := DAY + (h - fire.0) * HOUR + (m - fire.1);
            FireMatches(1, fire, 2, 1, h, m) <==> InWindow(y, m, fire.1)
  {
  }

  lemma FarAway(days: int, h: int, m: int, fire: (int, int))
    requires 0 <= h < 24 && 0 <= m < 60 && InRange(1, fire) && 2 <= days < 7
    ensures days * DAY + (h - fire.0) * HOUR + (m - fire.1) > 18
  {
  }

  lemma DueParts(d: int, h: int, m: int, day: int, fire: (int, int))
    requires 0 <= d < 7 && 0 <= h < 24 && 0 <= m < 60 && InRange(day, fire)
    ensures var y := (d - (day - 1)) * DAY + (h - fire.0) * HOUR + (m - fire.1);
            var x := if y < 0 then y + WEEK else y;
            FireMatches(day, fire, d + 1, Yesterday(d + 1), h, m) <==> InWindow(x, m, fire.1)
  {
    var days, part := d - (day - 1), (h - fire.0) * HOUR + (m - fire.1);
    assert -DAY < part < DAY;
    if days == 0 {
      assert FireMatches(day, fire, d + 1, Yesterday(d + 1), h, m) == FireMatches(1, fire, 1, 7, h, m);
      DueSameDay(h, m, fire);
    } else if days == 1 || days == -6 {
      assert FireMatches(day, fire, d + 1, Yesterday(d + 1), h, m) == FireMatches(1, fire, 2, 1, h, m);
      assert days * DAY + (if days < 0 then WEEK else 0) == DAY;
      DueNextDay(h, m, fire);
    } else {
      assert !FireMatches(day, fire, d + 1, Yesterday(d + 1), h, m);
      FarAway(if days < 0 then days + 7 else days, h, m, fire);
    }
  }

  /** Exactly when the case split says a schedule is due: in the ten minutes from the
      fire on, and, for a fire in the last nine minutes of an hour, throughout the
      first ten minutes of the next hour. */
  lemma DueExactly(day: int, fire: (int, int), now: int)
    requires InRange(day, fire) && 0 <= now < WEEK
    ensures var x := Elapsed(FireMinute(day, fire), now);
            Due(day, fire, now) <==> x < 10 || (x <= 18 && now % HOUR < 10 && fire.1 > 50)
  {
    var d, h, m := TakeApart(now);
    ElapsedApart(d, h, m, day, fire);
    DueParts(d, h, m, day, fire);
  }

  /** The case split refines circular distance: it never misses the ten minutes,
      never runs past eighteen, and is exact at the scheduler's own marks. */
  lemma DueRefinesDistance(day: int, fire: (int, int), now: int)
    requires InRange(day, fire) && 0 <= now < WEEK
    ensures var x := Elapsed(FireMinute(day, fire), now);
            && (x < 10 ==> Due(day, fire, now))
            && (Due(day, fire, now) ==> x <= 18)
            && (now % HOUR in MARKS ==> (Due(day, fire, now) <==> x < 10))
  {
    DueExactly(day, fire, now);
    if now % HOUR in MARKS && now % HOUR < 10 && fire.1 > 50 {
      var d, h, m := TakeApart(now);
      ElapsedApart(d, h, m, day, fire);
    }
  }

  // ----- the marks --------------------------------------------------------------------

  predicate Ascending(minutes: seq<int>)
  {
    && (forall i :: 0 <= i < |minutes| ==> 0 <= minutes[i] < 60)
    && forall i, j :: 0 <= i < j < |minutes| ==> minutes[i] < minutes[j]
  }

  const SECOND := 1_000_000_000

  /** An instant, in nanoseconds from the top of some hour, that lies on a mark. */
  predicate OnMark(minutes: seq<int>, t: int)
  {
    t % (60 * SECOND) == 0 && t / (60 * SECOND) % 60 in minutes
  }

  /** now.Minute() and the rest of the minute, with the hour they are counted from. */
  method ClockParts(now: int) returns (nowMin: int, nowSec: int, ghost top: int)
    ensures now == top * (60 * SECOND) + nowMin * (60 * SECOND) + nowSec && top % 60 == 0
    ensures 0 <= nowMin < 60 && 0 <= nowSec < 60 * SECOND
  {
    nowMin := now / (60 * SECOND) % 60;
    nowSec := now % (60 * SECOND);
    top := now / (60 * SECOND) - nowMin;
  }

  /** nextScheduleTime: the first mark not before now. */
  method NextScheduleTime(now: int, minutes: seq<int>) returns (next: int)
    requires minutes != [] && Ascending(minutes)
    ensures now <= next && OnMark(minutes, next)
    ensures forall t :: now <= t < next ==> !OnMark(minutes, t)
  {
    var nowMin, nowSec, top := ClockParts(now);
    var hour := now - nowMin * 60 * SECOND - nowSec;
    for k := 0 to |minutes|
      invariant forall i :: 0 <= i < k ==> minutes[i] < nowMin || (minutes[i] == nowMin && nowSec != 0)
    {
      var m := minutes[k];
      if m > nowMin || (m == nowMin && nowSec == 0) {
        next := hour + m * 60 * SECOND;
        MarkAt(minutes, top, m);
        NoneBetween(minutes, now, top, k);
        return;
      }
    }
    next := hour + HOUR * 60 * SECOND + minutes[0] * 60 * SECOND;
    MarkAt(minutes, top + 60, minutes[0]);
    NoneAfterLast(minutes, now, top);
  }

  lemma MarkAt(minutes: seq<int>, top: int, m: int)
    requires top % 60 == 0 && 0 <= m < 60 && m in minutes
    ensures OnMark(minutes, (top + m) * (60 * SECOND))
  {
  }

  lemma MinuteOf(t: int, unit: int)
    requires unit > 0 && t % unit == 0
    ensures t == t / unit * unit
  {
  }

  /** Between now and the k-th mark of its hour there is no mark, when the earlier
      marks lie before now. */
  lemma NoneBetween(minutes: seq<int>, now: int, top: int, k: nat)
    requires Ascending(minutes) && k < |minutes| && top % 60 == 0
    requires top * (60 * SECOND) <= now < (top + 60) * (60 * SECOND)
    requires forall i :: 0 <= i < k ==> (top + minutes[i]) * (60 * SECOND) < now
    ensures forall t :: now <= t < (top + minutes[k]) * (60 * SECOND) ==> !OnMark(minutes, t)
  {
    forall t | now <= t < (top + minutes[k]) * (60 * SECOND) && t % (60 * SECOND) == 0
      ensures t / (60 * SECOND) % 60 !in minutes
    {
      MinuteOf(t, 60 * SECOND);
      var j := t / (60 * SECOND);
      assert top <= j < top + minutes[k];
      assert j % 60 == j - top;
    }
  }

  lemma NoneAfterLast(minutes: seq<int>, now: int, top: int)
    requires Ascending(minutes) && minutes != [] && top % 60 == 0
    requires top * (60 * SECOND) <= now < (top + 60) * (60 * SECOND)
    requires forall i :: 0 <= i < |minutes| ==> (top + minutes[i]) * (60 * SECOND) < now
    ensures forall t :: now <= t < (top + 60 + minutes[0]) * (60 * SECOND) ==> !OnMark(minutes, t)
  {
    forall t | now <= t < (top + 60 + minutes[0]) * (60 * SECOND) && t % (60 * SECOND) == 0
      ensures t / (60 * SECOND) % 60 !in minutes
    {
      MinuteOf(t, 60 * SECOND);
      var j := t / (60 * SECOND);
      assert top <= j < top + 60 + minutes[0];
      assert j % 60 == if j < top + 60 then j - top else j - top - 60;
    }
  }

  // ----- how many ticks see a fire ---------------------------------------------------------

  /** A minute, on the line of absolute minutes, at which the scheduler ticks. */
  predicate Tick(t: int)
  {
    t % HOUR in MARKS
  }

  /** The minute of the local week at absolute minute t. */
  function Local(t: int, offset: int): (now: int)
    ensures 0 <= now < WEEK
  {
    (t + offset) % WEEK
  }

  /** Consecutive ticks are at most ten minutes apart. */
  lemma TicksAreDense(t: int) returns (next: int)
    ensures t <= next < t + 10 && Tick(next)
  {
    var m := t % HOUR;
    var wait := if m == 0 then 0 else if m <= 10 then 10 - m else if m <= 15 then 15 - m
                else if m <= 20 then 20 - m else if m <= 30 then 30 - m else if m <= 40 then 40 - m
                else if m <= 45 then 45 - m else if m <= 50 then 50 - m else 60 - m;
    next := t + wait;
    assert next % HOUR == if m + wait == 60 then 0 else m + wait;
  }

  // ----- the loop of the summary scheduler ------------------------------------------------

  const MINUTE := 60 * SECOND

  predicate Within(from: int, tick: int, to: int)
  {
    from <= tick * MINUTE < to
  }

  /** The loop waits for the first tick that is not before the clock. */
  ghost predicate FirstTick(now: int, tick: int)
  {
    Tick(tick) && now <= tick * MINUTE && forall m :: Tick(m) && now <= m * MINUTE ==> tick <= m
  }

  /** n rounds of the loop: the clock is read, the next mark is waited for, and the tick
      happens. */
  method Rounds(clock: nat -> int, n: nat) returns (ticks: seq<int>)
    ensures |ticks| == n && forall i :: 0 <= i < n ==> FirstTick(clock(i), ticks[i])
  {
    ticks := [];
    for i := 0 to n
      invariant |ticks| == i && forall j :: 0 <= j < i ==> FirstTick(clock(j), ticks[j])
    {
      var next := NextScheduleTime(clock(i), MARKS);
      MarkIsFirstTick(clock(i), next);
      ticks := ticks + [next / MINUTE];
    }
  }

  lemma MarkIsFirstTick(now: int, next: int)
    requires now <= next && OnMark(MARKS, next) && forall t :: now <= t < next ==> !OnMark(MARKS, t)
    ensures FirstTick(now, next / MINUTE)
  {
    MinuteOf(next, MINUTE);
    forall m | Tick(m) && now <= m * MINUTE ensures next / MINUTE <= m {
      TickIsOnMark(m);
    }
  }

  lemma TickIsOnMark(m: int)
    requires Tick(m)
    ensures OnMark(MARKS, m * MINUTE)
  {
  }

  /** Every tick of the time from the first reading of the clock to the last happens, once
      and in order, and no other. */
  ghost predicate VisitsEach(ticks: seq<int>, from: int, to: int)
  {
    && (forall i, j :: 0 <= i < j < |ticks| ==> ticks[i] < ticks[j])
    && forall m :: m in ticks <==> Tick(m) && Within(from, m, to)
  }

  ghost predicate OneTickWithin(from: int, to: int)
  {
    exists m :: Tick(m) && Within(from, m, to) && forall k :: Tick(k) && Within(from, k, to) ==> k == m
  }

  /** The rounds of the loop, whose timers do not fire early. */
  ghost predicate Runs(clock: nat -> int, ticks: seq<int>)
  {
    forall i :: 0 <= i < |ticks| ==> FirstTick(clock(i), ticks[i]) && ticks[i] * MINUTE <= clock(i + 1)
  }

  lemma {:induction false} ClockGoesOn(clock: nat -> int, ticks: seq<int>, i: nat, j: nat)
    requires Runs(clock, ticks) && i <= j <= |ticks|
    ensures clock(i) <= clock(j)
    decreases j - i
  {
    if i < j {
      ClockGoesOn(clock, ticks, i, j - 1);
      assert FirstTick(clock(j - 1), ticks[j - 1]);
    }
  }

  lemma OnlyTickIsFirst(clock: nat -> int, ticks: seq<int>, i: nat)
    requires Runs(clock, ticks) && i < |ticks| && OneTickWithin(clock(i), clock(i + 1))
    ensures forall m :: Tick(m) && Within(clock(i), m, clock(i + 1)) <==> m == ticks[i]
  {
    var m :| Tick(m) && Within(clock(i), m, clock(i + 1))
             && forall k :: Tick(k) && Within(clock(i), k, clock(i + 1)) ==> k == m;
    assert FirstTick(clock(i), ticks[i]);
    assert Within(clock(i), ticks[i], clock(i + 1));
  }

  lemma OneMoreVisited(ticks: seq<int>, last: int, from: int, mid: int, to: int)
    requires VisitsEach(ticks, from, mid) && from <= mid <= to
    requires forall m :: Tick(m) && Within(mid, m, to) <==> m == last
    ensures VisitsEach(ticks + [last], from, to)
  {
    assert Tick(last) && Within(mid, last, to);
    forall i | 0 <= i < |ticks| ensures ticks[i] < last {
      assert ticks[i] in ticks;
    }
    forall m ensures m in ticks + [last] <==> Tick(m) && Within(from, m, to) {
      assert Within(from, m, to) <==> Within(from, m, mid) || Within(mid, m, to);
    }
  }

  lemma {:induction false} EachIsVisited(clock: nat -> int, ticks: seq<int>)
    requires Runs(clock, ticks) && forall i: nat :: i < |ticks| ==> OneTickWithin(clock(i), clock(i + 1))
    ensures VisitsEach(ticks, clock(0), clock(|ticks|))
  {
    if ticks != [] {
      var n := |ticks| - 1;
      EachIsVisited(clock, ticks[..n]);
      OnlyTickIsFirst(clock, ticks, n);
      ClockGoesOn(clock, ticks, 0, n);
      ClockGoesOn(clock, ticks, n, n + 1);
      OneMoreVisited(ticks[..n], ticks[n], clock(0), clock(n), clock(n + 1));
      assert ticks == ticks[..n] + [ticks[n]];
    }
  }

  lemma LaterTicks(clock: nat -> int, ticks: seq<int>, i: nat)
    requires Runs(clock, ticks) && i < |ticks|
    ensures forall j :: i < j < |ticks| ==> clock(i + 1) <= ticks[j] * MINUTE
  {
    forall j | i < j < |ticks| ensures clock(i + 1) <= ticks[j] * MINUTE {
      ClockGoesOn(clock, ticks, i + 1, j);
      assert FirstTick(clock(j), ticks[j]);
    }
  }

  lemma OverAfterItsTick(clock: nat -> int, ticks: seq<int>, i: nat)
    requires Runs(clock, ticks) && VisitsEach(ticks, clock(0), clock(|ticks|)) && i < |ticks|
    ensures ticks[i] * MINUTE < clock(i + 1)
  {
    assert FirstTick(clock(i), ticks[i]) && ticks[i] in ticks;
    if i + 1 < |ticks| {
      assert FirstTick(clock(i + 1), ticks[i + 1]) && ticks[i] < ticks[i + 1];
    }
  }

  /** If some round has no tick or two between its readings of the clock, one tick is
      visited twice or missed. */
  lemma OtherwiseNot(clock: nat -> int, ticks: seq<int>, i: nat)
    requires Runs(clock, ticks) && VisitsEach(ticks, clock(0), clock(|ticks|)) && i < |ticks|
    ensures OneTickWithin(clock(i), clock(i + 1))
  {
    var m := ticks[i];
    assert FirstTick(clock(i), m);
    ClockGoesOn(clock, ticks, 0, i);
    ClockGoesOn(clock, ticks, i + 1, |ticks|);
    OverAfterItsTick(clock, ticks, i);
    LaterTicks(clock, ticks, i);
    forall k | Tick(k) && Within(clock(i), k, clock(i + 1)) ensures k == m {
      assert k in ticks;
      var j: nat :| j < |ticks| && ticks[j] == k;
      assert j <= i;
    }
    assert Within(clock(i), m, clock(i + 1));
  }

  /** The loop visits each tick exactly once if and only if every round is over after its
      own mark and not after the next. */
  lemma VisitsEachIff(clock: nat -> int, ticks: seq<int>)
    requires Runs(clock, ticks)
    ensures VisitsEach(ticks, clock(0), clock(|ticks|)) <==>
            forall i: nat :: i < |ticks| ==> OneTickWithin(clock(i), clock(i + 1))
  {
    if VisitsEach(ticks, clock(0), clock(|ticks|)) {
      forall i: nat | i < |ticks| ensures OneTickWithin(clock(i), clock(i + 1)) {
        OtherwiseNot(clock, ticks, i);
      }
    } else if forall i: nat :: i < |ticks| ==> OneTickWithin(clock(i), clock(i + 1)) {
      EachIsVisited(clock, ticks);
    }
  }

  lemma LocalElapsed(f: int, t: int, offset: int, fireMinute: int)
    requires Local(f, offset) == fireMinute && f <= t < f + WEEK
    ensures Elapsed(fireMinute, Local(t, offset)) == t - f
  {
    var a, b := (f + offset) / WEEK, (t + offset) / WEEK;
    assert f + offset == a * WEEK + fireMinute;
    assert t + offset == b * WEEK + Local(t, offset);
    assert Local(t, offset) - fireMinute == (t - f) + (a - b) * WEEK;
    ModMultiple(t - f, a - b);
  }

  lemma ModMultiple(x: int, k: int)
    requires 0 <= x < WEEK
    ensures (x + k * WEEK) % WEEK == x
  {
  }

  /** Whatever the zone offset, a fire that falls at absolute minute f is seen by a
      tick within the ten minutes from f on. */
  lemma EveryFireIsSeen(day: int, fire: (int, int), f: int, offset: int) returns (t: int)
    requires InRange(day, fire) && Local(f, offset) == FireMinute(day, fire)
    ensures f <= t < f + 10 && Tick(t) && Due(day, fire, Local(t, offset))
  {
    t := TicksAreDense(f);
    LocalElapsed(f, t, offset, FireMinute(day, fire));
    DueRefinesDistance(day, fire, Local(t, offset));
  }

  /** So a run of the loop that visits each tick sees every fire of its time. */
  lemma RunSeesEveryFire(ticks: seq<int>, from: int, to: int, day: int, fire: (int, int), f: int, offset: int)
    returns (t: int)
    requires VisitsEach(ticks, from, to) && from <= f * MINUTE && (f + 10) * MINUTE <= to
    requires InRange(day, fire) && Local(f, offset) == FireMinute(day, fire)
    ensures t in ticks && f <= t < f + 10 && Due(day, fire, Local(t, offset))
  {
    t := EveryFireIsSeen(day, fire, f, offset);
    assert Within(from, t, to);
  }

  lemma HalfMod(t: int, half: int)
    ensures (t + 30 * half) % 60 == if half % 2 == 0 then t % 60 else (t % 60 + 30) % 60
  {
    var q := half / 2;
    assert t + 30 * half == t + 30 * (half % 2) + 60 * q;
  }

  lemma WholeHoursOff(r: int, hours: int)
    ensures (r + 60 * hours) % 60 == r % 60
  {
  }

  lemma LocalMinute(t: int, offset: int)
    ensures Local(t, offset) % HOUR == (t + offset) % HOUR
  {
    var weeks := (t + offset) / 10080;
    assert t + offset == Local(t, offset) + 60 * (168 * weeks);
    WholeHoursOff(Local(t, offset), 168 * weeks);
  }

  /** The marks are the same marks seen from half an hour away. */
  lemma HalfHourMarks(t: int, offset: int)
    requires offset % 30 == 0 && Tick(t)
    ensures Local(t, offset) % HOUR in MARKS
  {
    LocalMinute(t, offset);
    HalfMod(t, offset / 30);
    assert offset == 30 * (offset / 30);
  }

  /** In a zone whose offset is a whole number of half hours, no three ticks of one
      week see the same fire. */
  lemma NotThrice(day: int, fire: (int, int), f: int, offset: int, a: int, b: int, c: int)
    requires InRange(day, fire) && Local(f, offset) == FireMinute(day, fire) && offset % 30 == 0
    requires f <= a < b < c < f + WEEK && Tick(a) && Tick(b) && Tick(c)
    ensures !(Due(day, fire, Local(a, offset)) && Due(day, fire, Local(b, offset)) && Due(day, fire, Local(c, offset)))
  {
    HalfHourMarks(c, offset);
    LocalElapsed(f, c, offset, FireMinute(day, fire));
    DueRefinesDistance(day, fire, Local(c, offset));
    if c < a + 10 {
      TicksApart(a, b, c);
      assert false;
    }
  }

  /** Three ticks never fit in ten minutes. */
  lemma TicksApart(a: int, b: int, c: int)
    requires a < b < c < a + 10 && Tick(a) && Tick(b)
    ensures !Tick(c)
  {
    var x := a % HOUR;
    assert b % HOUR == if x + (b - a) < 60 then x + (b - a) else x + (b - a) - 60;
    assert c % HOUR == if x + (c - a) < 60 then x + (c - a) else x + (c - a) - 60;
  }

  /** Three ticks of one week see the same fire. */
  predicate SeenThrice(offset: int, day: int, fire: (int, int), f: int, a: int, b: int, c: int)
  {
    && InRange(day, fire) && Local(f, offset) == FireMinute(day, fire)
    && f <= a < b < c < f + WEEK && Tick(a) && Tick(b) && Tick(c)
    && Due(day, fire, Local(a, offset)) && Due(day, fire, Local(b, offset)) && Due(day, fire, Local(c, offset))
  }

  lemma FireAt(now: int) returns (day: int, fire: (int, int))
    requires 0 <= now < WEEK
    ensures InRange(day, fire) && FireMinute(day, fire) == now && fire.1 == now % HOUR
  {
    var d, h, m := TakeApart(now);
    day, fire := d + 1, (h, m);
  }

  lemma StillDue(day: int, fire: (int, int), f: int, offset: int, t: int)
    requires InRange(day, fire) && Local(f, offset) == FireMinute(day, fire) && f <= t <= f + 18
    requires t - f < 10 || (fire.1 > 50 && (t + offset) % HOUR < 10)
    ensures Due(day, fire, Local(t, offset))
  {
    LocalElapsed(f, t, offset, FireMinute(day, fire));
    LocalMinute(t, offset);
    DueExactly(day, fire, Local(t, offset));
  }

  lemma QuarterMinutes(f: int, offset: int)
    requires (f == 10 && offset % 60 == 45) || (f == 40 && offset % 60 == 15)
    ensures (f + offset) % HOUR == 55 && (f + 10 + offset) % HOUR == 5
    ensures Tick(f) && Tick(f + 5) && Tick(f + 10)
  {
  }

  lemma DueThrough(day: int, fire: (int, int), f: int, offset: int)
    requires InRange(day, fire) && Local(f, offset) == FireMinute(day, fire)
    requires fire.1 > 50 && (f + 10 + offset) % HOUR < 10
    ensures Due(day, fire, Local(f, offset))
    ensures Due(day, fire, Local(f + 5, offset)) && Due(day, fire, Local(f + 10, offset))
  {
    StillDue(day, fire, f, offset, f);
    StillDue(day, fire, f, offset, f + 5);
    StillDue(day, fire, f, offset, f + 10);
  }

  /** A quarter hour off the half hour, the marks 10, 15, 20 or 40, 45, 50 fall on the
      local minutes 55, 0 and 5. */
  lemma QuarterOffsetSeesThree(offset: int) returns (day: int, fire: (int, int), f: int)
    requires offset % 30 == 15
    ensures SeenThrice(offset, day, fire, f, f, f + 5, f + 10)
  {
    f := if offset % 60 == 45 then 10 else 40;
    QuarterMinutes(f, offset);
    LocalMinute(f, offset);
    day, fire := FireAt(Local(f, offset));
    DueThrough(day, fire, f, offset);
  }

  /** Of the quarter-hour offsets, exactly the whole and half hours never let three
      ticks see one fire. */
  lemma ThriceIff(offset: int)
    requires offset % 15 == 0
    ensures (exists day, fire, f, a, b, c :: SeenThrice(offset, day, fire, f, a, b, c)) <==> offset % 30 != 0
  {
    if offset % 30 == 0 {
      forall day, fire, f, a, b, c | SeenThrice(offset, day, fire, f, a, b, c) ensures false {
        NotThrice(day, fire, f, offset, a, b, c);
      }
    } else {
      var day, fire, f := QuarterOffsetSeesThree(offset);
      assert SeenThrice(offset, day, fire, f, f, f + 5, f + 10);
    }
  }
}
