/** The schedule loader and the timers of the stream schedule executor. */
module Schedule {
  import opened Common

  type ScheduleId = string

  type TimerId = nat

  datatype Schedule = Schedule(id: ScheduleId, interval: nat, enabled: bool, updatedAt: int)

  function ById(schedules: seq<Schedule>): map<ScheduleId, Schedule> {
    if schedules == [] then map[] else ById(schedules[..|schedules| - 1])[schedules[|schedules| - 1].id := schedules[|schedules| - 1]]
  }

  /** What the loader's query selects of the table. */
  function EnabledRows(table: seq<Schedule>): seq<Schedule> {
    if table == [] then []
    else EnabledRows(table[..|table| - 1]) + if table[|table| - 1].enabled then [table[|table| - 1]] else []
  }

  function UpdatedAt(schedules: map<ScheduleId, Schedule>): map<ScheduleId, int> {
    map id | id in schedules :: schedules[id].updatedAt
  }

  ghost predicate SameIntervals(before: map<ScheduleId, Schedule>, after: map<ScheduleId, Schedule>) {
    forall s :: s in before && s in after ==> before[s].interval == after[s].interval
  }

  /** The loaded schedules are enabled, and their timers can be created. */
  ghost predicate Loadable(schedules: map<ScheduleId, Schedule>) {
    forall s :: s in schedules ==> schedules[s].interval > 0 && schedules[s].enabled
  }

  lemma {:induction false} RowsById(rows: seq<Schedule>)
    requires forall r :: r in rows ==> r.interval > 0 && r.enabled
    ensures Loadable(ById(rows))
  {
    if rows != [] {
      RowsById(rows[..|rows| - 1]);
    }
  }

  lemma {:induction false} EnabledRowsAre(table: seq<Schedule>)
    ensures forall r :: r in EnabledRows(table) <==> r in table && r.enabled
  {
    if table != [] {
      EnabledRowsAre(table[..|table| - 1]);
      assert table == table[..|table| - 1] + [table[|table| - 1]];
    }
  }

  lemma LoadedRows(table: seq<Schedule>)
    requires forall r :: r in table && r.enabled ==> r.interval > 0
    ensures Loadable(ById(EnabledRows(table)))
  {
    EnabledRowsAre(table);
    RowsById(EnabledRows(table));
  }

  ghost predicate DistinctIds(rows: seq<Schedule>) {
    forall r, q :: r in rows && q in rows && r != q ==> r.id != q.id
  }

  /** Rows of different ids are all found under their ids, and nothing else is. */
  lemma {:induction false} RowsAreById(rows: seq<Schedule>, r: Schedule)
    requires DistinctIds(rows)
    ensures r in rows <==> Lookup(ById(rows), r.id) == Some(r)
  {
    if rows != [] {
      var init, last := rows[..|rows| - 1], rows[|rows| - 1];
      assert rows == init + [last];
      RowsAreById(init, r);
    }
  }

  /** The enabled rows of a table, and they alone, are loaded. */
  lemma LoadedAreEnabled(table: seq<Schedule>)
    requires DistinctIds(table)
    ensures forall r :: r in table && r.enabled <==> Lookup(ById(EnabledRows(table)), r.id) == Some(r)
  {
    EnabledRowsAre(table);
    forall r ensures r in EnabledRows(table) <==> Lookup(ById(EnabledRows(table)), r.id) == Some(r) {
      RowsAreById(EnabledRows(table), r);
    }
  }

  lemma OneRow(r: Schedule)
    requires r.enabled
    ensures ById(EnabledRows([r])) == map[r.id := r]
  {
    assert EnabledRows([r]) == [r] by {
      assert [r][..0] == [];
    }
    assert ById([r]) == ById([])[r.id := r] by {
      assert [r][..0] == [];
    }
  }

  // ---------------------------------------------------------------- change detection

  /** No schedule is missing and none has another time, so both have the same ones: nothing was swapped. */
  lemma SameTimesMeansSame(before: map<ScheduleId, int>, after: map<ScheduleId, int>)
    requires |after| >= |before| && forall id :: id in after ==> Lookup(before, id) == Some(after[id])
    ensures after == before
  {
    assert after.Keys <= before.Keys;
    if after.Keys != before.Keys {
      assert !(before.Keys <= after.Keys);
      var id :| id in before.Keys && id !in after.Keys;
      assert after.Keys <= before.Keys - {id};
      SubsetSize(after.Keys, before.Keys - {id});
    }
  }

  class ScheduleLoader {
    var schedules: map<ScheduleId, Schedule>
    var scheduleUpdatedAt: map<ScheduleId, int>

    constructor ()
      ensures Valid() && schedules == map[]
    {
      schedules, scheduleUpdatedAt := map[], map[];
    }

    ghost predicate Valid()
      reads this
    {
      scheduleUpdatedAt == UpdatedAt(schedules) && forall id :: id in schedules ==> schedules[id].id == id
    }

    /** An update is emitted exactly if a schedule came, went, was swapped for another one, or has another time. */
    method Sync(rows: seq<Schedule>) returns (changed: bool)
      requires Valid()
      modifies this
      ensures Valid() && schedules == ById(rows)
      ensures changed <==> UpdatedAt(schedules) != UpdatedAt(old(schedules))
    {
      var newSchedules: map<ScheduleId, Schedule>, newUpdatedAt: map<ScheduleId, int> := map[], map[];
      for i := 0 to |rows|
        invariant newSchedules == ById(rows[..i]) && newUpdatedAt == UpdatedAt(newSchedules)
        invariant forall id :: id in newSchedules ==> newSchedules[id].id == id
      {
        assert rows[..i + 1][..i] == rows[..i];
        newUpdatedAt := newUpdatedAt[rows[i].id := rows[i].updatedAt];
        newSchedules := newSchedules[rows[i].id := rows[i]];
      }
      assert rows[..|rows|] == rows;
      assert newUpdatedAt.Keys == newSchedules.Keys && scheduleUpdatedAt.Keys == schedules.Keys;
      changed := |newSchedules| < |schedules|;
      if changed {
        assert newUpdatedAt != scheduleUpdatedAt by {
          assert |newUpdatedAt.Keys| < |scheduleUpdatedAt.Keys|;
        }
      } else {
        changed := HasOtherTime(newUpdatedAt);
        if !changed {
          assert |newUpdatedAt| >= |scheduleUpdatedAt| by {
            assert |newUpdatedAt| == |newUpdatedAt.Keys| && |scheduleUpdatedAt| == |scheduleUpdatedAt.Keys|;
          }
          SameTimesMeansSame(scheduleUpdatedAt, newUpdatedAt);
        }
      }
      schedules, scheduleUpdatedAt := newSchedules, newUpdatedAt;
    }

    method HasOtherTime(newUpdatedAt: map<ScheduleId, int>) returns (changed: bool)
      ensures changed <==> exists id :: id in newUpdatedAt && Lookup(scheduleUpdatedAt, id) != Some(newUpdatedAt[id])
    {
      var ids := newUpdatedAt.Keys;
      while ids != {}
        invariant ids <= newUpdatedAt.Keys
        invariant forall id :: id in newUpdatedAt && id !in ids ==> Lookup(scheduleUpdatedAt, id) == Some(newUpdatedAt[id])
      {
        var id :| id in ids;
        ids := ids - {id};
        if Lookup(scheduleUpdatedAt, id) != Some(newUpdatedAt[id]) {
          return true;
        }
      }
      return false;
    }
  }

  // ---------------------------------------------------------------- the first delay

  const MINUTE_MS: int := 60_000

  /** The chosen second of the current minute, and as many intervals later as it takes to be in the future. */
  method FirstDelay(intervalSeconds: nat, sec: nat, now: nat) returns (delay: nat)
    requires intervalSeconds > 0 && sec <= Min(intervalSeconds, 59)
    ensures 0 < delay <= intervalSeconds * 1000
    ensures (now + delay) % (intervalSeconds * 1000) == (now / 60_000 * 60_000 + sec * 1000) % (intervalSeconds * 1000)
  {
    var intervalMs := intervalSeconds * 1000;
    var start := now / MINUTE_MS * MINUTE_MS + sec * 1000;
    var next := start;
    ghost var k := 0;
    while next <= now
      invariant next == start + k * intervalMs && k >= 0
      invariant next <= now + intervalMs && (k == 0 ==> next <= now + sec * 1000)
      decreases now - next
    {
      next := next + intervalMs;
      k := k + 1;
      assert k * intervalMs == (k - 1) * intervalMs + intervalMs;
    }
    delay := next - now;
    AddMultiple(start, k, intervalMs);
  }

  lemma AddMultiple(x: int, k: nat, m: int)
    requires m > 0
    ensures (x + k * m) % m == x % m
  {
    if k > 0 {
      AddMultiple(x, k - 1, m);
      assert x + k * m == (x + (k - 1) * m) + m;
      AddOne(x + (k - 1) * m, m);
    }
  }

  lemma AddOne(x: int, m: int)
    requires m > 0
    ensures (x + m) % m == x % m
  {
    assert x + m == (x / m + 1) * m + x % m;
    Division(x + m, x / m + 1, x % m, m);
  }

  /** With an interval of zero the loop of a timer's creation never gets past the current time. */
  lemma {:induction false} ZeroIntervalNeverAdvances(now: nat, rounds: nat)
    ensures Advanced(now / MINUTE_MS * MINUTE_MS, 0, rounds) <= now
  {
    if rounds > 0 {
      ZeroIntervalNeverAdvances(now, rounds - 1);
    }
  }

  function Advanced(start: int, intervalMs: int, rounds: nat): int {
    if rounds == 0 then start else Advanced(start, intervalMs, rounds - 1) + intervalMs
  }

  // ---------------------------------------------------------------- timers

  /** A timer of the runtime: the first timeout of a schedule, or its interval. */
  datatype Live = First(id: ScheduleId, delay: nat, interval: nat) | Interval(id: ScheduleId, everyMs: nat)

  datatype Timer = Timer(id: TimerId, interval: nat)

  function IntervalOf(live: Live): nat {
    match live
    case First(_, _, interval) => interval * 1000
    case Interval(_, everyMs) => everyMs
  }

  /** Each live timer is held under its schedule, each held timer is live, and its first delay and its interval are right. */
  ghost predicate AreTimers(timers: map<ScheduleId, Timer>, live: map<TimerId, Live>, nextTimer: TimerId) {
    && (forall t :: t in live ==> t < nextTimer && live[t].id in timers && timers[live[t].id].id == t)
    && (forall s :: s in timers ==> timers[s].id in live && live[timers[s].id].id == s)
    && (forall s :: s in timers ==> IntervalOf(live[timers[s].id]) == timers[s].interval * 1000)
    && (forall t :: t in live && live[t].First? ==> 0 < live[t].delay <= live[t].interval * 1000)
  }

  /** A fired first timeout is replaced by the interval. */
  lemma FiredKeepsTimers(timers: map<ScheduleId, Timer>, live: map<TimerId, Live>, next: TimerId, t: TimerId)
    requires AreTimers(timers, live, next) && t in live && live[t].First?
    ensures var s, interval := live[t].id, live[t].interval;
            s in timers && timers[s].interval == interval &&
            AreTimers(timers[s := Timer(next, interval)], (live - {t})[next := Interval(s, interval * 1000)], next + 1)
  {
    var s := live[t].id;
    assert IntervalOf(live[t]) == timers[s].interval * 1000;
  }

  lemma CreatedKeepsTimers(timers: map<ScheduleId, Timer>, live: map<TimerId, Live>, next: TimerId, s: ScheduleId, delay: nat, interval: nat)
    requires AreTimers(timers, live, next) && s !in timers && 0 < delay <= interval * 1000
    ensures AreTimers(timers[s := Timer(next, interval)], live[next := First(s, delay, interval)], next + 1)
  {
  }

  class StreamScheduleExecutor {
    const loader: ScheduleLoader
    var timers: map<ScheduleId, Timer>
    /** The timers that the runtime has, and the number of the next one. */
    var live: map<TimerId, Live>
    var nextTimer: TimerId
    var listening: bool

    constructor (loader: ScheduleLoader)
      ensures Consistent() && this.loader == loader && timers == map[] && !listening
    {
      this.loader := loader;
      timers, live, nextTimer, listening := map[], map[], 0, false;
    }

    ghost predicate Consistent()
      reads this
    {
      AreTimers(timers, live, nextTimer)
    }

    method ClearTimer(t: TimerId)
      modifies this`live
      ensures live == old(live) - {t}
    {
      live := live - {t};
    }

    /** `sec` is the random second and `now` the clock. */
    method CreateTimer(s: ScheduleId, interval: nat, sec: nat, now: nat)
      requires Consistent() && s !in timers && interval > 0 && sec <= Min(interval, 59)
      modifies this`timers, this`live, this`nextTimer
      ensures Consistent() && timers.Keys == old(timers).Keys + {s} && timers[s].interval == interval
      ensures forall r :: r in old(timers) ==> timers[r] == old(timers)[r]
      ensures var timer := live[timers[s].id];
              timer.First? && (now + timer.delay) % (interval * 1000) == (now / 60_000 * 60_000 + sec * 1000) % (interval * 1000)
    {
      var delay := FirstDelay(interval, sec, now);
      CreatedKeepsTimers(timers, live, nextTimer, s, delay, interval);
      var first := nextTimer;
      nextTimer := nextTimer + 1;
      live := live[first := First(s, delay, interval)];
      timers := timers[s := Timer(first, interval)];
    }

    /** The first timeout fires: the runtime drops it, and an interval takes its place in the map. */
    method FirstFire(t: TimerId)
      requires Consistent() && t in live && live[t].First?
      modifies this`timers, this`live, this`nextTimer
      ensures Consistent() && timers.Keys == old(timers).Keys
      ensures forall r :: r in timers ==> timers[r].interval == old(timers)[r].interval
      ensures live[timers[old(live)[t].id].id].Interval?
    {
      FiredKeepsTimers(timers, live, nextTimer, t);
      var s, interval := live[t].id, live[t].interval;
      live := live - {t};
      var timer := nextTimer;
      nextTimer := nextTimer + 1;
      live := live[timer := Interval(s, interval * 1000)];
      timers := timers[s := Timer(timer, interval)];
    }

    method DropTimer(s: ScheduleId)
      requires Consistent() && s in timers
      modifies this`timers, this`live
      ensures Consistent() && timers == old(timers) - {s}
    {
      var t := timers[s].id;
      timers := timers - {s};
      ClearTimer(t);
    }

    /** Exactly the enabled schedules have timers, with their intervals. */
    ghost predicate InSync(schedules: map<ScheduleId, Schedule>)
      reads this
    {
      && (forall s :: s in timers <==> s in schedules && schedules[s].enabled)
      && (forall s :: s in timers ==> timers[s].interval == schedules[s].interval)
    }

    /** The timer of an enabled schedule; one that has the right interval is left alone. */
    method SyncTimer(schedule: Schedule, sec: nat, now: nat)
      requires Consistent() && schedule.interval > 0 && sec <= Min(schedule.interval, 59)
      modifies this`timers, this`live, this`nextTimer
      ensures Consistent() && timers.Keys == old(timers).Keys + {schedule.id} && timers[schedule.id].interval == schedule.interval
      ensures forall r :: r in old(timers) && (r != schedule.id || old(timers)[r].interval == schedule.interval) ==> timers[r] == old(timers)[r]
    {
      if schedule.id in timers && timers[schedule.id].interval != schedule.interval {
        DropTimer(schedule.id);
      }
      if schedule.id !in timers {
        CreateTimer(schedule.id, schedule.interval, sec, now);
      }
    }

    method SyncTimers(now: nat)
      requires Consistent() && loader.Valid()
      requires forall s :: s in loader.schedules ==> loader.schedules[s].interval > 0
      modifies this`timers, this`live, this`nextTimer
      ensures Consistent() && InSync(loader.schedules)
      ensures forall s :: s in timers && s in old(timers) && old(timers)[s].interval == timers[s].interval ==> timers[s] == old(timers)[s]
    {
      ghost var schedules := loader.schedules;
      var desired: set<ScheduleId> := {};
      var ids := loader.schedules.Keys;
      while ids != {}
        invariant Consistent() && ids <= schedules.Keys && loader.schedules == schedules
        invariant forall s :: s in desired <==> s in schedules && s !in ids && schedules[s].enabled
        invariant timers.Keys == old(timers).Keys + desired
        invariant forall s :: s in desired ==> timers[s].interval == schedules[s].interval
        invariant forall s :: s in old(timers) && (s !in desired || old(timers)[s].interval == schedules[s].interval) ==> timers[s] == old(timers)[s]
      {
        var id :| id in ids;
        ids := ids - {id};
        var schedule := loader.schedules[id];
        if schedule.enabled {
          var sec := PickSecond(schedule.interval);
          desired := desired + {id};
          SyncTimer(schedule, sec, now);
        }
      }
      RemoveOthers(desired);
    }

    /** Any second that the random choice may give. */
    method PickSecond(interval: nat) returns (sec: nat)
      ensures sec <= Min(interval, 59)
    {
      sec := *;
      if sec > interval || sec > 59 {
        sec := 0;
      }
    }

    method RemoveOthers(desired: set<ScheduleId>)
      requires Consistent() && desired <= timers.Keys
      modifies this`timers, this`live
      ensures Consistent() && timers.Keys == desired
      ensures forall s :: s in timers ==> timers[s] == old(timers)[s]
    {
      var ids := timers.Keys;
      while ids != {}
        invariant Consistent() && ids <= old(timers).Keys && timers.Keys <= old(timers).Keys && ids <= timers.Keys
        invariant forall s :: s in timers ==> timers[s] == old(timers)[s]
        invariant timers.Keys == ids + desired
      {
        var s :| s in ids;
        ids := ids - {s};
        if s !in desired {
          DropTimer(s);
        }
      }
    }

    // -------------------------------------------------------------- what happens to a started executor

    /** While it listens, exactly the loaded schedules, which are enabled, have timers; otherwise there are none. */
    ghost predicate Inv()
      reads this, loader
    {
      && Consistent() && loader.Valid() && Loadable(loader.schedules)
      && timers.Keys == if listening then loader.schedules.Keys else {}
    }

    ghost predicate IntervalsInSync()
      reads this, loader
    {
      forall s :: s in timers && s in loader.schedules ==> timers[s].interval == loader.schedules[s].interval
    }

    method Start(now: nat)
      requires Inv() && !listening
      modifies this
      ensures Inv() && listening && IntervalsInSync()
    {
      SyncTimers(now);
      listening := true;
    }

    method Stop()
      requires Inv()
      modifies this
      ensures Inv() && !listening && live == map[]
    {
      listening := false;
      var ids := timers.Keys;
      while ids != {}
        invariant ids <= timers.Keys && timers == old(timers) && !listening
        invariant forall t :: t in live ==> live[t].id in ids && timers[live[t].id].id == t
      {
        var s :| s in ids;
        ids := ids - {s};
        ClearTimer(timers[s].id);
      }
      timers := map[];
      assert live == map[];
    }

    /**
      A synchronization of the loader, whose update a started executor hears. Intervals that were right stay
      right exactly if an update was emitted or no interval differs from the one before.
     */
    method LoaderSync(table: seq<Schedule>, now: nat)
      requires Inv() && forall r :: r in table && r.enabled ==> r.interval > 0
      modifies this, loader
      ensures Inv() && listening == old(listening) && loader.schedules == ById(EnabledRows(table))
      ensures DistinctIds(table) ==> forall r :: r in table && r.enabled <==> Lookup(loader.schedules, r.id) == Some(r)
      ensures listening && old(IntervalsInSync()) ==>
                (IntervalsInSync() <==>
                  UpdatedAt(loader.schedules) != UpdatedAt(old(loader.schedules)) || SameIntervals(old(loader.schedules), loader.schedules))
    {
      ghost var before := loader.schedules;
      LoadedRows(table);
      if DistinctIds(table) {
        LoadedAreEnabled(table);
      }
      var changed := loader.Sync(EnabledRows(table));
      if changed && listening {
        SyncTimers(now);
      } else if !changed {
        assert before.Keys == UpdatedAt(before).Keys == UpdatedAt(loader.schedules).Keys == loader.schedules.Keys;
      }
    }

    method FirstTimeout(t: TimerId)
      requires Inv() && t in live && live[t].First?
      modifies this
      ensures Inv() && listening == old(listening) && (IntervalsInSync() <==> old(IntervalsInSync()))
    {
      FirstFire(t);
    }
  }

  /** An interval that changes under an unchanged update time is not noticed: the timer keeps the old one. */
  method UnchangedTimeKeepsOldInterval(executor: StreamScheduleExecutor, before: Schedule, interval: nat, now: nat)
    requires before.enabled && interval > 0 && interval != before.interval
    requires executor.Inv() && executor.listening && executor.IntervalsInSync() && executor.loader.schedules == map[before.id := before]
    modifies executor, executor.loader
    ensures executor.Inv() && executor.loader.schedules == map[before.id := before.(interval := interval)]
    ensures before.id in executor.timers && executor.timers[before.id].interval != interval
  {
    var after := before.(interval := interval);
    OneRow(after);
    ghost var earlier, later := map[before.id := before], map[before.id := after];
    assert UpdatedAt(earlier) == UpdatedAt(later) && before.id in earlier && before.id in later;
    executor.LoaderSync([after], now);
    assert !SameIntervals(earlier, later);
  }
}
