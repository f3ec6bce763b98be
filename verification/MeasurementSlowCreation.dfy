/** What a cleaner can do to a measurement whose creation is slower than its own timeout. */
module MeasurementSlowCreation {
  import opened Common
  import opened MeasurementScripts
  import opened MeasurementLifecycle
  import opened MeasurementTimeouts
  import opened MeasurementCounter

  const PING := TestResult(InProgress, "", "", None, None)
  const SLOW := Measurement(false, 0, [PING])
  const NOTHING := Keys(map[], map[], map[])
  const LEASED := Keys(map[], map[], map["m" := TIMEOUT + CLEANUP_LEASE_TIME])

  /** The states of the measurement "m" while it is created, its first cleaner being task 0. */
  function Creating(keys: Keys, left: set<Command>, tasks: map<nat, Task>, custody: map<Id, Place>, claimedAt: map<Id, int>): System {
    System(keys, map["m" := SLOW], map["m" := 0], map["m" := left], {}, tasks, [], custody, {}, claimedAt)
  }

  function Claimed(keys: Keys, left: set<Command>, cleaner: Task): System {
    Creating(keys, left, map[0 := cleaner], map[], map["m" := TIMEOUT])
  }

  lemma OneTest()
    ensures InProgressTests([PING]) == {0}
  {
  }

  lemma Then(run: seq<System>, steps: seq<Step>, step: Step) returns (run': seq<System>, steps': seq<Step>)
    requires IsRun(run, steps) && Enabled(run[|steps|], step)
    ensures IsRun(run', steps') && run' == run + [Do(run[|steps|], step)] && steps' == steps + [step]
  {
    run', steps' := run + [Do(run[|steps|], step)], steps + [step];
  }

  lemma Starting()
    ensures var s := System(NOTHING, map[], map[], map[], {}, map[], [], map[], {}, map[]); var step := BeginCreate("m", [PING], 0);
            Enabled(s, step) && Do(s, step) == Creating(NOTHING, {AddTimeout, SetAwaiting, SetDocument}, map[], map[], map[])
  {
    OneTest();
  }

  lemma Commanding(s: System, keys: Keys, left: set<Command>, tasks: map<nat, Task>, custody: map<Id, Place>,
                   claimedAt: map<Id, int>, command: Command)
    requires s == Creating(keys, left, tasks, custody, claimedAt) && command in left && !command.Compress?
    ensures Enabled(s, Run("m", command))
    ensures Do(s, Run("m", command)) == Creating(RunCommand(keys, "m", SLOW, 0, command), left - {command}, tasks, custody, claimedAt)
  {
  }

  lemma OnlyBatch(timeouts: map<Id, int>)
    requires timeouts == map["m" := TIMEOUT]
    ensures IsBatch(timeouts, TIMEOUT, SCAN_BATCH_SIZE, ["m"])
    ensures Leased(timeouts, ["m"], TIMEOUT + CLEANUP_LEASE_TIME) == LEASED.timeouts
  {
    assert DueIds(timeouts, TIMEOUT) == {"m"};
    assert forall id :: id in ["m"] <==> id == "m";
  }

  lemma Claiming()
    ensures var s := Creating(Keys(map[], map[], map["m" := TIMEOUT]), {SetAwaiting, SetDocument}, map[], map[], map[]);
            var step := Claim(0, TIMEOUT, ["m"]);
            Enabled(s, step) && Do(s, step) == Claimed(LEASED, {SetAwaiting, SetDocument}, Cleaner({"m"}, {"m"}, map[], false, false, {}))
  {
    OnlyBatch(map["m" := TIMEOUT]);
    assert (set id | id in ["m"]) == {"m"};
    assert map[] + (map id | id in ["m"] :: TIMEOUT) == map["m" := TIMEOUT];
  }

  lemma UntilAdded() returns (run: seq<System>, steps: seq<Step>)
    ensures IsRun(run, steps) && forall k :: 0 <= k < |steps| ==> !steps[k].SendResult? && !steps[k].RemoveFinished? && !steps[k].Mark?
    ensures run[|steps|] == Creating(Keys(map[], map[], map["m" := TIMEOUT]), {SetAwaiting, SetDocument}, map[], map[], map[])
  {
    run, steps := [System(NOTHING, map[], map[], map[], {}, map[], [], map[], {}, map[])], [];
    Starting();
    run, steps := Then(run, steps, BeginCreate("m", [PING], 0));
    Commanding(run[|steps|], NOTHING, {AddTimeout, SetAwaiting, SetDocument}, map[], map[], map[], AddTimeout);
    assert {AddTimeout, SetAwaiting, SetDocument} - {AddTimeout} == {SetAwaiting, SetDocument};
    run, steps := Then(run, steps, Run("m", AddTimeout));
  }

  /** The timeout is added, and 30 seconds later a cleaner claims it. */
  lemma UntilClaimed() returns (run: seq<System>, steps: seq<Step>)
    ensures IsRun(run, steps) && forall k :: 0 <= k < |steps| ==> !steps[k].SendResult? && !steps[k].RemoveFinished? && !steps[k].Mark?
    ensures run[|steps|] == Claimed(LEASED, {SetAwaiting, SetDocument}, Cleaner({"m"}, {"m"}, map[], false, false, {}))
  {
    run, steps := UntilAdded();
    Claiming();
    run, steps := Then(run, steps, Claim(0, TIMEOUT, ["m"]));
  }

  function EarlyCleaner(removed: bool): Task {
    Cleaner({"m"}, {}, map[], false, removed, {"m"})
  }

  lemma MarkingEarly()
    ensures var s := Claimed(LEASED, {SetAwaiting, SetDocument}, Cleaner({"m"}, {"m"}, map[], false, false, {}));
            var step := Mark(0, "m", 0, false);
            Enabled(s, step) && Do(s, step) == Claimed(LEASED, {SetAwaiting, SetDocument}, EarlyCleaner(false))
  {
    var ids: set<Id> := {};
    assert {"m"} - {"m"} == ids && ids + {"m"} == {"m"};
    assert Moved(map[], ids, InTask(0)) == map[];
  }

  lemma Removing(keys: Keys, left: set<Command>)
    requires keys.timeouts == LEASED.timeouts
    ensures var s, step := Claimed(keys, left, EarlyCleaner(false)), RemoveFinished(0);
            Enabled(s, step) && Do(s, step) == Claimed(keys.(timeouts := map[]), left, EarlyCleaner(true))
  {
    assert LEASED.timeouts - {"m"} == map[];
  }

  /** Both remaining commands of the creation. */
  lemma ThenStored(run: seq<System>, steps: seq<Step>, keys: Keys, cleaner: Task) returns (run': seq<System>, steps': seq<Step>)
    requires IsRun(run, steps) && run[|steps|] == Claimed(keys, {SetAwaiting, SetDocument}, cleaner)
    ensures IsRun(run', steps') && |steps'| == |steps| + 2 && steps' == steps + [Run("m", SetAwaiting), Run("m", SetDocument)]
    ensures run'[|steps'|] ==
            Claimed(keys.(awaiting := keys.awaiting["m" := 1], docs := keys.docs["m" := Document(SLOW, false)]), {}, cleaner)
  {
    OneTest();
    Commanding(run[|steps|], keys, {SetAwaiting, SetDocument}, map[0 := cleaner], map[], map["m" := TIMEOUT], SetAwaiting);
    assert {SetAwaiting, SetDocument} - {SetAwaiting} == {SetDocument};
    run', steps' := Then(run, steps, Run("m", SetAwaiting));
    var counted := keys.(awaiting := keys.awaiting["m" := 1]);
    Commanding(run'[|steps'|], counted, {SetDocument}, map[0 := cleaner], map[], map["m" := TIMEOUT], SetDocument);
    assert {SetDocument} - {SetDocument} == {};
    run', steps' := Then(run', steps', Run("m", SetDocument));
  }

  ghost predicate IsForgotten(s: System) {
    "m" in s.created && "m" in s.keys.docs && !s.keys.docs["m"].record.finished && "m" !in s.keys.timeouts
  }

  /** A measurement is stored unfinished after its timeout was removed for good. */
  lemma SlowCreationIsForgotten() returns (run: seq<System>, steps: seq<Step>)
    ensures IsRun(run, steps) && IsForgotten(run[|steps|])
  {
    run, steps := UntilClaimed();
    MarkingEarly();
    run, steps := Then(run, steps, Mark(0, "m", 0, false));
    Removing(LEASED, {SetAwaiting, SetDocument});
    run, steps := Then(run, steps, RemoveFinished(0));
    run, steps := ThenStored(run, steps, NOTHING, EarlyCleaner(true));
    run, steps := Then(run, steps, EndCreate("m"));
  }

  /** The same when the document is stored between the cleaner's call and its removal: no command is pending at any removal. */
  lemma StoredBetweenIsForgotten() returns (run: seq<System>, steps: seq<Step>)
    ensures IsRun(run, steps) && IsForgotten(run[|steps|])
    ensures forall k :: 0 <= k < |steps| && steps[k].RemoveFinished? ==> !StillToWrite(run[k], "m")
  {
    run, steps := UntilClaimed();
    MarkingEarly();
    run, steps := Then(run, steps, Mark(0, "m", 0, false));
    run, steps := ThenStored(run, steps, LEASED, EarlyCleaner(false));
    var stored := LEASED.(awaiting := map["m" := 1], docs := map["m" := Document(SLOW, false)]);
    Removing(stored, {});
    var n := |steps|;
    run, steps := Then(run, steps, RemoveFinished(0));
    run, steps := Then(run, steps, EndCreate("m"));
    assert run[n] == Claimed(stored, {}, EarlyCleaner(false));
  }

  const LATE := Measurement(true, 0, [TimedOut(PING)])

  lemma MarkingUncounted()
    ensures var stored := LEASED.(docs := map["m" := Document(SLOW, false)]);
            var s := Claimed(stored, {SetAwaiting}, Cleaner({"m"}, {"m"}, map[], false, false, {}));
            var step := Mark(0, "m", 0, false);
            && Enabled(s, step) && OvertakesCounter(s, step)
            && Do(s, step) == Creating(LEASED.(docs := map["m" := Document(LATE, true)]), {SetAwaiting},
                                       map[0 := Cleaner({"m"}, {}, map["m" := LATE], false, false, {})], map["m" := InTask(0)],
                                       map["m" := TIMEOUT])
  {
    assert {"m"} - {"m"} == {};
    assert AllTimedOut([PING]) == [TimedOut(PING)];
    assert Moved(map[], {"m"}, InTask(0)) == map["m" := InTask(0)];
    assert LEASED.awaiting - {"m"} == map[];
  }

  /** Nobody reports, and the counter of one result stands beside a finished document. */
  lemma OvertakenCounterStays() returns (run: seq<System>, steps: seq<Step>)
    ensures IsRun(run, steps) && forall k :: 0 <= k < |steps| ==> ReportsOnce(run[k], steps[k])
    ensures var s := run[|steps|];
            "m" in s.created && "m" in s.keys.docs && s.keys.docs["m"].record.finished && "m" in s.keys.awaiting && !CounterRight(s, "m")
  {
    run, steps := UntilClaimed();
    var cleaner := Cleaner({"m"}, {"m"}, map[], false, false, {});
    Commanding(run[|steps|], LEASED, {SetAwaiting, SetDocument}, map[0 := cleaner], map[], map["m" := TIMEOUT], SetDocument);
    assert {SetAwaiting, SetDocument} - {SetDocument} == {SetAwaiting};
    run, steps := Then(run, steps, Run("m", SetDocument));
    MarkingUncounted();
    run, steps := Then(run, steps, Mark(0, "m", 0, false));
    OneTest();
    Commanding(run[|steps|], LEASED.(docs := map["m" := Document(LATE, true)]), {SetAwaiting},
               map[0 := Cleaner({"m"}, {}, map["m" := LATE], false, false, {})], map["m" := InTask(0)], map["m" := TIMEOUT], SetAwaiting);
    assert {SetAwaiting} - {SetAwaiting} == {};
    run, steps := Then(run, steps, Run("m", SetAwaiting));
    run, steps := Then(run, steps, EndCreate("m"));
    TimedOutTests([PING]);
    assert AllTimedOut([PING]) == [TimedOut(PING)];
  }
}
