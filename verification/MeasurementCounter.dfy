/** The counter of awaited results against the results that are still in progress. */
module MeasurementCounter {
  import opened Common
  import opened MeasurementScripts
  import opened MeasurementLifecycle
  import opened MeasurementRuns

  /** Each test that was sent to a probe reports at most once; nobody else reports. */
  ghost predicate ReportsOnce(s: System, step: Step) {
    step.SendResult? ==>
      (step.id, step.test) !in s.reported && step.id in s.initial && step.test in InProgressTests(s.initial[step.id].results)
  }

  /** The tests of `id` that have not reported. */
  function Pending(s: System, id: Id): set<nat>
    requires id in s.initial
  {
    set k | k in InProgressTests(s.initial[id].results) && (id, k) !in s.reported
  }

  /** The counter counts the pending tests, and while it exists they are the document's results in progress. */
  ghost predicate Counted(s: System, id: Id)
    requires id in s.initial
  {
    && (id in s.keys.awaiting ==> s.keys.awaiting[id] == |Pending(s, id)|)
    && (id in s.keys.docs ==> |s.keys.docs[id].record.results| == |s.initial[id].results|)
    && (id in s.keys.docs && s.keys.docs[id].record.finished ==> InProgressTests(s.keys.docs[id].record.results) == {})
    && (id in s.keys.docs && !s.keys.docs[id].record.finished && (id in s.keys.awaiting || id in s.creating) ==>
          InProgressTests(s.keys.docs[id].record.results) == Pending(s, id))
  }

  ghost predicate CountInv(s: System, id: Id) {
    && (id in s.initial ==> Counted(s, id))
    && (forall k :: (id, k) in s.reported ==> id in s.created)
    && (id in s.initial ==> (s.initial[id].finished <==> InProgressTests(s.initial[id].results) == {}))
  }

  lemma TimedOutTests(results: seq<TestResult>)
    ensures InProgressTests(AllTimedOut(results)) == {}
  {
  }

  lemma ProgressKeepsTests(m: Measurement, test: nat, p: Progress, overwrite: bool, date: nat)
    ensures InProgressTests(WithProgress(m, test, p, overwrite, date).results) == InProgressTests(m.results)
  {
    var m' := WithProgress(m, test, p, overwrite, date);
    assert |m'.results| == |m.results|;
    assert forall k :: 0 <= k < |m.results| ==> m'.results[k].status == m.results[k].status;
  }

  lemma ResultEndsOneTest(m: Measurement, test: nat, r: TestResult)
    requires !r.status.InProgress?
    ensures InProgressTests(SetResult(m, test, r).results) == InProgressTests(m.results) - {test}
  {
  }

  /** The last and the other results, on the keys alone. */
  lemma CountAfterResult(k: Keys, id: Id, test: nat, r: TestResult, date: nat, pending: set<nat>)
    requires !r.status.InProgress? && test in pending
    requires id in k.awaiting ==> k.awaiting[id] == |pending|
    requires id in k.docs && !k.docs[id].record.finished && id in k.awaiting ==> InProgressTests(k.docs[id].record.results) == pending
    requires id in k.docs && id in k.awaiting ==> (k.docs[id].compressed <==> k.docs[id].record.finished)
    ensures var k' := RecordResult(k, id, test, r, date).0;
            && (id in k'.awaiting ==> k'.awaiting[id] == |pending - {test}|)
            && (id in k'.docs && k'.docs[id].record.finished && !k.docs[id].record.finished ==> InProgressTests(k'.docs[id].record.results) == {})
            && (id in k'.docs && !k'.docs[id].record.finished && id in k'.awaiting ==>
                  InProgressTests(k'.docs[id].record.results) == pending - {test})
            && (id in k'.docs && k.docs[id].record.finished ==> k'.docs[id] == k.docs[id])
            && (id in k'.docs ==> |k'.docs[id].record.results| == |k.docs[id].record.results|)
  {
    if id in k.awaiting && Writable(k, id) {
      ResultEndsOneTest(k.docs[id].record, test, r);
      assert |pending - {test}| == 0 ==> pending - {test} == {};
    }
  }

  lemma PendingAfterReport(s: System, s': System, id: Id, test: nat)
    requires id in s.initial && s'.initial == s.initial && s'.reported == s.reported + {(id, test)}
    ensures Pending(s', id) == Pending(s, id) - {test}
  {
  }

  lemma SendKeepsCount(s: System, step: Step)
    requires Enabled(s, step) && step.SendResult? && ReportsOnce(s, step) && IdInv(s, step.id) && CountInv(s, step.id)
    ensures CountInv(Do(s, step), step.id)
  {
    var s', id := Do(s, step), step.id;
    CountAfterResult(s.keys, id, step.test, step.result, step.date, Pending(s, id));
    SendKeys(s, step);
    assert s'.reported == s.reported + {(id, step.test)};
    PendingAfterReport(s, s', id, step.test);
    assert s'.keys == RecordResult(s.keys, id, step.test, step.result, step.date).0;
    ScriptKeysEffect(s, step);
  }

  lemma ReportedAfter(s: System, step: Step, id: Id)
    requires Enabled(s, step) && !(step.SendResult? && step.id == id)
    ensures forall k :: (id, k) in Do(s, step).reported <==> (id, k) in s.reported
  {
  }

  lemma MarkKeepsCount(s: System, step: Step)
    requires Enabled(s, step) && step.Mark? && IdInv(s, step.id) && CountInv(s, step.id)
    ensures CountInv(Do(s, step), step.id)
  {
    var s', id := Do(s, step), step.id;
    MarkKeys(s, step);
    ReportedAfter(s, step, id);
    if id in s.initial {
      assert Pending(s', id) == Pending(s, id);
    }
    if id in s.keys.docs {
      TimedOutTests(s.keys.docs[id].record.results);
    }
    ScriptKeysEffect(s, step);
  }

  lemma ProgressKeepsCount(s: System, step: Step)
    requires Enabled(s, step) && step.SendProgress? && IdInv(s, step.id) && CountInv(s, step.id)
    ensures CountInv(Do(s, step), step.id)
  {
    var s', id := Do(s, step), step.id;
    assert Pending(s', id) == Pending(s, id);
    if id in s.keys.docs {
      ProgressKeepsTests(s.keys.docs[id].record, step.test, step.progress, step.overwrite, step.date);
    }
  }

  lemma CreationKeepsCount(s: System, step: Step)
    requires Enabled(s, step) && IsCreationStep(step) && IdInv(s, step.id) && CountInv(s, step.id)
    ensures CountInv(Do(s, step), step.id)
  {
    var s', id := Do(s, step), step.id;
    assert forall k :: (id, k) in s.reported ==> id in s.created;
    assert s'.initial[id].finished <==> InProgressTests(s'.initial[id].results) == {};
    assert id !in s.created ==> Pending(s', id) == InProgressTests(s'.initial[id].results);
    if id in s.initial {
      assert Pending(s', id) == Pending(s, id);
    }
  }

  lemma ExpiryKeepsCount(s: System, step: Step)
    requires Enabled(s, step) && (step.ExpireAwaiting? || step.ExpireDocument?) && IdInv(s, step.id) && CountInv(s, step.id)
    ensures CountInv(Do(s, step), step.id)
  {
    if step.id in s.initial {
      assert Pending(Do(s, step), step.id) == Pending(s, step.id);
    }
  }

  lemma OthersKeepCount(s: System, step: Step, id: Id)
    requires OnceInv(s) && CountInv(s, id) && Enabled(s, step) && !Acts(step, id)
    ensures CountInv(Do(s, step), id)
  {
    var s' := Do(s, step);
    assert forall t, x :: t in s.tasks && x in Held(s.tasks[t]) ==> HeldBy(s, t, x);
    OthersUntouched(s, step, id);
    ReportedAfter(s, step, id);
    UntouchedKeepsCount(s, s', id);
  }

  lemma UntouchedKeepsCount(s: System, s': System, id: Id)
    requires CountInv(s, id) && Untouched(s, s', id) && forall k :: (id, k) in s'.reported <==> (id, k) in s.reported
    ensures CountInv(s', id)
  {
    assert id in s'.keys.docs <==> Lookup(s'.keys.docs, id).Some?;
    assert id in s.keys.docs <==> Lookup(s.keys.docs, id).Some?;
    assert id in s'.keys.awaiting <==> Lookup(s'.keys.awaiting, id).Some?;
    assert id in s.keys.awaiting <==> Lookup(s.keys.awaiting, id).Some?;
    if id in s.initial {
      assert Pending(s', id) == Pending(s, id);
    }
  }

  lemma StepKeepsCount(s: System, step: Step, id: Id)
    requires OnceInv(s) && CountInv(s, id) && Enabled(s, step) && ReportsOnce(s, step)
    ensures CountInv(Do(s, step), id)
  {
    assert IdInv(s, id);
    if !Acts(step, id) {
      OthersKeepCount(s, step, id);
    } else if step.SendResult? {
      SendKeepsCount(s, step);
    } else if step.Mark? {
      MarkKeepsCount(s, step);
    } else if step.SendProgress? {
      ProgressKeepsCount(s, step);
    } else if IsCreationStep(step) {
      CreationKeepsCount(s, step);
    } else {
      ExpiryKeepsCount(s, step);
    }
  }

  lemma {:induction false} RunKeepsCount(run: seq<System>, steps: seq<Step>, i: nat, id: Id)
    requires IsRun(run, steps) && i < |run| && forall k :: 0 <= k < i ==> ReportsOnce(run[k], steps[k])
    ensures CountInv(run[i], id)
  {
    if i > 0 {
      RunKeepsCount(run, steps, i - 1, id);
      RunKeepsOnce(run, steps, i - 1);
      StepKeepsCount(run[i - 1], steps[i - 1], id);
    }
  }

  // ---------------------------------------------------------------- no counter beside a finished document

  predicate StillToCount(s: System, id: Id) {
    id in s.creating && SetAwaiting in s.creating[id]
  }

  /** Beside a finished document there is no counter, and none will be set. */
  ghost predicate NoLateCounter(s: System, id: Id) {
    id in s.initial && !s.initial[id].finished && id in s.keys.docs && s.keys.docs[id].record.finished ==>
      id !in s.keys.awaiting && !StillToCount(s, id)
  }

  ghost predicate NoLateCounters(s: System) {
    forall id :: NoLateCounter(s, id)
  }

  /** A cleaner finishes a stored document whose counter is still to be set. */
  ghost predicate OvertakesCounter(s: System, step: Step) {
    step.Mark? && step.id in s.keys.docs && StillToCount(s, step.id)
  }

  lemma OwnScriptLeavesNoCounter(s: System, step: Step)
    requires OnceInv(s) && Enabled(s, step) && IsScriptStep(step) && !OvertakesCounter(s, step) && NoLateCounter(s, step.id)
    ensures NoLateCounter(Do(s, step), step.id)
  {
    assert IdInv(s, step.id);
    if step.Mark? {
      MarkKeys(s, step);
    } else {
      SendKeys(s, step);
    }
  }

  lemma OwnStepLeavesNoCounter(s: System, step: Step, id: Id)
    requires OnceInv(s) && NoLateCounter(s, id) && Enabled(s, step) && !OvertakesCounter(s, step) && Acts(step, id)
    ensures NoLateCounter(Do(s, step), id)
  {
    assert IdInv(s, id);
    if IsScriptStep(step) {
      OwnScriptLeavesNoCounter(s, step);
    }
  }

  lemma OtherStepLeavesNoCounter(s: System, step: Step, id: Id)
    requires OnceInv(s) && NoLateCounter(s, id) && Enabled(s, step) && !Acts(step, id)
    ensures NoLateCounter(Do(s, step), id)
  {
    assert forall t, x :: t in s.tasks && x in Held(s.tasks[t]) ==> HeldBy(s, t, x);
    OthersUntouched(s, step, id);
    assert Lookup(Do(s, step).keys.docs, id) == Lookup(s.keys.docs, id);
    assert Lookup(Do(s, step).keys.awaiting, id) == Lookup(s.keys.awaiting, id);
  }

  /** A counter comes to stand beside a finished document exactly if a cleaner's script comes between the two commands. */
  lemma OnlyOvertakingLeavesACounter(s: System, step: Step)
    requires OnceInv(s) && NoLateCounters(s) && Enabled(s, step)
    ensures NoLateCounters(Do(s, step)) <==> !OvertakesCounter(s, step)
  {
    if OvertakesCounter(s, step) {
      assert IdInv(s, step.id) && NoLateCounter(s, step.id);
      MarkKeys(s, step);
      assert !NoLateCounter(Do(s, step), step.id);
    } else {
      forall id ensures NoLateCounter(Do(s, step), id) {
        assert NoLateCounter(s, id);
        if Acts(step, id) {
          OwnStepLeavesNoCounter(s, step, id);
        } else {
          OtherStepLeavesNoCounter(s, step, id);
        }
      }
    }
  }

  lemma {:induction false} RunLeavesNoCounter(run: seq<System>, steps: seq<Step>, i: nat)
    requires IsRun(run, steps) && i < |run| && forall k :: 0 <= k < i ==> !OvertakesCounter(run[k], steps[k])
    ensures NoLateCounters(run[i])
  {
    if i > 0 {
      RunLeavesNoCounter(run, steps, i - 1);
      RunKeepsOnce(run, steps, i - 1);
      OnlyOvertakingLeavesACounter(run[i - 1], steps[i - 1]);
    }
  }

  /** While there is a counter, it is the number of results in progress. */
  ghost predicate CounterRight(s: System, id: Id) {
    id in s.keys.docs && id in s.keys.awaiting ==> s.keys.awaiting[id] == |InProgressTests(s.keys.docs[id].record.results)|
  }

  /** After a cleaner has overtaken the counter, setting it makes it wrong. */
  lemma OvertakenCounterIsWrong(s: System, step: Step)
    requires OnceInv(s) && NoLateCounters(s) && Enabled(s, step) && OvertakesCounter(s, step) && CountInv(s, step.id)
    ensures var s', next := Do(s, step), Run(step.id, SetAwaiting);
            Enabled(s', next) && !CounterRight(Do(s', next), step.id)
  {
    var id := step.id;
    assert IdInv(s, id) && NoLateCounter(s, id);
    MarkKeys(s, step);
    TimedOutTests(s.keys.docs[id].record.results);
    assert |InProgressTests(s.initial[id].results)| > 0 by {
      assert InProgressTests(s.initial[id].results) != {};
    }
  }

  /**
    If each test reports at most once and no cleaner overtakes the counter, a counter that exists is the
    number of results in progress, and a finished measurement has none in progress.
   */
  lemma CounterIsExact(run: seq<System>, steps: seq<Step>, i: nat, id: Id)
    requires IsRun(run, steps) && i < |run|
    requires forall k :: 0 <= k < i ==> ReportsOnce(run[k], steps[k]) && !OvertakesCounter(run[k], steps[k])
    ensures CounterRight(run[i], id)
    ensures id in run[i].keys.docs && run[i].keys.docs[id].record.finished ==>
              InProgressTests(run[i].keys.docs[id].record.results) == {}
  {
    RunKeepsCount(run, steps, i, id);
    RunKeepsOnce(run, steps, i);
    RunLeavesNoCounter(run, steps, i);
    assert IdInv(run[i], id) && NoLateCounter(run[i], id);
  }

  // ---------------------------------------------------------------- tests that report twice

  /** The counter of a stored measurement is its number of results in progress, and it is finished exactly when none is. */
  ghost predicate CountsRight(k: Keys, id: Id)
    requires id in k.docs
  {
    var m := k.docs[id].record;
    && (m.finished <==> InProgressTests(m.results) == {})
    && (id in k.awaiting ==> k.awaiting[id] == |InProgressTests(m.results)|)
  }

  /** A result keeps the counter right exactly if it is the first one of its test. */
  lemma OnlyFirstReportsCountRight(k: Keys, id: Id, test: nat, r: TestResult, date: nat)
    requires Writable(k, id) && id in k.awaiting && !k.docs[id].record.finished && CountsRight(k, id)
    requires !r.status.InProgress?
    ensures var k' := RecordResult(k, id, test, r, date).0;
            id in k'.docs && (CountsRight(k', id) <==> test in InProgressTests(k.docs[id].record.results))
  {
    var m := k.docs[id].record;
    ResultEndsOneTest(m, test, r);
    var before, after := InProgressTests(m.results), InProgressTests(SetResult(m, test, r).results);
    if test in before {
      assert |after| == |before| - 1;
    } else {
      assert after == before;
    }
    assert |after| == 0 <==> after == {};
  }

  /** Of two tests, the other one is still in progress when the measurement is finished. */
  lemma DuplicateReportFinishesEarly(k: Keys, id: Id, r: TestResult, date: nat)
    requires Writable(k, id) && !k.docs[id].record.finished && |k.docs[id].record.results| == 2
    requires InProgressTests(k.docs[id].record.results) == {0, 1} && id in k.awaiting && k.awaiting[id] == 2
    requires r.status.Finished?
    ensures var k1 := RecordResult(k, id, 0, r, date).0;
            var (k2, reply) := RecordResult(k1, id, 0, r, date);
            && reply.Some? && reply.value.finished && InProgressTests(reply.value.results) == {1}
            && k2.docs[id] == Document(reply.value, true)
  {
    var m := k.docs[id].record;
    ResultEndsOneTest(m, 0, r);
    var m1 := SetResult(m, 0, r).(updatedAt := date);
    ResultEndsOneTest(m1, 0, r);
  }
}
