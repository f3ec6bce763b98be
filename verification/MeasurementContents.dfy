/** What is stored in a measurement: reported results as they were reported, progress, and timeouts. */
module MeasurementContents {
  import opened Common
  import opened MeasurementScripts
  import opened MeasurementLifecycle
  import opened MeasurementRuns
  import opened MeasurementCounter

  /** Only the document and the counter of `id` may differ. */
  ghost predicate OnlyOf(k: Keys, k': Keys, id: Id) {
    && k'.timeouts == k.timeouts && k'.docs - {id} == k.docs - {id} && k'.awaiting - {id} == k.awaiting - {id}
    && (id in k'.docs <==> id in k.docs)
  }

  // ---------------------------------------------------------------- what each script stores

  /** A result is stored whole, in the place of its test; the last one seals the document and is answered with the record. */
  lemma ResultIsStored(k: Keys, id: Id, test: nat, r: TestResult, date: nat)
    ensures var (k', reply) := RecordResult(k, id, test, r, date);
            && OnlyOf(k, k', id)
            && (id !in k.awaiting ==> k' == k && reply == None)
            && (id in k.awaiting && (id !in k.docs || k.docs[id].compressed) ==>
                  k'.docs == k.docs && Lookup(k'.awaiting, id) == Some(k.awaiting[id] - 1) && reply == None)
            && (id in k.awaiting && id in k.docs && !k.docs[id].compressed ==>
                  var m, m' := k.docs[id].record, k'.docs[id].record;
                  && |m'.results| == |m.results| && m'.updatedAt == date
                  && (forall t :: 0 <= t < |m.results| ==> m'.results[t] == if t == test then r else m.results[t])
                  && (k.awaiting[id] == 1 ==> m'.finished && k'.docs[id].compressed && id !in k'.awaiting && reply == Some(m'))
                  && (k.awaiting[id] != 1 ==> m'.finished == m.finished && !k'.docs[id].compressed &&
                                              Lookup(k'.awaiting, id) == Some(k.awaiting[id] - 1) && reply == None))
  {
  }

  /** Progress replaces texts or is appended to those that are there, for its own test, while results are awaited. */
  lemma ProgressIsStored(k: Keys, id: Id, test: nat, p: Progress, overwrite: bool, date: nat)
    ensures var k' := RecordProgress(k, id, test, p, overwrite, date);
            && OnlyOf(k, k', id) && k'.awaiting == k.awaiting
            && (id !in k.awaiting || id !in k.docs || k.docs[id].compressed ==> k' == k)
            && (id in k.awaiting && id in k.docs && !k.docs[id].compressed ==>
                  var m, m' := k.docs[id].record, k'.docs[id].record;
                  && !k'.docs[id].compressed && m'.finished == m.finished && m'.updatedAt == date && |m'.results| == |m.results|
                  && (forall t :: 0 <= t < |m.results| && t != test ==> m'.results[t] == m.results[t])
                  && (test < |m.results| ==> HasProgress(m.results[test], m'.results[test], p, overwrite)))
  {
  }

  /** The texts of a result after a progress message, one by one. */
  ghost predicate HasProgress(before: TestResult, after: TestResult, p: Progress, overwrite: bool) {
    && after.status == before.status && after.failureSource == before.failureSource
    && after.rawOutput == (if overwrite then p.rawOutput else before.rawOutput + p.rawOutput)
    && (p.rawHeaders == None ==> after.rawHeaders == before.rawHeaders)
    && (p.rawBody == None ==> after.rawBody == before.rawBody)
    && (overwrite && p.rawHeaders.Some? ==> after.rawHeaders == p.rawHeaders)
    && (overwrite && p.rawBody.Some? ==> after.rawBody == p.rawBody)
    && (!overwrite && p.rawHeaders.Some? && before.rawHeaders.Some? ==>
          after.rawHeaders == Some(before.rawHeaders.value + p.rawHeaders.value))
    && (!overwrite && p.rawBody.Some? && before.rawBody.Some? ==> after.rawBody == Some(before.rawBody.value + p.rawBody.value))
    && (!overwrite && before.rawHeaders == None ==> after.rawHeaders == None)
    && (!overwrite && before.rawBody == None ==> after.rawBody == None)
  }

  /** A timeout fails the tests in progress, after what they have sent, and leaves reported results as they are. */
  lemma TimeoutIsStored(k: Keys, id: Id, date: nat)
    ensures var (k', reply) := MarkFinishedByTimeout(k, id, date);
            && OnlyOf(k, k', id)
            && (id !in k.docs || k.docs[id].compressed ==> k' == k && reply == None)
            && (id in k.docs && !k.docs[id].compressed ==> id !in k'.awaiting)
            && (id in k.docs && !k.docs[id].compressed && k.docs[id].record.finished ==> k'.docs == k.docs && reply == None)
            && (id in k.docs && !k.docs[id].compressed && !k.docs[id].record.finished ==>
                  var m, m' := k.docs[id].record, k'.docs[id].record;
                  && m'.finished && m'.updatedAt == date && k'.docs[id].compressed && reply == Some(m')
                  && |m'.results| == |m.results|
                  && forall t :: 0 <= t < |m.results| ==> TimesOut(m.results[t], m'.results[t]))
  {
  }

  ghost predicate TimesOut(before: TestResult, after: TestResult) {
    if before.status.InProgress? then
      && after.status.Failed? && after.failureSource == "internal"
      && after.rawOutput == before.rawOutput + "\n\nThe measurement timed out."
      && after.rawHeaders == before.rawHeaders && after.rawBody == before.rawBody
    else after == before
  }

  // ---------------------------------------------------------------- a reported result stays

  /** The measurement's record has this result for the test. */
  ghost predicate HasResult(m: Measurement, test: nat, r: TestResult) {
    test < |m.results| && m.results[test] == r
  }

  /** So have the stored document, and every copy of the record that a task or the queue has. */
  ghost predicate Carries(s: System, id: Id, test: nat, r: TestResult) {
    && (id in s.keys.docs ==> HasResult(s.keys.docs[id].record, test, r))
    && (forall t :: t in s.tasks && id in Held(s.tasks[t]) ==> HasResult(RecordOf(s.tasks[t], id), test, r))
    && (forall i :: 0 <= i < |s.queue| && s.queue[i].id == id ==> HasResult(s.queue[i].record, test, r))
  }

  /** The step is a message about this test. */
  predicate IsAbout(step: Step, id: Id, test: nat) {
    (step.SendResult? || step.SendProgress?) && step.id == id && step.test == test
  }

  /** The result is stored by this step: results are awaited, the document can be written, and it has the test. */
  ghost predicate Stores(s: System, step: Step) {
    step.SendResult? && step.id in s.keys.awaiting && step.id in s.keys.docs && !s.keys.docs[step.id].compressed &&
    step.test < |s.keys.docs[step.id].record.results|
  }

  lemma DocumentCarries(s: System, step: Step, id: Id, test: nat, r: TestResult)
    requires OnceInv(s) && Enabled(s, step) && id in s.created && !r.status.InProgress? && !IsAbout(step, id, test)
    requires id in s.keys.docs ==> HasResult(s.keys.docs[id].record, test, r)
    requires id in Do(s, step).keys.docs
    ensures HasResult(Do(s, step).keys.docs[id].record, test, r)
  {
    assert IdInv(s, id);
    if !Acts(step, id) {
      assert forall t, x :: t in s.tasks && x in Held(s.tasks[t]) ==> HeldBy(s, t, x);
      OthersUntouched(s, step, id);
      assert Lookup(Do(s, step).keys.docs, id) == Lookup(s.keys.docs, id);
    } else if step.SendResult? {
      SendKeys(s, step);
      ResultIsStored(s.keys, id, step.test, step.result, step.date);
    } else if step.SendProgress? {
      ProgressIsStored(s.keys, id, step.test, step.progress, step.overwrite, step.date);
    } else if step.Mark? {
      MarkKeys(s, step);
      TimeoutIsStored(s.keys, id, step.date);
    }
  }

  lemma TasksCarry(s: System, step: Step, id: Id, test: nat, r: TestResult, t: nat)
    requires OnceInv(s) && Enabled(s, step) && Carries(s, id, test, r)
    requires id in Do(s, step).keys.docs ==> HasResult(Do(s, step).keys.docs[id].record, test, r)
    requires t in Do(s, step).tasks && id in Held(Do(s, step).tasks[t])
    ensures HasResult(RecordOf(Do(s, step).tasks[t], id), test, r)
  {
    HeldAfter(s, step, t, id);
    if IsScriptStep(step) && step.id == id && ScriptReply(s, step) == Some(RecordOf(Do(s, step).tasks[t], id)) {
      ReplyIsTheDocument(s, step);
    }
  }

  /** What a script answers is the document it has just sealed. */
  lemma ReplyIsTheDocument(s: System, step: Step)
    requires OnceInv(s) && Enabled(s, step) && IsScriptStep(step) && ScriptReply(s, step).Some?
    ensures step.id in Do(s, step).keys.docs && Do(s, step).keys.docs[step.id].record == ScriptReply(s, step).value
  {
    RepliesAreNew(s, step);
    ScriptKeysEffect(s, step);
    if step.Mark? {
      MarkKeys(s, step);
    } else {
      SendKeys(s, step);
    }
  }

  lemma QueueCarries(s: System, step: Step, id: Id, test: nat, r: TestResult, i: nat)
    requires OnceInv(s) && Enabled(s, step) && Carries(s, id, test, r) && id in s.created
    requires i < |Do(s, step).queue| && Do(s, step).queue[i].id == id
    ensures HasResult(Do(s, step).queue[i].record, test, r)
  {
    QueueGrows(s, step);
    assert IdInv(s, id);
    if i >= |s.queue| {
      var e := Added(s, step)[i - |s.queue|];
      if step.Enqueue? {
        assert e.id in Held(s.tasks[step.t]) && e.record == RecordOf(s.tasks[step.t], id);
      }
    }
  }

  lemma StepCarries(s: System, step: Step, id: Id, test: nat, r: TestResult)
    requires OnceInv(s) && Enabled(s, step) && Carries(s, id, test, r) && id in s.created
    requires !r.status.InProgress? && !IsAbout(step, id, test)
    ensures Carries(Do(s, step), id, test, r) && id in Do(s, step).created
  {
    if id in Do(s, step).keys.docs {
      DocumentCarries(s, step, id, test, r);
    }
    AllTasksCarry(s, step, id, test, r);
    AllEntriesCarry(s, step, id, test, r);
    CreatedStays(s, step, id);
  }

  lemma AllEntriesCarry(s: System, step: Step, id: Id, test: nat, r: TestResult)
    requires OnceInv(s) && Enabled(s, step) && Carries(s, id, test, r) && id in s.created
    ensures var queue := Do(s, step).queue; forall i :: 0 <= i < |queue| && queue[i].id == id ==> HasResult(queue[i].record, test, r)
  {
    forall i | 0 <= i < |Do(s, step).queue| && Do(s, step).queue[i].id == id ensures HasResult(Do(s, step).queue[i].record, test, r) {
      QueueCarries(s, step, id, test, r, i);
    }
  }

  lemma CreatedStays(s: System, step: Step, id: Id)
    requires Enabled(s, step) && id in s.created
    ensures id in Do(s, step).created
  {
  }

  lemma AllTasksCarry(s: System, step: Step, id: Id, test: nat, r: TestResult)
    requires OnceInv(s) && Enabled(s, step) && Carries(s, id, test, r)
    requires id in Do(s, step).keys.docs ==> HasResult(Do(s, step).keys.docs[id].record, test, r)
    ensures var s' := Do(s, step);
            forall t :: t in s'.tasks && id in Held(s'.tasks[t]) ==> HasResult(RecordOf(s'.tasks[t], id), test, r)
  {
    forall t | t in Do(s, step).tasks && id in Held(Do(s, step).tasks[t]) ensures HasResult(RecordOf(Do(s, step).tasks[t], id), test, r) {
      TasksCarry(s, step, id, test, r, t);
    }
  }

  /** After the report, the result is everywhere the record is. */
  lemma ReportCarries(s: System, step: Step)
    requires OnceInv(s) && Enabled(s, step) && Stores(s, step)
    ensures Carries(Do(s, step), step.id, step.test, step.result) && step.id in Do(s, step).created
  {
    var s', id := Do(s, step), step.id;
    assert IdInv(s, id);
    SendKeys(s, step);
    ResultIsStored(s.keys, id, step.test, step.result, step.date);
    assert id !in s.custody;
    PlacesHold(s, id);
    forall t | t in s'.tasks && id in Held(s'.tasks[t]) ensures HasResult(RecordOf(s'.tasks[t], id), step.test, step.result) {
      assert t in s.tasks ==> id !in Held(s.tasks[t]);
      HeldAfter(s, step, t, id);
      ReplyIsTheDocument(s, step);
    }
    assert s'.queue == s.queue;
    forall i | 0 <= i < |s.queue| ensures s.queue[i].id != id {
      assert s.queue[i].id in s.custody;
    }
  }

  lemma {:induction false} ResultIsCarried(run: seq<System>, steps: seq<Step>, i: nat, j: nat)
    requires IsRun(run, steps) && i < j <= |steps| && steps[i].SendResult? && Stores(run[i], steps[i])
    requires forall k :: i < k < j ==> !IsAbout(steps[k], steps[i].id, steps[i].test)
    ensures Carries(run[j], steps[i].id, steps[i].test, steps[i].result) && steps[i].id in run[j].created
  {
    if j == i + 1 {
      RunKeepsOnce(run, steps, i);
      ReportCarries(run[i], steps[i]);
    } else {
      ResultIsCarried(run, steps, i, j - 1);
      RunKeepsOnce(run, steps, j - 1);
      StepCarries(run[j - 1], steps[j - 1], steps[i].id, steps[i].test, steps[i].result);
    }
  }

  /**
    If each test reports at most once, and sends no progress after its report, a stored result is in every
    later document and queued record exactly as it was reported, whatever other tests and cleaners do.
   */
  lemma ReportedResultStays(run: seq<System>, steps: seq<Step>, i: nat, j: nat)
    requires IsRun(run, steps) && i < j <= |steps| && steps[i].SendResult? && Stores(run[i], steps[i])
    requires forall k :: 0 <= k < j ==> ReportsOnce(run[k], steps[k])
    requires forall k :: i < k < j && steps[k].SendProgress? ==> steps[k].id != steps[i].id || steps[k].test != steps[i].test
    ensures var id, test, r, s := steps[i].id, steps[i].test, steps[i].result, run[j];
            && (id in s.keys.docs ==> HasResult(s.keys.docs[id].record, test, r))
            && forall q :: 0 <= q < |s.queue| && s.queue[q].id == id ==> HasResult(s.queue[q].record, test, r)
  {
    ReportStays(run[i], steps[i], steps[i].id, steps[i].test);
    forall k | i < k < j ensures !IsAbout(steps[k], steps[i].id, steps[i].test) {
      StaysReported(run, steps, i + 1, k, steps[i].id, steps[i].test);
      assert ReportsOnce(run[k], steps[k]);
    }
    ResultIsCarried(run, steps, i, j);
  }

  ghost predicate IsReported(s: System, id: Id, test: nat) {
    (id, test) in s.reported
  }

  lemma ReportStays(s: System, step: Step, id: Id, test: nat)
    requires Enabled(s, step) && (IsReported(s, id, test) || (step.SendResult? && step.id == id && step.test == test))
    ensures IsReported(Do(s, step), id, test)
  {
  }

  lemma NextState(run: seq<System>, steps: seq<Step>, k: nat)
    requires IsRun(run, steps) && k < |steps|
    ensures Enabled(run[k], steps[k]) && run[k + 1] == Do(run[k], steps[k])
  {
  }

  lemma {:induction false} Persists(holds: seq<bool>, i: nat, k: nat)
    requires i <= k < |holds| && holds[i] && forall j :: i <= j < k && holds[j] ==> holds[j + 1]
    ensures holds[k]
    decreases k
  {
    if i < k {
      Persists(holds, i, k - 1);
    }
  }

  lemma StaysReported(run: seq<System>, steps: seq<Step>, i: nat, k: nat, id: Id, test: nat)
    requires IsRun(run, steps) && i <= k <= |steps| && IsReported(run[i], id, test)
    ensures IsReported(run[k], id, test)
  {
    var holds := seq(|run|, j requires 0 <= j < |run| => IsReported(run[j], id, test));
    forall j | i <= j < k && holds[j] ensures holds[j + 1] {
      ReportedNext(run, steps, j, id, test);
    }
    Persists(holds, i, k);
  }

  lemma ReportedNext(run: seq<System>, steps: seq<Step>, k: nat, id: Id, test: nat)
    requires IsRun(run, steps) && k < |steps| && IsReported(run[k], id, test)
    ensures IsReported(run[k + 1], id, test)
  {
    NextState(run, steps, k);
    ReportStays(run[k], steps[k], id, test);
  }
}
