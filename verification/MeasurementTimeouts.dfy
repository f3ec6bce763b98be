/** The timeout set: unfinished measurements stay in it, and a claim keeps other cleaners away for the time of its lease. */
module MeasurementTimeouts {
  import opened Common
  import opened MeasurementScripts
  import opened MeasurementLifecycle
  import opened MeasurementRuns

  // ---------------------------------------------------------------- unfinished measurements stay in the set

  /** The document is still to be stored, or is stored and not finished. */
  ghost predicate IsOpen(s: System, id: Id) {
    StillToWrite(s, id) || (id in s.keys.docs && !s.keys.docs[id].record.finished)
  }

  /** The creation of the measurement has put it into the timeout set. */
  ghost predicate WasTimed(s: System, id: Id) {
    id in s.initial && !s.initial[id].finished && (id in s.creating ==> AddTimeout !in s.creating[id])
  }

  /** From the ZADD of its creation on, until its document is finished or has expired. */
  ghost predicate NeedsTimeout(s: System, id: Id) {
    WasTimed(s, id) && IsOpen(s, id)
  }

  /** No timeout is needed any more: the document is finished or gone, and nobody will store it again. */
  ghost predicate Closed(s: System, id: Id) {
    id in s.initial && !IsOpen(s, id)
  }

  /** The ids whose scripts a task has called; a cleaner that had a failure will not remove anything. */
  function Called(task: Task): set<Id> {
    match task
    case LastResult(entry, _) => {entry.id}
    case Cleaner(batch, left, _, failed, _, _) => if failed then {} else batch - left
  }

  predicate CalledEarly(task: Task, id: Id) {
    task.Cleaner? && id in task.early
  }

  /** What a task has called its script for is closed, unless it came before the document. */
  ghost predicate TaskSafe(s: System, t: nat)
    requires t in s.tasks
  {
    && (forall id :: id in Called(s.tasks[t]) ==> Closed(s, id) || CalledEarly(s.tasks[t], id))
    && (s.tasks[t].Cleaner? ==> BatchTimed(s, s.tasks[t]))
  }

  ghost predicate BatchTimed(s: System, task: Task)
    requires task.Cleaner?
  {
    task.left <= task.batch && task.early <= task.batch && forall id :: id in task.batch ==> WasTimed(s, id)
  }

  ghost predicate TimeoutInv(s: System) {
    && (forall id :: NeedsTimeout(s, id) ==> id in s.keys.timeouts)
    && (forall id :: id in s.keys.timeouts ==> WasTimed(s, id))
    && (forall t :: t in s.tasks ==> TaskSafe(s, t))
  }

  /** A cleaner removes an id whose script it called too early, and whose document is to be stored or finished since. */
  ghost predicate Forgets(s: System, step: Step) {
    step.RemoveFinished? && step.t in s.tasks && exists id :: CalledEarly(s.tasks[step.t], id) && IsOpen(s, id)
  }

  predicate Adds(step: Step, id: Id) {
    step.Run? && step.command == AddTimeout && step.id == id
  }

  predicate Claims(step: Step, id: Id) {
    step.Claim? && id in step.ids
  }

  lemma StaysClosed(s: System, step: Step, id: Id)
    requires OnceInv(s) && Enabled(s, step) && Closed(s, id)
    ensures Closed(Do(s, step), id)
  {
    NoneRevived(s, step, id);
    StepKeepsIds(s, step);
    assert Absorbs(s, Do(s, step), id);
  }

  lemma StaysTimed(s: System, step: Step, id: Id)
    requires Enabled(s, step) && WasTimed(s, id)
    ensures WasTimed(Do(s, step), id)
  {
  }

  lemma ClosedAfterScript(s: System, step: Step)
    requires OnceInv(s) && Enabled(s, step) && IsScriptStep(step) && step.id in s.initial && !StillToWrite(s, step.id)
    requires step.Mark? || ScriptReply(s, step).Some?
    ensures Closed(Do(s, step), step.id)
  {
    var s', id := Do(s, step), step.id;
    assert IdInv(s, id);
    assert step.Mark? ==> forall x :: x in Held(s.tasks[step.t]) ==> HeldBy(s, step.t, x);
    ScriptStepEffect(s, step);
    if step.Mark? && id in s'.keys.docs {
      MarkedIsFinished(s.keys, id, step.date);
    }
  }

  lemma MarkedIsFinished(k: Keys, id: Id, date: nat)
    requires id in k.docs && (k.docs[id].compressed ==> k.docs[id].record.finished)
    ensures var k' := MarkFinishedByTimeout(k, id, date).0; id in k'.docs && k'.docs[id].record.finished
  {
  }

  /** What a task has called after the step: as before, or the script of this very step. */
  lemma CalledAfter(s: System, step: Step, t: nat, id: Id)
    requires Enabled(s, step) && t in Do(s, step).tasks && id in Called(Do(s, step).tasks[t])
    ensures || (t in s.tasks && id in Called(s.tasks[t]) && (CalledEarly(s.tasks[t], id) ==> CalledEarly(Do(s, step).tasks[t], id)))
            || (IsScriptStep(step) && step.id == id &&
                if step.Mark? then StillToWrite(s, id) ==> CalledEarly(Do(s, step).tasks[t], id) else ScriptReply(s, step).Some?)
  {
  }

  /** A cleaner's batch is the one it had, or the one it has just claimed. */
  lemma BatchOrigin(s: System, step: Step, t: nat)
    requires Enabled(s, step) && t in Do(s, step).tasks && Do(s, step).tasks[t].Cleaner?
    requires t in s.tasks && s.tasks[t].Cleaner? ==> s.tasks[t].left <= s.tasks[t].batch && s.tasks[t].early <= s.tasks[t].batch
    ensures var task := Do(s, step).tasks[t];
            && task.left <= task.batch && task.early <= task.batch
            && ((t in s.tasks && s.tasks[t].Cleaner? && task.batch == s.tasks[t].batch) ||
                (step.Claim? && task.batch == set id | id in step.ids))
  {
  }

  lemma BatchAfter(s: System, step: Step, t: nat)
    requires OnceInv(s) && TimeoutInv(s) && Enabled(s, step) && t in Do(s, step).tasks && Do(s, step).tasks[t].Cleaner?
    ensures BatchTimed(Do(s, step), Do(s, step).tasks[t])
  {
    assert t in s.tasks ==> TaskSafe(s, t);
    BatchOrigin(s, step, t);
    forall id | id in Do(s, step).tasks[t].batch ensures WasTimed(Do(s, step), id) {
      assert step.Claim? && id in step.ids ==> Due(s.keys.timeouts, step.now, id);
      StaysTimed(s, step, id);
    }
  }

  lemma StepKeepsTaskSafe(s: System, step: Step, t: nat)
    requires OnceInv(s) && TimeoutInv(s) && Enabled(s, step) && t in Do(s, step).tasks
    ensures TaskSafe(Do(s, step), t)
  {
    var task := Do(s, step).tasks[t];
    forall id | id in Called(task) && !CalledEarly(task, id) ensures Closed(Do(s, step), id) {
      CalledAfter(s, step, t, id);
      assert IdInv(s, id);
      if t in s.tasks && id in Called(s.tasks[t]) && !CalledEarly(s.tasks[t], id) {
        assert TaskSafe(s, t);
        StaysClosed(s, step, id);
      } else {
        assert step.Mark? ==> TaskSafe(s, step.t);
        ClosedAfterScript(s, step);
      }
    }
    if task.Cleaner? {
      BatchAfter(s, step, t);
    }
  }

  lemma NeededBefore(s: System, step: Step, id: Id)
    requires OnceInv(s) && Enabled(s, step) && NeedsTimeout(Do(s, step), id)
    ensures NeedsTimeout(s, id) || Adds(step, id)
  {
    assert IdInv(s, id);
    assert forall t, x :: t in s.tasks && x in Held(s.tasks[t]) ==> HeldBy(s, t, x);
    if !Acts(step, id) {
      OthersUntouched(s, step, id);
      assert Lookup(Do(s, step).keys.docs, id) == Lookup(s.keys.docs, id);
    } else if IsScriptStep(step) {
      ScriptStepEffect(s, step);
    }
  }

  lemma TimeoutsAfter(s: System, step: Step, id: Id)
    requires Enabled(s, step) && !step.RemoveFinished? && id in s.keys.timeouts
    ensures id in Do(s, step).keys.timeouts
  {
    if IsScriptStep(step) {
      ScriptKeysEffect(s, step);
    }
  }

  /** The set grows only by the command of a creation, and scores change only by claims. */
  lemma ScoreAfter(s: System, step: Step, id: Id)
    requires Enabled(s, step) && id in Do(s, step).keys.timeouts
    ensures id in s.keys.timeouts || Adds(step, id)
    ensures Claims(step, id) ==> id in s.keys.timeouts && Do(s, step).keys.timeouts[id] == step.now + CLEANUP_LEASE_TIME
    ensures !Claims(step, id) && !Adds(step, id) ==> Do(s, step).keys.timeouts[id] == s.keys.timeouts[id]
  {
    if IsScriptStep(step) {
      ScriptKeysEffect(s, step);
    } else if step.Claim? {
      assert id in step.ids ==> Due(s.keys.timeouts, step.now, id);
    }
  }

  lemma TimedBefore(s: System, step: Step, id: Id)
    requires OnceInv(s) && Enabled(s, step) && id in Do(s, step).keys.timeouts && (id in s.keys.timeouts ==> WasTimed(s, id))
    ensures WasTimed(Do(s, step), id)
  {
    ScoreAfter(s, step, id);
    if id in s.keys.timeouts {
      StaysTimed(s, step, id);
    } else {
      AddedIsTimed(s, step);
    }
  }

  lemma AddedIsTimed(s: System, step: Step)
    requires OnceInv(s) && Enabled(s, step) && step.Run? && step.command == AddTimeout
    ensures WasTimed(Do(s, step), step.id)
  {
    assert IdInv(s, step.id);
  }

  lemma StepKeepsTimeouts(s: System, step: Step)
    requires OnceInv(s) && TimeoutInv(s) && Enabled(s, step) && !Forgets(s, step)
    ensures TimeoutInv(Do(s, step))
  {
    forall id | NeedsTimeout(Do(s, step), id) ensures id in Do(s, step).keys.timeouts {
      NeededBefore(s, step, id);
      if step.RemoveFinished? {
        assert TaskSafe(s, step.t);
        assert CalledEarly(s.tasks[step.t], id) ==> !IsOpen(s, id);
      } else if !Adds(step, id) {
        TimeoutsAfter(s, step, id);
      }
    }
    forall id | id in Do(s, step).keys.timeouts ensures WasTimed(Do(s, step), id) {
      TimedBefore(s, step, id);
    }
    forall t | t in Do(s, step).tasks ensures TaskSafe(Do(s, step), t) {
      StepKeepsTaskSafe(s, step, t);
    }
  }

  /** Exactly the removals after an early call take an id out of the set that still needs its timeout. */
  lemma OnlyEarlyCallsForget(s: System, step: Step)
    requires OnceInv(s) && TimeoutInv(s) && Enabled(s, step)
    ensures TimeoutInv(Do(s, step)) <==> !Forgets(s, step)
    ensures Forgets(s, step) ==> exists id :: NeedsTimeout(Do(s, step), id) && id !in Do(s, step).keys.timeouts
  {
    if Forgets(s, step) {
      var id :| CalledEarly(s.tasks[step.t], id) && IsOpen(s, id);
      assert TaskSafe(s, step.t);
      assert NeedsTimeout(Do(s, step), id) && id !in Do(s, step).keys.timeouts;
    } else {
      StepKeepsTimeouts(s, step);
    }
  }

  lemma {:induction false} RunKeepsTimeouts(run: seq<System>, steps: seq<Step>, i: nat)
    requires IsRun(run, steps) && i < |run| && forall k :: 0 <= k < i ==> !Forgets(run[k], steps[k])
    ensures TimeoutInv(run[i])
  {
    if i > 0 {
      RunKeepsTimeouts(run, steps, i - 1);
      RunKeepsOnce(run, steps, i - 1);
      StepKeepsTimeouts(run[i - 1], steps[i - 1]);
    }
  }

  /** However cleaners race, fail or die, a stored unfinished measurement can still be timed out. */
  lemma UnfinishedStaysInTimeouts(run: seq<System>, steps: seq<Step>, i: nat, id: Id)
    requires IsRun(run, steps) && i < |run| && forall k :: 0 <= k < i ==> !Forgets(run[k], steps[k])
    requires id in run[i].created && id in run[i].keys.docs && !run[i].keys.docs[id].record.finished
    ensures id in run[i].keys.timeouts
  {
    RunKeepsTimeouts(run, steps, i);
    RunKeepsOnce(run, steps, i);
    assert IdInv(run[i], id);
    assert NeedsTimeout(run[i], id);
  }

  lemma EarlyAfter(s: System, step: Step, t: nat, id: Id)
    requires Enabled(s, step) && t in Do(s, step).tasks && CalledEarly(Do(s, step).tasks[t], id)
    ensures (t in s.tasks && CalledEarly(s.tasks[t], id)) || (step.Mark? && step.id == id && StillToWrite(s, id))
  {
  }

  lemma {:induction false} NoEarlyCalls(run: seq<System>, steps: seq<Step>, i: nat, t: nat, id: Id)
    requires IsRun(run, steps) && i < |run| && t in run[i].tasks
    requires forall k :: 0 <= k < i && steps[k].Mark? ==> !StillToWrite(run[k], steps[k].id)
    ensures !CalledEarly(run[i].tasks[t], id)
  {
    if i > 0 && CalledEarly(run[i].tasks[t], id) {
      EarlyAfter(run[i - 1], steps[i - 1], t, id);
      NoEarlyCalls(run, steps, i - 1, t, id);
    }
  }

  /** If no cleaner's script comes before the document, 30 seconds after its creation began, nothing is forgotten. */
  lemma PromptCreationsForgetNothing(run: seq<System>, steps: seq<Step>, i: nat)
    requires IsRun(run, steps) && i < |steps|
    requires forall k :: 0 <= k < i && steps[k].Mark? ==> !StillToWrite(run[k], steps[k].id)
    ensures !Forgets(run[i], steps[i])
  {
    if steps[i].RemoveFinished? && steps[i].t in run[i].tasks {
      forall id ensures !CalledEarly(run[i].tasks[steps[i].t], id) {
        NoEarlyCalls(run, steps, i, steps[i].t, id);
      }
    }
  }

  lemma StepLeavesForgotten(s: System, step: Step, id: Id)
    requires Enabled(s, step) && WasTimed(s, id) && id !in s.keys.timeouts
    ensures WasTimed(Do(s, step), id) && id !in Do(s, step).keys.timeouts
  {
    StaysTimed(s, step, id);
    if IsScriptStep(step) {
      ScriptKeysEffect(s, step);
    } else if step.Claim? {
      assert id in step.ids ==> Due(s.keys.timeouts, step.now, id);
    }
  }

  /** What has left the set never comes back to it. */
  lemma {:induction false} ForgottenForGood(run: seq<System>, steps: seq<Step>, i: nat, j: nat, id: Id)
    requires IsRun(run, steps) && i <= j < |run| && WasTimed(run[i], id) && id !in run[i].keys.timeouts
    ensures id !in run[j].keys.timeouts && WasTimed(run[j], id)
  {
    if i < j {
      ForgottenForGood(run, steps, i, j - 1, id);
      StepLeavesForgotten(run[j - 1], steps[j - 1], id);
    }
  }

  // ---------------------------------------------------------------- leases

  /** The score of a claimed id is the end of its lease. */
  ghost predicate LeaseInv(s: System, id: Id) {
    && (id in s.claimedAt ==> id in s.initial && (id in s.creating ==> AddTimeout !in s.creating[id]))
    && (id in s.claimedAt && id in s.keys.timeouts ==> s.keys.timeouts[id] == s.claimedAt[id] + CLEANUP_LEASE_TIME)
    && (id in s.keys.timeouts ==> id in s.initial && (id in s.creating ==> AddTimeout !in s.creating[id]))
  }

  lemma CreationAfter(s: System, step: Step, id: Id)
    requires Enabled(s, step) && id in s.initial
    ensures id in Do(s, step).initial
    ensures (id in s.creating ==> AddTimeout !in s.creating[id]) || Adds(step, id) ==>
              (id in Do(s, step).creating ==> AddTimeout !in Do(s, step).creating[id])
  {
  }

  lemma ClaimedAfter(s: System, step: Step, id: Id)
    requires Enabled(s, step)
    ensures Lookup(Do(s, step).claimedAt, id) == if Claims(step, id) then Some(step.now) else Lookup(s.claimedAt, id)
  {
  }

  lemma StepKeepsLease(s: System, step: Step, id: Id)
    requires Enabled(s, step) && LeaseInv(s, id)
    ensures LeaseInv(Do(s, step), id)
  {
    ClaimedAfter(s, step, id);
    if id in s.initial {
      CreationAfter(s, step, id);
    }
    if id in Do(s, step).keys.timeouts {
      ScoreAfter(s, step, id);
    }
    assert Claims(step, id) ==> Due(s.keys.timeouts, step.now, id);
  }

  lemma {:induction false} RunKeepsLease(run: seq<System>, steps: seq<Step>, i: nat, id: Id)
    requires IsRun(run, steps) && i < |run|
    ensures LeaseInv(run[i], id)
  {
    if i > 0 {
      RunKeepsLease(run, steps, i - 1, id);
      StepKeepsLease(run[i - 1], steps[i - 1], id);
    }
  }

  lemma ClaimsLater(s: System, step: Step, id: Id, since: int)
    requires Enabled(s, step) && LeaseInv(s, id) && id in s.claimedAt && s.claimedAt[id] >= since
    ensures id in Do(s, step).claimedAt && Do(s, step).claimedAt[id] >= since
    ensures Claims(step, id) ==> step.now >= since + CLEANUP_LEASE_TIME
  {
    assert Claims(step, id) ==> Due(s.keys.timeouts, step.now, id);
  }

  lemma {:induction false} ClaimedSince(run: seq<System>, steps: seq<Step>, i: nat, j: nat, id: Id)
    requires IsRun(run, steps) && i < j < |run| && Claims(steps[i], id)
    ensures id in run[j].claimedAt && run[j].claimedAt[id] >= steps[i].now
  {
    if i + 1 < j {
      ClaimedSince(run, steps, i, j - 1, id);
      RunKeepsLease(run, steps, j - 1, id);
      ClaimsLater(run[j - 1], steps[j - 1], id, steps[i].now);
    }
  }

  /** By the clocks of the claiming workers, two claims of one id are at least a lease apart. */
  lemma ClaimsAreALeaseApart(run: seq<System>, steps: seq<Step>, i: nat, j: nat, id: Id)
    requires IsRun(run, steps) && i < j < |steps| && Claims(steps[i], id) && Claims(steps[j], id)
    ensures steps[j].now >= steps[i].now + 30_000
  {
    ClaimedSince(run, steps, i, j, id);
    RunKeepsLease(run, steps, j, id);
    ClaimsLater(run[j], steps[j], id, steps[i].now);
  }

  /** An abandoned claim can be taken again exactly when its lease is over. */
  lemma AbandonedClaimIsDueAfterLease(run: seq<System>, steps: seq<Step>, i: nat, id: Id, now: int)
    requires IsRun(run, steps) && i < |run| && id in run[i].claimedAt && id in run[i].keys.timeouts
    ensures Due(run[i].keys.timeouts, now, id) <==> now >= run[i].claimedAt[id] + 30_000
  {
    RunKeepsLease(run, steps, i, id);
  }

  /** The score of an id that was never claimed is half a minute after its creation began. */
  ghost predicate FirstScore(s: System, id: Id) {
    && (id in s.initial ==> id in s.startedAt)
    && (id in s.keys.timeouts && id !in s.claimedAt ==> id in s.initial && s.keys.timeouts[id] == s.startedAt[id] + 30_000)
  }

  lemma StepKeepsFirstScore(s: System, step: Step, id: Id)
    requires Enabled(s, step) && FirstScore(s, id) && LeaseInv(s, id)
    ensures FirstScore(Do(s, step), id)
  {
    ClaimedAfter(s, step, id);
    if id in Do(s, step).keys.timeouts {
      ScoreAfter(s, step, id);
    }
    StartStays(s, step, id);
  }

  lemma StartStays(s: System, step: Step, id: Id)
    requires Enabled(s, step)
    ensures id in s.initial ==> id in Do(s, step).initial && Lookup(Do(s, step).startedAt, id) == Lookup(s.startedAt, id)
    ensures id in Do(s, step).initial && id !in s.initial ==> id in Do(s, step).startedAt
    ensures Adds(step, id) && id in s.startedAt ==> Lookup(Do(s, step).keys.timeouts, id) == Some(s.startedAt[id] + 30_000)
  {
  }

  lemma {:induction false} RunKeepsFirstScore(run: seq<System>, steps: seq<Step>, i: nat, id: Id)
    requires IsRun(run, steps) && i < |run|
    ensures FirstScore(run[i], id)
  {
    if i > 0 {
      RunKeepsFirstScore(run, steps, i - 1, id);
      RunKeepsLease(run, steps, i - 1, id);
      StepKeepsFirstScore(run[i - 1], steps[i - 1], id);
    }
  }

  /** Until it is claimed, a measurement in the set is due exactly from 30 seconds after its creation began on. */
  lemma DueThirtySecondsAfterStart(run: seq<System>, steps: seq<Step>, i: nat, id: Id, now: int)
    requires IsRun(run, steps) && i < |run| && id in run[i].keys.timeouts && id !in run[i].claimedAt
    ensures id in run[i].startedAt && (Due(run[i].keys.timeouts, now, id) <==> now >= run[i].startedAt[id] + 30_000)
  {
    RunKeepsFirstScore(run, steps, i, id);
  }
}
