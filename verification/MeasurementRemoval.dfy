/** Whoever returns a finished measurement has taken it out of the timeout set before. */
module MeasurementRemoval {
  import opened Common
  import opened MeasurementScripts
  import opened MeasurementLifecycle
  import opened MeasurementRuns
  import opened MeasurementTimeouts

  /** The creation has added the id to the set, and somebody has removed it. */
  ghost predicate IsRemoved(s: System, id: Id) {
    WasTimed(s, id) && id !in s.keys.timeouts
  }

  /** What a task holds was timed, and is removed once the task has come so far. */
  ghost predicate TaskOver(s: System, task: Task) {
    && (task.removed ==> forall id :: id in Held(task) ==> IsRemoved(s, id))
    && match task
       case LastResult(entry, _) => WasTimed(s, entry.id)
       case Cleaner(batch, left, got, _, removed, _) =>
         && got.Keys <= batch && left <= batch && (removed ==> left == {})
         && forall id :: id in batch ==> WasTimed(s, id)
  }

  ghost predicate EntryOver(s: System, e: Entry) {
    e.id in s.initial && (s.initial[e.id].finished || IsRemoved(s, e.id))
  }

  ghost predicate OverInv(s: System) {
    && (forall id :: id in s.keys.timeouts ==> WasTimed(s, id))
    && (forall t :: t in s.tasks ==> TaskOver(s, s.tasks[t]))
    && (forall e :: e in s.queue ==> EntryOver(s, e))
  }

  lemma InitialStays(s: System, step: Step, id: Id)
    requires Enabled(s, step) && id in s.initial
    ensures id in Do(s, step).initial && Do(s, step).initial[id] == s.initial[id]
  {
  }

  lemma EntryStaysOver(s: System, step: Step, e: Entry)
    requires Enabled(s, step) && EntryOver(s, e)
    ensures EntryOver(Do(s, step), e)
  {
    InitialStays(s, step, e.id);
    if IsRemoved(s, e.id) {
      StepLeavesForgotten(s, step, e.id);
    }
  }

  lemma QueueStaysOver(s: System, step: Step, e: Entry)
    requires OnceInv(s) && OverInv(s) && Enabled(s, step) && e in Do(s, step).queue
    ensures EntryOver(Do(s, step), e)
  {
    QueueGrows(s, step);
    if e in Added(s, step) {
      if step.Enqueue? {
        assert e.id in Held(s.tasks[step.t]);
        assert TaskOver(s, s.tasks[step.t]);
      }
    }
    assert EntryOver(s, e);
    EntryStaysOver(s, step, e);
  }

  /** A measurement that somebody waits for, and whose result has just been answered with the record. */
  lemma AnsweredWasTimed(s: System, step: Step)
    requires OnceInv(s) && Enabled(s, step) && step.SendResult? && ScriptReply(s, step).Some?
    ensures WasTimed(s, step.id)
  {
    assert IdInv(s, step.id);
  }

  lemma TaskOverAfterSend(s: System, step: Step, t: nat)
    requires OnceInv(s) && OverInv(s) && Enabled(s, step) && step.SendResult? && t in Do(s, step).tasks
    ensures TaskOver(Do(s, step), Do(s, step).tasks[t])
  {
    if t == step.t {
      AnsweredWasTimed(s, step);
      StaysTimed(s, step, step.id);
    } else {
      TaskStaysOver(s, step, s.tasks[t]);
    }
  }

  lemma TaskStaysOver(s: System, step: Step, task: Task)
    requires Enabled(s, step) && TaskOver(s, task)
    ensures TaskOver(Do(s, step), task)
  {
    forall id | WasTimed(s, id) ensures WasTimed(Do(s, step), id) {
      StaysTimed(s, step, id);
    }
    forall id | IsRemoved(s, id) ensures IsRemoved(Do(s, step), id) {
      StepLeavesForgotten(s, step, id);
    }
  }

  lemma TaskOverAfterClaim(s: System, step: Step, t: nat)
    requires OverInv(s) && Enabled(s, step) && step.Claim? && t in Do(s, step).tasks
    ensures TaskOver(Do(s, step), Do(s, step).tasks[t])
  {
    if t in s.tasks {
      TaskStaysOver(s, step, s.tasks[t]);
    } else {
      forall id | id in step.ids ensures WasTimed(Do(s, step), id) {
        assert Due(s.keys.timeouts, step.now, id);
        StaysTimed(s, step, id);
      }
    }
  }

  /** A script call or a removal of the task itself. */
  lemma TaskOverAfterOwn(s: System, step: Step)
    requires OverInv(s) && Enabled(s, step) && (step.Mark? || step.MarkFails? || step.RemoveFinished?) && step.t in Do(s, step).tasks
    ensures TaskOver(Do(s, step), Do(s, step).tasks[step.t])
  {
    assert TaskOver(s, s.tasks[step.t]);
    TaskStaysOver(s, step, s.tasks[step.t]);
  }

  lemma TaskOverAfter(s: System, step: Step, t: nat)
    requires OnceInv(s) && OverInv(s) && Enabled(s, step) && t in Do(s, step).tasks
    ensures TaskOver(Do(s, step), Do(s, step).tasks[t])
  {
    if step.SendResult? {
      TaskOverAfterSend(s, step, t);
    } else if step.Claim? {
      TaskOverAfterClaim(s, step, t);
    } else if (step.Mark? || step.MarkFails? || step.RemoveFinished?) && step.t == t {
      TaskOverAfterOwn(s, step);
    } else {
      TaskStaysOver(s, step, s.tasks[t]);
    }
  }

  lemma StepKeepsOver(s: System, step: Step)
    requires OnceInv(s) && OverInv(s) && Enabled(s, step)
    ensures OverInv(Do(s, step))
  {
    forall id | id in Do(s, step).keys.timeouts ensures WasTimed(Do(s, step), id) {
      TimedBefore(s, step, id);
    }
    forall t | t in Do(s, step).tasks ensures TaskOver(Do(s, step), Do(s, step).tasks[t]) {
      TaskOverAfter(s, step, t);
    }
    forall e | e in Do(s, step).queue ensures EntryOver(Do(s, step), e) {
      QueueStaysOver(s, step, e);
    }
  }

  lemma {:induction false} RunKeepsOver(run: seq<System>, steps: seq<Step>, i: nat)
    requires IsRun(run, steps) && i < |run|
    ensures OverInv(run[i])
  {
    if i > 0 {
      RunKeepsOver(run, steps, i - 1);
      RunKeepsOnce(run, steps, i - 1);
      StepKeepsOver(run[i - 1], steps[i - 1]);
    }
  }

  /** In every run, no cleaner is given a measurement again that is in the offload queue. */
  lemma QueuedIsNotTimed(run: seq<System>, steps: seq<Step>, i: nat, n: nat)
    requires IsRun(run, steps) && i < |run| && n < |run[i].queue|
    ensures run[i].queue[n].id !in run[i].keys.timeouts
  {
    RunKeepsOver(run, steps, i);
    var e := run[i].queue[n];
    assert EntryOver(run[i], e);
    assert e.id in run[i].keys.timeouts ==> WasTimed(run[i], e.id);
  }
}
