/**
  What holds over whole runs of the measurement store: a finished document never changes again,
  its record is returned once, and what is returned is offloaded once.
 */
module MeasurementRuns {
  import opened Common
  import opened MeasurementScripts
  import opened MeasurementLifecycle

  /** What a step returns of `id`: the reply of its script, or the record of a creation with nobody to wait for. */
  function Returned(s: System, step: Step, id: Id): Option<Measurement>
    requires Enabled(s, step)
  {
    if IsScriptStep(step) && step.id == id then ScriptReply(s, step)
    else if step.EndCreate? && step.id == id && s.initial[id].finished then Some(s.initial[id])
    else None
  }

  ghost predicate Returns(run: seq<System>, steps: seq<Step>, i: nat, id: Id)
    requires IsRun(run, steps) && i < |steps|
  {
    Returned(run[i], steps[i], id).Some?
  }

  // ---------------------------------------------------------------- finished is absorbing

  /** Creation will not write the document any more, and the document, while it exists, is this finished record. */
  ghost predicate Settled(s: System, id: Id, m: Measurement) {
    && id in s.initial && (id in s.creating ==> SetDocument !in s.creating[id])
    && (id in s.keys.docs ==> s.keys.docs[id].record == m && m.finished)
  }

  lemma NoneRevived(s: System, step: Step, id: Id)
    requires OnceInv(s) && Enabled(s, step) && id in s.initial && (id in s.creating ==> SetDocument !in s.creating[id])
    ensures var s' := Do(s, step);
            id in s'.initial && (id in s'.creating ==> SetDocument !in s'.creating[id]) && (id in s'.keys.docs ==> id in s.keys.docs)
  {
    assert IdInv(s, id);
    if IsScriptStep(step) {
      assert step.Mark? ==> forall x :: x in Held(s.tasks[step.t]) ==> HeldBy(s, step.t, x);
      ScriptStepEffect(s, step);
      assert id != step.id ==> Lookup(Do(s, step).keys.docs, id) == Lookup(s.keys.docs, id);
    }
  }

  lemma StepKeepsSettled(s: System, step: Step, id: Id, m: Measurement)
    requires OnceInv(s) && Enabled(s, step) && Settled(s, id, m)
    ensures Settled(Do(s, step), id, m)
  {
    NoneRevived(s, step, id);
    StepKeepsIds(s, step);
    assert Absorbs(s, Do(s, step), id);
  }

  lemma {:induction false} SettledStays(run: seq<System>, steps: seq<Step>, i: nat, j: nat, id: Id, m: Measurement)
    requires IsRun(run, steps) && i <= j < |run| && Settled(run[i], id, m)
    ensures Settled(run[j], id, m)
  {
    if i < j {
      SettledStays(run, steps, i, j - 1, id, m);
      RunKeepsOnce(run, steps, j - 1);
      StepKeepsSettled(run[j - 1], steps[j - 1], id, m);
    }
  }

  /** No progress, result, timeout or creation step of any later time changes a finished document. */
  lemma FinishedIsForever(run: seq<System>, steps: seq<Step>, i: nat, j: nat, id: Id)
    requires IsRun(run, steps) && i <= j < |run|
    requires id in run[i].keys.docs && run[i].keys.docs[id].record.finished
    ensures id in run[j].keys.docs ==> run[j].keys.docs[id].record == run[i].keys.docs[id].record
  {
    RunKeepsOnce(run, steps, i);
    assert IdInv(run[i], id);
    SettledStays(run, steps, i, j, id, run[i].keys.docs[id].record);
  }

  // ---------------------------------------------------------------- returned once

  lemma ReturningTakesCustody(s: System, step: Step, id: Id)
    requires OnceInv(s) && Enabled(s, step) && Returned(s, step, id).Some?
    ensures id !in s.custody && id in Do(s, step).custody
  {
    if IsScriptStep(step) {
      RepliesAreNew(s, step);
    } else {
      CreationIsNew(s, step);
    }
  }

  lemma {:induction false} CustodyStays(run: seq<System>, steps: seq<Step>, i: nat, j: nat, id: Id)
    requires IsRun(run, steps) && i <= j < |run| && id in run[i].custody
    ensures id in run[j].custody
  {
    if i < j {
      CustodyStays(run, steps, i, j - 1, id);
      RunKeepsOnce(run, steps, j - 1);
      PlaceAfter(run[j - 1], steps[j - 1], id);
      assert id in run[j - 1].custody;
    }
  }

  /** Whichever of the last result, the racing cleaners and creation comes first, nobody else gets the record. */
  lemma ReturnedAtMostOnce(run: seq<System>, steps: seq<Step>, i: nat, j: nat, id: Id)
    requires IsRun(run, steps) && i < |steps| && j < |steps| && Returns(run, steps, i, id) && Returns(run, steps, j, id)
    ensures i == j
  {
    RunKeepsOnce(run, steps, i);
    RunKeepsOnce(run, steps, j);
    ReturningTakesCustody(run[i], steps[i], id);
    ReturningTakesCustody(run[j], steps[j], id);
    if i < j {
      CustodyStays(run, steps, i + 1, j, id);
    } else if j < i {
      CustodyStays(run, steps, j + 1, i, id);
    }
  }

  // ---------------------------------------------------------------- offloaded once

  ghost predicate WasReturned(run: seq<System>, steps: seq<Step>, j: nat, e: Entry)
    requires IsRun(run, steps) && j < |run|
  {
    exists i: nat :: i < j && Returned(run[i], steps[i], e.id) == Some(e.record)
  }

  lemma WasReturnedLater(run: seq<System>, steps: seq<Step>, i: nat, j: nat, e: Entry)
    requires IsRun(run, steps) && i <= j < |run| && WasReturned(run, steps, i, e)
    ensures WasReturned(run, steps, j, e)
  {
  }

  lemma {:induction false} HeldWasReturned(run: seq<System>, steps: seq<Step>, j: nat, t: nat, id: Id)
    requires IsRun(run, steps) && j < |run| && t in run[j].tasks && id in Held(run[j].tasks[t])
    ensures WasReturned(run, steps, j, Entry(id, RecordOf(run[j].tasks[t], id)))
  {
    var e := Entry(id, RecordOf(run[j].tasks[t], id));
    RunKeepsOnce(run, steps, j - 1);
    HeldAfter(run[j - 1], steps[j - 1], t, id);
    if t in run[j - 1].tasks && id in Held(run[j - 1].tasks[t]) && RecordOf(run[j - 1].tasks[t], id) == e.record {
      HeldWasReturned(run, steps, j - 1, t, id);
      WasReturnedLater(run, steps, j - 1, j, e);
    } else {
      assert Returned(run[j - 1], steps[j - 1], id) == Some(e.record);
    }
  }

  lemma AddedComesFrom(s: System, step: Step, n: nat)
    requires Enabled(s, step) && n < |Added(s, step)|
    ensures var e := Added(s, step)[n];
            || Returned(s, step, e.id) == Some(e.record)
            || (step.Enqueue? && e.id in Held(s.tasks[step.t]) && e.record == RecordOf(s.tasks[step.t], e.id))
  {
  }

  lemma {:induction false} QueuedWasReturned(run: seq<System>, steps: seq<Step>, j: nat, n: nat)
    requires IsRun(run, steps) && j < |run| && n < |run[j].queue|
    ensures WasReturned(run, steps, j, run[j].queue[n])
  {
    var e, i := run[j].queue[n], j - 1;
    QueueGrows(run[i], steps[i]);
    if n < |run[i].queue| {
      QueuedWasReturned(run, steps, i, n);
    } else {
      AddedComesFrom(run[i], steps[i], n - |run[i].queue|);
      if Returned(run[i], steps[i], e.id) != Some(e.record) {
        HeldWasReturned(run, steps, i, steps[i].t, e.id);
      }
    }
  }

  /** The offload queue holds each measurement at most once, as the record that a script or its creation returned. */
  lemma OffloadedAtMostOnce(run: seq<System>, steps: seq<Step>, j: nat)
    requires IsRun(run, steps) && j < |run|
    ensures forall n, k :: 0 <= n < k < |run[j].queue| ==> run[j].queue[n].id != run[j].queue[k].id
    ensures forall n :: 0 <= n < |run[j].queue| ==>
              WasReturned(run, steps, j, run[j].queue[n]) && IsStored(run[j], run[j].queue[n].id, run[j].queue[n].record)
  {
    RunKeepsOnce(run, steps, j);
    forall n | 0 <= n < |run[j].queue| ensures WasReturned(run, steps, j, run[j].queue[n]) {
      QueuedWasReturned(run, steps, j, n);
    }
  }

  // ---------------------------------------------------------------- nothing is lost unless something fails

  /** No script reply is lost, no script call fails and no worker dies. */
  predicate Smooth(step: Step) {
    !step.Die? && !step.MarkFails? && (step.Mark? ==> !step.replyLost)
  }

  ghost predicate LossFree(s: System) {
    && (forall id :: id in s.custody ==> s.custody[id] != Lost)
    && (forall t :: t in s.tasks && s.tasks[t].Cleaner? ==> !s.tasks[t].failed)
  }

  lemma CustodyLossFree(s: System, step: Step)
    requires Enabled(s, step) && Smooth(step) && LossFree(s)
    ensures forall id :: id in Do(s, step).custody ==> Do(s, step).custody[id] != Lost
  {
  }

  lemma TasksLossFree(s: System, step: Step)
    requires Enabled(s, step) && Smooth(step) && LossFree(s)
    ensures forall t :: t in Do(s, step).tasks && Do(s, step).tasks[t].Cleaner? ==> !Do(s, step).tasks[t].failed
  {
  }

  lemma {:induction false} SmoothRunLosesNothing(run: seq<System>, steps: seq<Step>, j: nat)
    requires IsRun(run, steps) && j < |run| && forall i :: 0 <= i < j ==> Smooth(steps[i])
    ensures LossFree(run[j])
  {
    if j > 0 {
      SmoothRunLosesNothing(run, steps, j - 1);
      CustodyLossFree(run[j - 1], steps[j - 1]);
      TasksLossFree(run[j - 1], steps[j - 1]);
    }
  }

  /** When all the work of a smooth run is done, the queue holds every finished measurement. */
  lemma EveryFinishedIsOffloaded(run: seq<System>, steps: seq<Step>, j: nat, id: Id)
    requires IsRun(run, steps) && j < |run| && forall i :: 0 <= i < j ==> Smooth(steps[i])
    requires run[j].tasks == map[] && id in run[j].created && id in run[j].keys.docs && run[j].keys.docs[id].record.finished
    ensures exists n :: 0 <= n < |run[j].queue| && run[j].queue[n] == Entry(id, run[j].keys.docs[id].record)
  {
    SmoothRunLosesNothing(run, steps, j);
    RunKeepsOnce(run, steps, j);
    assert IdInv(run[j], id);
    PlacesHold(run[j], id);
    var n :| 0 <= n < |run[j].queue| && run[j].queue[n].id == id;
    assert run[j].queue[n] == Entry(id, run[j].keys.docs[id].record);
  }
}
