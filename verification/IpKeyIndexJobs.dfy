/**
  The two promise slots through which concurrent admission checks share the fetching of probes:
  who may join a fetch that is under way, and who has to wait for the next one.
 */
module IpKeyIndexJobs {
  import opened Common

  type Job = nat

  /** Who asked when, and for which job it waits. */
  datatype Call = Call(at: nat, job: Job)

  /** `after` says for which job a deferred one waits. */
  datatype Slots = Slots(clock: nat, current: Option<Job>, next: Option<Job>, after: map<Job, Job>, running: set<Job>,
                         startedAt: map<Job, nat>, calls: seq<Call>)

  datatype Step = Ask(job: Job) | Finish(job: Job) | StartDeferred(job: Job)

  predicate IsNew(s: Slots, job: Job) {
    job !in s.startedAt && job !in s.after
  }

  predicate Enabled(s: Slots, step: Step) {
    match step
    case Ask(job) => IsNew(s, job)
    case Finish(job) => job in s.running
    case StartDeferred(job) => job in s.after && job !in s.startedAt && s.after[job] in s.startedAt && s.after[job] !in s.running
  }

  /** The fetch begins; the slot for the next one is emptied, whoever is in it. */
  function Start(s: Slots, job: Job): Slots {
    s.(next := None, current := Some(job), running := s.running + {job}, startedAt := s.startedAt[job := s.clock])
  }

  function Waits(s: Slots, job: Job): Slots {
    s.(calls := s.calls + [Call(s.clock, job)])
  }

  function DoAsk(s: Slots, job: Job): Slots {
    if s.current.None? then Waits(Start(s, job), job)
    else if s.next.None? then Waits(s.(next := Some(job), after := s.after[job := s.current.value]), job)
    else Waits(s, s.next.value)
  }

  function Do(s: Slots, step: Step): Slots
    requires Enabled(s, step)
  {
    var s1 := match step
      case Ask(job) => DoAsk(s, job)
      case Finish(job) => s.(running := s.running - {job}, current := None)
      case StartDeferred(job) => Start(s, job);
    s1.(clock := s.clock + 1)
  }

  /** Nobody waits for a job that began before it asked, and every job that is waited for has begun or waits for one that has. */
  ghost predicate Inv(s: Slots) {
    && (s.current.Some? ==> s.current.value in s.startedAt)
    && (s.next.Some? ==> s.next.value in s.after && s.next.value !in s.startedAt)
    && (forall job :: job in s.after ==> s.after[job] in s.startedAt)
    && (forall job :: job in s.running ==> job in s.startedAt)
    && (forall i :: 0 <= i < |s.calls| ==>
          && s.calls[i].at < s.clock
          && (s.calls[i].job in s.startedAt ==> s.startedAt[s.calls[i].job] >= s.calls[i].at)
          && (s.calls[i].job in s.startedAt || s.calls[i].job in s.after))
  }

  lemma StepKeepsInv(s: Slots, step: Step)
    requires Inv(s) && Enabled(s, step)
    ensures Inv(Do(s, step))
  {
  }

  ghost predicate IsRun(run: seq<Slots>, steps: seq<Step>) {
    |run| == |steps| + 1 && run[0] == Slots(0, None, None, map[], {}, map[], []) &&
    forall i :: 0 <= i < |steps| ==> Enabled(run[i], steps[i]) && run[i + 1] == Do(run[i], steps[i])
  }

  lemma {:induction false} RunKeepsInv(run: seq<Slots>, steps: seq<Step>, i: nat)
    requires IsRun(run, steps) && i < |run|
    ensures Inv(run[i])
  {
    if i > 0 {
      RunKeepsInv(run, steps, i - 1);
      StepKeepsInv(run[i - 1], steps[i - 1]);
    }
  }

  /**
    Every check gets an index of probes that were fetched after it asked, even when a check comes between
    the end of one fetch and the start of the deferred one; and a job that has not begun can begin as soon
    as the fetch it waits for is over.
   */
  lemma EveryCheckSeesLaterData(run: seq<Slots>, steps: seq<Step>, i: nat, k: nat)
    requires IsRun(run, steps) && i < |run| && k < |run[i].calls|
    ensures var s, call := run[i], run[i].calls[k];
            if call.job in s.startedAt then s.startedAt[call.job] >= call.at
            else call.job in s.after && (s.after[call.job] !in s.running ==> Enabled(s, StartDeferred(call.job)))
  {
    RunKeepsInv(run, steps, i);
  }

  // ---------------------------------------------------------------- the methods

  class IpKeyIndexSlots {
    var ipKeyIndexPromise: Option<Job>
    var nextIpKeyIndexPromise: Option<Job>

    constructor ()
      ensures ipKeyIndexPromise == None && nextIpKeyIndexPromise == None
    {
      ipKeyIndexPromise, nextIpKeyIndexPromise := None, None;
    }

    ghost predicate Shows(s: Slots)
      reads this
    {
      ipKeyIndexPromise == s.current && nextIpKeyIndexPromise == s.next
    }

    method StartIpKeyIndex(job: Job, ghost s: Slots)
      requires Shows(s)
      modifies this
      ensures Shows(Start(s, job))
    {
      nextIpKeyIndexPromise := None;
      ipKeyIndexPromise := Some(job);
    }

    /** `job` is a promise of its own, used if one has to be made. */
    method BuildIpKeyIndex(job: Job, ghost s: Slots) returns (promise: Job)
      requires Shows(s) && Enabled(s, Ask(job))
      modifies this
      ensures Shows(Do(s, Ask(job))) && Do(s, Ask(job)).calls == s.calls + [Call(s.clock, promise)]
    {
      if ipKeyIndexPromise.Some? {
        if nextIpKeyIndexPromise.None? {
          nextIpKeyIndexPromise := Some(job);
        }
        return nextIpKeyIndexPromise.value;
      }
      StartIpKeyIndex(job, s);
      return job;
    }

    /** The `finally` of a fetch. */
    method EndFetch(ghost job: Job, ghost s: Slots)
      requires Shows(s) && Enabled(s, Finish(job))
      modifies this
      ensures Shows(Do(s, Finish(job)))
    {
      ipKeyIndexPromise := None;
    }
  }
}
