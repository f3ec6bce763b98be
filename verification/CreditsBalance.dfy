/** The balance that the buffer shows: exact as long as nothing but the buffer charges the user and the reads are right. */
module CreditsBalance {
  import opened Common
  import opened CreditsLedger

  /** The entry has what is left of the row after all that is pending or being written. */
  ghost predicate Exact(a: Account) {
    a.entry.Some? && a.entry.value in a.cells ==> a.cells[a.entry.value].remaining == Amount(a) - Pending(a) - InFlight(a.flights)
  }

  /** A balance is read when no flush is under way, and the row covers what is pending. */
  ghost predicate ReadsRight(a: Account, remainingFromDb: int) {
    remainingFromDb == Amount(a) && InFlight(a.flights) == 0 && Amount(a) >= Pending(a)
  }

  /** While there is an entry, the row changes only by flushes that it covers, and the balances read are right. */
  ghost predicate Honest(a: Account, step: Step) {
    match step
    case ChargeRow(_) => a.entry.None?
    case TopUp(_) => a.entry.None?
    case UpdateBuffer(x, _) => ReadsRight(a, x)
    case Refresh(x) => ReadsRight(a, x)
    case SetRemaining(_, x) => ReadsRight(a, x)
    case Write(i) => i < |a.flights| && a.flights[i].Taken? ==> a.flights[i].flushed <= Amount(a)
    case Fail(_) => a.entry.Some?
    case _ => true
  }

  lemma FlushKeepsExact(a: Account, step: Step)
    requires Inv(a) && Exact(a) && Enabled(a, step) && Careful(a, step) && Honest(a, step)
    requires step.Capture? || step.Take? || step.Write? || step.Fail?
    ensures Exact(Do(a, step))
  {
    match step
    case Capture => InFlightAppend(a.flights, Captured(a.entry.value));
    case Take(i) => InFlightChanged(a.flights, i, Taken(a.flights[i].ref, a.cells[a.flights[i].ref].pending));
    case Write(i) => InFlightSplit(a.flights, i);
    case Fail(i) => InFlightSplit(a.flights, i);
  }

  lemma StepKeepsExact(a: Account, step: Step)
    requires Inv(a) && Exact(a) && Enabled(a, step) && Careful(a, step) && Honest(a, step)
    ensures Exact(Do(a, step)) && Do(a, step).forgiven == a.forgiven
  {
    if step.Capture? || step.Take? || step.Write? || step.Fail? {
      FlushKeepsExact(a, step);
    }
  }

  /** In such runs the buffer shows what the user started with and added, less all that was accepted. */
  lemma {:induction false} BufferShowsTheBalance(run: seq<Account>, steps: seq<Step>, i: nat)
    requires IsRun(run, steps) && i < |run| && forall k :: 0 <= k < i ==> Careful(run[k], steps[k]) && Honest(run[k], steps[k])
    ensures Inv(run[i]) && Exact(run[i]) && run[i].forgiven == 0
    ensures run[i].entry.Some? ==> run[i].cells[run[i].entry.value].remaining == run[i].start + run[i].topups - run[i].accepted
  {
    if i > 0 {
      BufferShowsTheBalance(run, steps, i - 1);
      StepKeepsExact(run[i - 1], steps[i - 1]);
      StepKeepsInv(run[i - 1], steps[i - 1]);
    }
  }

  /** A read leaves an entry only if it can serve something or has something to flush. */
  lemma EntriesAreUseful(a: Account, remainingFromDb: int, newRef: Ref)
    requires Inv(a) && Enabled(a, UpdateBuffer(remainingFromDb, newRef))
    ensures var a' := Do(a, UpdateBuffer(remainingFromDb, newRef));
            && (a'.entry.Some? ==> Pending(a') > 0 || Enabled(a', ConsumeBuffered(0)))
            && Pending(a') == Pending(a) && (a'.entry.None? ==> remainingFromDb < 10_000)
  {
  }
}
