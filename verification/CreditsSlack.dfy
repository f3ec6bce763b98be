/**
  How much a flush may forgive. Requests that the buffer cannot serve are charged to the row while the
  buffer still counts on it; the credits it never gives away are there to cover them.
 */
module CreditsSlack {
  import opened Common
  import opened CreditsLedger

  /** The buffer has this entry, or gets it back if a flush fails. */
  ghost predicate IsInUse(a: Account, ref: Ref) {
    a.entry == Some(ref) || exists i :: 0 <= i < |a.flights| && a.flights[i].ref == ref
  }

  function Owed(a: Account): nat {
    Pending(a) + InFlight(a.flights)
  }

  /** The balance that a step stores in the entry in use. */
  ghost function BalanceRead(a: Account, step: Step): Option<int> {
    match step
    case UpdateBuffer(x, _) => if a.entry.Some? || Floored(x - Pending(a)) >= MIN_CREDITS_FOR_BUFFER then Some(x) else None
    case Refresh(x) => Some(x)
    case SetRemaining(ref, x) => if IsInUse(a, ref) then Some(x) else None
    case _ => None
  }

  /**
    By how much the buffer may overestimate the row. Direct charges beside a buffer in use add to it, and so
    do balances that are too high; top-ups and what a flush forgives lower it, and a balance that is right
    clears it if nothing is owed. It is zero when neither the buffer nor a flush has an entry.
   */
  ghost function SlackAfter(a: Account, step: Step, slack: nat): nat
    requires Enabled(a, step)
  {
    var a' := Do(a, step);
    var read := BalanceRead(a, step);
    if a'.entry.None? && a'.flights == [] then 0
    else if read.Some? then
      Max(if Owed(a) == 0 then 0 else slack, Floored(InFlight(a.flights) + read.value - Amount(a)))
    else match step
      case ChargeRow(credits) => slack + credits
      case TopUp(credits) => Floored(slack - credits)
      case Write(i) => Floored(slack - (a'.forgiven - a.forgiven))
      case _ => slack
  }

  /** The row and the slack cover what is owed with the minimum, and what an entry may still give away. */
  ghost predicate Covered(a: Account, slack: nat) {
    && (Owed(a) > 0 ==> Owed(a) + MIN_CREDITS_FOR_BUFFER <= Amount(a) + slack)
    && forall ref :: IsInUse(a, ref) && ref in a.cells ==> Owed(a) + Floored(a.cells[ref].remaining) <= Amount(a) + slack
  }

  // ---------------------------------------------------------------- what every step keeps

  lemma InUseWithout(a: Account, i: nat, ref: Ref)
    requires i < |a.flights| && exists k :: 0 <= k < |a.flights| - 1 && Without(a.flights, i)[k].ref == ref
    ensures IsInUse(a, ref)
  {
    var k :| 0 <= k < |a.flights| - 1 && Without(a.flights, i)[k].ref == ref;
    assert Without(a.flights, i)[k] == if k < i then a.flights[k] else a.flights[k + 1];
  }

  /** A flush that is written or has failed leaves the entry in use as it is, but for what is pending. */
  lemma EndedFlightUses(a: Account, step: Step, ref: Ref)
    requires OneEntry(a) && Enabled(a, step) && (step.Write? || step.Fail?) && IsInUse(Do(a, step), ref) && ref in Do(a, step).cells
    ensures IsInUse(a, ref) && ref in a.cells && Do(a, step).cells[ref].remaining == a.cells[ref].remaining
  {
    assert IsInUse(a, a.flights[step.i].ref);
    if Do(a, step).entry != Some(ref) {
      InUseWithout(a, step.i, ref);
    }
  }

  lemma WriteKeepsCovered(a: Account, i: nat, slack: nat)
    requires Inv(a) && Covered(a, slack) && Enabled(a, Write(i))
    ensures Covered(Do(a, Write(i)), SlackAfter(a, Write(i), slack))
    ensures Do(a, Write(i)).forgiven - a.forgiven <= Floored(slack - MIN_CREDITS_FOR_BUFFER)
  {
    var a' := Do(a, Write(i));
    InFlightSplit(a.flights, i);
    forall ref: Ref | IsInUse(a', ref) && ref in a'.cells ensures IsInUse(a, ref) && a'.cells[ref] == a.cells[ref] {
      EndedFlightUses(a, Write(i), ref);
    }
  }

  lemma FailKeepsCovered(a: Account, i: nat, slack: nat)
    requires Inv(a) && Covered(a, slack) && Enabled(a, Fail(i))
    ensures Covered(Do(a, Fail(i)), SlackAfter(a, Fail(i), slack))
  {
    var a' := Do(a, Fail(i));
    InFlightSplit(a.flights, i);
    forall ref: Ref | IsInUse(a', ref) && ref in a'.cells
      ensures IsInUse(a, ref) && ref in a.cells && a'.cells[ref].remaining == a.cells[ref].remaining {
      EndedFlightUses(a, Fail(i), ref);
    }
  }

  lemma TakeKeepsCovered(a: Account, i: nat, slack: nat)
    requires Inv(a) && Covered(a, slack) && Enabled(a, Take(i))
    ensures Covered(Do(a, Take(i)), SlackAfter(a, Take(i), slack))
  {
    var a' := Do(a, Take(i));
    InFlightChanged(a.flights, i, a'.flights[i]);
    forall ref: Ref | IsInUse(a', ref) ensures IsInUse(a, ref) {
      if a'.entry != Some(ref) {
        var k :| 0 <= k < |a'.flights| && a'.flights[k].ref == ref;
        assert a.flights[k].ref == ref;
      }
    }
  }

  lemma CaptureKeepsCovered(a: Account, slack: nat)
    requires Inv(a) && Covered(a, slack) && Enabled(a, Capture)
    ensures Covered(Do(a, Capture), SlackAfter(a, Capture, slack))
  {
    var a' := Do(a, Capture);
    InFlightAppend(a.flights, Captured(a.entry.value));
    forall ref: Ref | IsInUse(a', ref) ensures IsInUse(a, ref) {
      assert a.entry == Some(ref);
    }
  }

  lemma RowStepKeepsCovered(a: Account, step: Step, slack: nat)
    requires Inv(a) && Covered(a, slack) && Enabled(a, step) && Careful(a, step)
    requires step.ConsumeBuffered? || step.ChargeRow? || step.Expire? || step.TopUp?
    ensures Covered(Do(a, step), SlackAfter(a, step, slack))
  {
    var a' := Do(a, step);
    assert a.entry.Some? ==> IsInUse(a, a.entry.value);
    assert a'.flights == a.flights;
    forall ref: Ref | IsInUse(a', ref) ensures IsInUse(a, ref) {
    }
  }

  /** All entries in use are one. */
  lemma OneInUse(a: Account, ref: Ref, other: Ref)
    requires OneEntry(a) && IsInUse(a, ref) && IsInUse(a, other)
    ensures ref == other && ref in a.cells && a.cells[ref].pending == Pending(a)
  {
  }

  lemma ReadKeepsCovered(a: Account, step: Step, slack: nat)
    requires Inv(a) && Covered(a, slack) && Enabled(a, step) && (step.Refresh? || step.SetRemaining?)
    ensures Covered(Do(a, step), SlackAfter(a, step, slack))
  {
    var a' := Do(a, step);
    var read := if step.Refresh? then a.entry.value else step.ref;
    assert step.Refresh? ==> IsInUse(a, read);
    assert Owed(a') == Owed(a);
    forall ref: Ref | IsInUse(a', ref) && ref in a'.cells
      ensures Owed(a') + Floored(a'.cells[ref].remaining) <= Amount(a') + SlackAfter(a, step, slack) {
      assert IsInUse(a, ref);
      if IsInUse(a, read) {
        OneInUse(a, ref, read);
      }
    }
  }

  lemma UpdateKeepsCovered(a: Account, step: Step, slack: nat)
    requires Inv(a) && Covered(a, slack) && Enabled(a, step) && Careful(a, step) && step.UpdateBuffer?
    ensures Covered(Do(a, step), SlackAfter(a, step, slack))
  {
    var a' := Do(a, step);
    assert a'.flights == a.flights && Owed(a') == Owed(a);
    forall ref: Ref | IsInUse(a', ref) && ref in a'.cells
      ensures Owed(a') + Floored(a'.cells[ref].remaining) <= Amount(a') + SlackAfter(a, step, slack) {
      if a'.entry != Some(ref) {
        assert IsInUse(a, ref);
      }
      if a.entry.Some? && IsInUse(a, ref) {
        OneInUse(a, ref, a.entry.value);
      }
    }
  }

  /** Every careful step keeps the cover, and forgives at most what the slack exceeds the minimum by. */
  lemma StepKeepsCovered(a: Account, step: Step, slack: nat)
    requires Inv(a) && Covered(a, slack) && Enabled(a, step) && Careful(a, step)
    ensures Covered(Do(a, step), SlackAfter(a, step, slack))
    ensures a.forgiven <= Do(a, step).forgiven <= a.forgiven + Floored(slack - MIN_CREDITS_FOR_BUFFER)
  {
    match step
    case Write(i) => WriteKeepsCovered(a, i, slack);
    case Fail(i) => FailKeepsCovered(a, i, slack);
    case Take(i) => TakeKeepsCovered(a, i, slack);
    case Capture => CaptureKeepsCovered(a, slack);
    case UpdateBuffer(_, _) => UpdateKeepsCovered(a, step, slack);
    case Refresh(_) => ReadKeepsCovered(a, step, slack);
    case SetRemaining(_, _) => ReadKeepsCovered(a, step, slack);
    case ConsumeBuffered(_) => RowStepKeepsCovered(a, step, slack);
    case ChargeRow(_) => RowStepKeepsCovered(a, step, slack);
    case Expire => RowStepKeepsCovered(a, step, slack);
    case TopUp(_) => RowStepKeepsCovered(a, step, slack);
  }

  // ---------------------------------------------------------------- over runs

  ghost predicate IsCarefulRun(run: seq<Account>, steps: seq<Step>) {
    IsRun(run, steps) && forall i :: 0 <= i < |steps| ==> Careful(run[i], steps[i])
  }

  /** The slack after the first `i` steps. */
  ghost function Slack(run: seq<Account>, steps: seq<Step>, i: nat): nat
    requires IsRun(run, steps) && i <= |steps|
  {
    if i == 0 then 0 else SlackAfter(run[i - 1], steps[i - 1], Slack(run, steps, i - 1))
  }

  lemma {:induction false} RunIsCovered(run: seq<Account>, steps: seq<Step>, i: nat)
    requires IsCarefulRun(run, steps) && i <= |steps|
    ensures Inv(run[i]) && Covered(run[i], Slack(run, steps, i))
  {
    CreditsAreConserved(run, steps, i);
    if i > 0 {
      RunIsCovered(run, steps, i - 1);
      StepKeepsCovered(run[i - 1], steps[i - 1], Slack(run, steps, i - 1));
    }
  }

  /** In every careful run, no step forgives more than what the slack exceeds the minimum of the buffer by. */
  lemma StepForgivesTheExcess(run: seq<Account>, steps: seq<Step>, i: nat)
    requires IsCarefulRun(run, steps) && i < |steps|
    ensures run[i].forgiven <= run[i + 1].forgiven <= run[i].forgiven + Floored(Slack(run, steps, i) - MIN_CREDITS_FOR_BUFFER)
  {
    RunIsCovered(run, steps, i);
    StepKeepsCovered(run[i], steps[i], Slack(run, steps, i));
  }

  /** While the slack stays within the minimum, nothing is ever forgiven. */
  lemma {:induction false} MinimumCoversTheSlack(run: seq<Account>, steps: seq<Step>, i: nat)
    requires IsCarefulRun(run, steps) && i <= |steps|
    requires forall k :: 0 <= k < i ==> Slack(run, steps, k) <= MIN_CREDITS_FOR_BUFFER
    ensures run[i].forgiven == 0
  {
    if i > 0 {
      MinimumCoversTheSlack(run, steps, i - 1);
      StepForgivesTheExcess(run, steps, i - 1);
    }
  }

  // ---------------------------------------------------------------- the bound is attained

  function Total(credits: seq<nat>): nat {
    if credits == [] then 0 else credits[0] + Total(credits[1..])
  }

  function ServeAll(credits: seq<nat>): seq<Step> {
    seq(|credits|, i requires 0 <= i < |credits| => ConsumeBuffered(credits[i]))
  }

  function ChargeAll(credits: seq<nat>): seq<Step> {
    seq(|credits|, i requires 0 <= i < |credits| => ChargeRow(credits[i]))
  }

  /** The account of a user with one buffer entry. */
  function Buffered(row: nat, cell: Cell, flights: seq<Flight>, start: nat, accepted: nat): Account {
    Account(Some(row), map[0 := cell], Some(0), flights, start, 0, accepted, 0)
  }

  lemma {:induction false} SlackOfPrefix(run: seq<Account>, steps: seq<Step>, run': seq<Account>, steps': seq<Step>, i: nat)
    requires IsRun(run, steps) && IsRun(run', steps') && run <= run' && steps <= steps' && i <= |steps|
    ensures Slack(run', steps', i) == Slack(run, steps, i)
  {
    if i > 0 {
      SlackOfPrefix(run, steps, run', steps', i - 1);
    }
  }

  /** Only what the buffer does not serve is charged to the row. */
  ghost predicate GoesPastTheBuffer(a: Account, step: Step) {
    step.ChargeRow? && a.entry.Some? && a.entry.value in a.cells ==> !Serves(a.cells[a.entry.value], step.credits)
  }

  /** The run, with charges as the code makes them, has come to this account with this slack. */
  ghost predicate Reaches(run: seq<Account>, steps: seq<Step>, a: Account, slack: nat) {
    && IsCarefulRun(run, steps) && run[|steps|] == a && Slack(run, steps, |steps|) == slack
    && forall i :: 0 <= i < |steps| ==> GoesPastTheBuffer(run[i], steps[i])
  }

  lemma Then(run: seq<Account>, steps: seq<Step>, a: Account, slack: nat, step: Step) returns (run': seq<Account>)
    requires Reaches(run, steps, a, slack) && Enabled(a, step) && Careful(a, step) && GoesPastTheBuffer(a, step)
    ensures run' == run + [Do(a, step)] && Reaches(run', steps + [step], Do(a, step), SlackAfter(a, step, slack))
  {
    run' := run + [Do(a, step)];
    SlackOfPrefix(run, steps, run', steps + [step], |steps|);
  }

  lemma ThenServeOne(run: seq<Account>, steps: seq<Step>, row: nat, cell: Cell, accepted: nat, credits: nat) returns (run': seq<Account>)
    requires Reaches(run, steps, Buffered(row, cell, [], row, accepted), 0) && Serves(cell, credits)
    ensures Reaches(run', steps + [ConsumeBuffered(credits)], Buffered(row, Consumed(cell, credits), [], row, accepted + credits), 0)
  {
    run' := Then(run, steps, Buffered(row, cell, [], row, accepted), 0, ConsumeBuffered(credits));
  }

  /** The buffer serves requests down to its minimum, without slack. */
  lemma {:induction false} ThenServe(run: seq<Account>, steps: seq<Step>, row: nat, cell: Cell, accepted: nat, credits: seq<nat>)
    returns (run': seq<Account>)
    requires Reaches(run, steps, Buffered(row, cell, [], row, accepted), 0)
    requires cell.remaining - Total(credits) >= MIN_CREDITS_FOR_BUFFER
    ensures Reaches(run', steps + ServeAll(credits),
                    Buffered(row, Consumed(cell, Total(credits)), [], row, accepted + Total(credits)), 0)
    decreases |credits|
  {
    if credits == [] {
      run' := run;
      assert steps + ServeAll(credits) == steps;
    } else {
      var run1 := ThenServeOne(run, steps, row, cell, accepted, credits[0]);
      run' := ThenServe(run1, steps + [ConsumeBuffered(credits[0])], row, Consumed(cell, credits[0]), accepted + credits[0], credits[1..]);
      assert steps + [ConsumeBuffered(credits[0])] + ServeAll(credits[1..]) == steps + ServeAll(credits);
    }
  }

  /** Direct charges beside the buffer add up to the slack. */
  lemma {:induction false} ThenCharge(run: seq<Account>, steps: seq<Step>, row: nat, cell: Cell, start: nat, accepted: nat,
                                      slack: nat, credits: seq<nat>)
    returns (run': seq<Account>)
    requires Reaches(run, steps, Buffered(row, cell, [], start, accepted), slack) && Total(credits) <= row
    requires cell.remaining == MIN_CREDITS_FOR_BUFFER && forall c :: c in credits ==> c > 0
    ensures Reaches(run', steps + ChargeAll(credits),
                    Buffered(row - Total(credits), cell, [], start, accepted + Total(credits)), slack + Total(credits))
    decreases |credits|
  {
    if credits == [] {
      run' := run;
      assert steps + ChargeAll(credits) == steps;
    } else {
      var a := Buffered(row, cell, [], start, accepted);
      assert credits[0] in credits && forall c :: c in credits[1..] ==> c in credits;
      var run1 := Then(run, steps, a, slack, ChargeRow(credits[0]));
      run' := ThenCharge(run1, steps + [ChargeRow(credits[0])], row - credits[0], cell, start, accepted + credits[0],
                         slack + credits[0], credits[1..]);
      assert steps + [ChargeRow(credits[0])] + ChargeAll(credits[1..]) == steps + ChargeAll(credits);
    }
  }

  /** The entry's pending credits are flushed over an empty row. */
  lemma ThenFlush(run: seq<Account>, steps: seq<Step>, remaining: nat, pending: nat, start: nat, accepted: nat, slack: nat)
    returns (run': seq<Account>)
    requires Reaches(run, steps, Buffered(0, Cell(remaining, pending), [], start, accepted), slack) && pending > 0
    ensures Reaches(run', steps + [Capture, Take(0)], Buffered(0, Cell(remaining, 0), [Taken(0, pending)], start, accepted), slack)
  {
    var a := Buffered(0, Cell(remaining, pending), [], start, accepted);
    var run1 := Then(run, steps, a, slack, Capture);
    var a1 := Do(a, Capture);
    assert a1 == Buffered(0, Cell(remaining, pending), [Captured(0)], start, accepted);
    run' := Then(run1, steps + [Capture], a1, slack, Take(0));
    assert Do(a1, Take(0)) == Buffered(0, Cell(remaining, 0), [Taken(0, pending)], start, accepted);
    assert steps + [Capture] + [Take(0)] == steps + [Capture, Take(0)];
  }

  /** An entry with the whole balance of the row. */
  lemma StartsBuffered(row: nat) returns (run: seq<Account>)
    requires row >= MIN_CREDITS_FOR_BUFFER
    ensures Reaches(run, [UpdateBuffer(row, 0)], Buffered(row, Cell(row, 0), [], row, 0), 0)
  {
    var a := Account(Some(row), map[], None, [], row, 0, 0, 0);
    assert Reaches([a], [], a, 0);
    run := Then([a], [], a, 0, UpdateBuffer(row, 0));
    assert [] + [UpdateBuffer(row, 0)] == [UpdateBuffer(row, 0)];
  }

  /** The steps of the run: a right balance, requests that the buffer serves, requests charged beside it, and a flush. */
  function Overdraft(served: seq<nat>, charged: seq<nat>): seq<Step> {
    [UpdateBuffer(Total(charged), 0)] + ServeAll(served) + ChargeAll(charged) + [Capture, Take(0)]
  }

  /**
    Whatever the sizes of the requests: once those that went past the buffer exceed its minimum by what it
    has served, the flush forgives exactly that excess.
   */
  lemma SlackIsForgiven(served: seq<nat>, charged: seq<nat>) returns (run: seq<Account>)
    requires Total(served) > 0 && Total(charged) == MIN_CREDITS_FOR_BUFFER + Total(served) && forall c :: c in charged ==> c > 0
    ensures IsCarefulRun(run, Overdraft(served, charged) + [Write(0)])
    ensures var steps := Overdraft(served, charged) + [Write(0)];
            && (forall i :: 0 <= i < |steps| ==> GoesPastTheBuffer(run[i], steps[i]))
            && Slack(run, steps, |steps| - 1) == Total(charged)
            && run[|steps| - 1].forgiven == 0 && run[|steps|].forgiven == Total(charged) - MIN_CREDITS_FOR_BUFFER
  {
    var row, pending := Total(charged), Total(served);
    var run0 := StartsBuffered(row);
    var run1 := ThenServe(run0, [UpdateBuffer(row, 0)], row, Cell(row, 0), 0, served);
    var steps1 := [UpdateBuffer(row, 0)] + ServeAll(served);
    var run2 := ThenCharge(run1, steps1, row, Cell(MIN_CREDITS_FOR_BUFFER, pending), row, pending, 0, charged);
    var run3 := ThenFlush(run2, steps1 + ChargeAll(charged), MIN_CREDITS_FOR_BUFFER, pending, row, pending + row, row);
    var a := Buffered(0, Cell(MIN_CREDITS_FOR_BUFFER, 0), [Taken(0, pending)], row, pending + row);
    run := Then(run3, Overdraft(served, charged), a, row, Write(0));
    SlackOfPrefix(run3, Overdraft(served, charged), run, Overdraft(served, charged) + [Write(0)], |Overdraft(served, charged)|);
  }

  lemma {:induction false} TotalOfEqual(n: nat, credits: nat, last: nat)
    ensures Total(seq(n, i => credits) + [last]) == n * credits + last
  {
    if n == 0 {
      assert [last][1..] == [];
    } else {
      var all := seq(n, i => credits) + [last];
      assert all[1..] == seq(n - 1, i => credits) + [last];
      TotalOfEqual(n - 1, credits, last);
    }
  }

  /** With measurements of at most 500 probes: twenty of them and one more of one probe, beside a buffer that has served one. */
  lemma TwentyMeasurementsOverdraw() returns (run: seq<Account>, steps: seq<Step>)
    ensures IsCarefulRun(run, steps) && (forall i :: 0 <= i < |steps| ==> GoesPastTheBuffer(run[i], steps[i])) && run[|steps|].forgiven == 1
    ensures forall i :: 0 <= i < |steps| && steps[i].ChargeRow? ==> steps[i].credits <= 500
    ensures forall i :: 0 <= i < |steps| && steps[i].ConsumeBuffered? ==> steps[i].credits <= 500
  {
    var charged := seq(20, i => 500) + [1];
    TotalOfEqual(20, 500, 1);
    assert [1][1..] == [];
    run := SlackIsForgiven([1], charged);
    steps := Overdraft([1], charged) + [Write(0)];
  }
}
