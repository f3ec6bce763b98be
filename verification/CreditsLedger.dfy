/**
  The credits of one user: the database row, the buffer entry and the flushes that are on their way.
  Buffer entries are objects: a flush keeps the entry it captured even if the buffer has another one since.
 */
module CreditsLedger {
  import opened Common

  const MIN_CREDITS_FOR_BUFFER: nat := 10_000

  type Ref = nat

  /** The fields of a buffer entry. */
  datatype Cell = Cell(remaining: int, pending: nat)

  /** A captured entry, then the amount that was taken from it and is being written. */
  datatype Flight = Captured(ref: Ref) | Taken(ref: Ref, flushed: nat)

  /** `start`, `topups`, `accepted` and `forgiven` only record what happened. */
  datatype Account = Account(row: Option<nat>, cells: map<Ref, Cell>, entry: Option<Ref>, flights: seq<Flight>,
                             start: nat, topups: nat, accepted: nat, forgiven: nat)

  datatype Step =
    | ConsumeBuffered(credits: nat)
    | ChargeRow(credits: nat)
    | UpdateBuffer(remainingFromDb: int, newRef: Ref)
    | Refresh(remainingFromDb: int)
    | Capture
    | Take(i: nat)
    | Write(i: nat)
    | Fail(i: nat)
    | SetRemaining(ref: Ref, remainingFromDb: int)
    | Expire
    | TopUp(credits: nat)

  function Amount(a: Account): nat {
    a.row.GetOr(0)
  }

  function Pending(a: Account): nat {
    if a.entry.Some? && a.entry.value in a.cells then a.cells[a.entry.value].pending else 0
  }

  function FlushedBy(f: Flight): nat {
    if f.Taken? then f.flushed else 0
  }

  function InFlight(flights: seq<Flight>): nat {
    if flights == [] then 0 else InFlight(flights[..|flights| - 1]) + FlushedBy(flights[|flights| - 1])
  }

  function Floored(x: int): nat {
    if x < 0 then 0 else x
  }

  // ---------------------------------------------------------------- the steps

  /** The entry serves the request if the buffer minimum is left afterwards. */
  predicate Serves(cell: Cell, credits: nat) {
    cell.remaining - credits >= MIN_CREDITS_FOR_BUFFER
  }

  function Consumed(cell: Cell, credits: nat): Cell {
    Cell(cell.remaining - credits, cell.pending + credits)
  }

  function WithRemaining(cell: Cell, remainingFromDb: int): Cell {
    cell.(remaining := Floored(remainingFromDb - cell.pending))
  }

  function DoUpdateBuffer(a: Account, remainingFromDb: int, newRef: Ref): Account
    requires a.entry.Some? ==> a.entry.value in a.cells
  {
    var remaining := Floored(remainingFromDb - Pending(a));
    if remaining >= MIN_CREDITS_FOR_BUFFER then
      a.(cells := a.cells[newRef := Cell(remaining, Pending(a))], entry := Some(newRef))
    else if a.entry.Some? then
      a.(cells := a.cells[a.entry.value := a.cells[a.entry.value].(remaining := remaining)],
         entry := if Pending(a) == 0 then None else a.entry)
    else a
  }

  function Without(flights: seq<Flight>, i: nat): seq<Flight>
    requires i < |flights|
  {
    flights[..i] + flights[i + 1..]
  }

  ghost predicate Enabled(a: Account, step: Step) {
    match step
    case ConsumeBuffered(credits) => a.entry.Some? && a.entry.value in a.cells && Serves(a.cells[a.entry.value], credits)
    case ChargeRow(credits) => a.row.Some? && a.row.value >= credits
    case UpdateBuffer(_, newRef) => newRef !in a.cells && (a.entry.Some? ==> a.entry.value in a.cells)
    case Refresh(_) => a.entry.Some? && a.entry.value in a.cells
    case Capture => a.entry.Some? && a.entry.value in a.cells && Pending(a) > 0
    case Take(i) => i < |a.flights| && a.flights[i].Captured? && a.flights[i].ref in a.cells
    case Write(i) => i < |a.flights| && a.flights[i].Taken?
    case Fail(i) => i < |a.flights| && a.flights[i].Taken? && a.flights[i].ref in a.cells
    case SetRemaining(ref, _) => ref in a.cells
    case Expire => a.entry.Some?
    case TopUp(_) => a.row.Some?
  }

  function Do(a: Account, step: Step): Account
    requires Enabled(a, step)
  {
    match step
    case ConsumeBuffered(credits) =>
      a.(cells := a.cells[a.entry.value := Consumed(a.cells[a.entry.value], credits)], accepted := a.accepted + credits)
    case ChargeRow(credits) => a.(row := Some(a.row.value - credits), accepted := a.accepted + credits)
    case UpdateBuffer(remainingFromDb, newRef) => DoUpdateBuffer(a, remainingFromDb, newRef)
    case Refresh(remainingFromDb) =>
      a.(cells := a.cells[a.entry.value := WithRemaining(a.cells[a.entry.value], remainingFromDb)])
    case Capture => a.(flights := a.flights + [Captured(a.entry.value)])
    case Take(i) =>
      var ref := a.flights[i].ref;
      a.(flights := a.flights[i := Taken(ref, a.cells[ref].pending)], cells := a.cells[ref := a.cells[ref].(pending := 0)])
    case Write(i) =>
      var flushed := a.flights[i].flushed;
      a.(flights := Without(a.flights, i), row := if a.row.Some? then Some(Floored(a.row.value - flushed)) else None,
         forgiven := a.forgiven + Floored(flushed - Amount(a)))
    case Fail(i) =>
      var ref := a.flights[i].ref;
      a.(flights := Without(a.flights, i), entry := Some(ref),
         cells := a.cells[ref := a.cells[ref].(pending := a.cells[ref].pending + a.flights[i].flushed)])
    case SetRemaining(ref, remainingFromDb) => a.(cells := a.cells[ref := WithRemaining(a.cells[ref], remainingFromDb)])
    case Expire => a.(entry := None)
    case TopUp(credits) => a.(row := Some(a.row.value + credits), topups := a.topups + credits)
  }

  /**
    Two things the code relies on: no fresh entry is stored while a flush of the user is under way,
    and an entry does not expire while it has pending credits.
   */
  ghost predicate Careful(a: Account, step: Step) {
    && (step.UpdateBuffer? && Floored(step.remainingFromDb - Pending(a)) >= MIN_CREDITS_FOR_BUFFER ==> a.flights == [])
    && (step.Expire? ==> Pending(a) == 0)
  }

  // ---------------------------------------------------------------- conservation

  /** What left the row is what was accepted, less what is buffered, on its way or forgiven. */
  ghost predicate Conserved(a: Account) {
    a.start + a.topups - Amount(a) == a.accepted - Pending(a) - InFlight(a.flights) - a.forgiven
  }

  /** All flushes under way are of one entry, which is the buffer's if it has any, and which has nothing pending otherwise. */
  ghost predicate OneEntry(a: Account) {
    && (a.entry.Some? ==> a.entry.value in a.cells)
    && (forall i :: 0 <= i < |a.flights| ==> a.flights[i].ref in a.cells)
    && (forall i :: 0 <= i < |a.flights| ==> if a.entry.Some? then a.flights[i].ref == a.entry.value else a.cells[a.flights[i].ref].pending == 0)
    && (forall i, j :: 0 <= i < j < |a.flights| ==> a.flights[i].ref == a.flights[j].ref)
  }

  ghost predicate Inv(a: Account) {
    OneEntry(a) && Conserved(a)
  }

  lemma InFlightAppend(flights: seq<Flight>, f: Flight)
    ensures InFlight(flights + [f]) == InFlight(flights) + FlushedBy(f)
  {
    assert (flights + [f])[..|flights|] == flights;
  }

  lemma {:induction false} InFlightSplit(flights: seq<Flight>, i: nat)
    requires i < |flights|
    ensures InFlight(flights) == InFlight(Without(flights, i)) + FlushedBy(flights[i])
  {
    var n := |flights| - 1;
    var init := flights[..n];
    if i == n {
      assert Without(flights, i) == init;
    } else {
      InFlightSplit(init, i);
      assert Without(flights, i) == Without(init, i) + [flights[n]];
      InFlightAppend(Without(init, i), flights[n]);
    }
  }

  lemma InFlightChanged(flights: seq<Flight>, i: nat, f: Flight)
    requires i < |flights|
    ensures InFlight(flights[i := f]) == InFlight(flights) - FlushedBy(flights[i]) + FlushedBy(f)
  {
    InFlightSplit(flights, i);
    InFlightSplit(flights[i := f], i);
    assert Without(flights[i := f], i) == Without(flights, i);
  }

  lemma StepKeepsOneEntry(a: Account, step: Step)
    requires OneEntry(a) && Enabled(a, step) && Careful(a, step)
    ensures OneEntry(Do(a, step))
  {
  }

  lemma TakeKeepsConserved(a: Account, i: nat)
    requires Inv(a) && Enabled(a, Take(i))
    ensures Conserved(Do(a, Take(i)))
  {
    InFlightChanged(a.flights, i, Taken(a.flights[i].ref, a.cells[a.flights[i].ref].pending));
  }

  lemma WriteKeepsConserved(a: Account, i: nat)
    requires Inv(a) && Enabled(a, Write(i))
    ensures Conserved(Do(a, Write(i)))
  {
    InFlightSplit(a.flights, i);
  }

  lemma FailKeepsConserved(a: Account, i: nat)
    requires Inv(a) && Enabled(a, Fail(i))
    ensures Conserved(Do(a, Fail(i)))
  {
    InFlightSplit(a.flights, i);
  }

  lemma CaptureKeepsConserved(a: Account)
    requires Inv(a) && Enabled(a, Capture)
    ensures Conserved(Do(a, Capture))
  {
    InFlightAppend(a.flights, Captured(a.entry.value));
  }

  lemma UpdateKeepsConserved(a: Account, step: Step)
    requires Inv(a) && Enabled(a, step) && Careful(a, step) && step.UpdateBuffer?
    ensures Conserved(Do(a, step))
  {
  }

  lemma BufferStepKeepsConserved(a: Account, step: Step)
    requires Inv(a) && Enabled(a, step) && Careful(a, step)
    requires step.ConsumeBuffered? || step.Refresh? || step.SetRemaining? || step.Expire?
    ensures Conserved(Do(a, step))
  {
  }

  lemma RowStepKeepsConserved(a: Account, step: Step)
    requires Inv(a) && Enabled(a, step) && (step.ChargeRow? || step.TopUp?)
    ensures Conserved(Do(a, step))
  {
  }

  lemma StepKeepsInv(a: Account, step: Step)
    requires Inv(a) && Enabled(a, step) && Careful(a, step)
    ensures Inv(Do(a, step))
  {
    StepKeepsOneEntry(a, step);
    match step
    case ConsumeBuffered(_) => BufferStepKeepsConserved(a, step);
    case ChargeRow(_) => RowStepKeepsConserved(a, step);
    case UpdateBuffer(_, _) => UpdateKeepsConserved(a, step);
    case Refresh(_) => BufferStepKeepsConserved(a, step);
    case Capture => CaptureKeepsConserved(a);
    case Take(i) => TakeKeepsConserved(a, i);
    case Write(i) => WriteKeepsConserved(a, i);
    case Fail(i) => FailKeepsConserved(a, i);
    case SetRemaining(_, _) => BufferStepKeepsConserved(a, step);
    case Expire => BufferStepKeepsConserved(a, step);
    case TopUp(_) => RowStepKeepsConserved(a, step);
  }

  lemma CarelessStepBreaksInv(a: Account, step: Step)
    requires Inv(a) && Enabled(a, step) && !Careful(a, step)
    ensures step.Expire? ==> !Conserved(Do(a, step))
    ensures step.UpdateBuffer? ==> !OneEntry(Do(a, step))
  {
    if step.UpdateBuffer? {
      var a' := Do(a, step);
      assert a'.flights[0].ref in a.cells && a'.entry == Some(step.newRef);
    }
  }

  /** The two conditions are exactly what the invariant needs from a step. */
  lemma OnlyCarefulStepsKeepInv(a: Account, step: Step)
    requires Inv(a) && Enabled(a, step)
    ensures Inv(Do(a, step)) <==> Careful(a, step)
  {
    if Careful(a, step) {
      StepKeepsInv(a, step);
    } else {
      CarelessStepBreaksInv(a, step);
    }
  }

  /**
    What becomes of a flush whose entry is no longer the buffer's: taking the entry's credits is wrong if it
    has any, writing what was taken is right, and undoing it is right if both entries have the same pending.
   */
  lemma DetachedFlight(a: Account, i: nat)
    requires Conserved(a) && i < |a.flights| && a.flights[i].ref in a.cells
    requires a.entry.Some? && a.entry.value in a.cells && a.flights[i].ref != a.entry.value
    ensures a.flights[i].Captured? ==> (Conserved(Do(a, Take(i))) <==> a.cells[a.flights[i].ref].pending == 0)
    ensures a.flights[i].Taken? ==>
              Conserved(Do(a, Write(i))) && (Conserved(Do(a, Fail(i))) <==> a.cells[a.flights[i].ref].pending == Pending(a))
  {
    var ref := a.flights[i].ref;
    InFlightChanged(a.flights, i, Taken(ref, a.cells[ref].pending));
    InFlightSplit(a.flights, i);
  }

  lemma ReplacedEntryIsDetached(a: Account, remainingFromDb: int, newRef: Ref, i: nat)
    requires Inv(a) && i < |a.flights|
    requires Enabled(a, UpdateBuffer(remainingFromDb, newRef)) && !Careful(a, UpdateBuffer(remainingFromDb, newRef))
    ensures var a', ref := Do(a, UpdateBuffer(remainingFromDb, newRef)), a.flights[i].ref;
            && Conserved(a') && a'.entry == Some(newRef) && newRef in a'.cells && a'.flights == a.flights
            && ref in a'.cells && ref != newRef && a'.cells[ref].pending == Pending(a) == Pending(a')
  {
    assert a.flights[i].ref in a.cells;
  }

  /** A flush that has captured an entry, which is then replaced, takes the entry's pending credits a second time. */
  lemma ReplacedEntryBreaksConservation(a: Account, remainingFromDb: int, newRef: Ref, i: nat)
    requires Inv(a) && i < |a.flights| && a.flights[i].Captured?
    requires Enabled(a, UpdateBuffer(remainingFromDb, newRef)) && !Careful(a, UpdateBuffer(remainingFromDb, newRef))
    ensures var a' := Do(a, UpdateBuffer(remainingFromDb, newRef));
            Enabled(a', Take(i)) && (Conserved(Do(a', Take(i))) <==> Pending(a) == 0)
  {
    ReplacedEntryIsDetached(a, remainingFromDb, newRef, i);
    DetachedFlight(Do(a, UpdateBuffer(remainingFromDb, newRef)), i);
  }

  /** If the entry is replaced after its credits were taken, only a failure harms: it drops what the new entry has served. */
  lemma ReplacedEntryLosesCharges(a: Account, remainingFromDb: int, newRef: Ref, credits: nat, i: nat)
    requires Inv(a) && i < |a.flights| && a.flights[i].Taken?
    requires Enabled(a, UpdateBuffer(remainingFromDb, newRef)) && !Careful(a, UpdateBuffer(remainingFromDb, newRef))
    requires Enabled(Do(a, UpdateBuffer(remainingFromDb, newRef)), ConsumeBuffered(credits))
    ensures var a' := Do(Do(a, UpdateBuffer(remainingFromDb, newRef)), ConsumeBuffered(credits));
            && Enabled(a', Write(i)) && Conserved(Do(a', Write(i)))
            && Enabled(a', Fail(i)) && (Conserved(Do(a', Fail(i))) <==> credits == 0)
  {
    ReplacedEntryIsDetached(a, remainingFromDb, newRef, i);
    var a1 := Do(a, UpdateBuffer(remainingFromDb, newRef));
    var a2 := Do(a1, ConsumeBuffered(credits));
    assert a2.cells[a.flights[i].ref] == a1.cells[a.flights[i].ref] && Pending(a2) == Pending(a1) + credits;
    DetachedFlight(a2, i);
  }

  ghost predicate Init(a: Account) {
    a.cells == map[] && a.entry.None? && a.flights == [] && a.start == Amount(a) && a.topups == a.accepted == a.forgiven == 0
  }

  ghost predicate IsRun(run: seq<Account>, steps: seq<Step>) {
    |run| == |steps| + 1 && Init(run[0]) &&
    forall i :: 0 <= i < |steps| ==> Enabled(run[i], steps[i]) && run[i + 1] == Do(run[i], steps[i])
  }

  /** In every careful run, no credit appears or disappears: consumption, charges, overlapping and failing flushes included. */
  lemma {:induction false} CreditsAreConserved(run: seq<Account>, steps: seq<Step>, i: nat)
    requires IsRun(run, steps) && i < |run| && forall k :: 0 <= k < i ==> Careful(run[k], steps[k])
    ensures Inv(run[i])
  {
    if i > 0 {
      CreditsAreConserved(run, steps, i - 1);
      StepKeepsInv(run[i - 1], steps[i - 1]);
    }
  }

  /** With nothing buffered and nothing on its way, the row has lost what was accepted, except what a flush forgave. */
  lemma SettledAccount(run: seq<Account>, steps: seq<Step>, i: nat)
    requires IsRun(run, steps) && i < |run| && forall k :: 0 <= k < i ==> Careful(run[k], steps[k])
    requires Pending(run[i]) == 0 && run[i].flights == []
    ensures Amount(run[i]) == run[i].start + run[i].topups - run[i].accepted + run[i].forgiven
  {
    CreditsAreConserved(run, steps, i);
  }

  /** A failed flush gives back what it took, to the entry that the buffer has from then on. */
  lemma FailedFlushIsUndone(a: Account, i: nat)
    requires Inv(a) && Enabled(a, Fail(i))
    ensures var a' := Do(a, Fail(i));
            && Pending(a') == Pending(a) + a.flights[i].flushed && Amount(a') == Amount(a)
            && InFlight(a'.flights) == InFlight(a.flights) - a.flights[i].flushed
  {
    InFlightSplit(a.flights, i);
  }

  /**
    A fresh entry stored between the capture and the flush of the old one copies its pending credits:
    whatever the old entry holds is then taken from the row and still pending.
   */
  lemma ReplacedEntryIsChargedTwice(a: Account, remainingFromDb: int, newRef: Ref)
    requires Inv(a) && a.flights == [] && Pending(a) > 0 && a.entry.value in a.cells && newRef !in a.cells
    requires Amount(a) >= Pending(a) && Floored(remainingFromDb - Pending(a)) >= MIN_CREDITS_FOR_BUFFER
    ensures var a1 := Do(a, Capture);
            var a2 := Do(a1, UpdateBuffer(remainingFromDb, newRef));
            var a3 := Do(a2, Take(0));
            var a4 := Do(a3, Write(0));
            && Enabled(a1, UpdateBuffer(remainingFromDb, newRef)) && Enabled(a2, Take(0)) && Enabled(a3, Write(0))
            && Amount(a4) == Amount(a) - Pending(a) && Pending(a4) == Pending(a) && !Conserved(a4)
  {
    var a1 := Do(a, Capture);
    assert a.flights + [Captured(a.entry.value)] == [Captured(a.entry.value)];
    var a2 := Do(a1, UpdateBuffer(remainingFromDb, newRef));
    assert Pending(a1) == Pending(a);
    assert a2.flights == [Captured(a.entry.value)] && a2.cells[a.entry.value] == a.cells[a.entry.value];
    var a3 := Do(a2, Take(0));
    assert a3.flights == [Taken(a.entry.value, Pending(a))];
    var a4 := Do(a3, Write(0));
    assert a4.flights == [];
  }
}
