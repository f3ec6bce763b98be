/** The credits buffer, one uninterrupted segment of its code per method, against the steps of the ledger. */
module CreditsMaster {
  import opened Common
  import opened CreditsLedger

  class Entry {
    var remaining: int
    var pending: nat

    constructor (remaining: int, pending: nat)
      ensures this.remaining == remaining && this.pending == pending
    {
      this.remaining, this.pending := remaining, pending;
    }
  }

  datatype Charge = Charged | ConstraintFailed | NoRow

  class CreditsMaster {
    var buffer: map<string, Entry>
    /** The amounts of the credits table. */
    var amounts: map<string, nat>

    constructor (amounts: map<string, nat>)
      ensures buffer == map[] && this.amounts == amounts
    {
      buffer, this.amounts := map[], amounts;
    }

    /** `refs` names the entry objects that belong to the user; the account has their fields. */
    ghost predicate Shows(userId: string, a: Account, refs: map<Ref, Entry>)
      reads this, refs.Values
    {
      && a.cells.Keys == refs.Keys
      && (forall r, q :: r in refs && q in refs && r != q ==> refs[r] != refs[q])
      && (forall r :: r in refs ==> a.cells[r] == Cell(refs[r].remaining, refs[r].pending))
      && (a.entry.Some? <==> userId in buffer)
      && (a.entry.Some? ==> a.entry.value in refs && buffer[userId] == refs[a.entry.value])
      && a.row == Lookup(amounts, userId)
    }

    method ConsumeFromBuffer(userId: string, credits: nat, ghost a: Account, ghost refs: map<Ref, Entry>) returns (remaining: Option<int>)
      requires Shows(userId, a, refs)
      modifies this`buffer, refs.Values
      ensures buffer == old(buffer)
      ensures remaining.Some? <==> Enabled(a, ConsumeBuffered(credits))
      ensures remaining.Some? ==> Shows(userId, Do(a, ConsumeBuffered(credits)), refs) && remaining.value == buffer[userId].remaining
      ensures remaining.None? ==> Shows(userId, a, refs)
    {
      if userId !in buffer || buffer[userId].remaining - credits < MIN_CREDITS_FOR_BUFFER {
        return None;
      }
      var entry := buffer[userId];
      assert entry in refs.Values;
      entry.remaining := entry.remaining - credits;
      entry.pending := entry.pending + credits;
      buffer := buffer[userId := entry];
      return Some(entry.remaining);
    }

    /** The UPDATE of a direct charge, under the constraint that amounts are not negative. */
    method ChargeDb(userId: string, credits: nat, ghost a: Account, ghost refs: map<Ref, Entry>) returns (result: Charge)
      requires Shows(userId, a, refs)
      modifies this`amounts
      ensures result.Charged? <==> Enabled(a, ChargeRow(credits))
      ensures result.NoRow? <==> a.row.None?
      ensures Shows(userId, if result.Charged? then Do(a, ChargeRow(credits)) else a, refs)
      ensures forall u :: u != userId ==> Lookup(amounts, u) == old(Lookup(amounts, u))
    {
      if userId !in amounts {
        return NoRow;
      }
      if amounts[userId] < credits {
        return ConstraintFailed;
      }
      amounts := amounts[userId := amounts[userId] - credits];
      return Charged;
    }

    /** The SELECT of a row; no row counts as nothing. */
    method RemainingFromDb(userId: string, ghost a: Account, ghost refs: map<Ref, Entry>) returns (amount: nat)
      requires Shows(userId, a, refs)
      ensures amount == Amount(a)
    {
      amount := if userId in amounts then amounts[userId] else 0;
    }

    method UpdateBuffer(userId: string, remainingFromDb: int, ghost a: Account, ghost refs: map<Ref, Entry>, ghost newRef: Ref)
      returns (remaining: nat, ghost refs': map<Ref, Entry>)
      requires Shows(userId, a, refs) && newRef !in a.cells
      modifies this`buffer, refs.Values
      ensures remaining == Floored(remainingFromDb - Pending(a))
      ensures Enabled(a, CreditsLedger.UpdateBuffer(remainingFromDb, newRef))
      ensures Shows(userId, Do(a, CreditsLedger.UpdateBuffer(remainingFromDb, newRef)), refs')
      ensures forall r :: r in refs ==> r in refs' && refs'[r] == refs[r]
      ensures forall r :: r in refs' && r !in refs ==> r == newRef && fresh(refs'[r])
      ensures forall u :: u != userId ==> Lookup(buffer, u) == old(Lookup(buffer, u))
    {
      refs' := refs;
      var pending := if userId in buffer then buffer[userId].pending else 0;
      remaining := Floored(remainingFromDb - pending);
      if remaining >= MIN_CREDITS_FOR_BUFFER {
        var entry := new Entry(remaining, pending);
        refs' := refs[newRef := entry];
        buffer := buffer[userId := entry];
      } else if userId in buffer {
        var entry := buffer[userId];
        assert entry in refs.Values;
        entry.remaining := remaining;
        if entry.pending == 0 {
          buffer := buffer - {userId};
        }
      }
    }

    /** What a request for the balance does once it has read the row. */
    method RefreshRemaining(userId: string, remainingFromDb: nat, ghost a: Account, ghost refs: map<Ref, Entry>) returns (remaining: int)
      requires Shows(userId, a, refs)
      modifies refs.Values
      ensures Shows(userId, if a.entry.Some? then Do(a, Refresh(remainingFromDb)) else a, refs)
      ensures remaining == Floored(remainingFromDb - Pending(a))
    {
      if userId !in buffer {
        return remainingFromDb;
      }
      var entry := buffer[userId];
      assert entry in refs.Values;
      entry.remaining := Floored(remainingFromDb - entry.pending);
      return entry.remaining;
    }

    /** The entries that a flush will handle: for each user, the object that the capturing step names, if it can be taken. */
    method CaptureEntries(ghost userId: string, ghost a: Account, ghost refs: map<Ref, Entry>) returns (captured: map<string, Entry>)
      requires Shows(userId, a, refs)
      ensures forall u :: u in captured <==> u in buffer && buffer[u].pending > 0
      ensures forall u :: u in captured ==> captured[u] == buffer[u]
      ensures userId in captured <==> Enabled(a, Capture)
      ensures userId in captured ==>
                var a' := Do(a, Capture);
                Shows(userId, a', refs) && a'.flights == a.flights + [Captured(a.entry.value)] && captured[userId] == refs[a.entry.value]
    {
      captured := map u | u in buffer && buffer[u].pending > 0 :: buffer[u];
    }

    method TakePending(entry: Entry, ghost userId: string, ghost a: Account, ghost refs: map<Ref, Entry>, ghost i: nat) returns (flushed: nat)
      requires Shows(userId, a, refs) && Enabled(a, Take(i)) && refs[a.flights[i].ref] == entry
      modifies entry
      ensures Do(a, Take(i)).flights[i] == Taken(a.flights[i].ref, flushed)
      ensures Shows(userId, Do(a, Take(i)), refs)
    {
      flushed := entry.pending;
      entry.pending := 0;
    }

    method WriteFlush(userId: string, flushed: nat, ghost a: Account, ghost refs: map<Ref, Entry>, ghost i: nat)
      requires Shows(userId, a, refs) && Enabled(a, Write(i)) && a.flights[i].flushed == flushed
      modifies this`amounts
      ensures Shows(userId, Do(a, Write(i)), refs)
      ensures forall u :: u != userId ==> Lookup(amounts, u) == old(Lookup(amounts, u))
    {
      if userId in amounts {
        amounts := amounts[userId := if amounts[userId] > flushed then amounts[userId] - flushed else 0];
      }
    }

    method UndoFlush(userId: string, entry: Entry, flushed: nat, ghost a: Account, ghost refs: map<Ref, Entry>, ghost i: nat)
      requires Shows(userId, a, refs) && Enabled(a, Fail(i)) && a.flights[i].flushed == flushed && refs[a.flights[i].ref] == entry
      modifies this`buffer, entry
      ensures Shows(userId, Do(a, Fail(i)), refs)
      ensures forall u :: u != userId ==> Lookup(buffer, u) == old(Lookup(buffer, u))
    {
      entry.pending := entry.pending + flushed;
      buffer := buffer[userId := entry];
    }

    method SetRemainingAfterFlush(entry: Entry, remainingFromDb: nat, ghost userId: string, ghost a: Account, ghost refs: map<Ref, Entry>, ghost ref: Ref)
      requires Shows(userId, a, refs) && ref in refs && refs[ref] == entry
      modifies entry
      ensures Shows(userId, Do(a, SetRemaining(ref, remainingFromDb)), refs)
    {
      entry.remaining := Floored(remainingFromDb - entry.pending);
    }
  }
}
