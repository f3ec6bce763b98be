/** The Lua scripts of the measurement store, as steps on the keys they touch. */
module MeasurementScripts {
  import opened Common

  type Id = string

  datatype TestStatus = InProgress | Finished | Failed | Offline

  datatype TestResult = TestResult(status: TestStatus, failureSource: string, rawOutput: string, rawHeaders: Option<string>,
                                   rawBody: Option<string>)

  datatype Progress = Progress(rawOutput: string, rawHeaders: Option<string>, rawBody: Option<string>)

  datatype Measurement = Measurement(finished: bool, updatedAt: nat, results: seq<TestResult>)

  /** A finished document is kept in another representation, which the JSON commands reject. */
  datatype Document = Document(record: Measurement, compressed: bool)

  datatype Keys = Keys(docs: map<Id, Document>, awaiting: map<Id, int>, timeouts: map<Id, int>)

  const TIMEOUT_MESSAGE := "\n\nThe measurement timed out."

  /** The document can be changed by JSON commands. */
  predicate Writable(k: Keys, id: Id) {
    id in k.docs && !k.docs[id].compressed
  }

  function Overwritten(r: TestResult, p: Progress): TestResult {
    r.(rawOutput := p.rawOutput,
       rawHeaders := if p.rawHeaders.Some? then p.rawHeaders else r.rawHeaders,
       rawBody := if p.rawBody.Some? then p.rawBody else r.rawBody)
  }

  function AppendTo(text: Option<string>, more: Option<string>): Option<string> {
    if text.Some? && more.Some? then Some(text.value + more.value) else text
  }

  function Appended(r: TestResult, p: Progress): TestResult {
    r.(rawOutput := r.rawOutput + p.rawOutput, rawHeaders := AppendTo(r.rawHeaders, p.rawHeaders),
       rawBody := AppendTo(r.rawBody, p.rawBody))
  }

  /** A path that matches nothing is left alone. */
  function SetResult(m: Measurement, test: nat, r: TestResult): Measurement {
    if test < |m.results| then m.(results := m.results[test := r]) else m
  }

  function WithProgress(m: Measurement, test: nat, p: Progress, overwrite: bool, date: nat): Measurement {
    var changed := if test >= |m.results| then m
                   else SetResult(m, test, if overwrite then Overwritten(m.results[test], p) else Appended(m.results[test], p));
    changed.(updatedAt := date)
  }

  function PutRecord(k: Keys, id: Id, m: Measurement, compressed: bool): Keys {
    k.(docs := k.docs[id := Document(m, compressed)])
  }

  function RecordProgress(k: Keys, id: Id, test: nat, p: Progress, overwrite: bool, date: nat): Keys {
    if id !in k.awaiting || !Writable(k, id) then k
    else PutRecord(k, id, WithProgress(k.docs[id].record, test, p, overwrite, date), false)
  }

  /** The reply is the whole record when this result was the last one. A failing JSON command leaves the DECR in place. */
  function RecordResult(k: Keys, id: Id, test: nat, r: TestResult, date: nat): (Keys, Option<Measurement>) {
    if id !in k.awaiting then (k, None)
    else
      var left := k.awaiting[id] - 1;
      var k1 := k.(awaiting := k.awaiting[id := left]);
      if !Writable(k, id) then (k1, None)
      else
        var m := SetResult(k.docs[id].record, test, r).(updatedAt := date);
        if left != 0 then (PutRecord(k1, id, m, false), None)
        else
          var done := m.(finished := true);
          (PutRecord(k.(awaiting := k.awaiting - {id}), id, done, true), Some(done))
  }

  function TimedOut(r: TestResult): TestResult {
    if r.status.InProgress? then r.(status := Failed, failureSource := "internal", rawOutput := r.rawOutput + TIMEOUT_MESSAGE) else r
  }

  function AllTimedOut(results: seq<TestResult>): seq<TestResult> {
    seq(|results|, i requires 0 <= i < |results| => TimedOut(results[i]))
  }

  function MarkFinishedByTimeout(k: Keys, id: Id, date: nat): (Keys, Option<Measurement>) {
    if !Writable(k, id) then (k, None)
    else
      var k1 := k.(awaiting := k.awaiting - {id});
      var m := k.docs[id].record;
      if m.finished then (k1, None)
      else
        var done := Measurement(true, date, AllTimedOut(m.results));
        (PutRecord(k1, id, done, true), Some(done))
  }

  // ---------------------------------------------------------------- claims

  predicate Due(timeouts: map<Id, int>, now: int, id: Id) {
    id in timeouts && timeouts[id] <= now
  }

  function DueIds(timeouts: map<Id, int>, now: int): set<Id> {
    set id | id in timeouts && timeouts[id] <= now
  }

  function ScoreOf(timeouts: map<Id, int>, id: Id): int {
    if id in timeouts then timeouts[id] else 0
  }

  /** What ZRANGEBYSCORE with a LIMIT may return: the due ids, lowest scores first, at most `limit` of them. */
  ghost predicate IsBatch(timeouts: map<Id, int>, now: int, limit: nat, ids: seq<Id>) {
    && Distinct(ids)
    && (forall id :: id in ids ==> Due(timeouts, now, id))
    && |ids| == Min(limit, |DueIds(timeouts, now)|)
    && (forall i, j :: 0 <= i < j < |ids| ==> ScoreOf(timeouts, ids[i]) <= ScoreOf(timeouts, ids[j]))
    && (forall id, other :: id in ids && Due(timeouts, now, other) && other !in ids ==> timeouts[id] <= timeouts[other])
  }

  function Leased(timeouts: map<Id, int>, ids: seq<Id>, until: int): map<Id, int> {
    timeouts + map id | id in ids :: until
  }

  lemma LeasedOneMore(timeouts: map<Id, int>, ids: seq<Id>, id: Id, until: int)
    ensures Leased(timeouts, ids + [id], until) == Leased(timeouts, ids, until)[id := until]
  {
    assert forall x :: x in ids + [id] <==> x in ids || x == id;
  }

  /** A due id is claimed unless as many others as the batch holds were due no later. */
  lemma DueIsClaimed(timeouts: map<Id, int>, now: int, limit: nat, ids: seq<Id>, id: Id)
    requires IsBatch(timeouts, now, limit, ids) && Due(timeouts, now, id)
    ensures id in ids || (|ids| == limit && forall other :: other in ids ==> timeouts[other] <= timeouts[id])
    ensures |DueIds(timeouts, now)| <= limit ==> id in ids
  {
    if id !in ids && |DueIds(timeouts, now)| <= limit {
      var claimed := set x | x in ids;
      DistinctSize(ids);
      assert claimed <= DueIds(timeouts, now) - {id};
      SubsetSize(claimed, DueIds(timeouts, now) - {id});
    }
  }

  // ---------------------------------------------------------------- the scripts, command by command

  class MeasurementRedis {
    var docs: map<Id, Document>
    var awaiting: map<Id, int>
    var timeouts: map<Id, int>

    constructor ()
      ensures View() == Keys(map[], map[], map[])
    {
      docs, awaiting, timeouts := map[], map[], map[];
    }

    function View(): Keys
      reads this
    {
      Keys(docs, awaiting, timeouts)
    }

    method SetRecord(id: Id, m: Measurement)
      requires id in docs && !docs[id].compressed
      modifies this`docs
      ensures docs == old(docs)[id := Document(m, false)]
    {
      docs := docs[id := Document(m, false)];
    }

    method RecordProgressScript(id: Id, test: nat, p: Progress, overwrite: bool, date: nat)
      modifies this
      ensures View() == RecordProgress(old(View()), id, test, p, overwrite, date)
    {
      if id !in awaiting || id !in docs || docs[id].compressed {
        return;
      }
      var m := docs[id].record;
      if test < |m.results| {
        var r := m.results[test];
        r := r.(rawOutput := if overwrite then p.rawOutput else r.rawOutput + p.rawOutput);
        if p.rawHeaders.Some? {
          r := r.(rawHeaders := if overwrite then p.rawHeaders else AppendTo(r.rawHeaders, p.rawHeaders));
        }
        if p.rawBody.Some? {
          r := r.(rawBody := if overwrite then p.rawBody else AppendTo(r.rawBody, p.rawBody));
        }
        m := m.(results := m.results[test := r]);
      }
      SetRecord(id, m.(updatedAt := date));
    }

    method RecordResultScript(id: Id, test: nat, r: TestResult, date: nat) returns (reply: Option<Measurement>)
      modifies this
      ensures (View(), reply) == RecordResult(old(View()), id, test, r, date)
    {
      if id !in awaiting {
        return None;
      }
      awaiting := awaiting[id := awaiting[id] - 1];
      var left := awaiting[id];
      if id !in docs || docs[id].compressed {
        return None;
      }
      var m := docs[id].record;
      if test < |m.results| {
        m := m.(results := m.results[test := r]);
      }
      m := m.(updatedAt := date);
      SetRecord(id, m);
      if left != 0 {
        return None;
      }
      awaiting := awaiting - {id};
      assert awaiting == old(awaiting) - {id};
      m := m.(finished := true);
      docs := docs[id := Document(m, true)];
      assert docs == old(docs)[id := Document(m, true)];
      return Some(m);
    }

    method MarkFinishedByTimeoutScript(id: Id, date: nat) returns (reply: Option<Measurement>)
      modifies this
      ensures (View(), reply) == MarkFinishedByTimeout(old(View()), id, date)
    {
      if id !in docs || docs[id].compressed {
        return None;
      }
      var decoded := docs[id].record;
      awaiting := awaiting - {id};
      if decoded.finished {
        return None;
      }
      var m := decoded.(finished := true, updatedAt := date);
      for i := 0 to |decoded.results|
        invariant m.finished && m.updatedAt == date && |m.results| == |decoded.results|
        invariant forall j :: 0 <= j < i ==> m.results[j] == TimedOut(decoded.results[j])
        invariant forall j :: i <= j < |m.results| ==> m.results[j] == decoded.results[j]
      {
        if decoded.results[i].status.InProgress? {
          var r := m.results[i];
          r := r.(status := Failed);
          r := r.(failureSource := "internal");
          r := r.(rawOutput := decoded.results[i].rawOutput + TIMEOUT_MESSAGE);
          m := m.(results := m.results[i := r]);
        }
      }
      assert m.results == AllTimedOut(decoded.results);
      docs := docs[id := Document(m, true)];
      return Some(m);
    }

    /** `ids` is the reply of ZRANGEBYSCORE. */
    method ClaimTimedOutScript(now: int, limit: nat, until: int, ids: seq<Id>) returns (claimed: seq<Id>)
      requires IsBatch(timeouts, now, limit, ids)
      modifies this
      ensures claimed == ids && docs == old(docs) && awaiting == old(awaiting)
      ensures timeouts == Leased(old(timeouts), ids, until)
    {
      AddScores(ids, until);
      return ids;
    }

    method AddScores(ids: seq<Id>, score: int)
      modifies this`timeouts
      ensures timeouts == Leased(old(timeouts), ids, score)
    {
      for i := 0 to |ids|
        invariant timeouts == Leased(old(timeouts), ids[..i], score)
      {
        LeasedOneMore(old(timeouts), ids[..i], ids[i], score);
        assert ids[..i + 1] == ids[..i] + [ids[i]];
        timeouts := timeouts[ids[i] := score];
      }
      assert ids[..|ids|] == ids;
    }
  }
}
