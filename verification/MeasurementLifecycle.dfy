/**
  The life of measurements: creation, progress, results, cleaners on many workers and the
  offload queue, one Redis command or script at a time.
 */
module MeasurementLifecycle {
  import opened Common
  import opened MeasurementScripts

  const SCAN_BATCH_SIZE: nat := 2000
  const CLEANUP_LEASE_TIME: int := 30_000
  const TIMEOUT: int := 30_000

  datatype Command = AddTimeout | SetAwaiting | SetDocument | Compress

  datatype Entry = Entry(id: Id, record: Measurement)

  /** Where the record of a finished measurement is once a script or its creation has returned it. */
  datatype Place = InTask(t: nat) | Queued | Lost

  /**
    Work that waits between two awaits: after a last result, or inside a cleaner. `early` only
    records the ids whose script the cleaner called while their document was still to be stored.
   */
  datatype Task =
    | LastResult(entry: Entry, removed: bool)
    | Cleaner(batch: set<Id>, left: set<Id>, got: map<Id, Measurement>, failed: bool, removed: bool, early: set<Id>)

  /**
    `initial` is what creation stores; `creating` lists the commands a creation still has to run.
    `custody`, `reported` and `claimedAt` only record what happened: who has the record of a
    finished measurement, which tests have reported, and when an id was last claimed.
   */
  datatype System = System(
    keys: Keys, initial: map<Id, Measurement>, startedAt: map<Id, int>, creating: map<Id, set<Command>>, created: set<Id>,
    tasks: map<nat, Task>, queue: seq<Entry>, custody: map<Id, Place>, reported: set<(Id, nat)>, claimedAt: map<Id, int>)

  datatype Step =
    | BeginCreate(id: Id, results: seq<TestResult>, start: nat)
    | Run(id: Id, command: Command)
    | EndCreate(id: Id)
    | SendProgress(id: Id, test: nat, progress: Progress, overwrite: bool, date: nat)
    | SendResult(t: nat, id: Id, test: nat, result: TestResult, date: nat)
    | RemoveFinished(t: nat)
    | Enqueue(t: nat, order: seq<Id>)
    | Claim(t: nat, now: int, ids: seq<Id>)
    | Mark(t: nat, id: Id, date: nat, replyLost: bool)
    | MarkFails(t: nat, id: Id)
    | Die(t: nat)
    | ExpireAwaiting(id: Id)
    | ExpireDocument(id: Id)

  function InProgressTests(results: seq<TestResult>): set<nat> {
    set k: nat | k < |results| && results[k].status.InProgress?
  }

  /** With nobody to wait for, a measurement is finished from the start. */
  function InitialRecord(results: seq<TestResult>, start: nat): Measurement {
    Measurement(InProgressTests(results) == {}, start, results)
  }

  function CreationCommands(m: Measurement): set<Command> {
    if m.finished then {SetDocument, Compress} else {AddTimeout, SetAwaiting, SetDocument}
  }

  function Held(task: Task): set<Id> {
    match task
    case LastResult(entry, _) => {entry.id}
    case Cleaner(_, _, got, _, _, _) => got.Keys
  }

  function RecordOf(task: Task, id: Id): Measurement
    requires id in Held(task)
  {
    match task
    case LastResult(entry, _) => entry.record
    case Cleaner(_, _, got, _, _, _) => got[id]
  }

  function Entries(task: Task, order: seq<Id>): seq<Entry>
    requires forall id :: id in order ==> id in Held(task)
  {
    seq(|order|, i requires 0 <= i < |order| => Entry(order[i], RecordOf(task, order[i])))
  }

  ghost predicate Enabled(s: System, step: Step) {
    match step
    case BeginCreate(id, _, _) => id !in s.initial
    case Run(id, command) =>
      id in s.initial && id in s.creating && command in s.creating[id] && (command.Compress? ==> s.creating[id] == {Compress})
    case EndCreate(id) => id in s.initial && id in s.creating && s.creating[id] == {}
    case SendProgress(id, _, _, _, _) => id in s.created
    case SendResult(t, id, _, result, _) => t !in s.tasks && id in s.created && (result.status.Finished? || result.status.Failed?)
    case RemoveFinished(t) =>
      t in s.tasks && !s.tasks[t].removed && (s.tasks[t].Cleaner? ==> s.tasks[t].left == {} && !s.tasks[t].failed)
    case Enqueue(t, order) =>
      t in s.tasks && s.tasks[t].removed && Distinct(order) && forall id :: id in order <==> id in Held(s.tasks[t])
    case Claim(t, now, ids) => t !in s.tasks && IsBatch(s.keys.timeouts, now, SCAN_BATCH_SIZE, ids)
    case Mark(t, id, _, _) => t in s.tasks && s.tasks[t].Cleaner? && id in s.tasks[t].left
    case MarkFails(t, id) => t in s.tasks && s.tasks[t].Cleaner? && id in s.tasks[t].left
    case Die(t) => t in s.tasks
    case ExpireAwaiting(id) => id in s.created
    case ExpireDocument(id) => id in s.created
  }

  function RunCommand(k: Keys, id: Id, m: Measurement, start: int, command: Command): Keys {
    match command
    case AddTimeout => k.(timeouts := k.timeouts[id := start + TIMEOUT])
    case SetAwaiting => k.(awaiting := k.awaiting[id := |InProgressTests(m.results)|])
    case SetDocument => PutRecord(k, id, m, false)
    case Compress => if id in k.docs then PutRecord(k, id, k.docs[id].record, true) else k
  }

  function Moved(custody: map<Id, Place>, ids: set<Id>, place: Place): map<Id, Place> {
    custody + map id | id in ids :: place
  }

  /** Once a call has failed, the cleaner throws away what it got and what it still gets. */
  function AfterReply(task: Task, id: Id, reply: Option<Measurement>, replyLost: bool, early: bool): Task
    requires task.Cleaner?
  {
    var failed := task.failed || replyLost;
    task.(left := task.left - {id}, failed := failed, early := if early then task.early + {id} else task.early,
          got := if failed then map[] else if reply.Some? then task.got[id := reply.value] else task.got)
  }

  function CustodyAfterReply(custody: map<Id, Place>, t: nat, task: Task, id: Id, reply: Option<Measurement>, replyLost: bool): map<Id, Place>
    requires task.Cleaner?
  {
    var more := if reply.Some? then {id} else {};
    if task.failed || replyLost then Moved(custody, task.got.Keys + more, Lost) else Moved(custody, more, InTask(t))
  }

  /** The creation has not stored the document yet. */
  predicate StillToWrite(s: System, id: Id) {
    id in s.creating && SetDocument in s.creating[id]
  }

  /** One script call of a cleaner. */
  function DoMark(s: System, t: nat, id: Id, date: nat, replyLost: bool): System
    requires t in s.tasks && s.tasks[t].Cleaner?
  {
    var (keys, reply) := MarkFinishedByTimeout(s.keys, id, date);
    s.(keys := keys, custody := CustodyAfterReply(s.custody, t, s.tasks[t], id, reply, replyLost),
       tasks := s.tasks[t := AfterReply(s.tasks[t], id, reply, replyLost, StillToWrite(s, id))])
  }

  function DoBeginCreate(s: System, id: Id, m: Measurement, start: int): System {
    s.(initial := s.initial[id := m], startedAt := s.startedAt[id := start], creating := s.creating[id := CreationCommands(m)])
  }

  function DoRun(s: System, id: Id, command: Command): System
    requires id in s.initial && id in s.creating
  {
    s.(keys := RunCommand(s.keys, id, s.initial[id], if id in s.startedAt then s.startedAt[id] else 0, command),
       creating := s.creating[id := s.creating[id] - {command}])
  }

  function DoEndCreate(s: System, id: Id): System
    requires id in s.initial
  {
    var m := s.initial[id];
    var s1 := s.(creating := s.creating - {id}, created := s.created + {id});
    if m.finished then s1.(queue := s.queue + [Entry(id, m)], custody := s.custody[id := Queued]) else s1
  }

  function DoSendResult(s: System, t: nat, id: Id, test: nat, result: TestResult, date: nat): System {
    var (keys, reply) := RecordResult(s.keys, id, test, result, date);
    var s1 := s.(keys := keys, reported := s.reported + {(id, test)});
    if reply.Some?
    then s1.(tasks := s.tasks[t := LastResult(Entry(id, reply.value), false)], custody := s.custody[id := InTask(t)])
    else s1
  }

  function DoRemoveFinished(s: System, t: nat): System
    requires t in s.tasks
  {
    var gone := if s.tasks[t].Cleaner? then s.tasks[t].batch else Held(s.tasks[t]);
    s.(keys := s.keys.(timeouts := s.keys.timeouts - gone), tasks := s.tasks[t := s.tasks[t].(removed := true)])
  }

  function DoEnqueue(s: System, t: nat, order: seq<Id>): System
    requires t in s.tasks && forall id :: id in order ==> id in Held(s.tasks[t])
  {
    s.(queue := s.queue + Entries(s.tasks[t], order), custody := Moved(s.custody, Held(s.tasks[t]), Queued), tasks := s.tasks - {t})
  }

  function DoClaim(s: System, t: nat, now: int, ids: seq<Id>): System {
    s.(keys := s.keys.(timeouts := Leased(s.keys.timeouts, ids, now + CLEANUP_LEASE_TIME)),
       claimedAt := s.claimedAt + map id | id in ids :: now,
       tasks := if ids == [] then s.tasks
                else s.tasks[t := Cleaner(set id | id in ids, set id | id in ids, map[], false, false, {})])
  }

  function DoMarkFails(s: System, t: nat, id: Id): System
    requires t in s.tasks && s.tasks[t].Cleaner?
  {
    var task := s.tasks[t];
    s.(custody := Moved(s.custody, task.got.Keys, Lost), tasks := s.tasks[t := task.(left := task.left - {id}, failed := true, got := map[])])
  }

  function DoDie(s: System, t: nat): System
    requires t in s.tasks
  {
    s.(custody := Moved(s.custody, Held(s.tasks[t]), Lost), tasks := s.tasks - {t})
  }

  function Do(s: System, step: Step): System
    requires Enabled(s, step)
  {
    match step
    case BeginCreate(id, results, start) => DoBeginCreate(s, id, InitialRecord(results, start), start)
    case Run(id, command) => DoRun(s, id, command)
    case EndCreate(id) => DoEndCreate(s, id)
    case SendProgress(id, test, progress, overwrite, date) =>
      s.(keys := RecordProgress(s.keys, id, test, progress, overwrite, date))
    case SendResult(t, id, test, result, date) => DoSendResult(s, t, id, test, result, date)
    case RemoveFinished(t) => DoRemoveFinished(s, t)
    case Enqueue(t, order) => DoEnqueue(s, t, order)
    case Claim(t, now, ids) => DoClaim(s, t, now, ids)
    case Mark(t, id, date, replyLost) => DoMark(s, t, id, date, replyLost)
    case MarkFails(t, id) => DoMarkFails(s, t, id)
    case Die(t) => DoDie(s, t)
    case ExpireAwaiting(id) => s.(keys := s.keys.(awaiting := s.keys.awaiting - {id}))
    case ExpireDocument(id) => s.(keys := s.keys.(docs := s.keys.docs - {id}))
  }

  ghost predicate Init(s: System) {
    s == System(Keys(map[], map[], map[]), map[], map[], map[], {}, map[], [], map[], {}, map[])
  }

  ghost predicate IsRun(run: seq<System>, steps: seq<Step>) {
    |run| == |steps| + 1 && Init(run[0]) &&
    forall i :: 0 <= i < |steps| ==> Enabled(run[i], steps[i]) && run[i + 1] == Do(run[i], steps[i])
  }

  // ---------------------------------------------------------------- finished for good, returned once

  /** What is known of one measurement; `waits` says that it had tests to wait for. */
  ghost predicate IdInv(s: System, id: Id) {
    && (id in s.initial <==> id in s.creating || id in s.created)
    && !(id in s.creating && id in s.created)
    && (id in s.keys.docs || id in s.keys.awaiting || id in s.keys.timeouts || id in s.custody ==> id in s.initial)
    && (id in s.initial && id in s.creating ==> s.creating[id] <= CreationCommands(s.initial[id]))
    && (id in s.creating && SetDocument in s.creating[id] ==> id !in s.keys.docs && id !in s.custody)
    && (id in s.initial ==> if s.initial[id].finished then FinishedAtOnce(s, id) else Waits(s, id))
  }

  /** Nobody had to report: the document is what creation stored, and creation hands over the record. */
  ghost predicate FinishedAtOnce(s: System, id: Id)
    requires id in s.initial
  {
    && id !in s.keys.awaiting && id !in s.keys.timeouts
    && (id in s.created <==> id in s.custody)
    && (id in s.creating && SetDocument in s.creating[id] ==> Compress in s.creating[id])
    && (id in s.keys.docs ==> s.keys.docs[id].record == s.initial[id])
    && (id in s.keys.docs && (id in s.created || (id in s.creating && Compress !in s.creating[id])) ==> s.keys.docs[id].compressed)
  }

  /** A finished document is sealed by compression, and exactly then somebody got its record. */
  ghost predicate Waits(s: System, id: Id) {
    id in s.keys.docs ==>
      && (s.keys.docs[id].compressed <==> s.keys.docs[id].record.finished)
      && (s.keys.docs[id].compressed <==> id in s.custody)
  }

  /** What one step may do to a document and to the custody of its record. */
  ghost predicate Absorbs(s: System, s': System, id: Id) {
    && (id in s.keys.docs && s.keys.docs[id].record.finished && id in s'.keys.docs ==> s'.keys.docs[id].record == s.keys.docs[id].record)
    && (id in s.keys.docs && s.keys.docs[id].compressed && id in s'.keys.docs ==> s'.keys.docs[id] == s.keys.docs[id])
    && (id in s.custody ==> id in s'.custody && (id in s'.keys.docs ==> id in s.keys.docs))
  }

  /** The steps on a measurement's own keys. */
  predicate Acts(step: Step, id: Id) {
    match step
    case BeginCreate(x, _, _) => x == id
    case Run(x, _) => x == id
    case EndCreate(x) => x == id
    case SendProgress(x, _, _, _, _) => x == id
    case SendResult(_, x, _, _, _) => x == id
    case Mark(_, x, _, _) => x == id
    case ExpireAwaiting(x) => x == id
    case ExpireDocument(x) => x == id
    case _ => false
  }

  predicate IsCreationStep(step: Step) {
    step.BeginCreate? || step.Run? || step.EndCreate?
  }

  predicate IsScriptStep(step: Step) {
    step.SendProgress? || step.SendResult? || step.Mark?
  }

  lemma OwnCreationStep(s: System, step: Step, id: Id)
    requires IdInv(s, id) && Enabled(s, step) && IsCreationStep(step) && Acts(step, id)
    ensures IdInv(Do(s, step), id) && Absorbs(s, Do(s, step), id)
  {
  }

  /** All that the invariant needs to know about a script: it works on one unsealed document, and replies when it seals it. */
  ghost predicate ScriptEffect(k: Keys, k': Keys, id: Id, reply: Option<Measurement>) {
    && (forall x :: x != id ==> Lookup(k'.docs, x) == Lookup(k.docs, x) && Lookup(k'.awaiting, x) == Lookup(k.awaiting, x))
    && k'.timeouts == k.timeouts
    && (id in k'.docs <==> id in k.docs) && (id in k'.awaiting ==> id in k.awaiting)
    && (id in k.docs ==>
          && (reply.Some? ==> !k.docs[id].compressed && k'.docs[id] == Document(reply.value, true) && reply.value.finished)
          && (reply.None? ==> k'.docs[id].compressed == k.docs[id].compressed && k'.docs[id].record.finished == k.docs[id].record.finished)
          && (k.docs[id].compressed || (k.docs[id].record.finished && id !in k.awaiting) ==> k'.docs[id] == k.docs[id] && reply.None?))
    && (id !in k.docs ==> reply.None?)
  }

  lemma ScriptEffects(k: Keys, id: Id, test: nat, p: Progress, overwrite: bool, r: TestResult, date: nat)
    ensures ScriptEffect(k, RecordProgress(k, id, test, p, overwrite, date), id, None)
    ensures var (k', reply) := RecordResult(k, id, test, r, date); ScriptEffect(k, k', id, reply)
    ensures var (k', reply) := MarkFinishedByTimeout(k, id, date); ScriptEffect(k, k', id, reply)
  {
  }

  /** The script step of `id`, seen only through its effect. */
  lemma EffectKeepsId(s: System, s': System, id: Id, reply: Option<Measurement>)
    requires IdInv(s, id) && ScriptEffect(s.keys, s'.keys, id, reply)
    requires s'.initial == s.initial && s'.creating == s.creating && s'.created == s.created
    requires id in s'.custody <==> id in s.custody || reply.Some?
    ensures IdInv(s', id) && Absorbs(s, s', id)
  {
  }

  lemma EffectLeavesOthers(s: System, s': System, x: Id, id: Id, reply: Option<Measurement>)
    requires x != id && ScriptEffect(s.keys, s'.keys, x, reply)
    requires s'.initial == s.initial && s'.creating == s.creating && s'.created == s.created
    requires id in s'.custody <==> id in s.custody
    ensures Untouched(s, s', id)
  {
  }

  /** The id a script step works on, the date it stamps, and what it gets back. */
  function ScriptReply(s: System, step: Step): Option<Measurement>
    requires IsScriptStep(step)
  {
    match step
    case SendResult(_, id, test, result, date) => RecordResult(s.keys, id, test, result, date).1
    case Mark(_, id, date, _) => MarkFinishedByTimeout(s.keys, id, date).1
    case _ => None
  }

  lemma MovedKeys(custody: map<Id, Place>, ids: set<Id>, place: Place)
    ensures Moved(custody, ids, place).Keys == custody.Keys + ids
  {
  }

  lemma MarkCustody(s: System, step: Step)
    requires Enabled(s, step) && step.Mark? && forall x :: x in Held(s.tasks[step.t]) ==> x in s.custody
    ensures Do(s, step).custody.Keys == s.custody.Keys + (if ScriptReply(s, step).Some? then {step.id} else {})
  {
    var more := if ScriptReply(s, step).Some? then {step.id} else {};
    var held := s.tasks[step.t].got.Keys;
    MovedKeys(s.custody, held + more, Lost);
    MovedKeys(s.custody, more, InTask(step.t));
    assert s.custody.Keys + (held + more) == s.custody.Keys + more;
  }

  function ScriptKeys(s: System, step: Step): Keys
    requires IsScriptStep(step)
  {
    match step
    case SendResult(_, id, test, result, date) => RecordResult(s.keys, id, test, result, date).0
    case Mark(_, id, date, _) => MarkFinishedByTimeout(s.keys, id, date).0
    case SendProgress(id, test, progress, overwrite, date) => RecordProgress(s.keys, id, test, progress, overwrite, date)
  }

  ghost predicate CreationUnchanged(s: System, s': System) {
    s'.initial == s.initial && s'.creating == s.creating && s'.created == s.created
  }

  lemma MarkKeys(s: System, step: Step)
    requires Enabled(s, step) && step.Mark?
    ensures Do(s, step).keys == ScriptKeys(s, step) && CreationUnchanged(s, Do(s, step))
  {
  }

  lemma SendKeys(s: System, step: Step)
    requires Enabled(s, step) && (step.SendProgress? || step.SendResult?)
    ensures Do(s, step).keys == ScriptKeys(s, step) && CreationUnchanged(s, Do(s, step))
    ensures Do(s, step).custody.Keys == s.custody.Keys + (if ScriptReply(s, step).Some? then {step.id} else {})
  {
  }

  lemma ScriptKeysEffect(s: System, step: Step)
    requires IsScriptStep(step)
    ensures ScriptEffect(s.keys, ScriptKeys(s, step), step.id, ScriptReply(s, step))
  {
    var p := Progress("", None, None);
    var r := TestResult(Failed, "", "", None, None);
    if step.Mark? {
      ScriptEffects(s.keys, step.id, 0, p, false, r, step.date);
    } else if step.SendResult? {
      ScriptEffects(s.keys, step.id, step.test, p, false, step.result, step.date);
    } else {
      ScriptEffects(s.keys, step.id, step.test, step.progress, step.overwrite, r, step.date);
    }
  }

  lemma ScriptStepEffect(s: System, step: Step)
    requires Enabled(s, step) && IsScriptStep(step)
    requires step.Mark? ==> forall x :: x in Held(s.tasks[step.t]) ==> x in s.custody
    ensures var s' := Do(s, step);
            && ScriptEffect(s.keys, s'.keys, step.id, ScriptReply(s, step))
            && CreationUnchanged(s, s')
            && s'.custody.Keys == s.custody.Keys + (if ScriptReply(s, step).Some? then {step.id} else {})
  {
    ScriptKeysEffect(s, step);
    if step.Mark? {
      MarkKeys(s, step);
      MarkCustody(s, step);
    } else {
      SendKeys(s, step);
    }
  }

  lemma OwnStep(s: System, step: Step, id: Id)
    requires IdInv(s, id) && Enabled(s, step) && Acts(step, id)
    requires forall t, x :: t in s.tasks && x in Held(s.tasks[t]) ==> x in s.custody
    ensures IdInv(Do(s, step), id) && Absorbs(s, Do(s, step), id)
  {
    if IsCreationStep(step) {
      OwnCreationStep(s, step, id);
    } else if IsScriptStep(step) {
      ScriptStepEffect(s, step);
      EffectKeepsId(s, Do(s, step), id, ScriptReply(s, step));
    }
  }

  /** What a step leaves alone of a measurement it does not act on. */
  ghost predicate Untouched(s: System, s': System, id: Id) {
    && (id in s'.initial <==> id in s.initial) && (id in s.initial ==> s'.initial[id] == s.initial[id])
    && (id in s'.creating <==> id in s.creating) && (id in s.creating ==> s'.creating[id] == s.creating[id])
    && (id in s'.created <==> id in s.created)
    && Lookup(s'.keys.docs, id) == Lookup(s.keys.docs, id)
    && Lookup(s'.keys.awaiting, id) == Lookup(s.keys.awaiting, id)
    && (id in s'.keys.timeouts ==> id in s.keys.timeouts)
    && (id in s'.custody <==> id in s.custody)
  }

  lemma UntouchedStays(s: System, s': System, id: Id)
    requires IdInv(s, id) && Untouched(s, s', id)
    ensures IdInv(s', id) && Absorbs(s, s', id)
  {
    assert id in s'.keys.docs <==> Lookup(s'.keys.docs, id).Some?;
    assert id in s.keys.docs <==> Lookup(s.keys.docs, id).Some?;
    assert id in s'.keys.awaiting <==> Lookup(s'.keys.awaiting, id).Some?;
    assert id in s.keys.awaiting <==> Lookup(s.keys.awaiting, id).Some?;
  }

  lemma OtherCreation(s: System, step: Step, id: Id)
    requires Enabled(s, step) && IsCreationStep(step) && !Acts(step, id)
    ensures Untouched(s, Do(s, step), id)
  {
  }

  lemma OtherTaskStep(s: System, step: Step, id: Id)
    requires Enabled(s, step) && (step.RemoveFinished? || step.Enqueue? || step.MarkFails? || step.Die?)
    requires forall x :: x in Held(s.tasks[step.t]) ==> x in s.custody
    ensures Untouched(s, Do(s, step), id)
  {
  }

  lemma ClaimUntouched(s: System, step: Step, id: Id)
    requires Enabled(s, step) && step.Claim?
    ensures Untouched(s, Do(s, step), id)
  {
    assert id in step.ids ==> Due(s.keys.timeouts, step.now, id);
  }

  lemma OthersUntouched(s: System, step: Step, id: Id)
    requires Enabled(s, step) && !Acts(step, id)
    requires forall t, x :: t in s.tasks && x in Held(s.tasks[t]) ==> x in s.custody
    ensures Untouched(s, Do(s, step), id)
  {
    if IsScriptStep(step) {
      ScriptStepEffect(s, step);
      EffectLeavesOthers(s, Do(s, step), step.id, id, ScriptReply(s, step));
    } else if IsCreationStep(step) {
      OtherCreation(s, step, id);
    } else if step.Claim? {
      ClaimUntouched(s, step, id);
    } else if !step.ExpireAwaiting? && !step.ExpireDocument? {
      OtherTaskStep(s, step, id);
    }
  }

  // ---------------------------------------------------------------- who has the record

  /** The stored document, while it exists, is this record. */
  ghost predicate IsStored(s: System, id: Id, m: Measurement) {
    id in s.keys.docs ==> s.keys.docs[id] == Document(m, true)
  }

  ghost predicate HeldBy(s: System, t: nat, id: Id)
    requires t in s.tasks && id in Held(s.tasks[t])
  {
    id in s.custody && s.custody[id] == InTask(t) && IsStored(s, id, RecordOf(s.tasks[t], id))
  }

  ghost predicate TasksInv(s: System) {
    && (forall t, id :: t in s.tasks && id in Held(s.tasks[t]) ==> HeldBy(s, t, id))
    && (forall id :: id in s.custody && s.custody[id].InTask? ==> s.custody[id].t in s.tasks && id in Held(s.tasks[s.custody[id].t]))
  }

  ghost predicate QueueInv(s: System) {
    && (forall i :: 0 <= i < |s.queue| ==>
          s.queue[i].id in s.custody && s.custody[s.queue[i].id] == Queued && IsStored(s, s.queue[i].id, s.queue[i].record))
    && (forall i, j :: 0 <= i < j < |s.queue| ==> s.queue[i].id != s.queue[j].id)
    && (forall id :: id in s.custody && s.custody[id] == Queued ==> exists i :: 0 <= i < |s.queue| && s.queue[i].id == id)
  }

  ghost predicate OnceInv(s: System) {
    (forall id :: IdInv(s, id)) && TasksInv(s) && QueueInv(s)
  }

  lemma StepKeepsIds(s: System, step: Step)
    requires OnceInv(s) && Enabled(s, step)
    ensures forall id :: IdInv(Do(s, step), id) && Absorbs(s, Do(s, step), id)
  {
    assert forall t, x :: t in s.tasks && x in Held(s.tasks[t]) ==> HeldBy(s, t, x);
    forall id ensures IdInv(Do(s, step), id) && Absorbs(s, Do(s, step), id) {
      assert IdInv(s, id);
      if Acts(step, id) {
        OwnStep(s, step, id);
      } else {
        OthersUntouched(s, step, id);
        UntouchedStays(s, Do(s, step), id);
      }
    }
  }

  /** A script replies only for a record nobody has been given yet. */
  lemma RepliesAreNew(s: System, step: Step)
    requires OnceInv(s) && Enabled(s, step) && IsScriptStep(step) && ScriptReply(s, step).Some?
    ensures step.id !in s.custody && step.id in Do(s, step).custody
    ensures IsStored(Do(s, step), step.id, ScriptReply(s, step).value)
  {
    assert IdInv(s, step.id);
    assert step.Mark? ==> forall x :: x in Held(s.tasks[step.t]) ==> HeldBy(s, step.t, x);
    ScriptStepEffect(s, step);
  }

  lemma CreationIsNew(s: System, step: Step)
    requires OnceInv(s) && Enabled(s, step) && step.EndCreate? && s.initial[step.id].finished
    ensures step.id !in s.custody && IsStored(Do(s, step), step.id, s.initial[step.id])
  {
    assert IdInv(s, step.id);
  }

  lemma StaysStored(s: System, s': System, id: Id, m: Measurement)
    requires Absorbs(s, s', id) && id in s.custody && IsStored(s, id, m)
    ensures IsStored(s', id, m)
  {
  }

  /** After the step, task `t` holds the record of `id` because it did before, or because a script just replied to it. */
  ghost predicate HoldsOnOrNew(s: System, step: Step, t: nat, id: Id)
    requires Enabled(s, step) && t in Do(s, step).tasks && id in Held(Do(s, step).tasks[t])
  {
    var s' := Do(s, step);
    || (t in s.tasks && id in Held(s.tasks[t]) && RecordOf(s'.tasks[t], id) == RecordOf(s.tasks[t], id) &&
        Lookup(s'.custody, id) == Lookup(s.custody, id))
    || (IsScriptStep(step) && step.id == id && ScriptReply(s, step) == Some(RecordOf(s'.tasks[t], id)) &&
        Lookup(s'.custody, id) == Some(InTask(t)))
  }

  /** What the cleaner's own call leaves in its hands. */
  lemma HeldAfterReply(custody: map<Id, Place>, t: nat, task: Task, id: Id, reply: Option<Measurement>, replyLost: bool, early: bool, x: Id)
    requires task.Cleaner? && x in Held(AfterReply(task, id, reply, replyLost, early))
    ensures var task', custody' := AfterReply(task, id, reply, replyLost, early), CustodyAfterReply(custody, t, task, id, reply, replyLost);
            || (x in Held(task) && RecordOf(task', x) == RecordOf(task, x) && Lookup(custody', x) == Lookup(custody, x))
            || (x == id && reply == Some(RecordOf(task', x)) && Lookup(custody', x) == Some(InTask(t)))
  {
  }

  lemma HeldAfterOwnMark(s: System, step: Step, id: Id)
    requires Enabled(s, step) && step.Mark? && step.t in Do(s, step).tasks && id in Held(Do(s, step).tasks[step.t])
    ensures HoldsOnOrNew(s, step, step.t, id)
  {
    var reply := ScriptReply(s, step);
    var early := StillToWrite(s, step.id);
    HeldAfterReply(s.custody, step.t, s.tasks[step.t], step.id, reply, step.replyLost, early, id);
    assert Do(s, step).tasks[step.t] == AfterReply(s.tasks[step.t], step.id, reply, step.replyLost, early);
    assert Do(s, step).custody == CustodyAfterReply(s.custody, step.t, s.tasks[step.t], step.id, reply, step.replyLost);
  }

  lemma MarkLeavesOtherTasks(s: System, step: Step, t: nat, id: Id)
    requires Enabled(s, step) && step.Mark? && t != step.t && t in s.tasks && id !in Held(s.tasks[step.t])
    requires id != step.id || ScriptReply(s, step).None?
    ensures t in Do(s, step).tasks && Do(s, step).tasks[t] == s.tasks[t] && Lookup(Do(s, step).custody, id) == Lookup(s.custody, id)
  {
  }

  lemma HeldAfterMark(s: System, step: Step, t: nat, id: Id)
    requires OnceInv(s) && Enabled(s, step) && step.Mark? && t in Do(s, step).tasks && id in Held(Do(s, step).tasks[t])
    ensures HoldsOnOrNew(s, step, t, id)
  {
    if t == step.t {
      HeldAfterOwnMark(s, step, id);
    } else {
      assert Do(s, step).tasks[t] == s.tasks[t];
      assert HeldBy(s, t, id);
      assert id in Held(s.tasks[step.t]) ==> HeldBy(s, step.t, id);
      if ScriptReply(s, step).Some? {
        RepliesAreNew(s, step);
      }
      MarkLeavesOtherTasks(s, step, t, id);
    }
  }

  lemma HeldAfterSend(s: System, step: Step, t: nat, id: Id)
    requires OnceInv(s) && Enabled(s, step) && step.SendResult? && t in Do(s, step).tasks && id in Held(Do(s, step).tasks[t])
    ensures HoldsOnOrNew(s, step, t, id)
  {
    if t in s.tasks && id in Held(s.tasks[t]) {
      assert HeldBy(s, t, id);
    }
    if ScriptReply(s, step).Some? {
      RepliesAreNew(s, step);
    }
  }

  lemma HeldAfterTaskStep(s: System, step: Step, t: nat, id: Id)
    requires OnceInv(s) && Enabled(s, step) && (step.RemoveFinished? || step.Enqueue? || step.MarkFails? || step.Die?)
    requires t in Do(s, step).tasks && id in Held(Do(s, step).tasks[t])
    ensures HoldsOnOrNew(s, step, t, id)
  {
    if t in s.tasks && id in Held(s.tasks[t]) {
      assert HeldBy(s, t, id);
    }
    if id in Held(s.tasks[step.t]) {
      assert HeldBy(s, step.t, id);
    }
  }

  lemma HeldAfterCreation(s: System, step: Step, t: nat, id: Id)
    requires OnceInv(s) && Enabled(s, step) && step.EndCreate? && t in Do(s, step).tasks && id in Held(Do(s, step).tasks[t])
    ensures HoldsOnOrNew(s, step, t, id)
  {
    assert HeldBy(s, t, id);
    if s.initial[step.id].finished {
      CreationIsNew(s, step);
    }
  }

  lemma HeldAfter(s: System, step: Step, t: nat, id: Id)
    requires OnceInv(s) && Enabled(s, step) && t in Do(s, step).tasks && id in Held(Do(s, step).tasks[t])
    ensures HoldsOnOrNew(s, step, t, id)
  {
    if step.Mark? {
      HeldAfterMark(s, step, t, id);
    } else if step.SendResult? {
      HeldAfterSend(s, step, t, id);
    } else if step.RemoveFinished? || step.Enqueue? || step.MarkFails? || step.Die? {
      HeldAfterTaskStep(s, step, t, id);
    } else if step.EndCreate? {
      HeldAfterCreation(s, step, t, id);
    }
  }

  lemma StepKeepsTask(s: System, step: Step, t: nat, id: Id)
    requires OnceInv(s) && Enabled(s, step) && t in Do(s, step).tasks && id in Held(Do(s, step).tasks[t])
    requires Absorbs(s, Do(s, step), id)
    ensures HeldBy(Do(s, step), t, id)
  {
    HeldAfter(s, step, t, id);
    HoldingStays(s, step, t, id);
  }

  lemma HoldingStays(s: System, step: Step, t: nat, id: Id)
    requires OnceInv(s) && Enabled(s, step) && t in Do(s, step).tasks && id in Held(Do(s, step).tasks[t])
    requires Absorbs(s, Do(s, step), id) && HoldsOnOrNew(s, step, t, id)
    ensures HeldBy(Do(s, step), t, id)
  {
    if t in s.tasks && id in Held(s.tasks[t]) && RecordOf(Do(s, step).tasks[t], id) == RecordOf(s.tasks[t], id) &&
       Lookup(Do(s, step).custody, id) == Lookup(s.custody, id) {
      assert HeldBy(s, t, id);
      StaysStored(s, Do(s, step), id, RecordOf(s.tasks[t], id));
    } else {
      RepliesAreNew(s, step);
    }
  }

  /** A record leaves the hands it is in only by a step of its holder. */
  ghost predicate KeptOrHandedOn(s: System, step: Step, s': System, id: Id) {
    id in s.custody ==>
      || Lookup(s'.custody, id) == Some(s.custody[id])
      || ((step.Mark? || step.MarkFails? || step.Enqueue? || step.Die?) && s.custody[id] == InTask(step.t) &&
          id in s'.custody && !s'.custody[id].InTask?)
  }

  lemma CustodyAfterOwnReply(custody: map<Id, Place>, t: nat, task: Task, id: Id, reply: Option<Measurement>, replyLost: bool, early: bool, x: Id)
    requires task.Cleaner? && (reply.Some? ==> id !in custody) && (x in Held(task) <==> x in custody && custody[x] == InTask(t))
    ensures var custody' := CustodyAfterReply(custody, t, task, id, reply, replyLost);
            var task' := AfterReply(task, id, reply, replyLost, early);
            && (x in custody ==> x in custody' && (custody'[x] == custody[x] || (custody[x] == InTask(t) && custody'[x] == Lost)))
            && (x in custody' && custody'[x] == InTask(t) ==> x in Held(task'))
            && (x in custody' && x !in custody ==> custody'[x] == InTask(t) || custody'[x] == Lost)
  {
  }

  /** The place a custody entry names does hold the record. */
  ghost predicate PlaceHolds(s: System, id: Id) {
    id in s.custody ==>
      match s.custody[id]
      case InTask(t) => t in s.tasks && id in Held(s.tasks[t])
      case Queued => exists i :: 0 <= i < |s.queue| && s.queue[i].id == id
      case Lost => true
  }

  lemma PlacesHold(s: System, id: Id)
    requires OnceInv(s)
    ensures PlaceHolds(s, id)
    ensures forall t :: t in s.tasks && id in Held(s.tasks[t]) ==> id in s.custody && s.custody[id] == InTask(t)
  {
    forall t | t in s.tasks && id in Held(s.tasks[t]) ensures id in s.custody && s.custody[id] == InTask(t) {
      assert HeldBy(s, t, id);
    }
  }

  lemma PlaceAfterReply(s: System, s': System, step: Step, reply: Option<Measurement>, id: Id)
    requires step.Mark? && step.t in s.tasks && s.tasks[step.t].Cleaner? && PlaceHolds(s, id)
    requires id in Held(s.tasks[step.t]) ==> id in s.custody && s.custody[id] == InTask(step.t)
    requires reply.Some? ==> step.id !in s.custody
    requires s'.queue == s.queue
    requires s'.tasks == s.tasks[step.t := AfterReply(s.tasks[step.t], step.id, reply, step.replyLost, StillToWrite(s, step.id))]
    requires s'.custody == CustodyAfterReply(s.custody, step.t, s.tasks[step.t], step.id, reply, step.replyLost)
    ensures PlaceHolds(s', id) && KeptOrHandedOn(s, step, s', id)
  {
    CustodyAfterOwnReply(s.custody, step.t, s.tasks[step.t], step.id, reply, step.replyLost, StillToWrite(s, step.id), id);
  }

  lemma PlaceAfterMark(s: System, step: Step, id: Id)
    requires OnceInv(s) && Enabled(s, step) && step.Mark?
    ensures PlaceHolds(Do(s, step), id) && KeptOrHandedOn(s, step, Do(s, step), id)
  {
    PlacesHold(s, id);
    if ScriptReply(s, step).Some? {
      RepliesAreNew(s, step);
    }
    PlaceAfterReply(s, Do(s, step), step, ScriptReply(s, step), id);
  }

  lemma PlaceAfterSend(s: System, step: Step, id: Id)
    requires OnceInv(s) && Enabled(s, step) && step.SendResult?
    ensures PlaceHolds(Do(s, step), id) && KeptOrHandedOn(s, step, Do(s, step), id)
  {
    PlacesHold(s, id);
    if ScriptReply(s, step).Some? {
      RepliesAreNew(s, step);
    }
    assert Do(s, step).queue == s.queue;
  }

  lemma PlaceAfterEndCreate(s: System, step: Step, id: Id)
    requires OnceInv(s) && Enabled(s, step) && step.EndCreate?
    ensures PlaceHolds(Do(s, step), id) && KeptOrHandedOn(s, step, Do(s, step), id)
  {
    PlacesHold(s, id);
    var s' := Do(s, step);
    if s.initial[step.id].finished {
      CreationIsNew(s, step);
      assert s'.queue[|s.queue|].id == step.id;
      assert forall i :: 0 <= i < |s.queue| ==> s'.queue[i] == s.queue[i];
    }
  }

  lemma PlaceAfterEnqueue(s: System, step: Step, id: Id)
    requires OnceInv(s) && Enabled(s, step) && step.Enqueue?
    ensures PlaceHolds(Do(s, step), id) && KeptOrHandedOn(s, step, Do(s, step), id)
  {
    PlacesHold(s, id);
    var s' := Do(s, step);
    assert forall i :: 0 <= i < |s.queue| ==> s'.queue[i] == s.queue[i];
    if id in Held(s.tasks[step.t]) {
      assert id in step.order;
      var i :| 0 <= i < |step.order| && step.order[i] == id;
      assert s'.queue[|s.queue| + i].id == id;
    }
  }

  lemma PlaceAfterTaskStep(s: System, step: Step, id: Id)
    requires OnceInv(s) && Enabled(s, step) && (step.RemoveFinished? || step.MarkFails? || step.Die?)
    ensures PlaceHolds(Do(s, step), id) && KeptOrHandedOn(s, step, Do(s, step), id)
  {
    PlacesHold(s, id);
    assert Do(s, step).queue == s.queue;
  }

  lemma PlaceAfterClaim(s: System, step: Step, id: Id)
    requires OnceInv(s) && Enabled(s, step) && step.Claim?
    ensures PlaceHolds(Do(s, step), id) && KeptOrHandedOn(s, step, Do(s, step), id)
  {
    PlacesHold(s, id);
    assert Do(s, step).queue == s.queue && Do(s, step).custody == s.custody;
    assert forall t :: t in s.tasks ==> t in Do(s, step).tasks && Do(s, step).tasks[t] == s.tasks[t];
  }

  lemma PlaceAfter(s: System, step: Step, id: Id)
    requires OnceInv(s) && Enabled(s, step)
    ensures PlaceHolds(Do(s, step), id) && KeptOrHandedOn(s, step, Do(s, step), id)
  {
    PlacesHold(s, id);
    if step.Mark? {
      PlaceAfterMark(s, step, id);
    } else if step.SendResult? {
      PlaceAfterSend(s, step, id);
    } else if step.EndCreate? {
      PlaceAfterEndCreate(s, step, id);
    } else if step.Enqueue? {
      PlaceAfterEnqueue(s, step, id);
    } else if step.RemoveFinished? || step.MarkFails? || step.Die? {
      PlaceAfterTaskStep(s, step, id);
    } else if step.Claim? {
      PlaceAfterClaim(s, step, id);
    }
  }

  // ---------------------------------------------------------------- the offload queue

  ghost predicate QueuedEntry(s: System, e: Entry) {
    e.id in s.custody && s.custody[e.id] == Queued && IsStored(s, e.id, e.record)
  }

  /** What a step appends to the queue: nothing, the records its task holds, or one that was finished when created. */
  function Added(s: System, step: Step): seq<Entry>
    requires Enabled(s, step)
  {
    match step
    case Enqueue(t, order) => Entries(s.tasks[t], order)
    case EndCreate(id) => if s.initial[id].finished then [Entry(id, s.initial[id])] else []
    case _ => []
  }

  lemma QueueGrows(s: System, step: Step)
    requires Enabled(s, step)
    ensures Do(s, step).queue == s.queue + Added(s, step)
  {
  }

  lemma AddedEntry(s: System, step: Step, i: nat)
    requires OnceInv(s) && Enabled(s, step) && i < |Added(s, step)| && Absorbs(s, Do(s, step), Added(s, step)[i].id)
    ensures QueuedEntry(Do(s, step), Added(s, step)[i])
    ensures Lookup(s.custody, Added(s, step)[i].id) != Some(Queued)
  {
    var e := Added(s, step)[i];
    if step.EndCreate? {
      CreationIsNew(s, step);
    } else {
      assert e.id in Held(s.tasks[step.t]);
      assert HeldBy(s, step.t, e.id);
      StaysStored(s, Do(s, step), e.id, e.record);
    }
  }

  lemma AddedDistinct(s: System, step: Step, i: nat, j: nat)
    requires Enabled(s, step) && i < j < |Added(s, step)|
    ensures Added(s, step)[i].id != Added(s, step)[j].id
  {
  }

  lemma StepKeepsQueue(s: System, step: Step)
    requires OnceInv(s) && Enabled(s, step)
    ensures QueueInv(Do(s, step))
  {
    var s' := Do(s, step);
    StepKeepsIds(s, step);
    QueueGrows(s, step);
    forall i | 0 <= i < |s'.queue| ensures QueuedEntry(s', s'.queue[i]) {
      if i < |s.queue| {
        PlaceAfter(s, step, s.queue[i].id);
        StaysStored(s, s', s.queue[i].id, s.queue[i].record);
      } else {
        AddedEntry(s, step, i - |s.queue|);
      }
    }
    forall i, j | 0 <= i < j < |s'.queue| ensures s'.queue[i].id != s'.queue[j].id {
      if |s.queue| <= i {
        AddedDistinct(s, step, i - |s.queue|, j - |s.queue|);
      } else if |s.queue| <= j {
        AddedEntry(s, step, j - |s.queue|);
      }
    }
    forall id | id in s'.custody && s'.custody[id] == Queued ensures exists i :: 0 <= i < |s'.queue| && s'.queue[i].id == id {
      PlaceAfter(s, step, id);
    }
  }

  lemma StepKeepsTasks(s: System, step: Step)
    requires OnceInv(s) && Enabled(s, step)
    ensures TasksInv(Do(s, step))
  {
    var s' := Do(s, step);
    StepKeepsIds(s, step);
    forall t, id | t in s'.tasks && id in Held(s'.tasks[t]) ensures HeldBy(s', t, id) {
      StepKeepsTask(s, step, t, id);
    }
    forall id | id in s'.custody && s'.custody[id].InTask?
      ensures s'.custody[id].t in s'.tasks && id in Held(s'.tasks[s'.custody[id].t]) {
      PlaceAfter(s, step, id);
    }
  }

  lemma StepKeepsOnce(s: System, step: Step)
    requires OnceInv(s) && Enabled(s, step)
    ensures OnceInv(Do(s, step))
  {
    StepKeepsIds(s, step);
    StepKeepsTasks(s, step);
    StepKeepsQueue(s, step);
  }

  lemma {:induction false} RunKeepsOnce(run: seq<System>, steps: seq<Step>, i: nat)
    requires IsRun(run, steps) && i < |run|
    ensures OnceInv(run[i])
  {
    if i > 0 {
      RunKeepsOnce(run, steps, i - 1);
      StepKeepsOnce(run[i - 1], steps[i - 1]);
    }
  }
}
