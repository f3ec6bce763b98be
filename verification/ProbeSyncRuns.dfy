/** What holds in every run of the replication protocol, however pushes and pulls interleave. */
module ProbeSyncRuns {
  import opened Common
  import opened ProbeSyncProtocol
  import opened ProbeSyncBase
  import opened ProbeSyncConvergence
  import opened ProbeSyncInvariant

  // ------------------------------------------------------------ the invariant over runs

  /** Before a node's first event there is nothing to be out of date about. */
  lemma JoinedWriter(s: World, step: Step)
    requires SyncInv(s) && Enabled(s, step) && step.Join?
    ensures ChannelOf(Do(s, step), step.w).Sound() && WriterInv(ChannelOf(Do(s, step), step.w), Do(s, step).nodes[step.w])
    ensures forall r :: Live(s, r) ==> ReaderInv(ChannelOf(Do(s, step), step.w), s.nodes[r])
  {
    var c := ChannelOf(Do(s, step), step.w);
    assert c.doc.None?;
    forall i | 0 <= i < |c.log| ensures c.log[i].node != step.w {
      assert c.log[i] in s.log;
    }
    forall r | Live(s, r) ensures ReaderInv(c, s.nodes[r]) {
      assert KnowsOnly(s.nodes[r], s.nodes.Keys);
    }
  }

  lemma ProcessShape(n: Node, r: NodeId, log: seq<Event>, known: set<NodeId>)
    requires n.pull.Read? && PullShape(n, |log|) && KnowsOnly(n, known)
    requires forall e :: e in log ==> e.node in known
    ensures var n' := DoProcess(n, r, log[n.pull.lo..n.pull.hi]); KnowsOnly(n', known) && PullShape(n', |log|)
  {
    var events := log[n.pull.lo..n.pull.hi];
    forall w | w in Sources(events, r) ensures w in known {
      var e :| e in events && e.node == w;
      assert e in log;
    }
    if Sources(events, r) != {} {
      assert n.pull.lo < n.pull.hi;
    }
  }

  /** The parts of the invariant that concern one node alone. */
  lemma ShapeStep(s: World, step: Step, r: NodeId)
    requires Enabled(s, step) && Live(s, r) && Live(Do(s, step), r) && s.trimmed <= |s.log|
    requires KnowsOnly(s.nodes[r], s.nodes.Keys) && PullShape(s.nodes[r], |s.log|)
    requires forall e :: e in s.log ==> e.node in s.nodes
    ensures var s' := Do(s, step); KnowsOnly(s'.nodes[r], s'.nodes.Keys) && PullShape(s'.nodes[r], |s'.log|)
  {
    if step == Process(r) {
      ProcessShape(s.nodes[r], r, s.log, s.nodes.Keys);
    } else if IsPullStep(step) && step.r == r {
      OwnPullShape(s, step, r);
    }
  }

  lemma OwnPullShape(s: World, step: Step, r: NodeId)
    requires Enabled(s, step) && Live(s, r) && s.trimmed <= |s.log|
    requires IsPullStep(step) && step.r == r && !step.Process?
    requires KnowsOnly(s.nodes[r], s.nodes.Keys) && PullShape(s.nodes[r], |s.log|)
    ensures var n' := Do(s, step).nodes[r]; KnowsOnly(n', s.nodes.Keys) && PullShape(n', |s.log|)
  {
  }

  lemma LogStep(s: World, step: Step)
    requires SyncInv(s) && Enabled(s, step)
    ensures var s' := Do(s, step); s'.trimmed <= |s'.log| && forall e :: e in s'.log ==> e.node in s'.nodes
    ensures step.Publish? ==> s.nodes[step.w].push.event.node == step.w
  {
    if step.Publish? {
      assert ChannelOf(s, step.w).Timed();
    }
  }

  /** The newest event of a live writer is still in the stream after the step. */
  lemma LatestStays(s: World, step: Step, w: NodeId, i: nat)
    requires Enabled(s, step) && Live(Do(s, step), w) && i < |Do(s, step).log| && Do(s, step).log[i].node == w
    requires s.trimmed <= |s.log| && forall e :: e in s.log ==> e.node in s.nodes
    requires Live(s, w) ==> forall k :: 0 <= k < |s.log| && s.log[k].node == w ==> HasEvent(s.log, w, s.trimmed)
    ensures HasEvent(Do(s, step).log, w, Do(s, step).trimmed)
  {
    var log' := Do(s, step).log;
    if i < |s.log| {
      assert s.log[i] in s.log;
      assert Live(s, w);
      if step.Publish? {
        var k :| s.trimmed <= k < |s.log| && s.log[k].node == w;
        assert log'[k].node == w;
      }
    }
  }

  lemma TrimStep(s: World, step: Step)
    requires SyncInv(s) && Enabled(s, step)
    ensures var s' := Do(s, step);
            forall w, i :: Live(s', w) && 0 <= i < |s'.log| && s'.log[i].node == w ==> HasEvent(s'.log, w, s'.trimmed)
  {
    var s' := Do(s, step);
    forall w, i | Live(s', w) && 0 <= i < |s'.log| && s'.log[i].node == w ensures HasEvent(s'.log, w, s'.trimmed) {
      LatestStays(s, step, w, i);
    }
  }

  lemma ShapeAfter(s: World, step: Step, r: NodeId)
    requires SyncInv(s) && Enabled(s, step) && Live(Do(s, step), r)
    ensures var s' := Do(s, step); KnowsOnly(s'.nodes[r], s'.nodes.Keys) && PullShape(s'.nodes[r], |s'.log|)
  {
    if !(step.Join? && step.w == r) {
      assert Live(s, r);
      ShapeStep(s, step, r);
    }
  }

  lemma ShapesStep(s: World, step: Step)
    requires SyncInv(s) && Enabled(s, step)
    ensures var s' := Do(s, step);
            forall r :: Live(s', r) ==> KnowsOnly(s'.nodes[r], s'.nodes.Keys) && PullShape(s'.nodes[r], |s'.log|)
  {
    forall r | Live(Do(s, step), r)
      ensures var s' := Do(s, step); KnowsOnly(s'.nodes[r], s'.nodes.Keys) && PullShape(s'.nodes[r], |s'.log|) {
      ShapeAfter(s, step, r);
    }
  }

  lemma WritersStep(s: World, step: Step)
    requires SyncInv(s) && Enabled(s, step) && Calm(s, step)
    ensures var s' := Do(s, step);
            && (forall w :: Live(s', w) ==> ChannelOf(s', w).Sound() && WriterInv(ChannelOf(s', w), s'.nodes[w]))
            && (forall w :: Live(s, w) && Live(s', w) ==> Keeps(ChannelOf(s, w), ChannelOf(s', w)))
  {
    var s' := Do(s, step);
    LogStep(s, step);
    forall w | Live(s', w)
      ensures ChannelOf(s', w).Sound() && WriterInv(ChannelOf(s', w), s'.nodes[w])
      ensures Live(s, w) ==> Keeps(ChannelOf(s, w), ChannelOf(s', w))
    {
      if step.Join? && step.w == w { JoinedWriter(s, step); } else { WriterStep(s, step, w); }
    }
  }

  lemma ReadersStep(s: World, step: Step, r: NodeId, w: NodeId)
    requires SyncInv(s) && Enabled(s, step) && Calm(s, step)
    requires Live(Do(s, step), r) && Live(Do(s, step), w) && r != w
    ensures ReaderInv(ChannelOf(Do(s, step), w), Do(s, step).nodes[r])
  {
    WritersStep(s, step);
    if step.Join? && step.w == w {
      JoinedWriter(s, step);
    } else if !(step.Join? && step.w == r) {
      ReaderStep(s, step, r, w);
    }
  }

  lemma StepKeepsSync(s: World, step: Step)
    requires SyncInv(s) && Enabled(s, step) && Calm(s, step)
    ensures SyncInv(Do(s, step))
  {
    StepKeepsBase(s, step);
    LogStep(s, step);
    TrimStep(s, step);
    ShapesStep(s, step);
    WritersStep(s, step);
    forall r, w | Live(Do(s, step), r) && Live(Do(s, step), w) && r != w
      ensures ReaderInv(ChannelOf(Do(s, step), w), Do(s, step).nodes[r])
    {
      ReadersStep(s, step, r, w);
    }
  }

  /** Losing a document that a running writer relies on is the only step that breaks the invariant. */
  lemma OnlyCalmStepsKeepSync(s: World, step: Step)
    requires SyncInv(s) && Enabled(s, step)
    ensures SyncInv(Do(s, step)) <==> Calm(s, step)
  {
    if Calm(s, step) {
      StepKeepsSync(s, step);
    } else {
      var c', n := ChannelOf(Do(s, step), step.w), s.nodes[step.w];
      assert c'.doc.None? && Live(Do(s, step), step.w) && !WriterInv(c', n);
    }
  }

  ghost predicate IsCalmRun(run: seq<World>, steps: seq<Step>) {
    IsRun(run, steps) && forall i :: 0 <= i < |steps| ==> Calm(run[i], steps[i])
  }

  lemma {:induction false} RunKeepsSync(run: seq<World>, steps: seq<Step>, i: nat)
    requires IsCalmRun(run, steps) && i < |run|
    ensures SyncInv(run[i])
  {
    if i > 0 {
      RunKeepsSync(run, steps, i - 1);
      StepKeepsSync(run[i - 1], steps[i - 1]);
    }
  }

  // ------------------------------------------------------------ the theorems

  /** The event on its way, or one the reader has not processed, sends the reader back to `p`. */
  ghost predicate Outstanding(s: World, r: NodeId, w: NodeId, p: ProbeId, since: nat)
    requires Live(s, r) && Live(s, w)
  {
    (exists k :: s.nodes[r].cursor.Next() <= k < |s.log| && s.log[k].node == w && Names(s.log[k], p, since)) ||
    (Pending(s.nodes[w].push).Some? && Names(Pending(s.nodes[w].push).value, p, since))
  }

  /** In every calm run, whatever a copy gets wrong about the writer's document is still to be read. */
  lemma DifferencesAreOutstanding(run: seq<World>, steps: seq<Step>, i: nat, r: NodeId, w: NodeId, p: ProbeId)
    requires IsCalmRun(run, steps) && i < |run| && Live(run[i], r) && Live(run[i], w) && r != w
    requires w in run[i].nodes[r].nodeData && w in run[i].docs
    ensures var copy := run[i].nodes[r].nodeData[w];
            SameAt(copy.probesById, run[i].docs[w].probesById, p) ||
            Outstanding(run[i], r, w, p, copy.revalidateTimestamp)
  {
    RunKeepsSync(run, steps, i);
    var s := run[i];
    var c, n := ChannelOf(s, w), s.nodes[r];
    var copy := n.nodeData[w];
    assert ReaderInv(c, n);
    SyncedEarlier(c, copy, n.cursor.Next(), SyncedTo(n, w));
    if !SameAt(copy.probesById, s.docs[w].probesById, p) {
      assert c.Announced(n.cursor.Next(), p, copy.revalidateTimestamp);
    }
  }

  /** `fetchProbes` waits for revalidation times after its start: what it then misses was announced later than that. */
  lemma RevalidatedCopyIsFresh(run: seq<World>, steps: seq<Step>, i: nat, r: NodeId, w: NodeId, p: ProbeId, start: nat)
    requires IsCalmRun(run, steps) && i < |run| && Live(run[i], r) && Live(run[i], w) && r != w
    requires w in run[i].nodes[r].nodeData && w in run[i].docs
    requires run[i].nodes[r].nodeData[w].revalidateTimestamp > start
    ensures SameAt(run[i].nodes[r].nodeData[w].probesById, run[i].docs[w].probesById, p) ||
            Outstanding(run[i], r, w, p, start)
  {
    DifferencesAreOutstanding(run, steps, i, r, w, p);
    var s := run[i];
    var since := s.nodes[r].nodeData[w].revalidateTimestamp;
    assert forall e :: Names(e, p, since) ==> Names(e, p, start);
  }

  /** A reader with nothing of the writer left to read holds exactly the writer's document, stats aside. */
  lemma CaughtUpCopyAgrees(run: seq<World>, steps: seq<Step>, i: nat, r: NodeId, w: NodeId)
    requires IsCalmRun(run, steps) && i < |run| && Live(run[i], r) && Live(run[i], w) && r != w
    requires w in run[i].nodes[r].nodeData && w in run[i].docs
    requires Pending(run[i].nodes[w].push).None? && !HasEvent(run[i].log, w, run[i].nodes[r].cursor.Next())
    ensures Agree(run[i].nodes[r].nodeData[w].probesById, run[i].docs[w].probesById)
  {
    forall p ensures SameAt(run[i].nodes[r].nodeData[w].probesById, run[i].docs[w].probesById, p) {
      DifferencesAreOutstanding(run, steps, i, r, w, p);
    }
  }

  /** In every run, evictions and failed writes included, equal change timestamps mean equal probe sets. */
  lemma EqualTimestampsAgree(run: seq<World>, steps: seq<Step>, i: nat, w: NodeId)
    requires IsRun(run, steps) && i < |run| && Live(run[i], w)
    requires w in run[i].nodes[w].nodeData && w in run[i].docs
    requires run[i].nodes[w].nodeData[w].changeTimestamp == run[i].docs[w].changeTimestamp
    ensures Agree(run[i].nodes[w].nodeData[w].probesById, run[i].docs[w].probesById)
  {
    RunKeepsBase(run, steps, i);
    assert BaseAt(run[i], w);
  }

  /** A push that does not reset compares with what Redis holds, as long as Redis still holds it. */
  lemma DiffBaseIsStored(run: seq<World>, steps: seq<Step>, i: nat, w: NodeId)
    requires IsRun(run, steps) && i < |run| && Live(run[i], w) && w in run[i].docs
    requires run[i].nodes[w].push.Looked?
    requires var push := run[i].nodes[w].push; !PlanPush(w, push.previous, push.remote, push.now, push.current).Reset?
    ensures Agree(run[i].nodes[w].push.previous.value.probesById, run[i].docs[w].probesById)
  {
    RunKeepsBase(run, steps, i);
    assert BaseAt(run[i], w);
  }

  // ------------------------------------------------------------ one pull over a quiet system

  /** A pull of `r` from start to end, in any order of its parts, while nobody else moves and nothing fails. */
  ghost predicate IsQuietPull(run: seq<World>, steps: seq<Step>, r: NodeId) {
    && |steps| > 1 && |run| == |steps| + 1 && Live(run[0], r) && run[0].nodes[r].pull.PullIdle?
    && (forall j :: 0 <= j < |steps| ==>
          IsPullStep(steps[j]) && steps[j].r == r && !steps[j].Fail? && Enabled(run[j], steps[j]) && run[j + 1] == Do(run[j], steps[j]))
    && (forall j :: 0 < j < |steps| ==> !steps[j].ReadStream?)
    && r in run[|steps|].nodes && run[|steps|].nodes[r].pull.PullIdle?
  }

  ghost predicate Unread(s: World, r: NodeId, w: NodeId)
    requires r in s.nodes
  {
    HasEvent(s.log, w, s.nodes[r].cursor.Next())
  }

  ghost predicate WillStore(task: Task) {
    IsWaiting(task) || TaskResult(task).Some?
  }

  /** Between two steps of a quiet pull that began in `s0`. */
  ghost predicate QuietInv(s0: World, s: World, r: NodeId) {
    && Live(s0, r) && Live(s, r) && SyncInv(s)
    && s.docs == s0.docs && s.log == s0.log
    && (forall w :: w != r ==> (w in s.nodes <==> w in s0.nodes) && (w in s.nodes ==> s.nodes[w] == s0.nodes[w]))
    && match s.nodes[r].pull
       case PullIdle =>
         forall w :: Live(s, w) && w != r && w in s.docs && Pending(s.nodes[w].push).None? ==> Installed(s0, s, r, w)
       case Read(lo, hi, _) => hi == |s.log| && s.nodes[r].cursor == s0.nodes[r].cursor
       case Pulling(hi, tasks, failed) =>
         && hi == |s.log| && !failed
         && forall w :: Live(s, w) && w != r && w in s.docs && Unread(s0, r, w) ==>
                          w in s.nodes[r].nodeData || (w in tasks && WillStore(tasks[w]))
  }

  /** The reader's copy is the document, stats aside, and it has one if there was an event to read. */
  ghost predicate Installed(s0: World, s: World, r: NodeId, w: NodeId)
    requires r in s.nodes && r in s0.nodes && w in s.docs
  {
    (w in s.nodes[r].nodeData ==> Agree(s.nodes[r].nodeData[w].probesById, s.docs[w].probesById)) &&
    (Unread(s0, r, w) ==> w in s.nodes[r].nodeData)
  }

  lemma SyncedToTheEnd(s: World, r: NodeId, w: NodeId)
    requires SyncInv(s) && Live(s, r) && Live(s, w) && r != w && w in s.nodes[r].nodeData && w in s.docs
    requires Pending(s.nodes[w].push).None? && !HasEvent(s.log, w, s.nodes[r].cursor.Next()) && !s.nodes[r].pull.Pulling?
    ensures Agree(s.nodes[r].nodeData[w].probesById, s.docs[w].probesById)
  {
    var c, n := ChannelOf(s, w), s.nodes[r];
    assert ReaderInv(c, n);
    forall p ensures SameAt(n.nodeData[w].probesById, s.docs[w].probesById, p) {
      assert SameAt(n.nodeData[w].probesById, s.docs[w].probesById, p) ||
             c.Announced(n.cursor.Next(), p, n.nodeData[w].revalidateTimestamp);
    }
  }

  lemma QuietProcess(s0: World, s: World, r: NodeId, w: NodeId)
    requires QuietInv(s0, s, r) && Enabled(s, Process(r)) && Live(s, w) && w != r && w in s.docs
    ensures var s', events := Do(s, Process(r)), Events(s, s.nodes[r].pull);
            Unread(s0, r, w) ==> w in Sources(events, r) && s'.nodes[r].pull.Pulling? &&
                                 (w in s'.nodes[r].nodeData || (w in s'.nodes[r].pull.tasks && WillStore(s'.nodes[r].pull.tasks[w])))
  {
    var n := s.nodes[r];
    assert ReaderInv(ChannelOf(s, w), n);
    assert s.log[..n.pull.hi] == s.log;
    if Unread(s0, r, w) {
      SourceHasEvent(s.log, w, r, n.pull.lo, n.pull.hi);
    }
  }

  /** Fetching or storing one task loses none of the copies that are due. */
  lemma QuietTask(s0: World, s: World, step: Step, r: NodeId, w: NodeId)
    requires QuietInv(s0, s, r) && (step.Fetch? || step.Apply?) && step.r == r && Enabled(s, step)
    requires Live(s, w) && w != r && w in s.docs && Unread(s0, r, w)
    ensures var n' := Do(s, step).nodes[r];
            w in n'.nodeData || (w in n'.pull.tasks && WillStore(n'.pull.tasks[w]))
  {
  }

  lemma QuietEnd(s0: World, s: World, step: Step, r: NodeId, w: NodeId)
    requires QuietInv(s0, s, r) && (step.Process? || step.Finish?) && step.r == r && Enabled(s, step) && SyncInv(Do(s, step))
    requires Do(s, step).nodes[r].pull.PullIdle?
    requires Live(s, w) && w != r && w in s.docs && Pending(s.nodes[w].push).None?
    ensures Installed(s0, Do(s, step), r, w)
  {
    var s' := Do(s, step);
    if step.Process? {
      QuietProcess(s0, s, r, w);
    }
    if w in s'.nodes[r].nodeData {
      SyncedToTheEnd(s', r, w);
    }
  }

  lemma OthersStandStill(s: World, step: Step, r: NodeId)
    requires IsPullStep(step) && step.r == r && Enabled(s, step)
    ensures var s' := Do(s, step);
            && Live(s', r) && s'.docs == s.docs && s'.log == s.log
            && forall w :: w != r ==> (w in s'.nodes <==> w in s.nodes) && (w in s.nodes ==> s'.nodes[w] == s.nodes[w])
  {
  }

  lemma QuietStep(s0: World, s: World, step: Step, r: NodeId)
    requires QuietInv(s0, s, r) && IsPullStep(step) && step.r == r && !step.Fail? && !step.ReadStream? && Enabled(s, step)
    ensures QuietInv(s0, Do(s, step), r)
  {
    StepKeepsSync(s, step);
    OthersStandStill(s, step, r);
    var s' := Do(s, step);
    forall w | Live(s, w) && w != r && w in s.docs
      ensures s'.nodes[r].pull.PullIdle? && Pending(s.nodes[w].push).None? ==> Installed(s0, s', r, w)
      ensures s'.nodes[r].pull.Pulling? && Unread(s0, r, w) ==>
                w in s'.nodes[r].nodeData || (w in s'.nodes[r].pull.tasks && WillStore(s'.nodes[r].pull.tasks[w]))
    {
      if s'.nodes[r].pull.PullIdle? {
        if Pending(s.nodes[w].push).None? { QuietEnd(s0, s, step, r, w); }
      } else if Unread(s0, r, w) {
        if step.Process? { QuietProcess(s0, s, r, w); } else { QuietTask(s0, s, step, r, w); }
      }
    }
  }

  /** A pull over a quiet system leaves the reader with every announced document, exactly, stats aside. */
  lemma QuietPullConverges(run: seq<World>, steps: seq<Step>, i: nat, pull: seq<World>, parts: seq<Step>, r: NodeId, w: NodeId)
    requires IsCalmRun(run, steps) && i < |run| && IsQuietPull(pull, parts, r) && pull[0] == run[i]
    requires Live(run[i], w) && w != r && w in run[i].docs && Pending(run[i].nodes[w].push).None?
    ensures var s' := pull[|parts|];
            && Live(s', r) && s'.docs == run[i].docs
            && (w in s'.nodes[r].nodeData ==> Agree(s'.nodes[r].nodeData[w].probesById, s'.docs[w].probesById))
            && (Unread(run[i], r, w) ==> w in s'.nodes[r].nodeData)
  {
    RunKeepsSync(run, steps, i);
    QuietPrefix(pull, parts, r, |parts|);
    assert Installed(pull[0], pull[|parts|], r, w);
  }

  lemma {:induction false} QuietPrefix(pull: seq<World>, parts: seq<Step>, r: NodeId, j: nat)
    requires IsQuietPull(pull, parts, r) && SyncInv(pull[0]) && 0 < j <= |parts|
    ensures QuietInv(pull[0], pull[j], r)
  {
    if j == 1 {
      assert parts[0].ReadStream?;
      StepKeepsSync(pull[0], parts[0]);
    } else {
      QuietPrefix(pull, parts, r, j - 1);
      QuietStep(pull[0], pull[j - 1], parts[j - 1], r);
    }
  }
}
