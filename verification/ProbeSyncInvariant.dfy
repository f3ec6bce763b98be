/** The invariant of the replication protocol and what it means for a reader that is up to date. */
module ProbeSyncInvariant {
  import opened Common
  import opened ProbeSyncProtocol
  import opened ProbeSyncBase
  import opened ProbeSyncConvergence
  import opened ProbeSyncReader

  /** What a writer's push in flight owes its channel. */
  ghost predicate WriterInv(c: Channel, n: Node) {
    && ((n.push.Sampled? || n.push.Looked? || n.push.Writing?) ==> n.clock > 0)
    && match n.push
       case Looked(_, previous, now, remote) => !MustReset(previous, remote) ==> c.doc.Some?
       case Writing(data, event, _) => data.revalidateTimestamp == n.clock && Describes(c, event, data.probesById)
       case _ => true
  }

  ghost predicate TaskInv(c: Channel, task: Task, copy: Option<NodeData>, next: nat, hi: nat) {
    match task
    case AwaitDocument => true
    case GotDocument(document) =>
      if document.Some? then c.Synced(document.value, hi) else copy.Some? ==> c.Synced(copy.value, hi)
    case AwaitProbes(base, changes) => c.Synced(base, next) && SumsUp(c.log, c.w, next, hi, changes)
    case GotProbes(base, changes, fetched) => c.Synced(Patch(base, changes, fetched.GetOr(map[])), hi)
  }

  /** How far the reader's copy is known to be synced: to the end of a batch it has handled, else to its cursor. */
  function SyncedTo(n: Node, w: NodeId): nat {
    if n.pull.Pulling? && !n.pull.failed && w !in n.pull.tasks then n.pull.hi else n.cursor.Next()
  }

  /** A reader's cursor and batch lie within the log. */
  predicate PullShape(n: Node, length: nat) {
    && (n.cursor.After? ==> n.cursor.Next() <= length)
    && match n.pull
       case PullIdle => true
       case Read(lo, hi, missed) =>
         && lo <= hi <= length
         && (if n.cursor.After? then n.cursor.Next() <= hi else n.cursor.Next() <= lo || lo == hi)
         && (!missed ==> lo == n.cursor.Next())
       case Pulling(hi, tasks, failed) => n.cursor.Next() <= hi <= length
  }

  ghost predicate ReaderInv(c: Channel, n: Node) {
    && PullShape(n, |c.log|)
    && (c.w in n.nodeData ==> c.Synced(n.nodeData[c.w], SyncedTo(n, c.w)))
    && match n.pull
       case PullIdle => true
       case Read(lo, hi, missed) =>
         HasEvent(c.log[..hi], c.w, n.cursor.Next()) ==> HasEvent(c.log[..hi], c.w, lo)
       case Pulling(hi, tasks, failed) =>
         c.w in tasks ==> TaskInv(c, tasks[c.w], Lookup(n.nodeData, c.w), n.cursor.Next(), hi)
  }

  ghost predicate KnowsOnly(n: Node, known: set<NodeId>) {
    n.nodeData.Keys <= known && (n.pull.Pulling? ==> n.pull.tasks.Keys <= known)
  }

  ghost predicate SyncInv(s: World) {
    && BaseInv(s)
    && s.trimmed <= |s.log|
    && (forall e :: e in s.log ==> e.node in s.nodes)
    && (forall w, i :: Live(s, w) && 0 <= i < |s.log| && s.log[i].node == w ==> HasEvent(s.log, w, s.trimmed))
    && (forall w :: Live(s, w) ==> ChannelOf(s, w).Sound() && WriterInv(ChannelOf(s, w), s.nodes[w]))
    && (forall r :: Live(s, r) ==> KnowsOnly(s.nodes[r], s.nodes.Keys) && PullShape(s.nodes[r], |s.log|))
    && (forall r, w :: Live(s, r) && Live(s, w) && r != w ==> ReaderInv(ChannelOf(s, w), s.nodes[r]))
  }

  // ------------------------------------------------------------ the writer's side

  lemma AgreeingDiff(current: Probes, a: Probes, b: Probes)
    requires Agree(a, b)
    ensures Removed(current, a) == Removed(current, b) && Updated(current, a) == Updated(current, b)
  {
    forall p ensures p in a <==> p in b { assert SameAt(a, b, p); }
    forall p | p in current ensures p in Updated(current, a) <==> p in Updated(current, b) {
      assert SameAt(a, b, p);
    }
  }

  lemma PlanDescribes(c: Channel, n: Node)
    requires n.push.Looked? && BaseOf(Lookup(n.nodeData, c.w), n.push, n.clock, c.doc) && WriterInv(c, n)
    requires c.horizon == Horizon(n)
    ensures WriterInv(c, DoPlan(n, c.w))
    ensures DoPlan(n, c.w).push.Publishing? ==>
              var e := DoPlan(n, c.w).push.event;
              e.Diff? && e.node == c.w && e.alive == c.horizon + 1 && e.removed == {} && e.updated == {}
  {
    if !MustReset(n.push.previous, n.push.remote) {
      AgreeingDiff(n.push.current, n.push.previous.value.probesById, c.doc.value.probesById);
    }
  }

  lemma WriterStep(s: World, step: Step, w: NodeId)
    requires Enabled(s, step) && Calm(s, step) && Live(s, w) && Live(Do(s, step), w)
    requires BaseAt(s, w) && ChannelOf(s, w).Sound() && WriterInv(ChannelOf(s, w), s.nodes[w])
    requires step.Publish? ==> s.nodes[step.w].push.event.node == step.w
    ensures var c, c' := ChannelOf(s, w), ChannelOf(Do(s, step), w);
            c'.Sound() && Keeps(c, c') && WriterInv(c', Do(s, step).nodes[w])
  {
    var c := ChannelOf(s, w);
    if step.Sample? || step.Look? || step.PlanStep? || step.Write? || step.WriteFails? || step.Store? {
      if step.w == w { OwnStep(s, step, w); } else { LaterStays(c, c); }
    } else if step.Publish? {
      if step.w == w { PublishStays(c); } else { OtherPublishStays(c, s.nodes[step.w].push.event); }
    } else if step.Evict? && step.w == w {
      EvictStays(c);
    } else {
      LaterStays(c, c);
    }
  }

  lemma OwnStep(s: World, step: Step, w: NodeId)
    requires Enabled(s, step) && Live(s, w)
    requires step.Sample? || step.Look? || step.PlanStep? || step.Write? || step.WriteFails? || step.Store?
    requires step.w == w
    requires BaseAt(s, w) && ChannelOf(s, w).Sound() && WriterInv(ChannelOf(s, w), s.nodes[w])
    ensures var c, c' := ChannelOf(s, w), ChannelOf(Do(s, step), w);
            c'.Sound() && Keeps(c, c') && WriterInv(c', Do(s, step).nodes[w])
  {
    var c := ChannelOf(s, w);
    var n := s.nodes[w];
    match step
    case Sample(_, _, now) => TickStays(c, now - 1);
    case Look(_) => LaterStays(c, c);
    case PlanStep(_) =>
      PlanDescribes(c, n);
      if DoPlan(n, w).push.Publishing? {
        HeartbeatStays(c, DoPlan(n, w).push.event);
      } else {
        LaterStays(c, c);
      }
    case Write(_) =>
      WriteStays(c, n.push.data, n.push.event);
      assert ChannelOf(Do(s, step), w) == Written(c, n.push.data, n.push.event);
    case WriteFails(_) => TickStays(c, n.clock);
    case Store(_) => LaterStays(c, c);
  }

  // ------------------------------------------------------------ the reader's side

  lemma SyncedEarlier(c: Channel, view: NodeData, from: int, to: int)
    requires c.Synced(view, to) && 0 <= from <= to
    ensures c.Synced(view, from)
  {
    if c.doc.Some? {
      forall p | !SameAt(view.probesById, c.doc.value.probesById, p)
        ensures c.Announced(from, p, view.revalidateTimestamp)
      {
        assert c.Announced(to, p, view.revalidateTimestamp);
      }
    }
  }

  /** Without an event in between, a copy synced to `from` is synced to `to`. */
  lemma SyncedOverGap(c: Channel, view: NodeData, from: int, to: int)
    requires c.Synced(view, from) && from <= to <= |c.log| && !HasEvent(c.log[..to], c.w, from)
    ensures c.Synced(view, to)
  {
    if c.doc.Some? {
      forall p | !SameAt(view.probesById, c.doc.value.probesById, p)
        ensures c.Announced(to, p, view.revalidateTimestamp)
      {
        assert c.Announced(from, p, view.revalidateTimestamp);
        assert forall k :: from <= k < to ==> c.log[..to][k] == c.log[k];
      }
    }
  }

  /** The reader does nothing; the channel moves on, and the copy may expire. */
  lemma ReaderFrame(c: Channel, c': Channel, n: Node, n': Node)
    requires ReaderInv(c, n) && Keeps(c, c')
    requires n'.cursor == n.cursor && n'.pull == n.pull
    requires Lookup(n'.nodeData, c.w) == Lookup(n.nodeData, c.w) || c.w !in n'.nodeData
    ensures ReaderInv(c', n')
  {
    assert c.w in n'.nodeData ==> n'.nodeData[c.w] == n.nodeData[c.w];
    assert forall hi :: 0 <= hi <= |c.log| ==> c'.log[..hi] == c.log[..hi];
    if n.pull.Pulling? && c.w in n.pull.tasks && n.pull.tasks[c.w].AwaitProbes? {
      SumsUpStays(c.log, c'.log, c.w, n.cursor.Next(), n.pull.hi, n.pull.tasks[c.w].changes);
    }
  }

  lemma SumsUpStays(log: seq<Event>, log': seq<Event>, w: NodeId, lo: nat, hi: nat, ch: Changes)
    requires SumsUp(log, w, lo, hi, ch) && log <= log'
    ensures SumsUp(log', w, lo, hi, ch)
  {
    assert forall k :: lo <= k < hi ==> log'[k] == log[k];
  }

  lemma ReadStep(c: Channel, n: Node, trimmed: nat)
    requires ReaderInv(c, n) && n.pull.PullIdle? && trimmed <= |c.log|
    requires forall i :: 0 <= i < |c.log| && c.log[i].node == c.w ==> HasEvent(c.log, c.w, trimmed)
    ensures ReaderInv(c, n.(pull := ReadRange(n.cursor, c.log, trimmed)))
  {
    var n' := n.(pull := ReadRange(n.cursor, c.log, trimmed));
    assert c.log[..|c.log|] == c.log;
    if HasEvent(c.log, c.w, n.cursor.Next()) {
      var i :| n.cursor.Next() <= i < |c.log| && c.log[i].node == c.w;
      var j :| trimmed <= j < |c.log| && c.log[j].node == c.w;
      assert c.log[Max(i, j)].node == c.w;
      assert HasEvent(c.log, c.w, n'.pull.lo);
    }
  }

  /** The batch holds nothing of this writer. */
  lemma ProcessUnheard(c: Channel, n: Node, r: NodeId)
    requires ReaderInv(c, n) && n.pull.Read? && r != c.w
    requires !HasEvent(c.log[..n.pull.hi], c.w, n.pull.lo) && n.cursor.Next() <= n.pull.hi
    requires c.w !in Sources(c.log[n.pull.lo..n.pull.hi], r) && Sources(c.log[n.pull.lo..n.pull.hi], r) != {}
    ensures ReaderInv(c, DoProcess(n, r, c.log[n.pull.lo..n.pull.hi]))
  {
    var n' := DoProcess(n, r, c.log[n.pull.lo..n.pull.hi]);
    if c.w in n'.nodeData {
      assert n'.nodeData[c.w] == n.nodeData[c.w];
      SyncedOverGap(c, n.nodeData[c.w], n.cursor.Next(), n.pull.hi);
    }
  }

  lemma ProcessHeard(c: Channel, n: Node, r: NodeId)
    requires c.Sound() && ReaderInv(c, n) && n.pull.Read? && r != c.w
    requires HasEvent(c.log[..n.pull.hi], c.w, n.pull.lo) && n.cursor.Next() <= n.pull.hi
    requires c.w in Sources(c.log[n.pull.lo..n.pull.hi], r)
    ensures ReaderInv(c, DoProcess(n, r, c.log[n.pull.lo..n.pull.hi]))
  {
    var Read(lo, hi, missed) := n.pull;
    var copy, ch := Lookup(n.nodeData, c.w), ChangesOf(c.log[lo..hi], c.w, missed);
    var n' := DoProcess(n, r, c.log[lo..hi]);
    if MustReload(copy, ch) {
      assert n'.pull.tasks[c.w] == AwaitDocument && Lookup(n'.nodeData, c.w) == copy;
    } else {
      HeardPatch(c, copy.value, lo, hi);
      if AppliesNow(copy, ch) {
        assert Lookup(n'.nodeData, c.w) == Some(Patch(copy.value, ch, map[])) && c.w !in n'.pull.tasks;
      } else {
        assert n'.pull.tasks[c.w] == AwaitProbes(copy.value, ch) && Lookup(n'.nodeData, c.w) == copy;
      }
    }
  }

  lemma HeardPatch(c: Channel, copy: NodeData, lo: nat, hi: nat)
    requires c.Sound() && c.Synced(copy, lo) && lo <= hi <= |c.log| && HasEvent(c.log[..hi], c.w, lo)
    requires !ChangesOf(c.log[lo..hi], c.w, false).reload
    ensures var ch := ChangesOf(c.log[lo..hi], c.w, false);
            SumsUp(c.log, c.w, lo, hi, ch) && (ch.updated == {} ==> c.Synced(Patch(copy, ch, map[]), hi))
  {
    ChangesSumUp(c, lo, hi);
    if ChangesOf(c.log[lo..hi], c.w, false).updated == {} {
      PatchIsSynced(c, copy, ChangesOf(c.log[lo..hi], c.w, false), lo, hi, map[]);
    }
  }

  /** A writer is a source of a batch exactly when the batch holds an event of it. */
  lemma SourceHasEvent(log: seq<Event>, w: NodeId, r: NodeId, lo: nat, hi: nat)
    requires lo <= hi <= |log| && r != w
    ensures w in Sources(log[lo..hi], r) <==> HasEvent(log[..hi], w, lo)
  {
    if w in Sources(log[lo..hi], r) {
      var e :| e in log[lo..hi] && e.node == w;
      var i :| 0 <= i < hi - lo && log[lo..hi][i] == e;
      assert log[..hi][lo + i].node == w;
    }
    if HasEvent(log[..hi], w, lo) {
      var k :| lo <= k < hi && log[..hi][k].node == w;
      assert log[lo..hi][k - lo] == log[..hi][k];
      assert log[lo..hi][k - lo] in log[lo..hi];
    }
  }

  lemma ProcessStep(c: Channel, n: Node, r: NodeId)
    requires c.Sound() && ReaderInv(c, n) && n.pull.Read? && r != c.w
    ensures ReaderInv(c, DoProcess(n, r, c.log[n.pull.lo..n.pull.hi]))
  {
    var events := c.log[n.pull.lo..n.pull.hi];
    if Sources(events, r) != {} {
      assert events != [];
      SourceHasEvent(c.log, c.w, r, n.pull.lo, n.pull.hi);
      if c.w in Sources(events, r) {
        ProcessHeard(c, n, r);
      } else {
        ProcessUnheard(c, n, r);
      }
    }
  }

  lemma FetchStep(c: Channel, n: Node)
    requires c.Sound() && ReaderInv(c, n) && n.pull.Pulling? && c.w in n.pull.tasks && IsWaiting(n.pull.tasks[c.w])
    ensures ReaderInv(c, n.(pull := n.pull.(tasks := n.pull.tasks[c.w := Fetched(n.pull.tasks[c.w], c.doc)])))
  {
    match n.pull.tasks[c.w]
    case AwaitDocument =>
      if c.doc.None? && c.w in n.nodeData {
        assert c.Synced(n.nodeData[c.w], n.pull.hi);
      }
    case AwaitProbes(base, changes) =>
      PatchIsSynced(c, base, changes, n.cursor.Next(), n.pull.hi,
                    if c.doc.None? then map[] else Restricted(c.doc.value.probesById, changes.updated));
    case _ =>
  }

  lemma ApplyStep(c: Channel, n: Node)
    requires ReaderInv(c, n) && n.pull.Pulling? && c.w in n.pull.tasks && !IsWaiting(n.pull.tasks[c.w])
    ensures ReaderInv(c, DoApply(n, c.w))
  {
    var n' := DoApply(n, c.w);
    if c.w in n'.nodeData && n.pull.failed {
      assert c.Synced(n'.nodeData[c.w], n.pull.hi);
      SyncedEarlier(c, n'.nodeData[c.w], n.cursor.Next(), n.pull.hi);
    }
  }

  lemma FailStep(c: Channel, n: Node, v: NodeId)
    requires ReaderInv(c, n) && n.pull.Pulling? && v in n.pull.tasks
    ensures ReaderInv(c, n.(pull := Pulling(n.pull.hi, n.pull.tasks - {v}, true)))
  {
    if c.w in n.nodeData {
      SyncedEarlier(c, n.nodeData[c.w], n.cursor.Next(), SyncedTo(n, c.w));
    }
  }

  /** A pull step of the reader on another writer does not touch what it holds of this one. */
  lemma OtherTaskStep(c: Channel, n: Node, v: NodeId, t: Task)
    requires ReaderInv(c, n) && n.pull.Pulling? && v in n.pull.tasks && v != c.w
    ensures ReaderInv(c, DoApply(n, v))
    ensures ReaderInv(c, n.(pull := n.pull.(tasks := n.pull.tasks[v := t])))
  {
    assert Lookup(DoApply(n, v).nodeData, c.w) == Lookup(n.nodeData, c.w);
  }

  predicate IsPullStep(step: Step) {
    step.ReadStream? || step.Process? || step.Fetch? || step.Apply? || step.Fail? || step.Finish?
  }

  lemma PullStep(s: World, step: Step, r: NodeId, w: NodeId)
    requires Enabled(s, step) && IsPullStep(step) && step.r == r && Live(s, r) && Live(s, w) && r != w
    requires s.trimmed <= |s.log| && ChannelOf(s, w).Sound() && ReaderInv(ChannelOf(s, w), s.nodes[r])
    requires forall i :: 0 <= i < |s.log| && s.log[i].node == w ==> HasEvent(s.log, w, s.trimmed)
    ensures ReaderInv(ChannelOf(s, w), Do(s, step).nodes[r])
  {
    var c, n := ChannelOf(s, w), s.nodes[r];
    match step
    case ReadStream(_) => ReadStep(c, n, s.trimmed);
    case Process(_) => ProcessStep(c, n, r);
    case Fetch(_, u) =>
      if u == w { FetchStep(c, n); } else { OtherTaskStep(c, n, u, Fetched(n.pull.tasks[u], Lookup(s.docs, u))); }
    case Apply(_, u) => if u == w { ApplyStep(c, n); } else { OtherTaskStep(c, n, u, AwaitDocument); }
    case Fail(_, u) => FailStep(c, n, u);
    case Finish(_) =>
  }

  lemma ReaderStep(s: World, step: Step, r: NodeId, w: NodeId)
    requires Enabled(s, step) && Live(s, r) && Live(s, w) && r != w && Live(Do(s, step), r) && Live(Do(s, step), w)
    requires s.trimmed <= |s.log| && ChannelOf(s, w).Sound() && ReaderInv(ChannelOf(s, w), s.nodes[r])
    requires forall i :: 0 <= i < |s.log| && s.log[i].node == w ==> HasEvent(s.log, w, s.trimmed)
    requires Keeps(ChannelOf(s, w), ChannelOf(Do(s, step), w))
    ensures ReaderInv(ChannelOf(Do(s, step), w), Do(s, step).nodes[r])
  {
    if IsPullStep(step) && step.r == r {
      PullStep(s, step, r, w);
      assert ChannelOf(Do(s, step), w) == ChannelOf(s, w);
    } else {
      var n, n' := s.nodes[r], Do(s, step).nodes[r];
      OtherStepLeavesCopy(s, step, r, w);
      ReaderFrame(ChannelOf(s, w), ChannelOf(Do(s, step), w), n, n');
    }
  }

  lemma OtherStepLeavesCopy(s: World, step: Step, r: NodeId, w: NodeId)
    requires Enabled(s, step) && Live(s, r) && Live(Do(s, step), r) && r != w && !(IsPullStep(step) && step.r == r)
    ensures var n, n' := s.nodes[r], Do(s, step).nodes[r];
            n'.cursor == n.cursor && n'.pull == n.pull &&
            (Lookup(n'.nodeData, w) == Lookup(n.nodeData, w) || w !in n'.nodeData)
  {
  }
}
