/** What exactly one pull makes of a copy, by the events it reads: its revalidation time, its probes and their stats. */
module ProbeSyncTimes {
  import opened Common
  import opened ProbeSyncProtocol
  import opened ProbeSyncBase
  import opened ProbeSyncConvergence
  import opened ProbeSyncReader
  import opened ProbeSyncInvariant
  import opened ProbeSyncRuns

  // ------------------------------------------------------------ the events of one node from a position on

  predicate FromNode(log: seq<Event>, w: NodeId, from: int, k: int) {
    0 <= from <= k < |log| && log[k].node == w
  }

  ghost predicate Newest(log: seq<Event>, w: NodeId, from: int, k: int) {
    FromNode(log, w, from, k) && forall j :: k < j < |log| ==> log[j].node != w
  }

  ghost predicate HasReload(log: seq<Event>, w: NodeId, from: int) {
    exists k :: FromNode(log, w, from, k) && log[k].Reload?
  }

  ghost predicate IsRemoved(log: seq<Event>, w: NodeId, from: int, p: ProbeId) {
    exists k :: FromNode(log, w, from, k) && log[k].Diff? && p in log[k].removed
  }

  ghost predicate IsUpdated(log: seq<Event>, w: NodeId, from: int, p: ProbeId) {
    exists k :: FromNode(log, w, from, k) && log[k].Diff? && p in log[k].updated
  }

  ghost predicate TellsStats(log: seq<Event>, w: NodeId, from: int, p: ProbeId, k: int) {
    FromNode(log, w, from, k) && log[k].Diff? && p in log[k].stats
  }

  ghost predicate NothingTold(log: seq<Event>, w: NodeId, from: int, p: ProbeId) {
    forall k :: !TellsStats(log, w, from, p, k)
  }

  ghost predicate LastTold(log: seq<Event>, w: NodeId, from: int, p: ProbeId, stats: string, k: int) {
    TellsStats(log, w, from, p, k) && log[k].stats[p] == stats && forall j :: k < j ==> !TellsStats(log, w, from, p, j)
  }

  ghost predicate ToldLast(log: seq<Event>, w: NodeId, from: int, p: ProbeId, stats: string) {
    exists k :: LastTold(log, w, from, p, stats, k)
  }

  /** The stats of the last event that reports any, else those of before. */
  ghost predicate StatsAfter(log: seq<Event>, w: NodeId, from: int, p: ProbeId, before: string, after: string) {
    (after == before && NothingTold(log, w, from, p)) || ToldLast(log, w, from, p, after)
  }

  /** A patched copy: updated probes are those of the document, removed ones are gone, the others have their last stats. */
  ghost predicate ProbeAfter(log: seq<Event>, w: NodeId, from: int, before: Probes, doc: Option<NodeData>, after: Probes, p: ProbeId) {
    if IsUpdated(log, w, from, p) && doc.Some? && p in doc.value.probesById then
      p in after && after[p] == doc.value.probesById[p]
    else if p !in before || IsRemoved(log, w, from, p) then p !in after
    else p in after && after[p] == before[p].(stats := after[p].stats) && StatsAfter(log, w, from, p, before[p].stats, after[p].stats)
  }

  ghost predicate AreUpdated(log: seq<Event>, w: NodeId, from: int, ids: set<ProbeId>) {
    forall p :: p in ids ==> IsUpdated(log, w, from, p)
  }

  /** More than five probes were updated. */
  ghost predicate ManyUpdated(log: seq<Event>, w: NodeId, from: int) {
    exists ids :: AreUpdated(log, w, from, ids) && |ids| == 6
  }

  // ------------------------------------------------------------ collecting, by position

  lemma {:induction false} CollectedReload(events: seq<Event>, acc: Changes)
    requires !acc.reload
    ensures Collect(events, acc).reload <==> exists e :: e in events && e.Reload?
  {
    if events != [] {
      assert events == [events[0]] + events[1..];
      if events[0].Diff? {
        var e := events[0];
        CollectedReload(events[1..], Changes(acc.reload, Some(e.alive), acc.removed + e.removed, acc.updated + e.updated, acc.stats + e.stats));
        assert (exists x :: x in events && x.Reload?) <==> (exists x :: x in events[1..] && x.Reload?);
      } else {
        assert events[0] in events;
      }
    }
  }

  lemma TellsFromNext(log: seq<Event>, w: NodeId, lo: nat, p: ProbeId)
    requires lo < |log|
    ensures forall k :: TellsStats(log, w, lo, p, k) <==>
                        TellsStats(log, w, lo + 1, p, k) || (k == lo && log[lo].node == w && log[lo].Diff? && p in log[lo].stats)
  {
  }

  lemma LaterTold(log: seq<Event>, w: NodeId, lo: nat, p: ProbeId, stats: string)
    requires lo < |log| && ToldLast(log, w, lo + 1, p, stats)
    ensures ToldLast(log, w, lo, p, stats)
  {
    TellsFromNext(log, w, lo, p);
    var k :| LastTold(log, w, lo + 1, p, stats, k);
    assert LastTold(log, w, lo, p, stats, k);
  }

  /** What is collected for a probe is what was told last, or what was there. */
  ghost predicate StatsFrom(log: seq<Event>, w: NodeId, lo: nat, acc: map<ProbeId, string>, stats: map<ProbeId, string>, p: ProbeId) {
    || (NothingTold(log, w, lo, p) && Lookup(stats, p) == Lookup(acc, p))
    || (p in stats && ToldLast(log, w, lo, p, stats[p]))
  }

  lemma StatsOneEarlier(log: seq<Event>, w: NodeId, lo: nat, acc: map<ProbeId, string>, stats: map<ProbeId, string>, p: ProbeId)
    requires lo < |log|
    requires StatsFrom(log, w, lo + 1, if log[lo].node == w && log[lo].Diff? then acc + log[lo].stats else acc, stats, p)
    ensures StatsFrom(log, w, lo, acc, stats, p)
  {
    TellsFromNext(log, w, lo, p);
    if NothingTold(log, w, lo + 1, p) {
      if TellsStats(log, w, lo, p, lo) {
        assert LastTold(log, w, lo, p, stats[p], lo);
      }
    } else {
      LaterTold(log, w, lo, p, stats[p]);
    }
  }

  lemma {:induction false} CollectedStats(log: seq<Event>, w: NodeId, lo: nat, acc: Changes, p: ProbeId)
    requires lo <= |log| && !Collect(EventsOf(log[lo..], w), acc).reload
    ensures StatsFrom(log, w, lo, acc.stats, Collect(EventsOf(log[lo..], w), acc).stats, p)
    decreases |log| - lo
  {
    if lo < |log| {
      assert log[lo..][1..] == log[lo + 1..] && log[lo..][0] == log[lo];
      var stats := Collect(EventsOf(log[lo..], w), acc).stats;
      if log[lo].node == w {
        var e := log[lo];
        var acc' := Changes(acc.reload, Some(e.alive), acc.removed + e.removed, acc.updated + e.updated, acc.stats + e.stats);
        assert EventsOf(log[lo..], w)[1..] == EventsOf(log[lo + 1..], w);
        CollectedStats(log, w, lo + 1, acc', p);
      } else {
        assert EventsOf(log[lo..], w) == EventsOf(log[lo + 1..], w);
        CollectedStats(log, w, lo + 1, acc, p);
      }
      StatsOneEarlier(log, w, lo, acc.stats, stats, p);
    }
  }

  // ------------------------------------------------------------ a patch, by position

  /** What the changes of a stretch without a RELOAD say. */
  lemma ChangesByPosition(log: seq<Event>, w: NodeId, lo: nat, ch: Changes)
    requires lo <= |log| && ch == Collect(EventsOf(log[lo..], w), NoChanges)
    ensures ch.reload <==> HasReload(log, w, lo)
    ensures !ch.reload ==> forall p :: p in ch.removed <==> IsRemoved(log, w, lo, p)
    ensures !ch.reload ==> forall p :: p in ch.updated <==> IsUpdated(log, w, lo, p)
  {
    var events := EventsOf(log[lo..], w);
    assert log[lo..|log|] == log[lo..];
    EventsAt(log, w, lo, |log|);
    CollectedReload(events, NoChanges);
    if !ch.reload {
      CollectedChanges(events, NoChanges);
      ChangedIds(log, w, lo, events, ch);
    }
  }

  lemma ChangedIds(log: seq<Event>, w: NodeId, lo: nat, events: seq<Event>, ch: Changes)
    requires lo <= |log|
    requires forall e :: e in events <==> exists k :: lo <= k < |log| && log[k].node == w && log[k] == e
    requires forall e :: e in events ==> e.Diff? && e.removed <= ch.removed && e.updated <= ch.updated
    requires forall p :: p in ch.removed ==> exists e :: e in events && e.Diff? && p in e.removed
    requires forall p :: p in ch.updated ==> exists e :: e in events && e.Diff? && p in e.updated
    ensures forall p :: p in ch.removed <==> IsRemoved(log, w, lo, p)
    ensures forall p :: p in ch.updated <==> IsUpdated(log, w, lo, p)
  {
    forall p ensures p in ch.removed <==> IsRemoved(log, w, lo, p) {
      if p in ch.removed {
        var e :| e in events && e.Diff? && p in e.removed;
        var k :| lo <= k < |log| && log[k].node == w && log[k] == e;
        assert FromNode(log, w, lo, k);
      }
      if IsRemoved(log, w, lo, p) {
        var k :| FromNode(log, w, lo, k) && log[k].Diff? && p in log[k].removed;
        assert log[k] in events;
      }
    }
    forall p ensures p in ch.updated <==> IsUpdated(log, w, lo, p) {
      if p in ch.updated {
        var e :| e in events && e.Diff? && p in e.updated;
        var k :| lo <= k < |log| && log[k].node == w && log[k] == e;
        assert FromNode(log, w, lo, k);
      }
      if IsUpdated(log, w, lo, p) {
        var k :| FromNode(log, w, lo, k) && log[k].Diff? && p in log[k].updated;
        assert log[k] in events;
      }
    }
  }

  lemma NewestTime(log: seq<Event>, w: NodeId, lo: nat, ch: Changes, k: int)
    requires lo <= |log| && ch == Collect(EventsOf(log[lo..], w), NoChanges) && !ch.reload && Newest(log, w, lo, k)
    ensures log[k].Diff? && ch.alive == Some(log[k].alive)
  {
    var events := EventsOf(log[lo..], w);
    assert log[lo..|log|] == log[lo..];
    EventsAt(log, w, lo, |log|);
    assert log[k] in events;
    var last := LastEventOf(log[lo..], w);
    assert log[lo..][last] == log[lo + last];
    assert log[lo..][k - lo] == log[k];
    CollectedChanges(events, NoChanges);
  }

  /** The stats of one probe after a stretch. */
  lemma StatsByPosition(log: seq<Event>, w: NodeId, lo: nat, ch: Changes, p: ProbeId, before: string)
    requires lo <= |log| && ch == Collect(EventsOf(log[lo..], w), NoChanges) && !ch.reload
    ensures StatsAfter(log, w, lo, p, before, if p in ch.stats then ch.stats[p] else before)
  {
    CollectedStats(log, w, lo, NoChanges, p);
  }

  lemma PatchByPosition(log: seq<Event>, w: NodeId, lo: nat, ch: Changes, base: NodeData, doc: Option<NodeData>, p: ProbeId)
    requires lo <= |log| && ch == Collect(EventsOf(log[lo..], w), NoChanges) && !ch.reload
    ensures var fetched := if doc.Some? then Restricted(doc.value.probesById, ch.updated) else map[];
            ProbeAfter(log, w, lo, base.probesById, doc, Patch(base, ch, fetched).probesById, p)
  {
    ChangesByPosition(log, w, lo, ch);
    if p in base.probesById {
      StatsByPosition(log, w, lo, ch, p, base.probesById[p].stats);
    }
  }

  lemma SubsetOfSize<T>(s: set<T>, n: nat) returns (part: set<T>)
    requires |s| >= n
    ensures part <= s && |part| == n
  {
    if |s| == n {
      part := s;
    } else {
      var x :| x in s;
      part := SubsetOfSize(s - {x}, n);
    }
  }

  lemma ManyByPosition(log: seq<Event>, w: NodeId, lo: nat, ch: Changes)
    requires lo <= |log| && ch == Collect(EventsOf(log[lo..], w), NoChanges) && !ch.reload
    ensures |ch.updated| > MAX_PATCHED_PROBES <==> ManyUpdated(log, w, lo)
  {
    ChangesByPosition(log, w, lo, ch);
    if |ch.updated| > MAX_PATCHED_PROBES {
      var ids := SubsetOfSize(ch.updated, 6);
      assert AreUpdated(log, w, lo, ids);
    }
    if ManyUpdated(log, w, lo) {
      var ids :| AreUpdated(log, w, lo, ids) && |ids| == 6;
      assert ids <= ch.updated;
      SubsetSize(ids, ch.updated);
    }
  }

  // ------------------------------------------------------------ one pull over a quiet system

  /** The batch that a pull of `r` reads in `s`. */
  function Batch(s: World, r: NodeId): Pull
    requires r in s.nodes && s.trimmed <= |s.log|
  {
    ReadRange(s.nodes[r].cursor, s.log, s.trimmed)
  }

  ghost predicate Readable(s: World, r: NodeId) {
    r in s.nodes && s.trimmed <= |s.log| && Batch(s, r).Read? && Batch(s, r).lo <= Batch(s, r).hi == |s.log|
  }

  function TaskAtStart(s: World, r: NodeId, w: NodeId): Option<Task>
    requires Readable(s, r)
  {
    var pull := Batch(s, r);
    var known, ch := Lookup(s.nodes[r].nodeData, w), ChangesOf(Events(s, pull), w, pull.missed);
    if w in Sources(Events(s, pull), r) && !AppliesNow(known, ch) then Some(TaskFor(known, ch)) else None
  }

  /** What the reader holds of `w` when the part of the pull for `w` is done. */
  function Outcome(s: World, r: NodeId, w: NodeId): Option<NodeData>
    requires Readable(s, r)
  {
    var pull := Batch(s, r);
    var known, ch := Lookup(s.nodes[r].nodeData, w), ChangesOf(Events(s, pull), w, pull.missed);
    if w !in Sources(Events(s, pull), r) then known
    else if TaskAtStart(s, r, w).None? then Some(Patch(known.value, ch, map[]))
    else
      var stored := TaskResult(Fetched(TaskAtStart(s, r, w).value, Lookup(s.docs, w)));
      if stored.Some? then stored else known
  }

  /** How far the pull that began in `s0` is with `w`. */
  ghost predicate Tracked(s0: World, s: World, r: NodeId, w: NodeId)
    requires Readable(s0, r)
  {
    && r in s.nodes && s.docs == s0.docs && s.log == s0.log
    && match s.nodes[r].pull
       case PullIdle => Lookup(s.nodes[r].nodeData, w) == Outcome(s0, r, w)
       case Read(_, _, _) => s.nodes[r].pull == Batch(s0, r) && Lookup(s.nodes[r].nodeData, w) == Lookup(s0.nodes[r].nodeData, w)
       case Pulling(_, tasks, _) =>
         if w in tasks then
           && Lookup(s.nodes[r].nodeData, w) == Lookup(s0.nodes[r].nodeData, w)
           && TaskAtStart(s0, r, w).Some?
           && (tasks[w] == TaskAtStart(s0, r, w).value || tasks[w] == Fetched(TaskAtStart(s0, r, w).value, Lookup(s0.docs, w)))
         else Lookup(s.nodes[r].nodeData, w) == Outcome(s0, r, w)
  }

  lemma TrackProcess(s0: World, s: World, r: NodeId, w: NodeId)
    requires Readable(s0, r) && Tracked(s0, s, r, w) && Enabled(s, Process(r))
    ensures Tracked(s0, Do(s, Process(r)), r, w)
  {
    assert Events(s, s.nodes[r].pull) == Events(s0, Batch(s0, r));
  }

  lemma TrackTask(s0: World, s: World, step: Step, r: NodeId, w: NodeId)
    requires Readable(s0, r) && Tracked(s0, s, r, w) && Enabled(s, step) && (step.Fetch? || step.Apply?) && step.r == r
    ensures Tracked(s0, Do(s, step), r, w)
  {
  }

  lemma {:induction false} TrackPull(run: seq<World>, steps: seq<Step>, r: NodeId, w: NodeId, j: nat)
    requires IsQuietPull(run, steps, r) && Readable(run[0], r) && 0 < j <= |steps|
    ensures Tracked(run[0], run[j], r, w)
  {
    if j == 1 {
      assert steps[0].ReadStream?;
    } else {
      TrackPull(run, steps, r, w, j - 1);
      assert Enabled(run[j - 1], steps[j - 1]);
      if steps[j - 1].Process? {
        TrackProcess(run[0], run[j - 1], r, w);
      } else if steps[j - 1].Fetch? || steps[j - 1].Apply? {
        TrackTask(run[0], run[j - 1], steps[j - 1], r, w);
      }
    }
  }

  lemma BatchShape(s: World, r: NodeId)
    requires SyncInv(s) && Live(s, r) && s.nodes[r].pull.PullIdle?
    ensures Readable(s, r)
    ensures var b, cursor := Batch(s, r), s.nodes[r].cursor;
            && (b.missed <==> cursor.FromStart? || cursor.last < s.trimmed)
            && Min(cursor.Next(), |s.log|) <= b.lo
            && (!b.missed ==> b.lo == cursor.Next() && Events(s, b) == s.log[cursor.Next()..])
  {
    assert PullShape(s.nodes[r], |s.log|);
  }

  /** The batch has events of `w` exactly if some are unread. */
  lemma HeardIfUnread(s: World, r: NodeId, w: NodeId)
    requires SyncInv(s) && Live(s, r) && s.nodes[r].pull.PullIdle? && Live(s, w) && w != r && Readable(s, r)
    ensures w in Sources(Events(s, Batch(s, r)), r) <==> Unread(s, r, w)
  {
    BatchShape(s, r);
    var b := Batch(s, r);
    assert s.log[..b.hi] == s.log;
    SourceHasEvent(s.log, w, r, b.lo, b.hi);
    if Unread(s, r, w) {
      var k :| s.nodes[r].cursor.Next() <= k < |s.log| && s.log[k].node == w;
      var l :| s.trimmed <= l < |s.log| && s.log[l].node == w;
      assert b.lo <= Max(k, l) && s.log[Max(k, l)].node == w;
    }
  }

  /** The reader takes the whole document rather than patching its copy. */
  ghost predicate LoadsDocument(s: World, r: NodeId, w: NodeId)
    requires r in s.nodes
  {
    var n := s.nodes[r];
    || w !in n.nodeData || n.cursor.FromStart? || n.cursor.last < s.trimmed
    || HasReload(s.log, w, n.cursor.Next()) || ManyUpdated(s.log, w, n.cursor.Next())
  }

  /** A patch is as new as the newest event, and each probe is what the events say. */
  ghost predicate IsPatched(s: World, r: NodeId, w: NodeId, copy: NodeData, copy': NodeData)
    requires r in s.nodes
  {
    var from := s.nodes[r].cursor.Next();
    && copy'.changeTimestamp == copy.changeTimestamp
    && (forall k :: Newest(s.log, w, from, k) ==> s.log[k].Diff? && copy'.revalidateTimestamp == s.log[k].alive)
    && forall p :: ProbeAfter(s.log, w, from, copy.probesById, Lookup(s.docs, w), copy'.probesById, p)
  }

  /** The batch starts at the first unread event, or is known to be incomplete. */
  ghost predicate Heard(s: World, r: NodeId, w: NodeId) {
    && Readable(s, r) && Unread(s, r, w) && w in Sources(Events(s, Batch(s, r)), r)
    && var b, cursor := Batch(s, r), s.nodes[r].cursor;
       && (b.missed <==> cursor.FromStart? || cursor.last < s.trimmed)
       && (!b.missed ==> cursor.Next() <= |s.log| && Events(s, b) == s.log[cursor.Next()..])
  }

  function HeardChanges(s: World, r: NodeId, w: NodeId): Changes
    requires Readable(s, r)
  {
    ChangesOf(Events(s, Batch(s, r)), w, Batch(s, r).missed)
  }

  lemma ReloadingChanges(s: World, r: NodeId, w: NodeId)
    requires Heard(s, r, w)
    ensures MustReload(Lookup(s.nodes[r].nodeData, w), HeardChanges(s, r, w)) <==> LoadsDocument(s, r, w)
  {
    var from, ch := s.nodes[r].cursor.Next(), HeardChanges(s, r, w);
    if !Batch(s, r).missed {
      ChangesByPosition(s.log, w, from, ch);
      if !ch.reload {
        ManyByPosition(s.log, w, from, ch);
      }
    }
  }

  lemma LoadingOutcome(s: World, r: NodeId, w: NodeId)
    requires Heard(s, r, w) && LoadsDocument(s, r, w)
    ensures Outcome(s, r, w) == if w in s.docs then Some(s.docs[w]) else Lookup(s.nodes[r].nodeData, w)
  {
    ReloadingChanges(s, r, w);
    assert TaskAtStart(s, r, w) == Some(AwaitDocument);
  }

  lemma PatchingOutcome(s: World, r: NodeId, w: NodeId, known: NodeData, ch: Changes)
    requires Heard(s, r, w) && Lookup(s.nodes[r].nodeData, w) == Some(known)
    requires ch == HeardChanges(s, r, w) && !MustReload(Some(known), ch)
    ensures var fetched := if w in s.docs then Restricted(s.docs[w].probesById, ch.updated) else map[];
            Outcome(s, r, w) == Some(Patch(known, ch, fetched))
  {
    if ch.updated == {} {
      assert TaskAtStart(s, r, w) == None;
      assert w in s.docs ==> Restricted(s.docs[w].probesById, {}) == map[];
    } else {
      assert TaskAtStart(s, r, w) == Some(AwaitProbes(known, ch));
    }
  }

  lemma PatchOutcome(s: World, r: NodeId, w: NodeId)
    requires Heard(s, r, w) && !LoadsDocument(s, r, w)
    ensures Outcome(s, r, w).Some? && IsPatched(s, r, w, s.nodes[r].nodeData[w], Outcome(s, r, w).value)
  {
    var from, known, ch := s.nodes[r].cursor.Next(), s.nodes[r].nodeData[w], HeardChanges(s, r, w);
    ReloadingChanges(s, r, w);
    PatchingOutcome(s, r, w, known, ch);
    PatchedByEvents(s, r, w, known, ch, Outcome(s, r, w).value);
  }

  lemma PatchedByEvents(s: World, r: NodeId, w: NodeId, known: NodeData, ch: Changes, copy: NodeData)
    requires r in s.nodes && s.nodes[r].cursor.Next() <= |s.log|
    requires ch == Collect(EventsOf(s.log[s.nodes[r].cursor.Next()..], w), NoChanges) && !ch.reload
    requires copy == Patch(known, ch, if w in s.docs then Restricted(s.docs[w].probesById, ch.updated) else map[])
    ensures IsPatched(s, r, w, known, copy)
  {
    var from := s.nodes[r].cursor.Next();
    forall k | Newest(s.log, w, from, k) ensures s.log[k].Diff? && copy.revalidateTimestamp == s.log[k].alive {
      NewestTime(s.log, w, from, ch, k);
    }
    forall p ensures ProbeAfter(s.log, w, from, known.probesById, Lookup(s.docs, w), copy.probesById, p) {
      PatchByPosition(s.log, w, from, ch, known, Lookup(s.docs, w), p);
    }
  }

  /** The copy of `w` after a pull that began in `s`: as it was, the document, or patched by all unread events. */
  ghost predicate CopyAfterPull(s: World, r: NodeId, w: NodeId, copy: Option<NodeData>)
    requires r in s.nodes
  {
    if !Unread(s, r, w) then copy == Lookup(s.nodes[r].nodeData, w)
    else if LoadsDocument(s, r, w) then copy == if w in s.docs then Some(s.docs[w]) else Lookup(s.nodes[r].nodeData, w)
    else copy.Some? && IsPatched(s, r, w, s.nodes[r].nodeData[w], copy.value)
  }

  lemma OutcomeIsExact(s: World, r: NodeId, w: NodeId)
    requires Readable(s, r) && if Unread(s, r, w) then Heard(s, r, w) else w !in Sources(Events(s, Batch(s, r)), r)
    ensures CopyAfterPull(s, r, w, Outcome(s, r, w))
  {
    if Unread(s, r, w) {
      if LoadsDocument(s, r, w) { LoadingOutcome(s, r, w); } else { PatchOutcome(s, r, w); }
    }
  }

  /** What exactly a quiet pull makes of the copy of a running node, after any calm run. */
  lemma QuietPullIsExact(run: seq<World>, steps: seq<Step>, i: nat, pull: seq<World>, parts: seq<Step>, r: NodeId, w: NodeId)
    requires IsCalmRun(run, steps) && i < |run| && IsQuietPull(pull, parts, r) && pull[0] == run[i]
    requires Live(run[i], w) && w != r
    ensures CopyAfterPull(run[i], r, w, Lookup(pull[|parts|].nodes[r].nodeData, w))
  {
    RunKeepsSync(run, steps, i);
    BatchShape(run[i], r);
    HeardIfUnread(run[i], r, w);
    TrackPull(pull, parts, r, w, |parts|);
    OutcomeIsExact(run[i], r, w);
  }

  // ------------------------------------------------------------ when a copy counts as revalidated

  /** The time of a copy that a batch of events brings up to date at once. */
  ghost predicate TimeOfNewest(events: seq<Event>, w: NodeId, time: nat) {
    exists k :: Newest(events, w, 0, k) && events[k].Diff? && events[k].alive == time
  }

  lemma ProcessedTime(nodeData: map<NodeId, NodeData>, events: seq<Event>, self: NodeId, missed: bool, w: NodeId)
    requires w in Sources(events, self) && AppliesNow(Lookup(nodeData, w), ChangesOf(events, w, missed))
    ensures !missed && w in nodeData
    ensures TimeOfNewest(events, w, ProcessedData(nodeData, events, self, missed)[w].revalidateTimestamp)
  {
    var e :| e in events && e.node == w;
    var k :| 0 <= k < |events| && events[k] == e;
    assert events[..|events|] == events && events[0..] == events;
    assert events[..|events|][k].node == w;
    NewestExists(events, w, 0, |events|);
    var last :| Newest(events, w, 0, last);
    NewestTime(events, w, 0, ChangesOf(events, w, false), last);
  }

  /** What the reader reads of `w` is newer than `start`: its newest event, or the document, or the copy it keeps. */
  ghost predicate ReadsNewer(s: World, r: NodeId, w: NodeId, start: nat)
    requires r in s.nodes
  {
    var n := s.nodes[r];
    if Unread(s, r, w) && !LoadsDocument(s, r, w) then
      exists k :: Newest(s.log, w, n.cursor.Next(), k) && s.log[k].Diff? && s.log[k].alive > start
    else if Unread(s, r, w) && w in s.docs then s.docs[w].revalidateTimestamp > start
    else w in n.nodeData && n.nodeData[w].revalidateTimestamp > start
  }

  lemma {:induction false} NewestExists(log: seq<Event>, w: NodeId, from: nat, to: nat)
    requires to <= |log| && HasEvent(log[..to], w, from) && forall j :: to <= j < |log| ==> log[j].node != w
    ensures exists k :: Newest(log, w, from, k)
  {
    var k :| from <= k < to && log[..to][k].node == w;
    if log[to - 1].node == w {
      assert Newest(log, w, from, to - 1);
    } else {
      assert log[..to - 1][k].node == w;
      NewestExists(log, w, from, to - 1);
    }
  }

  lemma RevalidatedIfNewer(s: World, r: NodeId, w: NodeId, start: nat, copy: Option<NodeData>)
    requires r in s.nodes && CopyAfterPull(s, r, w, copy)
    ensures copy.Some? && copy.value.revalidateTimestamp > start <==> ReadsNewer(s, r, w, start)
  {
    if Unread(s, r, w) && !LoadsDocument(s, r, w) {
      assert s.log[..|s.log|] == s.log;
      NewestExists(s.log, w, s.nodes[r].cursor.Next(), |s.log|);
      var k :| Newest(s.log, w, s.nodes[r].cursor.Next(), k);
    }
  }

  /** A pull leaves a node's own entry alone. */
  lemma OwnEntryStays(run: seq<World>, steps: seq<Step>, r: NodeId)
    requires IsQuietPull(run, steps, r) && SyncInv(run[0])
    ensures Lookup(run[|steps|].nodes[r].nodeData, r) == Lookup(run[0].nodes[r].nodeData, r)
  {
    BatchShape(run[0], r);
    TrackPull(run, steps, r, r, |steps|);
    assert r !in Sources(Events(run[0], Batch(run[0], r)), r);
  }

  /** `fetchProbes` started at `start` can resolve after a quiet pull exactly if everything known and read is newer than that. */
  lemma PullEndsTheWait(run: seq<World>, steps: seq<Step>, i: nat, pull: seq<World>, parts: seq<Step>, r: NodeId, start: nat)
    requires IsCalmRun(run, steps) && i < |run| && IsQuietPull(pull, parts, r) && pull[0] == run[i]
    requires var data := pull[|parts|].nodes[r].nodeData;
             forall w :: w in data && w != r ==> Live(run[i], w)
    ensures var own, data := run[i].nodes[r].nodeData, pull[|parts|].nodes[r].nodeData;
            (forall w :: w in data ==> data[w].revalidateTimestamp > start) <==>
            (r in own ==> own[r].revalidateTimestamp > start) && (forall w :: w in data && w != r ==> ReadsNewer(run[i], r, w, start))
  {
    var own, data := run[i].nodes[r].nodeData, pull[|parts|].nodes[r].nodeData;
    RunKeepsSync(run, steps, i);
    OwnEntryStays(pull, parts, r);
    assert r in own <==> r in data;
    forall w | w in data && w != r ensures data[w].revalidateTimestamp > start <==> ReadsNewer(run[i], r, w, start) {
      QuietPullIsExact(run, steps, i, pull, parts, r, w);
      RevalidatedIfNewer(run[i], r, w, start, Lookup(data, w));
    }
    if r in own {
      assert Lookup(data, r) == Some(own[r]);
    }
  }

  // ------------------------------------------------------------ a push, and what a reader makes of it

  /** Half the time that a document lives in Redis. */
  const HALF_AN_HOUR: nat := 30 * 60 * 1000

  /** What a push stores and announces, by the timestamps and the probes it compares. */
  ghost predicate IsPush(self: NodeId, previous: Option<NodeData>, remote: Option<nat>, now: nat, current: Probes, plan: Plan) {
    && plan.data.revalidateTimestamp == now && plan.data.probesById == current
    && (plan.Reset? <==> previous.None? || remote != Some(previous.value.changeTimestamp) || remote == Some(0))
    && (!plan.Reset? ==>
          && plan.event.Diff? && plan.event.node == self && plan.event.alive == now
          && (plan.KeepAlive? <==> Agree(current, previous.value.probesById)))
    && (plan.KeepAlive? ==>
          && plan.data.changeTimestamp == previous.value.changeTimestamp
          && (plan.refresh <==> now > previous.value.changeTimestamp + HALF_AN_HOUR))
    && (!plan.KeepAlive? ==> plan.data.changeTimestamp == now)
  }

  lemma PlanIsPush(self: NodeId, previous: Option<NodeData>, remote: Option<nat>, now: nat, current: Probes)
    ensures IsPush(self, previous, remote, now, current, PlanPush(self, previous, remote, now, current))
  {
    if !MustReset(previous, remote) {
      AgreeingHasEmptyDiff(current, previous.value.probesById);
    }
  }

  lemma AgreeingHasEmptyDiff(current: Probes, previous: Probes)
    ensures Agree(current, previous) <==> Removed(current, previous) == {} && Updated(current, previous) == {}
  {
    if Removed(current, previous) == {} && Updated(current, previous) == {} {
      EmptyDiffAgrees(current, previous);
    }
    if Agree(current, previous) {
      forall p ensures p !in Removed(current, previous) && p !in Updated(current, previous) {
        assert SameAt(current, previous, p);
      }
    }
  }

  /** The event is the only one of its node from there on. */
  ghost predicate OnlyEvent(log: seq<Event>, w: NodeId, from: int, e: Event) {
    exists k :: FromNode(log, w, from, k) && log[k] == e && forall j :: FromNode(log, w, from, j) ==> j == k
  }

  /** A copy of what the writer had before its push is, patched by the event of the push, what the writer has now. */
  lemma PushIsReadBack(w: NodeId, log: seq<Event>, from: int, now: nat, before: Probes, current: Probes, doc: Option<NodeData>, after: Probes)
    requires OnlyEvent(log, w, from, DiffEvent(w, now, current, before))
    requires forall p :: ProbeAfter(log, w, from, before, doc, after, p)
    requires Agree(current, before) || (doc.Some? && doc.value.probesById == current)
    ensures after == current
  {
    var e := DiffEvent(w, now, current, before);
    var k :| FromNode(log, w, from, k) && log[k] == e && forall j :: FromNode(log, w, from, j) ==> j == k;
    forall p ensures Lookup(after, p) == Lookup(current, p) {
      assert ProbeAfter(log, w, from, before, doc, after, p);
      assert IsUpdated(log, w, from, p) <==> p in e.updated;
      assert IsRemoved(log, w, from, p) <==> p in e.removed;
      assert Agree(current, before) ==> SameAt(current, before, p);
      if p in current && p !in e.updated {
        assert current[p].(stats := before[p].stats) == before[p];
        if p in e.stats {
          assert TellsStats(log, w, from, p, k);
        } else {
          assert NothingTold(log, w, from, p);
        }
      }
    }
    assert after.Keys == current.Keys by {
      forall p ensures p in after <==> p in current {
        assert Lookup(after, p) == Lookup(current, p);
      }
    }
    forall p | p in after ensures after[p] == current[p] {
      assert Lookup(after, p) == Lookup(current, p);
    }
  }

  /** When the reader knew all before a push, a quiet pull after it leaves exactly the pushed probes and the time of the push. */
  lemma PushReachesTheCopy(run: seq<World>, steps: seq<Step>, i: nat, pull: seq<World>, parts: seq<Step>, r: NodeId, w: NodeId,
                           now: nat, before: Probes, current: Probes)
    requires IsCalmRun(run, steps) && i < |run| && IsQuietPull(pull, parts, r) && pull[0] == run[i]
    requires Live(run[i], w) && w != r && !LoadsDocument(run[i], r, w)
    requires OnlyEvent(run[i].log, w, run[i].nodes[r].cursor.Next(), DiffEvent(w, now, current, before))
    requires run[i].nodes[r].nodeData[w].probesById == before
    requires Agree(current, before) || (w in run[i].docs && run[i].docs[w].probesById == current)
    ensures var data := pull[|parts|].nodes[r].nodeData;
            w in data && data[w].probesById == current && data[w].revalidateTimestamp == now
  {
    var s, from, e := run[i], run[i].nodes[r].cursor.Next(), DiffEvent(w, now, current, before);
    var k :| FromNode(s.log, w, from, k) && s.log[k] == e && forall j :: FromNode(s.log, w, from, j) ==> j == k;
    assert s.log[k].node == w && Unread(s, r, w);
    forall j | k < j < |s.log| ensures s.log[j].node != w {
      assert FromNode(s.log, w, from, j) <==> s.log[j].node == w;
    }
    assert Newest(s.log, w, from, k);
    QuietPullIsExact(run, steps, i, pull, parts, r, w);
    var copy := pull[|parts|].nodes[r].nodeData[w];
    assert IsPatched(s, r, w, s.nodes[r].nodeData[w], copy);
    PushIsReadBack(w, s.log, from, now, before, current, Lookup(s.docs, w), copy.probesById);
  }

  // ------------------------------------------------------------ the writer's own entry

  /** What a push in flight announces is as new as the node's own entry. */
  ghost predicate OwnInv(n: Node, w: NodeId) {
    && NoSelfTask(n, w)
    && match n.push
       case Sampled(_, _, now) => now == n.clock
       case Looked(_, _, now, _) => now == n.clock
       case Writing(data, event, applied) =>
         && data.revalidateTimestamp == n.clock && (event.Diff? ==> event.alive == n.clock)
         && (applied && w in n.nodeData ==> n.nodeData[w] == data)
       case Storing(data, event) => data.revalidateTimestamp == n.clock && (event.Diff? ==> event.alive == n.clock)
       case Publishing(event) =>
         && (event.Diff? ==> event.alive == n.clock)
         && (w in n.nodeData ==> n.nodeData[w].revalidateTimestamp == n.clock)
       case PushIdle => true
  }

  lemma StepKeepsOwn(s: World, step: Step, w: NodeId)
    requires Enabled(s, step) && w in Do(s, step).nodes && (w in s.nodes ==> OwnInv(s.nodes[w], w))
    ensures OwnInv(Do(s, step).nodes[w], w)
  {
    if step.Process? && step.r == w {
      assert w !in Sources(Events(s, s.nodes[w].pull), w);
    }
  }

  /** In every run, a node that is about to publish has the time of its push in its own entry and in the event. */
  lemma {:induction false} OwnEntryIsPushed(run: seq<World>, steps: seq<Step>, i: nat, w: NodeId)
    requires IsRun(run, steps) && i < |run| && w in run[i].nodes
    ensures OwnInv(run[i].nodes[w], w)
  {
    if i > 0 {
      if w in run[i - 1].nodes {
        OwnEntryIsPushed(run, steps, i - 1, w);
      }
      StepKeepsOwn(run[i - 1], steps[i - 1], w);
    }
  }
}
