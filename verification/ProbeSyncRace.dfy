/**
  Why convergence needs calm runs: a document evicted between the writer's look at
  it and the writer's own write lets a reader miss a change for good.
 */
module ProbeSyncRace {
  import opened Common
  import opened ProbeSyncProtocol

  ghost predicate Leads(s: World, steps: seq<Step>, s': World)
    decreases |steps|
  {
    if steps == [] then s == s' else Enabled(s, steps[0]) && Leads(Do(s, steps[0]), steps[1..], s')
  }

  lemma {:induction false} LeadsOn(s: World, xs: seq<Step>, t: World, ys: seq<Step>, u: World)
    requires Leads(s, xs, t) && Leads(t, ys, u)
    ensures Leads(s, xs + ys, u)
    decreases |xs|
  {
    if xs == [] {
      assert xs + ys == ys;
    } else {
      assert (xs + ys)[1..] == xs[1..] + ys;
      LeadsOn(Do(s, xs[0]), xs[1..], t, ys, u);
    }
  }

  lemma Then(s: World, xs: seq<Step>, t: World, step: Step, u: World)
    requires Leads(s, xs, t) && Enabled(t, step) && Do(t, step) == u
    ensures Leads(s, xs + [step], u)
  {
    assert Leads(u, [step][1..], u);
    LeadsOn(s, xs, t, [step], u);
  }

  ghost predicate Reaches(s: World, t: World) {
    exists steps :: Leads(s, steps, t)
  }

  lemma ReachesOn(s: World, t: World, u: World)
    requires Reaches(s, t) && Reaches(t, u)
    ensures Reaches(s, u)
  {
    var xs :| Leads(s, xs, t);
    var ys :| Leads(t, ys, u);
    LeadsOn(s, xs, t, ys, u);
  }

  /** The worlds such a chain of steps passes through make a run. */
  lemma {:induction false} LeadsAlongARun(s: World, steps: seq<Step>, t: World) returns (run: seq<World>)
    requires Leads(s, steps, t)
    ensures |run| == |steps| + 1 && run[0] == s && run[|steps|] == t
    ensures forall i :: 0 <= i < |steps| ==> Enabled(run[i], steps[i]) && run[i + 1] == Do(run[i], steps[i])
    decreases |steps|
  {
    if steps == [] {
      run := [s];
    } else {
      var rest := LeadsAlongARun(Do(s, steps[0]), steps[1..], t);
      run := [s] + rest;
      forall i | 0 <= i < |steps| ensures Enabled(run[i], steps[i]) && run[i + 1] == Do(run[i], steps[i]) {
        if i > 0 {
          assert steps[i] == steps[1..][i - 1] && run[i] == rest[i - 1];
        }
      }
    }
  }

  // ------------------------------------------------------------ two nodes

  const W: NodeId := "w"
  const R: NodeId := "r"

  function Both(w: Node, r: Node, docs: map<NodeId, NodeData>, log: seq<Event>): World {
    World(map[W := w, R := r], docs, log, 0)
  }

  lemma Updates(w: Node, r: Node, docs: map<NodeId, NodeData>, log: seq<Event>, n: Node)
    ensures WithNode(Both(w, r, docs, log), W, n) == Both(n, r, docs, log)
    ensures WithNode(Both(w, r, docs, log), R, n) == Both(w, n, docs, log)
    ensures Both(w, r, docs, log).nodes[W] == w && Both(w, r, docs, log).nodes[R] == r
  {
    assert W[0] != R[0];
    assert map[W := w, R := r][W := n] == map[W := n, R := r];
    assert map[W := w, R := r][R := n] == map[W := w, R := n];
  }

  /** The writer samples its sockets and looks at the document's timestamp. */
  lemma PushLook(w: Node, r: Node, docs: map<NodeId, NodeData>, log: seq<Event>, current: Probes, now: nat)
    requires w.live && w.push.PushIdle? && now > w.clock
    ensures var remote := if W in docs then Some(docs[W].changeTimestamp) else None;
            Leads(Both(w, r, docs, log), [Sample(W, current, now), Look(W)],
                  Both(w.(clock := now, push := Looked(current, Lookup(w.nodeData, W), now, remote)), r, docs, log))
  {
    var s := Both(w, r, docs, log);
    var w1 := w.(clock := now, push := Sampled(current, Lookup(w.nodeData, W), now));
    Updates(w, r, docs, log, w1);
    Then(s, [], s, Sample(W, current, now), Both(w1, r, docs, log));
    var w2 := w1.(push := Looked(current, Lookup(w.nodeData, W), now, if W in docs then Some(docs[W].changeTimestamp) else None));
    Updates(w1, r, docs, log, w2);
    Then(s, [] + [Sample(W, current, now)], Both(w1, r, docs, log), Look(W), Both(w2, r, docs, log));
    assert [] + [Sample(W, current, now)] + [Look(W)] == [Sample(W, current, now), Look(W)];
  }

  /** The writer plans a reset or a change, writes the document and publishes the event. */
  lemma PushRest(w: Node, r: Node, docs: map<NodeId, NodeData>, log: seq<Event>, plan: Plan)
    requires w.live && w.push.Looked? && !plan.KeepAlive?
    requires plan == PlanPush(W, w.push.previous, w.push.remote, w.push.now, w.push.current)
    ensures var e := if plan.Reset? then Reload(W) else plan.event;
            Leads(Both(w, r, docs, log), [PlanStep(W), Write(W), Publish(W)],
                  Both(w.(push := PushIdle, nodeData := w.nodeData[W := plan.data]), r, docs[W := plan.data], log + [e]))
  {
    var s := Both(w, r, docs, log);
    var e := if plan.Reset? then Reload(W) else plan.event;
    var w1 := w.(push := Writing(plan.data, e, true), nodeData := w.nodeData[W := plan.data]);
    Updates(w, r, docs, log, w1);
    Then(s, [], s, PlanStep(W), Both(w1, r, docs, log));
    var w2 := w1.(push := Publishing(e));
    Updates(w1, r, docs, log, w2);
    Then(s, [] + [PlanStep(W)], Both(w1, r, docs, log), Write(W), Both(w2, r, docs[W := plan.data], log));
    var w3 := w2.(push := PushIdle);
    Updates(w2, r, docs[W := plan.data], log, w3);
    Then(s, [] + [PlanStep(W)] + [Write(W)], Both(w2, r, docs[W := plan.data], log), Publish(W),
         Both(w3, r, docs[W := plan.data], log + [e]));
    assert [] + [PlanStep(W)] + [Write(W)] + [Publish(W)] == [PlanStep(W), Write(W), Publish(W)];
  }

  /** The reader reads one unread event of the writer and waits for Redis. */
  lemma PullRead(w: Node, r: Node, docs: map<NodeId, NodeData>, log: seq<Event>, task: Task)
    requires r.live && r.pull.PullIdle? && log != [] && log[|log| - 1].node == W
    requires r.cursor.Next() == |log| - 1
    requires var ch := ChangesOf([log[|log| - 1]], W, r.cursor.FromStart?);
             !AppliesNow(Lookup(r.nodeData, W), ch) && task == TaskFor(Lookup(r.nodeData, W), ch)
    ensures Leads(Both(w, r, docs, log), [ReadStream(R), Process(R)],
                  Both(w, r.(pull := Pulling(|log|, map[W := task], false)), docs, log))
  {
    var s, e := Both(w, r, docs, log), log[|log| - 1];
    var r1 := r.(pull := Read(|log| - 1, |log|, r.cursor.FromStart?));
    Updates(w, r, docs, log, r1);
    Then(s, [], s, ReadStream(R), Both(w, r1, docs, log));
    var r2 := r.(pull := Pulling(|log|, map[W := task], false));
    Updates(w, r1, docs, log, r2);
    assert log[|log| - 1..|log|] == [e];
    OneEvent(r.nodeData, e, r.cursor.FromStart?);
    Then(s, [] + [ReadStream(R)], Both(w, r1, docs, log), Process(R), Both(w, r2, docs, log));
    assert [] + [ReadStream(R)] + [Process(R)] == [ReadStream(R), Process(R)];
  }

  lemma OneEvent(data: map<NodeId, NodeData>, e: Event, missed: bool)
    requires e.node == W && !AppliesNow(Lookup(data, W), ChangesOf([e], W, missed))
    ensures Sources([e], R) == {W}
    ensures ProcessedData(data, [e], R, missed) == data
    ensures ProcessedTasks(data, [e], R, missed) == map[W := TaskFor(Lookup(data, W), ChangesOf([e], W, missed))]
  {
    assert e in [e];
    assert W[0] != R[0];
  }

  /** The reader gets its answer and stores what follows from it. */
  lemma GetsAnswer(w: Node, r: Node, docs: map<NodeId, NodeData>, log: seq<Event>, task: Task, hi: nat, data: map<NodeId, NodeData>)
    requires r.live && r.pull == Pulling(hi, map[W := task], false) && IsWaiting(task)
    requires var result := TaskResult(Fetched(task, Lookup(docs, W)));
             data == if result.Some? then r.nodeData[W := result.value] else r.nodeData
    ensures Leads(Both(w, r, docs, log), [Fetch(R, W), Apply(R, W)],
                  Both(w, r.(pull := Pulling(hi, map[], false), nodeData := data), docs, log))
  {
    var s, got := Both(w, r, docs, log), Fetched(task, Lookup(docs, W));
    var r1 := r.(pull := Pulling(hi, map[W := got], false));
    assert map[W := task][W := got] == map[W := got];
    Updates(w, r, docs, log, r1);
    Then(s, [], s, Fetch(R, W), Both(w, r1, docs, log));
    var r2 := r.(pull := Pulling(hi, map[], false), nodeData := data);
    assert map[W := got] - {W} == map[];
    Updates(w, r1, docs, log, r2);
    Then(s, [] + [Fetch(R, W)], Both(w, r1, docs, log), Apply(R, W), Both(w, r2, docs, log));
    assert [] + [Fetch(R, W)] + [Apply(R, W)] == [Fetch(R, W), Apply(R, W)];
  }

  /** And it moves its cursor. */
  lemma PullRest(w: Node, r: Node, docs: map<NodeId, NodeData>, log: seq<Event>, task: Task, hi: nat, data: map<NodeId, NodeData>)
    requires r.live && r.pull == Pulling(hi, map[W := task], false) && hi > 0 && IsWaiting(task)
    requires var result := TaskResult(Fetched(task, Lookup(docs, W)));
             data == if result.Some? then r.nodeData[W := result.value] else r.nodeData
    ensures Leads(Both(w, r, docs, log), [Fetch(R, W), Apply(R, W), Finish(R)],
                  Both(w, r.(pull := PullIdle, nodeData := data, cursor := After(hi - 1)), docs, log))
  {
    GetsAnswer(w, r, docs, log, task, hi, data);
    var r2 := r.(pull := Pulling(hi, map[], false), nodeData := data);
    var r3 := r.(pull := PullIdle, nodeData := data, cursor := After(hi - 1));
    Updates(w, r2, docs, log, r3);
    Then(Both(w, r, docs, log), [Fetch(R, W), Apply(R, W)], Both(w, r2, docs, log), Finish(R), Both(w, r3, docs, log));
    assert [Fetch(R, W), Apply(R, W)] + [Finish(R)] == [Fetch(R, W), Apply(R, W), Finish(R)];
  }

  // ------------------------------------------------------------ the run

  const BEFORE := Probe("", [], "before", "")
  const AFTER := Probe("", [], "after", "")
  const OTHER := Probe("", [], "other", "")

  const P1: Probes := map["p" := BEFORE]
  const P2: Probes := map["p" := AFTER]
  const P3: Probes := map["p" := AFTER, "q" := OTHER]
  const STALE: Probes := map["p" := BEFORE, "q" := OTHER]

  const D1 := NodeData(1, 1, P1)
  const D2 := NodeData(2, 2, P2)
  const D3 := NodeData(3, 3, P3)
  const E1 := Diff(W, 2, {}, {"p"}, map[])
  const E2 := Diff(W, 3, {}, {"q"}, map[])

  function Writer(clock: nat, data: map<NodeId, NodeData>, push: Push): Node {
    Node(true, clock, data, push, FromStart(0), PullIdle)
  }

  function Reader(data: map<NodeId, NodeData>, cursor: Cursor, pull: Pull): Node {
    Node(true, 0, data, PushIdle, cursor, pull)
  }

  const START := World(map[], map[], [], 0)
  const JOINED := Both(Writer(0, map[], PushIdle), Reader(map[], FromStart(0), PullIdle), map[], [])
  const PUSHED := Both(Writer(1, map[W := D1], PushIdle), Reader(map[], FromStart(0), PullIdle), map[W := D1], [Reload(W)])
  const SETTLED := Both(Writer(1, map[W := D1], PushIdle), Reader(map[W := D1], After(0), PullIdle), map[W := D1], [Reload(W)])
  const CHANGED := Both(Writer(2, map[W := D2], PushIdle), Reader(map[W := D1], After(0), PullIdle), map[W := D2], [Reload(W), E1])

  const AWAITING := AwaitProbes(D1, Changes(false, Some(2), {}, {"p"}, map[]))
  const LOOKED := Looked(P3, Some(D2), 3, Some(2))
  const FORGOTTEN := Both(Writer(3, map[W := D2], LOOKED), Reader(map[W := D1], After(0), Pulling(2, map[W := AWAITING], false)),
                          map[], [Reload(W), E1])
  const COPY := NodeData(1, 2, P1)
  const REWRITTEN := Both(Writer(3, map[W := D3], PushIdle), Reader(map[W := COPY], After(1), PullIdle), map[W := D3],
                          [Reload(W), E1, E2])
  const STUCK := Both(Writer(3, map[W := D3], PushIdle), Reader(map[W := NodeData(1, 3, STALE)], After(2), PullIdle), map[W := D3],
                      [Reload(W), E1, E2])

  lemma Joining()
    ensures Leads(START, [Join(W, 0), Join(R, 0)], JOINED)
  {
    var t := Do(START, Join(W, 0));
    assert W[0] != R[0];
    Then(START, [], START, Join(W, 0), t);
    Then(START, [] + [Join(W, 0)], t, Join(R, 0), JOINED);
    assert [] + [Join(W, 0)] + [Join(R, 0)] == [Join(W, 0), Join(R, 0)];
  }

  /** A whole push of the writer that finds the document it left, or none. */
  lemma WholePush(w: Node, r: Node, docs: map<NodeId, NodeData>, log: seq<Event>, current: Probes, now: nat, plan: Plan)
    requires w.live && w.push.PushIdle? && now > w.clock && !plan.KeepAlive?
    requires var remote := if W in docs then Some(docs[W].changeTimestamp) else None;
             plan == PlanPush(W, Lookup(w.nodeData, W), remote, now, current)
    ensures Reaches(Both(w, r, docs, log),
              Both(w.(clock := now, nodeData := w.nodeData[W := plan.data]), r, docs[W := plan.data],
                   log + [if plan.Reset? then Reload(W) else plan.event]))
  {
    var remote := if W in docs then Some(docs[W].changeTimestamp) else None;
    var w1 := w.(clock := now, push := Looked(current, Lookup(w.nodeData, W), now, remote));
    PushLook(w, r, docs, log, current, now);
    PushRest(w1, r, docs, log, plan);
    LeadsOn(Both(w, r, docs, log), [Sample(W, current, now), Look(W)], Both(w1, r, docs, log), [PlanStep(W), Write(W), Publish(W)],
            Both(w.(clock := now, nodeData := w.nodeData[W := plan.data]), r, docs[W := plan.data],
                 log + [if plan.Reset? then Reload(W) else plan.event]));
  }

  /** A whole pull of the reader's one unread event. */
  lemma WholePull(w: Node, r: Node, docs: map<NodeId, NodeData>, log: seq<Event>, task: Task, data: map<NodeId, NodeData>)
    requires r.live && r.pull.PullIdle? && log != [] && log[|log| - 1].node == W && r.cursor.Next() == |log| - 1
    requires var ch := ChangesOf([log[|log| - 1]], W, r.cursor.FromStart?);
             !AppliesNow(Lookup(r.nodeData, W), ch) && task == TaskFor(Lookup(r.nodeData, W), ch)
    requires var result := TaskResult(Fetched(task, Lookup(docs, W)));
             data == if result.Some? then r.nodeData[W := result.value] else r.nodeData
    ensures Reaches(Both(w, r, docs, log), Both(w, r.(nodeData := data, cursor := After(|log| - 1)), docs, log))
  {
    var r1 := r.(pull := Pulling(|log|, map[W := task], false));
    PullRead(w, r, docs, log, task);
    PullRest(w, r1, docs, log, task, |log|, data);
    LeadsOn(Both(w, r, docs, log), [ReadStream(R), Process(R)], Both(w, r1, docs, log), [Fetch(R, W), Apply(R, W), Finish(R)],
            Both(w, r.(nodeData := data, cursor := After(|log| - 1)), docs, log));
  }

  lemma OneChange(e: Event)
    requires e.Diff? && e.node == W
    ensures ChangesOf([e], W, false) == Changes(false, Some(e.alive), e.removed, e.updated, e.stats)
  {
    var ch := Changes(false, Some(e.alive), {} + e.removed, {} + e.updated, map[] + e.stats);
    assert EventsOf([e], W) == [e] + EventsOf([], W);
    assert Collect([e][1..], ch) == ch;
    assert {} + e.removed == e.removed && {} + e.updated == e.updated && map[] + e.stats == e.stats;
  }

  lemma Settling()
    ensures Reaches(JOINED, SETTLED)
  {
    var w0, r0 := Writer(0, map[], PushIdle), Reader(map[], FromStart(0), PullIdle);
    var w1 := Writer(1, map[W := D1], PushIdle);
    WholePush(w0, r0, map[], [], P1, 1, Reset(D1));
    assert map[][W := D1] == map[W := D1] && [] + [Reload(W)] == [Reload(W)];
    assert w0.(clock := 1, nodeData := w0.nodeData[W := D1]) == w1;
    assert Reaches(JOINED, Both(w1, r0, map[W := D1], [Reload(W)]));
    WholePull(w1, r0, map[W := D1], [Reload(W)], AwaitDocument, map[W := D1]);
    ReachesOn(JOINED, Both(w1, r0, map[W := D1], [Reload(W)]), SETTLED);
  }

  lemma Changing()
    ensures Reaches(SETTLED, CHANGED)
  {
    var w, r := Writer(1, map[W := D1], PushIdle), Reader(map[W := D1], After(0), PullIdle);
    assert DiffEvent(W, 2, P2, P1) == E1;
    WholePush(w, r, map[W := D1], [Reload(W)], P2, 2, Change(D2, E1));
    assert map[W := D1][W := D2] == map[W := D2];
    assert w.(clock := 2, nodeData := w.nodeData[W := D2]) == Writer(2, map[W := D2], PushIdle);
    assert [Reload(W)] + [E1] == [Reload(W), E1];
  }

  /** The reader has the event and waits; the writer has looked; now the document goes. */
  lemma Forgetting()
    ensures Reaches(CHANGED, FORGOTTEN)
  {
    var w, r, log := Writer(2, map[W := D2], PushIdle), Reader(map[W := D1], After(0), PullIdle), [Reload(W), E1];
    var r1 := Reader(map[W := D1], After(0), Pulling(2, map[W := AWAITING], false));
    OneChange(E1);
    PullRead(w, r, map[W := D2], log, AWAITING);
    PushLook(w, r1, map[W := D2], log, P3, 3);
    var t := Both(Writer(3, map[W := D2], LOOKED), r1, map[W := D2], log);
    LeadsOn(CHANGED, [ReadStream(R), Process(R)], Both(w, r1, map[W := D2], log), [Sample(W, P3, 3), Look(W)], t);
    assert map[W := D2] - {W} == map[];
    Then(CHANGED, [ReadStream(R), Process(R)] + [Sample(W, P3, 3), Look(W)], t, Evict(W), FORGOTTEN);
  }

  /** The reader finds nothing and moves on; the writer announces only what is new since its last push. */
  lemma Rewriting()
    ensures Reaches(FORGOTTEN, REWRITTEN)
  {
    var w, r, log := Writer(3, map[W := D2], LOOKED), Reader(map[W := D1], After(0), Pulling(2, map[W := AWAITING], false)), [Reload(W), E1];
    assert Trimmed(P1, AWAITING.changes) + map[] == P1;
    assert map[W := D1][W := COPY] == map[W := COPY];
    PullRest(w, r, map[], log, AWAITING, 2, map[W := COPY]);
    var r1 := Reader(map[W := COPY], After(1), PullIdle);
    assert DiffEvent(W, 3, P3, P2) == E2;
    PushRest(w, r1, map[], log, Change(D3, E2));
    assert map[W := D2][W := D3] == map[W := D3];
    assert log + [E2] == [Reload(W), E1, E2];
    LeadsOn(FORGOTTEN, [Fetch(R, W), Apply(R, W), Finish(R)], Both(w, r1, map[], log), [PlanStep(W), Write(W), Publish(W)], REWRITTEN);
  }

  lemma Sticking()
    ensures Reaches(REWRITTEN, STUCK)
  {
    var w, r, log := Writer(3, map[W := D3], PushIdle), Reader(map[W := COPY], After(1), PullIdle), [Reload(W), E1, E2];
    var ch := Changes(false, Some(3), {}, {"q"}, map[]);
    OneChange(E2);
    assert Restricted(P3, {"q"}) == map["q" := OTHER];
    assert Trimmed(P1, ch) + map["q" := OTHER] == STALE;
    assert map[W := COPY][W := NodeData(1, 3, STALE)] == map[W := NodeData(1, 3, STALE)];
    WholePull(w, r, map[W := D3], log, AwaitProbes(COPY, ch), map[W := NodeData(1, 3, STALE)]);
  }

  /**
    With the eviction, the reader has read everything, nothing is on its way, and it
    still holds a probe the writer replaced.
   */
  lemma EvictionLosesAChange() returns (run: seq<World>, steps: seq<Step>)
    ensures IsRun(run, steps)
    ensures var s := run[|steps|];
            && Live(s, W) && Live(s, R) && s.nodes[W].push.PushIdle? && s.nodes[R].pull.PullIdle?
            && s.nodes[R].cursor.Next() == |s.log| && W in s.docs && W in s.nodes[R].nodeData
            && !SameAt(s.nodes[R].nodeData[W].probesById, s.docs[W].probesById, "p")
  {
    Joining();
    Settling();
    Changing();
    Forgetting();
    Rewriting();
    Sticking();
    ReachesOn(START, JOINED, SETTLED);
    ReachesOn(START, SETTLED, CHANGED);
    ReachesOn(START, CHANGED, FORGOTTEN);
    ReachesOn(START, FORGOTTEN, REWRITTEN);
    ReachesOn(START, REWRITTEN, STUCK);
    steps :| Leads(START, steps, STUCK);
    run := LeadsAlongARun(START, steps, STUCK);
  }
}
