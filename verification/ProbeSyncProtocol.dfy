/**
  The replicated probe list as a protocol: what each node keeps, what Redis
  keeps, and every step between two awaits as one function on the world.
  A node pushes a document and then an event naming the difference; every other
  node reads the events and patches or reloads its copy.
 */
module ProbeSyncProtocol {
  import opened Common

  type NodeId = string
  type ProbeId = string

  datatype Probe = Probe(ipAddress: string, altIpAddresses: seq<string>, details: string, stats: string)

  type Probes = map<ProbeId, Probe>

  datatype NodeData = NodeData(changeTimestamp: nat, revalidateTimestamp: nat, probesById: Probes)

  datatype Event =
    | Reload(node: NodeId)
    | Diff(node: NodeId, alive: nat, removed: set<ProbeId>, updated: set<ProbeId>, stats: map<ProbeId, string>)

  const REMOTE_DATA_TTL: nat := 60 * 60 * 1000

  /** More updated probes than this and the reader reloads the document. */
  const MAX_PATCHED_PROBES: nat := 5

  /** The two sets hold the same probe under `p`, or both hold none, whatever its stats. */
  ghost predicate SameAt(a: Probes, b: Probes, p: ProbeId) {
    (p in a <==> p in b) && (p in a ==> a[p].(stats := b[p].stats) == b[p])
  }

  /** Equality of probe sets up to stats. */
  ghost predicate Agree(a: Probes, b: Probes) {
    forall p :: SameAt(a, b, p)
  }

  // ---------------------------------------------------------------- push

  function Removed(current: Probes, previous: Probes): set<ProbeId> {
    previous.Keys - current.Keys
  }

  predicate DiffersIgnoringStats(a: Probe, b: Probe) {
    a.(stats := b.stats) != b
  }

  function Updated(current: Probes, previous: Probes): set<ProbeId> {
    set p | p in current && (p !in previous || DiffersIgnoringStats(current[p], previous[p]))
  }

  function ChangedStats(current: Probes, previous: Probes): map<ProbeId, string> {
    map p | p in current && p in previous && current[p].stats != previous[p].stats :: current[p].stats
  }

  function DiffEvent(self: NodeId, now: nat, current: Probes, previous: Probes): Event {
    Diff(self, now, Removed(current, previous), Updated(current, previous), ChangedStats(current, previous))
  }

  datatype Plan =
    | Reset(data: NodeData)
    | KeepAlive(data: NodeData, refresh: bool, event: Event)
    | Change(data: NodeData, event: Event)

  predicate MustReset(previous: Option<NodeData>, remote: Option<nat>) {
    remote.None? || remote.value == 0 || previous.None? || remote.value != previous.value.changeTimestamp
  }

  function PlanPush(self: NodeId, previous: Option<NodeData>, remote: Option<nat>, now: nat, current: Probes): Plan {
    var data := NodeData(now, now, current);
    if MustReset(previous, remote) then
      Reset(data)
    else
      var base := previous.value.probesById;
      var event := DiffEvent(self, now, current, base);
      if event.removed == {} && event.updated == {} then
        KeepAlive(data.(changeTimestamp := previous.value.changeTimestamp),
                  now - remote.value > REMOTE_DATA_TTL / 2, event)
      else
        Change(data, event)
  }

  /** Where a node's push is: at which await, and what it still holds. */
  datatype Push =
    | PushIdle
    | Sampled(current: Probes, previous: Option<NodeData>, now: nat)
    | Looked(current: Probes, previous: Option<NodeData>, now: nat, remote: Option<nat>)
    | Writing(data: NodeData, event: Event, applied: bool)
    | Storing(data: NodeData, event: Event)
    | Publishing(event: Event)

  function AfterPlan(plan: Plan, self: NodeId): Push {
    match plan
    case Reset(data) => Writing(data, Reload(self), true)
    case KeepAlive(data, refresh, event) => if refresh then Writing(data, event, false) else Publishing(event)
    case Change(data, event) => Writing(data, event, true)
  }

  predicate AppliesAtOnce(plan: Plan) {
    !(plan.KeepAlive? && plan.refresh)
  }

  // ---------------------------------------------------------------- pull

  datatype Changes = Changes(reload: bool, alive: Option<nat>, removed: set<ProbeId>, updated: set<ProbeId>,
                             stats: map<ProbeId, string>)

  const NoChanges := Changes(false, None, {}, {}, map[])

  /** Folds the events of one node; a RELOAD stops the fold. */
  function Collect(events: seq<Event>, acc: Changes): Changes
    decreases |events|
  {
    if events == [] then acc
    else
      match events[0]
      case Reload(_) => acc.(reload := true)
      case Diff(_, alive, removed, updated, stats) =>
        Collect(events[1..], Changes(acc.reload, Some(alive), acc.removed + removed, acc.updated + updated, acc.stats + stats))
  }

  function EventsOf(log: seq<Event>, w: NodeId): seq<Event> {
    if log == [] then []
    else (if log[0].node == w then [log[0]] else []) + EventsOf(log[1..], w)
  }

  function ChangesOf(events: seq<Event>, w: NodeId, missed: bool): Changes {
    if missed then NoChanges.(reload := true) else Collect(EventsOf(events, w), NoChanges)
  }

  function WithStats(probes: Probes, stats: map<ProbeId, string>): Probes {
    map p | p in probes :: if p in stats then probes[p].(stats := stats[p]) else probes[p]
  }

  /** Drops the removed probes and takes the reported stats over. */
  function Trimmed(base: Probes, changes: Changes): Probes {
    WithStats(map p | p in base && p !in changes.removed :: base[p], changes.stats)
  }

  function Restricted(probes: Probes, keys: set<ProbeId>): Probes {
    map p | p in probes && p in keys :: probes[p]
  }

  function Patch(base: NodeData, changes: Changes, fetched: Probes): NodeData {
    NodeData(base.changeTimestamp, changes.alive.GetOr(base.revalidateTimestamp),
             Trimmed(base.probesById, changes) + fetched)
  }

  predicate MustReload(data: Option<NodeData>, changes: Changes) {
    data.None? || changes.reload || |changes.updated| > MAX_PATCHED_PROBES
  }

  /** The part of a pull that belongs to one other node and waits for Redis. */
  datatype Task =
    | AwaitDocument
    | GotDocument(document: Option<NodeData>)
    | AwaitProbes(base: NodeData, changes: Changes)
    | GotProbes(base: NodeData, changes: Changes, fetched: Option<Probes>)

  datatype Cursor = FromStart(pos: nat) | After(last: nat) {
    /** The first event this reader has not processed. */
    function Next(): nat {
      match this
      case FromStart(pos) => pos
      case After(last) => last + 1
    }
  }

  datatype Pull =
    | PullIdle
    | Read(lo: nat, hi: nat, missed: bool)
    | Pulling(hi: nat, tasks: map<NodeId, Task>, failed: bool)

  datatype Node = Node(live: bool, clock: nat, nodeData: map<NodeId, NodeData>, push: Push, cursor: Cursor, pull: Pull)

  /** `log` never shrinks here; the stream is its suffix from `trimmed` on. */
  datatype World = World(nodes: map<NodeId, Node>, docs: map<NodeId, NodeData>, log: seq<Event>, trimmed: nat)

  predicate HasMissed(cursor: Cursor, trimmed: nat) {
    cursor.FromStart? || cursor.last < trimmed
  }

  function ReadRange(cursor: Cursor, log: seq<Event>, trimmed: nat): Pull
    requires trimmed <= |log|
  {
    if HasMissed(cursor, trimmed)
    then Read(Min(Max(if cursor.FromStart? then cursor.pos else cursor.last, trimmed), |log|), |log|, true)
    else Read(Min(cursor.last + 1, |log|), |log|, false)
  }

  function Sources(events: seq<Event>, self: NodeId): set<NodeId> {
    set e | e in events && e.node != self :: e.node
  }

  predicate AppliesNow(data: Option<NodeData>, changes: Changes) {
    !MustReload(data, changes) && changes.updated == {}
  }

  function TaskFor(data: Option<NodeData>, changes: Changes): Task {
    if MustReload(data, changes) then AwaitDocument else AwaitProbes(data.value, changes)
  }

  function ProcessedData(nodeData: map<NodeId, NodeData>, events: seq<Event>, self: NodeId, missed: bool): map<NodeId, NodeData> {
    nodeData + map w | w in Sources(events, self) && AppliesNow(Lookup(nodeData, w), ChangesOf(events, w, missed)) ::
      Patch(Lookup(nodeData, w).value, ChangesOf(events, w, missed), map[])
  }

  function ProcessedTasks(nodeData: map<NodeId, NodeData>, events: seq<Event>, self: NodeId, missed: bool): map<NodeId, Task> {
    map w | w in Sources(events, self) && !AppliesNow(Lookup(nodeData, w), ChangesOf(events, w, missed)) ::
      TaskFor(Lookup(nodeData, w), ChangesOf(events, w, missed))
  }

  function Fetched(task: Task, document: Option<NodeData>): Task {
    match task
    case AwaitDocument => GotDocument(document)
    case AwaitProbes(base, changes) =>
      GotProbes(base, changes, if document.None? then None else Some(Restricted(document.value.probesById, changes.updated)))
    case _ => task
  }

  /** What the finished task stores; nothing when the document was missing. */
  function TaskResult(task: Task): Option<NodeData> {
    match task
    case GotDocument(document) => document
    case GotProbes(base, changes, fetched) => Some(Patch(base, changes, fetched.GetOr(map[])))
    case _ => None
  }

  // ---------------------------------------------------------------- steps

  datatype Step =
    | Join(w: NodeId, start: nat)
    | Stop(w: NodeId)
    | Sample(w: NodeId, current: Probes, now: nat)
    | Look(w: NodeId)
    | PlanStep(w: NodeId)
    | Write(w: NodeId)
    | WriteFails(w: NodeId)
    | Store(w: NodeId)
    | Publish(w: NodeId)
    | ReadStream(r: NodeId)
    | Process(r: NodeId)
    | Fetch(r: NodeId, w: NodeId)
    | Apply(r: NodeId, w: NodeId)
    | Fail(r: NodeId, w: NodeId)
    | Finish(r: NodeId)
    | Expire(r: NodeId, w: NodeId)
    | Evict(w: NodeId)
    | Trim(to: nat)

  predicate Live(s: World, w: NodeId) {
    w in s.nodes && s.nodes[w].live
  }

  function Events(s: World, pull: Pull): seq<Event>
    requires pull.Read? && pull.lo <= pull.hi <= |s.log|
  {
    s.log[pull.lo..pull.hi]
  }

  /** Trimming keeps the newest event of every live node. */
  ghost predicate TrimKeepsLatest(s: World, to: nat) {
    forall w, i :: Live(s, w) && 0 <= i < |s.log| && s.log[i].node == w ==> HasEvent(s.log, w, to)
  }

  ghost predicate HasEvent(log: seq<Event>, w: NodeId, from: int) {
    exists k :: 0 <= from <= k < |log| && log[k].node == w
  }

  predicate TaskOf(s: World, r: NodeId, w: NodeId) {
    Live(s, r) && s.nodes[r].pull.Pulling? && w in s.nodes[r].pull.tasks
  }

  predicate IsWaiting(task: Task) {
    task.AwaitDocument? || task.AwaitProbes?
  }

  ghost predicate Enabled(s: World, step: Step) {
    match step
    case Join(w, _) => w !in s.nodes
    case Stop(w) => Live(s, w)
    case Sample(w, _, now) => Live(s, w) && s.nodes[w].push.PushIdle? && now > s.nodes[w].clock
    case Look(w) => Live(s, w) && s.nodes[w].push.Sampled?
    case PlanStep(w) => Live(s, w) && s.nodes[w].push.Looked?
    case Write(w) => Live(s, w) && s.nodes[w].push.Writing?
    case WriteFails(w) => Live(s, w) && s.nodes[w].push.Writing?
    case Store(w) => Live(s, w) && s.nodes[w].push.Storing?
    case Publish(w) => Live(s, w) && s.nodes[w].push.Publishing?
    case ReadStream(r) => Live(s, r) && s.nodes[r].pull.PullIdle? && s.trimmed <= |s.log|
    case Process(r) => Live(s, r) && s.nodes[r].pull.Read? && s.nodes[r].pull.lo <= s.nodes[r].pull.hi <= |s.log|
    case Fetch(r, w) => TaskOf(s, r, w) && IsWaiting(s.nodes[r].pull.tasks[w])
    case Apply(r, w) => TaskOf(s, r, w) && !IsWaiting(s.nodes[r].pull.tasks[w])
    case Fail(r, w) => TaskOf(s, r, w) && IsWaiting(s.nodes[r].pull.tasks[w])
    case Finish(r) => Live(s, r) && s.nodes[r].pull.Pulling? && s.nodes[r].pull.tasks == map[] && s.nodes[r].pull.hi > 0
    case Expire(r, w) => Live(s, r)
    case Evict(w) => w in s.docs
    case Trim(to) => s.trimmed <= to <= |s.log| && TrimKeepsLatest(s, to)
  }

  function WithNode(s: World, w: NodeId, n: Node): World {
    s.(nodes := s.nodes[w := n])
  }

  function DoPlan(n: Node, w: NodeId): Node
    requires n.push.Looked?
  {
    var plan := PlanPush(w, n.push.previous, n.push.remote, n.push.now, n.push.current);
    n.(push := AfterPlan(plan, w), nodeData := if AppliesAtOnce(plan) then n.nodeData[w := plan.data] else n.nodeData)
  }

  function DoProcess(n: Node, r: NodeId, events: seq<Event>): Node
    requires n.pull.Read?
  {
    if Sources(events, r) == {} then n.(pull := PullIdle)
    else n.(nodeData := ProcessedData(n.nodeData, events, r, n.pull.missed),
            pull := Pulling(n.pull.hi, ProcessedTasks(n.nodeData, events, r, n.pull.missed), false))
  }

  function DoApply(n: Node, w: NodeId): Node
    requires n.pull.Pulling? && w in n.pull.tasks
  {
    var result := TaskResult(n.pull.tasks[w]);
    n.(pull := n.pull.(tasks := n.pull.tasks - {w}),
       nodeData := if result.Some? then n.nodeData[w := result.value] else n.nodeData)
  }

  function Do(s: World, step: Step): World
    requires Enabled(s, step)
  {
    match step
    case Join(w, start) => WithNode(s, w, Node(true, 0, map[], PushIdle, FromStart(start), PullIdle))
    case Stop(w) => WithNode(s, w, s.nodes[w].(live := false))
    case Sample(w, current, now) =>
      var n := s.nodes[w];
      WithNode(s, w, n.(clock := now, push := Sampled(current, Lookup(n.nodeData, w), now)))
    case Look(w) =>
      var p := s.nodes[w].push;
      var remote := if w in s.docs then Some(s.docs[w].changeTimestamp) else None;
      WithNode(s, w, s.nodes[w].(push := Looked(p.current, p.previous, p.now, remote)))
    case PlanStep(w) => WithNode(s, w, DoPlan(s.nodes[w], w))
    case Write(w) =>
      var p := s.nodes[w].push;
      WithNode(s, w, s.nodes[w].(push := if p.applied then Publishing(p.event) else Storing(p.data, p.event)))
      .(docs := s.docs[w := p.data])
    case WriteFails(w) => WithNode(s, w, s.nodes[w].(push := PushIdle))
    case Store(w) =>
      var n := s.nodes[w];
      WithNode(s, w, n.(push := Publishing(n.push.event), nodeData := n.nodeData[w := n.push.data]))
    case Publish(w) =>
      WithNode(s, w, s.nodes[w].(push := PushIdle)).(log := s.log + [s.nodes[w].push.event])
    case ReadStream(r) => WithNode(s, r, s.nodes[r].(pull := ReadRange(s.nodes[r].cursor, s.log, s.trimmed)))
    case Process(r) => WithNode(s, r, DoProcess(s.nodes[r], r, Events(s, s.nodes[r].pull)))
    case Fetch(r, w) =>
      var pull := s.nodes[r].pull;
      WithNode(s, r, s.nodes[r].(pull := pull.(tasks := pull.tasks[w := Fetched(pull.tasks[w], Lookup(s.docs, w))])))
    case Apply(r, w) => WithNode(s, r, DoApply(s.nodes[r], w))
    case Fail(r, w) =>
      var pull := s.nodes[r].pull;
      WithNode(s, r, s.nodes[r].(pull := Pulling(pull.hi, pull.tasks - {w}, true)))
    case Finish(r) =>
      var n := s.nodes[r];
      WithNode(s, r, n.(pull := PullIdle, cursor := if n.pull.failed then n.cursor else After(n.pull.hi - 1)))
    case Expire(r, w) => WithNode(s, r, s.nodes[r].(nodeData := s.nodes[r].nodeData - {w}))
    case Evict(w) => s.(docs := s.docs - {w})
    case Trim(to) => s.(trimmed := to)
  }

  ghost predicate Init(s: World) {
    s == World(map[], map[], [], 0)
  }

  ghost predicate IsRun(run: seq<World>, steps: seq<Step>) {
    |run| == |steps| + 1 && Init(run[0]) &&
    forall i :: 0 <= i < |steps| ==> Enabled(run[i], steps[i]) && run[i + 1] == Do(run[i], steps[i])
  }

  /** The writer has seen the document it compares with and counts on it still being there. */
  predicate ReliesOnDocument(push: Push) {
    (push.Looked? && !MustReset(push.previous, push.remote)) || (push.Writing? && push.event.Diff?)
  }

  /** No document is evicted between a running writer's look at it and its own write. */
  ghost predicate Calm(s: World, step: Step) {
    step.Evict? && Live(s, step.w) ==> !ReliesOnDocument(s.nodes[step.w].push)
  }
}
