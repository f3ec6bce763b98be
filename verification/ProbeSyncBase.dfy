/** Equal change timestamps mean equal probe sets, in every run. */
module ProbeSyncBase {
  import opened Common
  import opened ProbeSyncProtocol

  ghost predicate TsAgree(a: Option<NodeData>, b: Option<NodeData>) {
    a.Some? && b.Some? && a.value.changeTimestamp == b.value.changeTimestamp ==>
      Agree(a.value.probesById, b.value.probesById)
  }

  ghost predicate NotAfter(d: Option<NodeData>, clock: nat) {
    d.Some? ==> d.value.changeTimestamp <= clock
  }

  ghost predicate Before(d: Option<NodeData>, now: nat) {
    d.Some? ==> d.value.changeTimestamp < now
  }

  /** What one node's own copy, its push in flight and its document have to do with each other. */
  ghost predicate BaseOf(local: Option<NodeData>, push: Push, clock: nat, doc: Option<NodeData>) {
    && TsAgree(local, doc)
    && NotAfter(local, clock)
    && NotAfter(doc, clock)
    && match push
       case PushIdle => true
       case Sampled(current, previous, now) =>
         now == clock && Before(previous, now) && Before(doc, now) && TsAgree(previous, doc) &&
         (local.Some? ==> previous == local)
       case Looked(current, previous, now, remote) =>
         now == clock && Before(previous, now) && Before(doc, now) && TsAgree(previous, doc) &&
         (local.Some? ==> previous == local) &&
         (doc.Some? ==> remote == Some(doc.value.changeTimestamp))
       case Writing(data, event, applied) =>
         NotAfter(Some(data), clock) && TsAgree(Some(data), doc) && TsAgree(local, Some(data))
       case Storing(data, event) =>
         NotAfter(Some(data), clock) && TsAgree(Some(data), doc) && TsAgree(local, Some(data))
       case Publishing(event) => true
  }

  ghost predicate BaseAt(s: World, w: NodeId)
    requires w in s.nodes
  {
    BaseOf(Lookup(s.nodes[w].nodeData, w), s.nodes[w].push, s.nodes[w].clock, Lookup(s.docs, w))
  }

  ghost predicate BaseInv(s: World) {
    && s.docs.Keys <= s.nodes.Keys
    && forall w :: w in s.nodes && s.nodes[w].live ==> BaseAt(s, w) && NoSelfTask(s.nodes[w], w)
  }

  /** A node's pull never handles the node itself. */
  ghost predicate NoSelfTask(n: Node, self: NodeId) {
    n.pull.Pulling? ==> self !in n.pull.tasks
  }

  /** An empty difference means equal probe sets. */
  lemma EmptyDiffAgrees(current: Probes, previous: Probes)
    requires Removed(current, previous) == {} && Updated(current, previous) == {}
    ensures Agree(current, previous)
  {
    forall p ensures SameAt(current, previous, p) {
      assert p !in Removed(current, previous);
      assert p !in Updated(current, previous);
    }
  }

  lemma AgreeSymmetric(a: Probes, b: Probes)
    requires Agree(a, b)
    ensures Agree(b, a)
  {
    forall p ensures SameAt(b, a, p) {
      assert SameAt(a, b, p);
    }
  }

  lemma AgreeTransitive(a: Probes, b: Probes, c: Probes)
    requires Agree(a, b) && Agree(b, c)
    ensures Agree(a, c)
  {
    forall p ensures SameAt(a, c, p) {
      assert SameAt(a, b, p) && SameAt(b, c, p);
    }
  }

  lemma PlanKeepsBase(n: Node, w: NodeId, doc: Option<NodeData>)
    requires n.push.Looked? && BaseOf(Lookup(n.nodeData, w), n.push, n.clock, doc)
    ensures var n' := DoPlan(n, w); BaseOf(Lookup(n'.nodeData, w), n'.push, n'.clock, doc)
  {
    var plan := PlanPush(w, n.push.previous, n.push.remote, n.push.now, n.push.current);
    if plan.KeepAlive? {
      var base := n.push.previous.value.probesById;
      EmptyDiffAgrees(n.push.current, base);
      AgreeSymmetric(n.push.current, base);
      if doc.Some? && doc.value.changeTimestamp == n.push.previous.value.changeTimestamp {
        AgreeTransitive(n.push.current, base, doc.value.probesById);
      }
    }
  }

  lemma PushKeepsBase(s: World, step: Step, v: NodeId)
    requires Enabled(s, step) && s.docs.Keys <= s.nodes.Keys && Live(s, v) && BaseAt(s, v)
    requires step.Sample? || step.Look? || step.PlanStep? || step.Write? || step.WriteFails? || step.Store? || step.Publish?
    ensures BaseAt(Do(s, step), v)
  {
    if step.PlanStep? && step.w == v {
      PlanKeepsBase(s.nodes[v], v, Lookup(s.docs, v));
    }
  }

  lemma PullKeepsBase(s: World, step: Step, v: NodeId)
    requires Enabled(s, step) && Live(s, v) && BaseAt(s, v) && NoSelfTask(s.nodes[v], v)
    requires step.ReadStream? || step.Process? || step.Fetch? || step.Apply? || step.Fail? || step.Finish?
    ensures BaseAt(Do(s, step), v) && NoSelfTask(Do(s, step).nodes[v], v)
  {
  }

  lemma NodeKeepsBase(s: World, step: Step, v: NodeId)
    requires Enabled(s, step) && s.docs.Keys <= s.nodes.Keys && Live(Do(s, step), v)
    requires Live(s, v) ==> BaseAt(s, v) && NoSelfTask(s.nodes[v], v)
    ensures BaseAt(Do(s, step), v) && NoSelfTask(Do(s, step).nodes[v], v)
  {
    if step.Sample? || step.Look? || step.PlanStep? || step.Write? || step.WriteFails? || step.Store? || step.Publish? {
      PushKeepsBase(s, step, v);
    } else if step.ReadStream? || step.Process? || step.Fetch? || step.Apply? || step.Fail? || step.Finish? {
      PullKeepsBase(s, step, v);
    }
  }

  lemma StepKeepsBase(s: World, step: Step)
    requires BaseInv(s) && Enabled(s, step)
    ensures BaseInv(Do(s, step))
  {
    forall v | Live(Do(s, step), v) ensures BaseAt(Do(s, step), v) && NoSelfTask(Do(s, step).nodes[v], v) {
      NodeKeepsBase(s, step, v);
    }
  }

  lemma {:induction false} RunKeepsBase(run: seq<World>, steps: seq<Step>, i: nat)
    requires IsRun(run, steps) && i < |run|
    ensures BaseInv(run[i])
  {
    if i > 0 {
      RunKeepsBase(run, steps, i - 1);
      StepKeepsBase(run[i - 1], steps[i - 1]);
    }
  }
}
