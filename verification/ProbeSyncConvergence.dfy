/**
  Convergence: wherever a reader's copy of another node differs from that node's
  document, an event not yet published or not yet read says so.
 */
module ProbeSyncConvergence {
  import opened Common
  import opened ProbeSyncProtocol
  import opened ProbeSyncBase

  // ------------------------------------------------------------ what an event says

  /** The event makes its reader look at `p` again, and is newer than `since` unless it is a RELOAD. */
  predicate Names(e: Event, p: ProbeId, since: nat) {
    e.Reload? || (e.alive > since && (p in e.removed || p in e.updated))
  }

  predicate SaysRemoved(e: Event, p: ProbeId) {
    e.Reload? || p in e.removed
  }

  predicate SaysUpdated(e: Event, p: ProbeId) {
    e.Reload? || p in e.updated
  }

  /** The document is written, the event that announces it is not in the stream yet. */
  function Pending(push: Push): Option<Event> {
    match push
    case Storing(_, event) => Some(event)
    case Publishing(event) => Some(event)
    case _ => None
  }

  /** Everything a reader can learn about one writer: its document, the stream, and the event on its way. */
  datatype Channel = Channel(w: NodeId, doc: Option<NodeData>, log: seq<Event>, pending: Option<Event>, horizon: nat) {
    ghost predicate Announced(from: int, p: ProbeId, since: nat) {
      (exists k :: 0 <= from <= k < |log| && log[k].node == w && Names(log[k], p, since)) ||
      (pending.Some? && Names(pending.value, p, since))
    }

    ghost predicate RemovedLater(from: int, p: ProbeId) {
      (exists k :: 0 <= from <= k < |log| && log[k].node == w && SaysRemoved(log[k], p)) ||
      (pending.Some? && SaysRemoved(pending.value, p))
    }

    ghost predicate UpdatedLater(from: int, p: ProbeId) {
      (exists k :: 0 <= from <= k < |log| && log[k].node == w && SaysUpdated(log[k], p)) ||
      (pending.Some? && SaysUpdated(pending.value, p))
    }

    /** The claim: a difference from the document is announced at or after `from`. */
    ghost predicate Synced(view: NodeData, from: int) {
      0 <= from <= |log| && view.revalidateTimestamp <= horizon &&
      (doc.Some? ==> forall p :: !SameAt(view.probesById, doc.value.probesById, p) ==>
                                   Announced(from, p, view.revalidateTimestamp))
    }

    /** What an event said about a probe still holds of the document, or a later event takes it back. */
    ghost predicate Truthful() {
      && (doc.Some? ==>
            && (forall i, p | 0 <= i < |log| && log[i].node == w && log[i].Diff? ::
                  && (p in log[i].updated && p !in doc.value.probesById ==> RemovedLater(i + 1, p))
                  && (p in log[i].removed && p in doc.value.probesById ==> UpdatedLater(i + 1, p)))
            && (pending.Some? && pending.value.Diff? ==>
                  pending.value.updated <= doc.value.probesById.Keys &&
                  pending.value.removed !! doc.value.probesById.Keys)
            && doc.value.revalidateTimestamp <= horizon)
    }

    /** A writer's events carry increasing times, none beyond its horizon. */
    ghost predicate Timed() {
      && (forall i, j :: 0 <= i < j < |log| && log[i].node == w && log[j].node == w && log[i].Diff? && log[j].Diff? ==>
                           log[i].alive < log[j].alive)
      && (forall i :: 0 <= i < |log| && log[i].node == w && log[i].Diff? ==> log[i].alive <= horizon)
      && (pending.Some? ==> pending.value.node == w)
      && (pending.Some? && pending.value.Diff? ==>
            pending.value.alive <= horizon &&
            forall i :: 0 <= i < |log| && log[i].node == w && log[i].Diff? ==> log[i].alive < pending.value.alive)
    }

    ghost predicate Sound() {
      Truthful() && Timed()
    }
  }

  /** The newest time any document or event of the writer carries, or could have carried so far. */
  function Horizon(n: Node): nat {
    if (n.push.Sampled? || n.push.Looked? || n.push.Writing?) && n.clock > 0 then n.clock - 1 else n.clock
  }

  function ChannelOf(s: World, w: NodeId): Channel
    requires w in s.nodes
  {
    Channel(w, Lookup(s.docs, w), s.log, Pending(s.nodes[w].push), Horizon(s.nodes[w]))
  }

  // ------------------------------------------------------------ how a channel evolves

  /** The event says exactly how `probes` differs from the document. */
  ghost predicate Describes(c: Channel, e: Event, probes: Probes) {
    e.node == c.w &&
    (e.Diff? ==> c.doc.Some? && e.alive == c.horizon + 1 && e.removed == Removed(probes, c.doc.value.probesById) &&
                 e.updated == Updated(probes, c.doc.value.probesById))
  }

  /** Whatever was synced before still is. */
  ghost predicate Keeps(c: Channel, c': Channel) {
    && c'.w == c.w && c.log <= c'.log && c.horizon <= c'.horizon
    && forall view, from :: c.Synced(view, from) ==> c'.Synced(view, from)
  }

  function Written(c: Channel, data: NodeData, e: Event): Channel {
    Channel(c.w, Some(data), c.log, Some(e), c.horizon + 1)
  }

  lemma WriteStays(c: Channel, data: NodeData, e: Event)
    requires c.Sound() && c.pending.None? && Describes(c, e, data.probesById)
    requires data.revalidateTimestamp <= c.horizon + 1
    ensures Written(c, data, e).Sound() && Keeps(c, Written(c, data, e))
  {
    var c' := Written(c, data, e);
    forall i, p | 0 <= i < |c.log| && c.log[i].node == c.w && c.log[i].Diff?
      ensures p in c.log[i].updated && p !in data.probesById ==> c'.RemovedLater(i + 1, p)
      ensures p in c.log[i].removed && p in data.probesById ==> c'.UpdatedLater(i + 1, p)
    {
      if e.Diff? {
        assert p !in c.doc.value.probesById && p in c.log[i].updated ==> c.RemovedLater(i + 1, p);
        assert p in c.doc.value.probesById && p in c.log[i].removed ==> c.UpdatedLater(i + 1, p);
      }
    }
    forall view, from | c.Synced(view, from) ensures c'.Synced(view, from) {
      forall p | !SameAt(view.probesById, data.probesById, p) ensures c'.Announced(from, p, view.revalidateTimestamp) {
        if e.Diff? && !Names(e, p, view.revalidateTimestamp) {
          assert !SameAt(view.probesById, c.doc.value.probesById, p);
          assert c.Announced(from, p, view.revalidateTimestamp);
        }
      }
    }
  }

  /** Written over a missing document, a diff leaves a copy right or announced exactly if the copy was right outside the diff. */
  lemma DiffOverMissingDocument(c: Channel, data: NodeData, base: Probes, e: Event, view: NodeData)
    requires c.doc.None? && c.pending.None? && e.Diff? && view.revalidateTimestamp <= c.horizon && view.revalidateTimestamp < e.alive
    requires e.removed == Removed(data.probesById, base) && e.updated == Updated(data.probesById, base)
    ensures Written(c, data, e).Synced(view, |c.log|) <==>
            forall p :: SameAt(data.probesById, base, p) ==> SameAt(view.probesById, base, p)
  {
    var c', now := Written(c, data, e), data.probesById;
    forall p ensures Names(e, p, view.revalidateTimestamp) <==> !SameAt(now, base, p) {
    }
    if c'.Synced(view, |c.log|) {
      forall p | SameAt(now, base, p) ensures SameAt(view.probesById, base, p) {
        assert !SameAt(view.probesById, now, p) ==> c'.Announced(|c.log|, p, view.revalidateTimestamp);
      }
    }
    if forall p :: SameAt(now, base, p) ==> SameAt(view.probesById, base, p) {
      forall p | !SameAt(view.probesById, now, p) ensures c'.Announced(|c.log|, p, view.revalidateTimestamp) {
        assert SameAt(now, base, p) ==> SameAt(view.probesById, base, p);
        assert Names(e, p, view.revalidateTimestamp);
      }
    }
  }

  lemma HeartbeatStays(c: Channel, e: Event)
    requires c.Sound() && c.pending.None?
    requires e.Diff? && e.node == c.w && e.alive == c.horizon + 1 && e.removed == {} && e.updated == {}
    ensures var c' := c.(pending := Some(e), horizon := c.horizon + 1); c'.Sound() && Keeps(c, c')
  {
    var c' := c.(pending := Some(e), horizon := c.horizon + 1);
    LaterStays(c, c');
  }

  /** Nothing announced is lost when the stream grows or an event gets on its way. */
  lemma LaterStays(c: Channel, c': Channel)
    requires c'.w == c.w && c.log <= c'.log && c.horizon <= c'.horizon && (c'.doc == c.doc || c'.doc.None?)
    requires c.pending.Some? ==> c'.pending == c.pending || (|c'.log| > |c.log| && c'.log[|c.log|] == c.pending.value && c.pending.value.node == c.w)
    ensures Keeps(c, c')
    ensures forall i, p :: c.RemovedLater(i, p) && 0 <= i <= |c.log| ==> c'.RemovedLater(i, p)
    ensures forall i, p :: c.UpdatedLater(i, p) && 0 <= i <= |c.log| ==> c'.UpdatedLater(i, p)
  {
    forall view, from | c.Synced(view, from) ensures c'.Synced(view, from) {
      if c'.doc.Some? {
        forall p | !SameAt(view.probesById, c.doc.value.probesById, p)
          ensures c'.Announced(from, p, view.revalidateTimestamp)
        {
          assert c.Announced(from, p, view.revalidateTimestamp);
        }
      }
    }
  }

  lemma PublishStays(c: Channel)
    requires c.Sound() && c.pending.Some?
    ensures var c' := c.(log := c.log + [c.pending.value], pending := None); c'.Sound() && Keeps(c, c')
  {
    LaterStays(c, c.(log := c.log + [c.pending.value], pending := None));
  }

  lemma OtherPublishStays(c: Channel, e: Event)
    requires c.Sound() && e.node != c.w
    ensures var c' := c.(log := c.log + [e]); c'.Sound() && Keeps(c, c')
  {
    LaterStays(c, c.(log := c.log + [e]));
  }

  lemma EvictStays(c: Channel)
    requires c.Sound()
    ensures c.(doc := None).Sound() && Keeps(c, c.(doc := None))
  {
    LaterStays(c, c.(doc := None));
  }

  lemma TickStays(c: Channel, horizon: nat)
    requires c.Sound() && c.horizon <= horizon
    ensures c.(horizon := horizon).Sound() && Keeps(c, c.(horizon := horizon))
  {
    LaterStays(c, c.(horizon := horizon));
  }
}
