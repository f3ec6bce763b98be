/** What one pull does to one writer's copy. */
module ProbeSyncReader {
  import opened Common
  import opened ProbeSyncProtocol
  import opened ProbeSyncConvergence

  // ------------------------------------------------------------ the collected changes

  lemma {:induction false} EventsOfMembers(log: seq<Event>, w: NodeId)
    ensures forall e :: e in EventsOf(log, w) <==> e in log && e.node == w
  {
    if log != [] {
      EventsOfMembers(log[1..], w);
      assert log == [log[0]] + log[1..];
    }
  }

  lemma {:induction false} LastEventOf(log: seq<Event>, w: NodeId) returns (k: nat)
    requires EventsOf(log, w) != []
    ensures k < |log| && log[k].node == w && log[k] == EventsOf(log, w)[|EventsOf(log, w)| - 1]
    ensures forall i :: k < i < |log| ==> log[i].node != w
  {
    if EventsOf(log[1..], w) != [] {
      var j := LastEventOf(log[1..], w);
      k := j + 1;
      assert forall i :: k < i < |log| ==> log[i] == log[1..][i - 1];
    } else {
      EventsOfMembers(log[1..], w);
      assert forall i :: 0 < i < |log| ==> log[i] in log[1..];
      k := 0;
    }
  }

  lemma {:induction false} CollectedChanges(events: seq<Event>, acc: Changes)
    requires !Collect(events, acc).reload
    ensures var ch := Collect(events, acc);
            && acc.removed <= ch.removed && acc.updated <= ch.updated
            && (forall e :: e in events ==> e.Diff? && e.removed <= ch.removed && e.updated <= ch.updated)
            && (forall p :: p in ch.removed && p !in acc.removed ==> exists e :: e in events && e.Diff? && p in e.removed)
            && (forall p :: p in ch.updated && p !in acc.updated ==> exists e :: e in events && e.Diff? && p in e.updated)
            && (events == [] ==> ch == acc)
            && (events != [] ==> ch.alive == Some(events[|events| - 1].alive))
  {
    if events != [] {
      var e := events[0];
      if e.Diff? {
        var acc' := Changes(acc.reload, Some(e.alive), acc.removed + e.removed, acc.updated + e.updated, acc.stats + e.stats);
        CollectedChanges(events[1..], acc');
        assert events == [e] + events[1..];
        assert e in events;
        forall p | p in Collect(events, acc).removed && p !in acc.removed
          ensures exists x :: x in events && x.Diff? && p in x.removed
        {
          if p !in e.removed {
            var x :| x in events[1..] && x.Diff? && p in x.removed;
            assert x in events;
          }
        }
        forall p | p in Collect(events, acc).updated && p !in acc.updated
          ensures exists x :: x in events && x.Diff? && p in x.updated
        {
          if p !in e.updated {
            var x :| x in events[1..] && x.Diff? && p in x.updated;
            assert x in events;
          }
        }
      }
    }
  }

  /** `ch` sums up everything the writer announced in `log[lo..hi]`, none of it a RELOAD. */
  ghost predicate SumsUp(log: seq<Event>, w: NodeId, lo: nat, hi: nat, ch: Changes) {
    && lo <= hi <= |log|
    && ch.alive.Some?
    && (forall k :: lo <= k < hi && log[k].node == w ==>
                      log[k].Diff? && log[k].removed <= ch.removed && log[k].updated <= ch.updated && log[k].alive <= ch.alive.value)
    && (forall p :: p in ch.removed ==> exists k :: lo <= k < hi && log[k].node == w && log[k].Diff? && p in log[k].removed)
    && (forall p :: p in ch.updated ==> exists k :: lo <= k < hi && log[k].node == w && log[k].Diff? && p in log[k].updated)
    && (exists k :: lo <= k < hi && log[k].node == w && log[k].Diff? && log[k].alive == ch.alive.value)
  }

  /** Membership in the batch of one writer, by position in the log. */
  lemma EventsAt(log: seq<Event>, w: NodeId, lo: nat, hi: nat)
    requires lo <= hi <= |log|
    ensures forall e :: e in EventsOf(log[lo..hi], w) <==> exists k :: lo <= k < hi && log[k].node == w && log[k] == e
  {
    EventsOfMembers(log[lo..hi], w);
    forall e | e in EventsOf(log[lo..hi], w) ensures exists k :: lo <= k < hi && log[k].node == w && log[k] == e {
      var i :| 0 <= i < hi - lo && log[lo..hi][i] == e;
      assert log[lo + i] == e;
    }
    forall k | lo <= k < hi && log[k].node == w ensures log[k] in EventsOf(log[lo..hi], w) {
      assert log[lo..hi][k - lo] == log[k];
    }
  }

  /** The time a batch reports is that of its last event. */
  lemma LastAlive(c: Channel, lo: nat, hi: nat) returns (last: nat)
    requires c.Timed() && lo <= hi <= |c.log|
    requires EventsOf(c.log[lo..hi], c.w) != []
    ensures lo <= last < hi && c.log[last].node == c.w
    ensures forall k :: lo <= k < hi && c.log[k].node == c.w ==> k <= last
    ensures var events := EventsOf(c.log[lo..hi], c.w); c.log[last] == events[|events| - 1]
  {
    var k := LastEventOf(c.log[lo..hi], c.w);
    last := lo + k;
    forall j | lo <= j < hi && c.log[j].node == c.w ensures j <= last {
      assert c.log[lo..hi][j - lo] == c.log[j];
    }
  }

  lemma ChangesSumUp(c: Channel, lo: nat, hi: nat)
    requires c.Timed() && lo <= hi <= |c.log|
    requires HasEvent(c.log[..hi], c.w, lo)
    requires !ChangesOf(c.log[lo..hi], c.w, false).reload
    ensures SumsUp(c.log, c.w, lo, hi, ChangesOf(c.log[lo..hi], c.w, false))
  {
    var ch := ChangesOf(c.log[lo..hi], c.w, false);
    assert EventsOf(c.log[lo..hi], c.w) != [] by {
      var some :| lo <= some < hi && c.log[..hi][some].node == c.w;
      EventInBatch(c.log, c.w, lo, hi, some);
    }
    var last := LastAlive(c, lo, hi);
    EventInBatch(c.log, c.w, lo, hi, last);
    CollectedChanges(EventsOf(c.log[lo..hi], c.w), NoChanges);
    assert ch.alive == Some(c.log[last].alive) && c.log[last].Diff?;
    NewestAlive(c, lo, hi, last);
    EventsAt(c.log, c.w, lo, hi);
    SumsUpFrom(c.log, c.w, lo, hi, EventsOf(c.log[lo..hi], c.w), ch);
  }

  lemma EventInBatch(log: seq<Event>, w: NodeId, lo: nat, hi: nat, k: nat)
    requires lo <= k < hi <= |log| && log[k].node == w
    ensures log[k] in EventsOf(log[lo..hi], w)
  {
    EventsAt(log, w, lo, hi);
  }

  lemma NewestAlive(c: Channel, lo: nat, hi: nat, last: nat)
    requires c.Timed() && lo <= last < hi <= |c.log| && c.log[last].node == c.w && c.log[last].Diff?
    requires forall k :: lo <= k < hi && c.log[k].node == c.w ==> k <= last
    ensures forall k :: lo <= k < hi && c.log[k].node == c.w && c.log[k].Diff? ==> c.log[k].alive <= c.log[last].alive
  {
  }

  lemma SumsUpFrom(log: seq<Event>, w: NodeId, lo: nat, hi: nat, events: seq<Event>, ch: Changes)
    requires lo <= hi <= |log| && ch.alive.Some?
    requires forall e :: e in events <==> exists k :: lo <= k < hi && log[k].node == w && log[k] == e
    requires forall e :: e in events ==> e.Diff? && e.removed <= ch.removed && e.updated <= ch.updated
    requires forall p :: p in ch.removed ==> exists e :: e in events && e.Diff? && p in e.removed
    requires forall p :: p in ch.updated ==> exists e :: e in events && e.Diff? && p in e.updated
    requires exists k :: lo <= k < hi && log[k].node == w && log[k].Diff? && log[k].alive == ch.alive.value
    requires forall k :: lo <= k < hi && log[k].node == w && log[k].Diff? ==> log[k].alive <= ch.alive.value
    ensures SumsUp(log, w, lo, hi, ch)
  {
    forall k | lo <= k < hi && log[k].node == w
      ensures log[k].Diff? && log[k].removed <= ch.removed && log[k].updated <= ch.updated
    {
      assert log[k] in events;
    }
    forall p | p in ch.removed ensures exists k :: lo <= k < hi && log[k].node == w && log[k].Diff? && p in log[k].removed {
      var e :| e in events && e.Diff? && p in e.removed;
      var k :| lo <= k < hi && log[k].node == w && log[k] == e;
    }
    forall p | p in ch.updated ensures exists k :: lo <= k < hi && log[k].node == w && log[k].Diff? && p in log[k].updated {
      var e :| e in events && e.Diff? && p in e.updated;
      var k :| lo <= k < hi && log[k].node == w && log[k] == e;
    }
  }

  // ------------------------------------------------------------ patching

  /** A patched copy differs from the document only where an event after the batch says so. */
  lemma PatchIsSynced(c: Channel, base: NodeData, ch: Changes, lo: nat, hi: nat, fetched: Probes)
    requires c.Sound() && c.Synced(base, lo) && SumsUp(c.log, c.w, lo, hi, ch)
    requires c.doc.Some? ==> fetched == Restricted(c.doc.value.probesById, ch.updated)
    ensures c.Synced(Patch(base, ch, fetched), hi)
  {
    var view := Patch(base, ch, fetched);
    if c.doc.Some? {
      var doc := c.doc.value.probesById;
      forall p | !SameAt(view.probesById, doc, p) ensures c.Announced(hi, p, view.revalidateTimestamp) {
        if p in ch.updated {
          assert p !in doc;
          var i :| lo <= i < hi && c.log[i].node == c.w && c.log[i].Diff? && p in c.log[i].updated;
          assert c.RemovedLater(i + 1, p);
          LaterRemovalIsAnnounced(c, ch, lo, hi, i + 1, p);
        } else if p in ch.removed {
          assert p in doc;
          var i :| lo <= i < hi && c.log[i].node == c.w && c.log[i].Diff? && p in c.log[i].removed;
          assert c.UpdatedLater(i + 1, p);
          LaterUpdateIsAnnounced(c, ch, lo, hi, i + 1, p);
        } else {
          assert !SameAt(base.probesById, doc, p);
          assert c.Announced(lo, p, base.revalidateTimestamp);
          UntouchedIsAnnounced(c, ch, lo, hi, p, base.revalidateTimestamp);
        }
      }
    }
  }

  /** Events past the batch, and the event on its way, are newer than everything in it. */
  lemma PastTheBatch(c: Channel, ch: Changes, lo: nat, hi: nat)
    requires c.Timed() && SumsUp(c.log, c.w, lo, hi, ch)
    ensures forall k :: hi <= k < |c.log| && c.log[k].node == c.w && c.log[k].Diff? ==> c.log[k].alive > ch.alive.value
    ensures c.pending.Some? && c.pending.value.Diff? ==> c.pending.value.alive > ch.alive.value
  {
  }

  lemma LaterRemovalIsAnnounced(c: Channel, ch: Changes, lo: nat, hi: nat, from: int, p: ProbeId)
    requires c.Timed() && SumsUp(c.log, c.w, lo, hi, ch) && lo <= from && c.RemovedLater(from, p) && p !in ch.removed
    ensures c.Announced(hi, p, ch.alive.value)
  {
    PastTheBatch(c, ch, lo, hi);
    if !(c.pending.Some? && SaysRemoved(c.pending.value, p)) {
      var k :| from <= k < |c.log| && c.log[k].node == c.w && SaysRemoved(c.log[k], p);
      assert Names(c.log[k], p, ch.alive.value);
    }
  }

  lemma LaterUpdateIsAnnounced(c: Channel, ch: Changes, lo: nat, hi: nat, from: int, p: ProbeId)
    requires c.Timed() && SumsUp(c.log, c.w, lo, hi, ch) && lo <= from && c.UpdatedLater(from, p) && p !in ch.updated
    ensures c.Announced(hi, p, ch.alive.value)
  {
    PastTheBatch(c, ch, lo, hi);
    if !(c.pending.Some? && SaysUpdated(c.pending.value, p)) {
      var k :| from <= k < |c.log| && c.log[k].node == c.w && SaysUpdated(c.log[k], p);
      assert Names(c.log[k], p, ch.alive.value);
    }
  }

  lemma UntouchedIsAnnounced(c: Channel, ch: Changes, lo: nat, hi: nat, p: ProbeId, since: nat)
    requires c.Timed() && SumsUp(c.log, c.w, lo, hi, ch) && c.Announced(lo, p, since) && p !in ch.updated && p !in ch.removed
    ensures c.Announced(hi, p, ch.alive.value)
  {
    PastTheBatch(c, ch, lo, hi);
    if !(c.pending.Some? && Names(c.pending.value, p, since)) {
      var k :| lo <= k < |c.log| && c.log[k].node == c.w && Names(c.log[k], p, since);
      assert Names(c.log[k], p, ch.alive.value);
    }
  }
}
