/** One node's probe list: the loops and field updates behind the protocol's steps. */
module SyncedProbeList {
  import opened Common
  import opened ProbeSyncProtocol
  import opened ProbeSyncReader
  import opened ProbeSyncTimes
  import opened Indexing

  datatype Socket = Socket(client: ProbeId, probe: Probe)

  datatype Listed = Listed(node: NodeId, client: ProbeId, probe: Probe)

  function FromSockets(sockets: seq<Socket>): Probes {
    if sockets == [] then map[]
    else FromSockets(sockets[..|sockets| - 1])[sockets[|sockets| - 1].client := sockets[|sockets| - 1].probe]
  }

  ghost predicate UniqueClients(sockets: seq<Socket>) {
    forall i, j :: 0 <= i < j < |sockets| ==> sockets[i].client != sockets[j].client
  }

  lemma {:induction false} FromSocketsMembers(sockets: seq<Socket>)
    requires UniqueClients(sockets)
    ensures forall p :: p in FromSockets(sockets) <==> exists i :: 0 <= i < |sockets| && sockets[i].client == p
    ensures forall i :: 0 <= i < |sockets| ==> sockets[i].client in FromSockets(sockets) && FromSockets(sockets)[sockets[i].client] == sockets[i].probe
  {
    if sockets != [] {
      var init := sockets[..|sockets| - 1];
      FromSocketsMembers(init);
      assert forall i :: 0 <= i < |init| ==> init[i] == sockets[i];
    }
  }

  lemma {:induction false} EventsOfAppend(log: seq<Event>, e: Event, w: NodeId)
    ensures EventsOf(log + [e], w) == EventsOf(log, w) + (if e.node == w then [e] else [])
  {
    var all := log + [e];
    if log == [] {
      assert all == [e] && all[1..] == [];
    } else {
      assert all[0] == log[0] && all[1..] == log[1..] + [e];
      EventsOfAppend(log[1..], e, w);
      var first := if log[0].node == w then [log[0]] else [];
      assert first + (EventsOf(log[1..], w) + (if e.node == w then [e] else [])) ==
             first + EventsOf(log[1..], w) + (if e.node == w then [e] else []);
    }
  }

  function IpsOf(l: Listed): seq<string> {
    [l.probe.ipAddress] + l.probe.altIpAddresses
  }

  /** The probe is in the data of a node in `done`. */
  predicate Holds(data: map<NodeId, NodeData>, done: set<NodeId>, l: Listed) {
    l.node in done && l.node in data && l.client in data[l.node].probesById && data[l.node].probesById[l.client] == l.probe
  }

  ghost predicate Lists(data: map<NodeId, NodeData>, done: set<NodeId>, probes: seq<Listed>) {
    Distinct(probes) && forall l :: l in probes <==> Holds(data, done, l)
  }

  ghost predicate Locates(data: map<NodeId, NodeData>, done: set<NodeId>, sockets: map<ProbeId, NodeId>) {
    && (forall p :: p in sockets ==> sockets[p] in done && sockets[p] in data && p in data[sockets[p]].probesById)
    && (forall n, p :: n in done && n in data && p in data[n].probesById ==> p in sockets)
  }

  /** `None` stands for infinity. */
  ghost predicate IsOldest(data: map<NodeId, NodeData>, done: set<NodeId>, m: Option<nat>) {
    && (m.None? ==> done == {})
    && (m.Some? ==> forall n :: n in done && n in data ==> m.value <= data[n].revalidateTimestamp)
    && (m.Some? ==> exists n :: n in done && n in data && m.value == data[n].revalidateTimestamp)
  }

  lemma OlderOf(data: map<NodeId, NodeData>, done: set<NodeId>, n: NodeId, m: Option<nat>)
    requires IsOldest(data, done, m) && n in data
    ensures var t := data[n].revalidateTimestamp;
            IsOldest(data, done + {n}, if m.None? || t < m.value then Some(t) else m)
  {
    if m.Some? {
      var k :| k in done && k in data && m.value == data[k].revalidateTimestamp;
      assert k in done + {n};
    }
    assert n in done + {n};
  }

  /** One more probe, and what it adds to the comparison. */
  lemma CompareStep(before: Probes, client: ProbeId, probe: Probe, previous: Probes)
    requires client !in before
    ensures var after := before[client := probe];
            && Removed(after, previous) == Removed(before, previous) - {client}
            && Updated(after, previous) == Updated(before, previous) +
                 (if client !in previous || DiffersIgnoringStats(probe, previous[client]) then {client} else {})
  {
    var after := before[client := probe];
    var more := if client !in previous || DiffersIgnoringStats(probe, previous[client]) then {client} else {};
    forall p ensures p in Updated(after, previous) <==> p in Updated(before, previous) + more {
    }
  }

  lemma StatsStep(before: Probes, client: ProbeId, probe: Probe, previous: Probes)
    requires client !in before
    ensures ChangedStats(before[client := probe], previous) ==
            if client in previous && probe.stats != previous[client].stats then ChangedStats(before, previous)[client := probe.stats]
            else ChangedStats(before, previous)
  {
    var after := before[client := probe];
    assert forall p :: p in after <==> p in before || p == client;
  }

  lemma NextSocket(sockets: seq<Socket>, i: nat)
    requires UniqueClients(sockets) && i < |sockets|
    ensures FromSockets(sockets[..i + 1]) == FromSockets(sockets[..i])[sockets[i].client := sockets[i].probe]
    ensures sockets[i].client !in FromSockets(sockets[..i])
  {
    FromSocketsMembers(sockets[..i]);
    assert sockets[..i + 1][..i] == sockets[..i];
  }

  ghost predicate GroupsOf(events: seq<Event>, self: NodeId, groups: map<NodeId, seq<Event>>) {
    && self !in groups
    && (forall w :: w in groups ==> groups[w] == EventsOf(events, w) && groups[w] != [])
    && (forall w :: w !in groups && w != self ==> EventsOf(events, w) == [])
  }

  lemma GroupStep(events: seq<Event>, e: Event, self: NodeId, groups: map<NodeId, seq<Event>>)
    requires GroupsOf(events, self, groups)
    ensures GroupsOf(events + [e], self,
                     if e.node == self then groups else groups[e.node := (if e.node in groups then groups[e.node] else []) + [e]])
  {
    forall w ensures EventsOf(events + [e], w) == EventsOf(events, w) + (if e.node == w then [e] else []) {
      EventsOfAppend(events, e, w);
    }
  }

  lemma EventsOfNobody(events: seq<Event>, self: NodeId)
    ensures forall w :: w in Sources(events, self) <==> w != self && EventsOf(events, w) != []
  {
    forall w ensures w in Sources(events, self) <==> w != self && EventsOf(events, w) != [] {
      EventsOfMembers(events, w);
      if EventsOf(events, w) != [] {
        assert EventsOf(events, w)[0] in EventsOf(events, w);
      }
    }
  }

  /** The outcome for one group of events: a new entry, or a task. */
  ghost predicate Settles(known: Option<NodeData>, group: seq<Event>, missed: bool, entry: Option<NodeData>, task: Option<Task>) {
    var changes := if missed then NoChanges.(reload := true) else Collect(group, NoChanges);
    if AppliesNow(known, changes) then entry == Some(Patch(known.value, changes, map[])) && task == None
    else entry == known && task == Some(TaskFor(known, changes))
  }

  function Put<K(!new), V>(m: map<K, V>, k: K, v: Option<V>): (m': map<K, V>)
    ensures forall x :: Lookup(m', x) == if x == k && v.Some? then v else Lookup(m, x)
  {
    if v.Some? then m[k := v.value] else m
  }

  lemma SameMap<K, V>(a: map<K, V>, b: map<K, V>)
    requires forall k :: Lookup(a, k) == Lookup(b, k)
    ensures a == b
  {
    forall k ensures k in a <==> k in b { assert Lookup(a, k) == Lookup(b, k); }
    forall k | k in a ensures a[k] == b[k] { assert Lookup(a, k) == Lookup(b, k); }
  }

  lemma EntriesByGroup(data: map<NodeId, NodeData>, events: seq<Event>, self: NodeId, missed: bool,
                       groups: map<NodeId, seq<Event>>, data': map<NodeId, NodeData>, tasks: map<NodeId, Task>)
    requires groups.Keys == Sources(events, self) && forall w :: w in groups ==> groups[w] == EventsOf(events, w)
    requires forall w :: w in groups ==> Settles(Lookup(data, w), groups[w], missed, Lookup(data', w), Lookup(tasks, w))
    requires forall w :: w !in groups ==> Lookup(data', w) == Lookup(data, w) && w !in tasks
    ensures data' == ProcessedData(data, events, self, missed)
  {
    var spec := ProcessedData(data, events, self, missed);
    forall w ensures Lookup(data', w) == Lookup(spec, w) {
      if w in groups {
        assert Settles(Lookup(data, w), groups[w], missed, Lookup(data', w), Lookup(tasks, w));
      }
    }
    SameMap(data', spec);
  }

  lemma TasksByGroup(data: map<NodeId, NodeData>, events: seq<Event>, self: NodeId, missed: bool,
                     groups: map<NodeId, seq<Event>>, data': map<NodeId, NodeData>, tasks: map<NodeId, Task>)
    requires groups.Keys == Sources(events, self) && forall w :: w in groups ==> groups[w] == EventsOf(events, w)
    requires forall w :: w in groups ==> Settles(Lookup(data, w), groups[w], missed, Lookup(data', w), Lookup(tasks, w))
    requires forall w :: w !in groups ==> Lookup(data', w) == Lookup(data, w) && w !in tasks
    ensures tasks == ProcessedTasks(data, events, self, missed)
  {
    var spec := ProcessedTasks(data, events, self, missed);
    forall w ensures Lookup(tasks, w) == Lookup(spec, w) {
      if w in groups {
        assert Settles(Lookup(data, w), groups[w], missed, Lookup(data', w), Lookup(tasks, w));
      }
    }
    SameMap(tasks, spec);
  }

  class SyncedProbeList {
    const nodeId: NodeId
    var nodeData: map<NodeId, NodeData>
    var lastReadEventId: Cursor
    var rawProbes: seq<Listed>
    var oldest: Option<nat>
    var socketIdToNodeId: map<ProbeId, NodeId>
    var ipToProbe: map<string, Listed>

    constructor (id: NodeId, start: nat)
      ensures nodeId == id && nodeData == map[] && lastReadEventId == FromStart(start)
      ensures ListsNodeData()
    {
      nodeId := id;
      nodeData := map[];
      lastReadEventId := FromStart(start);
      rawProbes := [];
      oldest := None;
      socketIdToNodeId := map[];
      ipToProbe := map[];
    }

    // -------------------------------------------------------------- derived views

    /** The four views list exactly what `nodeData` holds. */
    ghost predicate ListsNodeData()
      reads this
    {
      && Lists(nodeData, nodeData.Keys, rawProbes)
      && Locates(nodeData, nodeData.Keys, socketIdToNodeId)
      && IsOldest(nodeData, nodeData.Keys, oldest)
      && IsIndex(ipToProbe, rawProbes, IpsOf)
    }

    method UpdateProbes()
      modifies this
      ensures nodeData == old(nodeData) && lastReadEventId == old(lastReadEventId)
      ensures ListsNodeData()
    {
      rawProbes, socketIdToNodeId, oldest := ListNodes(nodeData);
      ipToProbe := IndexIps(rawProbes);
    }

    static method ListNodes(data: map<NodeId, NodeData>)
      returns (probes: seq<Listed>, sockets: map<ProbeId, NodeId>, least: Option<nat>)
      ensures Lists(data, data.Keys, probes) && Locates(data, data.Keys, sockets) && IsOldest(data, data.Keys, least)
    {
      probes, sockets, least := [], map[], None;
      var nodes := data.Keys;
      ghost var done := {};
      while nodes != {}
        invariant nodes <= data.Keys && forall n :: n in done <==> n in data && n !in nodes
        invariant Lists(data, done, probes)
        invariant Locates(data, done, sockets)
        invariant IsOldest(data, done, least)
        decreases nodes
      {
        var n :| n in nodes;
        probes, sockets := ListNode(data, done, n, probes, sockets);
        OlderOf(data, done, n, least);
        if least.None? || data[n].revalidateTimestamp < least.value {
          least := Some(data[n].revalidateTimestamp);
        }
        nodes, done := nodes - {n}, done + {n};
      }
      assert done == data.Keys;
    }

    /** Adds the probes of one node to the list. */
    static method ListNode(data: map<NodeId, NodeData>, ghost done: set<NodeId>, n: NodeId, probes: seq<Listed>, sockets: map<ProbeId, NodeId>)
      returns (probes': seq<Listed>, sockets': map<ProbeId, NodeId>)
      requires n in data && n !in done && Lists(data, done, probes) && Locates(data, done, sockets)
      ensures Lists(data, done + {n}, probes') && Locates(data, done + {n}, sockets')
    {
      probes', sockets' := probes, sockets;
      var byId := data[n].probesById;
      var clients := byId.Keys;
      while clients != {}
        invariant clients <= byId.Keys
        invariant Distinct(probes')
        invariant forall l :: l in probes' <==> Holds(data, done + {n}, l) && !(l.node == n && l.client in clients)
        invariant forall p :: p in sockets' ==> sockets'[p] in done + {n} && sockets'[p] in data && p in data[sockets'[p]].probesById
        invariant forall p :: (p in sockets || (p in byId && p !in clients)) ==> p in sockets'
        decreases clients
      {
        var p :| p in clients;
        var l := Listed(n, p, byId[p]);
        probes' := probes' + [l];
        sockets' := sockets'[p := n];
        clients := clients - {p};
      }
    }

    /** The last listed probe with an IP is found under it. */
    static method IndexIps(probes: seq<Listed>) returns (index: map<string, Listed>)
      ensures IsIndex(index, probes, IpsOf)
    {
      index := IndexByKeys(probes, IpsOf);
    }

    /** The test behind `fetchProbes`: every known node has been revalidated after `start`. */
    method RevalidatedAfter(start: nat) returns (ready: bool)
      requires ListsNodeData()
      ensures ready <==> forall n :: n in nodeData ==> nodeData[n].revalidateTimestamp > start
    {
      ready := oldest.None? || oldest.value > start;
    }

    // -------------------------------------------------------------- push

    /** Compares the sockets with the previous probes, one by one. */
    static method Compare(sockets: seq<Socket>, previous: Probes)
      returns (removed: set<ProbeId>, updated: set<ProbeId>, stats: map<ProbeId, string>)
      requires UniqueClients(sockets)
      ensures var current := FromSockets(sockets);
              removed == Removed(current, previous) && updated == Updated(current, previous) && stats == ChangedStats(current, previous)
    {
      var left := previous;
      updated, stats := {}, map[];
      for i := 0 to |sockets|
        invariant var current := FromSockets(sockets[..i]);
                  left.Keys == Removed(current, previous) && updated == Updated(current, previous) && stats == ChangedStats(current, previous)
      {
        var Socket(client, probe) := sockets[i];
        NextSocket(sockets, i);
        CompareStep(FromSockets(sockets[..i]), client, probe, previous);
        StatsStep(FromSockets(sockets[..i]), client, probe, previous);
        left := left - {client};
        if client in previous && probe.stats != previous[client].stats {
          stats := stats[client := probe.stats];
        }
        if client !in previous || DiffersIgnoringStats(probe, previous[client]) {
          updated := updated + {client};
        }
      }
      assert sockets[..|sockets|] == sockets;
      removed := left.Keys;
    }

    /** What `syncPush` does once it knows the timestamp of its own document. */
    method PushAfterLook(sockets: seq<Socket>, previous: Option<NodeData>, now: nat, remote: Option<nat>) returns (push: Push)
      requires UniqueClients(sockets)
      modifies this
      ensures var plan := PlanPush(nodeId, previous, remote, now, FromSockets(sockets));
              push == AfterPlan(plan, nodeId) &&
              nodeData == (if AppliesAtOnce(plan) then old(nodeData)[nodeId := plan.data] else old(nodeData))
      ensures lastReadEventId == old(lastReadEventId)
      ensures old(ListsNodeData()) ==> ListsNodeData()
    {
      var data := NodeData(now, now, FromSockets(sockets));
      if remote.None? || remote.value == 0 || previous.None? || remote.value != previous.value.changeTimestamp {
        HandleUpdate(nodeId, data);
        return Writing(data, Reload(nodeId), true);
      }
      var removed, updated, stats := Compare(sockets, previous.value.probesById);
      var event := Diff(nodeId, now, removed, updated, stats);
      if updated == {} && removed == {} {
        data := data.(changeTimestamp := previous.value.changeTimestamp);
        if now - remote.value > REMOTE_DATA_TTL / 2 {
          return Writing(data, event, false);
        }
        HandleUpdate(nodeId, data);
        return Publishing(event);
      }
      HandleUpdate(nodeId, data);
      return Writing(data, event, true);
    }

    method HandleUpdate(n: NodeId, data: NodeData)
      modifies this
      ensures nodeData == old(nodeData)[n := data] && lastReadEventId == old(lastReadEventId) && ListsNodeData()
    {
      nodeData := nodeData[n := data];
      UpdateProbes();
    }

    // -------------------------------------------------------------- pull

    /** The loop over one node's events; a RELOAD ends it. */
    static method CollectChanges(events: seq<Event>, missed: bool) returns (changes: Changes)
      ensures changes == if missed then NoChanges.(reload := true) else Collect(events, NoChanges)
    {
      changes := NoChanges.(reload := missed);
      if missed { return; }
      var i := 0;
      while i < |events|
        invariant 0 <= i <= |events|
        invariant Collect(events, NoChanges) == Collect(events[i..], changes)
      {
        match events[i] {
          case Reload(_) => return changes.(reload := true);
          case Diff(_, alive, removed, updated, stats) =>
            changes := Changes(changes.reload, Some(alive), changes.removed + removed, changes.updated + updated, changes.stats + stats);
        }
        i := i + 1;
      }
    }

    /** Groups the events of the other nodes by node, each group in stream order. */
    method GroupByNode(events: seq<Event>) returns (groups: map<NodeId, seq<Event>>)
      ensures groups.Keys == Sources(events, nodeId)
      ensures forall w :: w in groups ==> groups[w] == EventsOf(events, w)
    {
      groups := map[];
      for i := 0 to |events|
        invariant GroupsOf(events[..i], nodeId, groups)
      {
        var e := events[i];
        assert events[..i + 1] == events[..i] + [e];
        GroupStep(events[..i], e, nodeId, groups);
        if e.node != nodeId {
          groups := groups[e.node := (if e.node in groups then groups[e.node] else []) + [e]];
        }
      }
      assert events[..|events|] == events;
      EventsOfNobody(events, nodeId);
    }

    /** The synchronous part of `syncPull`: what applies at once is stored, the rest waits for Redis. */
    method ProcessEvents(events: seq<Event>, missed: bool) returns (tasks: map<NodeId, Task>)
      modifies this
      ensures nodeData == ProcessedData(old(nodeData), events, nodeId, missed)
      ensures tasks == ProcessedTasks(old(nodeData), events, nodeId, missed)
      ensures forall w :: w in Sources(events, nodeId) && w !in tasks ==>
                w in nodeData && TimeOfNewest(events, w, nodeData[w].revalidateTimestamp)
      ensures forall w :: w !in Sources(events, nodeId) || w in tasks ==> Lookup(nodeData, w) == Lookup(old(nodeData), w)
      ensures lastReadEventId == old(lastReadEventId)
    {
      var groups := GroupByNode(events);
      var data;
      data, tasks := ProcessGroups(nodeData, groups, missed);
      EntriesByGroup(nodeData, events, nodeId, missed, groups, data, tasks);
      TasksByGroup(nodeData, events, nodeId, missed, groups, data, tasks);
      forall w | w in Sources(events, nodeId) && w !in tasks ensures w in data && TimeOfNewest(events, w, data[w].revalidateTimestamp) {
        ProcessedTime(nodeData, events, nodeId, missed, w);
      }
      nodeData := data;
    }

    static method SettleGroup(known: Option<NodeData>, group: seq<Event>, missed: bool) returns (entry: Option<NodeData>, task: Option<Task>)
      ensures Settles(known, group, missed, entry, task)
    {
      var changes := CollectChanges(group, missed);
      if known.None? || changes.reload || |changes.updated| > MAX_PATCHED_PROBES {
        return known, Some(AwaitDocument);
      } else if changes.updated == {} {
        return Some(Patch(known.value, changes, map[])), None;
      } else {
        return known, Some(AwaitProbes(known.value, changes));
      }
    }

    static method ProcessGroups(data0: map<NodeId, NodeData>, groups: map<NodeId, seq<Event>>, missed: bool)
      returns (data: map<NodeId, NodeData>, tasks: map<NodeId, Task>)
      ensures forall w :: w in groups ==> Settles(Lookup(data0, w), groups[w], missed, Lookup(data, w), Lookup(tasks, w))
      ensures forall w :: w !in groups ==> Lookup(data, w) == Lookup(data0, w) && w !in tasks
    {
      data, tasks := data0, map[];
      var nodes := groups.Keys;
      while nodes != {}
        invariant nodes <= groups.Keys
        invariant forall w :: w in groups && w !in nodes ==> Settles(Lookup(data0, w), groups[w], missed, Lookup(data, w), Lookup(tasks, w))
        invariant forall w :: w !in groups || w in nodes ==> Lookup(data, w) == Lookup(data0, w) && w !in tasks
        decreases nodes
      {
        var w :| w in nodes;
        var entry, task := SettleGroup(Lookup(data, w), groups[w], missed);
        data, tasks := Put(data, w, entry), Put(tasks, w, task);
        nodes := nodes - {w};
      }
    }

    /** The continuation of one task after its answer came. */
    method StoreAnswer(w: NodeId, task: Task)
      requires !IsWaiting(task)
      modifies this
      ensures var result := TaskResult(task);
              nodeData == if result.Some? then old(nodeData)[w := result.value] else old(nodeData)
      ensures task.GotDocument? ==> nodeData == if task.document.Some? then old(nodeData)[w := task.document.value] else old(nodeData)
      ensures task.GotProbes? ==>
                w in nodeData && nodeData[w].revalidateTimestamp ==
                                 if task.changes.alive.Some? then task.changes.alive.value else task.base.revalidateTimestamp
      ensures lastReadEventId == old(lastReadEventId)
    {
      match task
      case GotDocument(document) =>
        if document.Some? {
          nodeData := nodeData[w := document.value];
        }
      case GotProbes(base, changes, fetched) =>
        var probes := Trimmed(base.probesById, changes);
        if fetched.Some? {
          probes := probes + fetched.value;
        } else {
          assert probes + map[] == probes;
        }
        nodeData := nodeData[w := NodeData(base.changeTimestamp, changes.alive.GetOr(base.revalidateTimestamp), probes)];
      case _ =>
    }

    /** The end of `syncPull`: the views are rebuilt, and the cursor moves unless a part failed. */
    method FinishPull(hi: nat, failed: bool)
      requires hi > 0
      modifies this
      ensures nodeData == old(nodeData) && ListsNodeData()
      ensures lastReadEventId == if failed then old(lastReadEventId) else After(hi - 1)
    {
      UpdateProbes();
      if !failed {
        lastReadEventId := After(hi - 1);
      }
    }
  }
}
