/** Merging the updates and applying everything to the table: deletes, then nullified IPs, then updates. */
module DashboardSync {
  import opened Common
  import opened Sorting
  import opened DashboardRows
  import opened DashboardUpdates
  import opened DashboardDuplicates
  import opened DashboardMatching

  // ---------------------------------------------------------------- merging

  function Over<T>(u: Option<T>, v: Option<T>): Option<T> {
    if v.Some? then v else u
  }

  /** One update with a second one spread over it. */
  function Spread(u: Update, v: Update): Update {
    Update(Over(u.uuid, v.uuid), Over(u.ip, v.ip), Over(u.altIps, v.altIps), Over(u.status, v.status), Over(u.asn, v.asn),
           Over(u.city, v.city), u.others + v.others)
  }

  function Merged(u: Option<Update>, v: Option<Update>): Option<Update> {
    if u.Some? && v.Some? then Some(Spread(u.value, v.value)) else if u.Some? then u else v
  }

  function IdsOf(changes: seq<Change>): set<string> {
    set c | c in changes :: c.id
  }

  ghost predicate MergedSoFar(merged: seq<Change>, updates: seq<Change>, altIpUpdates: seq<Change>, done: set<string>) {
    && DistinctChanges(merged)
    && (forall c :: c in merged ==> c.id in done)
    && forall id :: ChangeFor(merged, id) ==
                    if id in done then Merged(ChangeFor(updates, id), ChangeFor(altIpUpdates, id)) else None
  }

  lemma MergedOneMore(merged: seq<Change>, updates: seq<Change>, altIpUpdates: seq<Change>, done: set<string>, c: Change)
    requires MergedSoFar(merged, updates, altIpUpdates, done) && c.id !in done
    requires Some(c.update) == Merged(ChangeFor(updates, c.id), ChangeFor(altIpUpdates, c.id))
    ensures MergedSoFar(merged + [c], updates, altIpUpdates, done + {c.id})
  {
    forall id ensures ChangeFor(merged + [c], id) == if id == c.id then Some(c.update) else ChangeFor(merged, id) {
      ChangeForOneMore(merged, c, id);
    }
  }

  lemma {:induction false} ChangeForAt(changes: seq<Change>, i: nat)
    requires DistinctChanges(changes) && i < |changes|
    ensures ChangeFor(changes, changes[i].id) == Some(changes[i].update)
  {
    if i < |changes| - 1 {
      ChangeForAt(changes[..|changes| - 1], i);
    }
  }

  method ById(changes: seq<Change>) returns (byId: map<string, Update>)
    ensures forall id :: Lookup(byId, id) == ChangeFor(changes, id)
  {
    byId := map[];
    for i := 0 to |changes|
      invariant forall id :: Lookup(byId, id) == ChangeFor(changes[..i], id)
    {
      assert changes[..i + 1][..i] == changes[..i];
      byId := byId[changes[i].id := changes[i].update];
    }
    assert changes[..|changes|] == changes;
  }

  /** Data updates with their alternative IPs. */
  method MergeInto(updates: seq<Change>, altIpUpdates: seq<Change>, byId: map<string, Update>)
    returns (merged: seq<Change>, left: map<string, Update>)
    requires DistinctChanges(updates) && forall id :: Lookup(byId, id) == ChangeFor(altIpUpdates, id)
    ensures MergedSoFar(merged, updates, altIpUpdates, IdsOf(updates))
    ensures left == byId - IdsOf(updates)
  {
    merged, left := [], byId;
    for i := 0 to |updates|
      invariant MergedSoFar(merged, updates, altIpUpdates, IdsOf(updates[..i]))
      invariant left == byId - IdsOf(updates[..i])
    {
      var c := updates[i];
      ChangeForAt(updates, i);
      assert IdsOf(updates[..i + 1]) == IdsOf(updates[..i]) + {c.id};
      assert c.id !in IdsOf(updates[..i]);
      assert Lookup(left, c.id) == Lookup(byId, c.id);
      var change := if c.id in left then Change(c.id, Spread(c.update, left[c.id])) else c;
      MergedOneMore(merged, updates, altIpUpdates, IdsOf(updates[..i]), change);
      merged := merged + [change];
      left := left - {c.id};
    }
    assert updates[..|updates|] == updates;
  }

  /** The others, in any order. */
  method AppendLeft(some: seq<Change>, left: map<string, Update>, ghost updates: seq<Change>, ghost altIpUpdates: seq<Change>,
                    ghost done: set<string>) returns (all: seq<Change>)
    requires MergedSoFar(some, updates, altIpUpdates, done) && left.Keys !! done
    requires forall id :: id in left ==> ChangeFor(updates, id) == None && ChangeFor(altIpUpdates, id) == Some(left[id])
    ensures MergedSoFar(all, updates, altIpUpdates, done + left.Keys)
  {
    all := some;
    var keys := left.Keys;
    while keys != {}
      invariant keys <= left.Keys
      invariant MergedSoFar(all, updates, altIpUpdates, done + (left.Keys - keys))
    {
      var id :| id in keys;
      MergedOneMore(all, updates, altIpUpdates, done + (left.Keys - keys), Change(id, left[id]));
      assert done + (left.Keys - keys) + {id} == done + (left.Keys - (keys - {id}));
      all := all + [Change(id, left[id])];
      keys := keys - {id};
    }
    assert done + (left.Keys - {}) == done + left.Keys;
  }

  method WithoutIds(changes: seq<Change>, ids: set<string>) returns (kept: seq<Change>)
    requires DistinctChanges(changes)
    ensures DistinctChanges(kept) && forall id :: ChangeFor(kept, id) == if id in ids then None else ChangeFor(changes, id)
  {
    kept := [];
    for i := 0 to |changes|
      invariant DistinctChanges(kept) && forall c :: c in kept ==> exists k :: 0 <= k < i && changes[k] == c
      invariant forall id :: ChangeFor(kept, id) == if id in ids then None else ChangeFor(changes[..i], id)
    {
      assert changes[..i + 1][..i] == changes[..i];
      if changes[i].id !in ids {
        forall id ensures ChangeFor(kept + [changes[i]], id) == if id == changes[i].id then Some(changes[i].update) else ChangeFor(kept, id) {
          ChangeForOneMore(kept, changes[i], id);
        }
        forall c | c in kept ensures c.id != changes[i].id {
          var k :| 0 <= k < i && changes[k] == c;
        }
        kept := kept + [changes[i]];
      }
    }
    assert changes[..|changes|] == changes;
  }

  method MergeUpdates(updates: seq<Change>, altIpUpdates: seq<Change>, deleted: seq<DProbe>) returns (merged: seq<Change>)
    requires DistinctChanges(updates) && DistinctChanges(altIpUpdates)
    ensures DistinctChanges(merged)
    ensures forall id :: ChangeFor(merged, id) ==
                         if id in (set d | d in deleted :: d.id) then None
                         else Merged(ChangeFor(updates, id), ChangeFor(altIpUpdates, id))
  {
    var byId := ById(altIpUpdates);
    var some, left := MergeInto(updates, altIpUpdates, byId);
    forall id | id !in IdsOf(updates) ensures ChangeFor(updates, id) == None {
      ChangeForNone(updates, id);
    }
    assert forall id :: id in left ==> Lookup(byId, id) == Some(left[id]);
    var all := AppendLeft(some, left, updates, altIpUpdates, IdsOf(updates));
    merged := WithoutIds(all, set d | d in deleted :: d.id);
    forall id ensures ChangeFor(all, id) == Merged(ChangeFor(updates, id), ChangeFor(altIpUpdates, id)) {
      assert Lookup(byId, id) == ChangeFor(altIpUpdates, id);
    }
  }

  // ---------------------------------------------------------------- the table

  type Table = map<string, DProbe>

  /** Updates by id; a row that is not there is not created. */
  function ApplyAll(table: Table, changes: seq<Change>): Table {
    if changes == [] then table
    else
      var before, c := ApplyAll(table, changes[..|changes| - 1]), changes[|changes| - 1];
      if c.id in before then before[c.id := Apply(before[c.id], c.update)] else before
  }

  function Changed(row: Option<DProbe>, u: Option<Update>): Option<DProbe> {
    if row.Some? && u.Some? then Some(Apply(row.value, u.value)) else row
  }

  /** The order of updates with distinct ids does not matter. */
  lemma {:induction false} ApplyAllAt(table: Table, changes: seq<Change>, id: string)
    requires DistinctChanges(changes)
    ensures Lookup(ApplyAll(table, changes), id) == Changed(Lookup(table, id), ChangeFor(changes, id))
  {
    if changes != [] {
      var init := changes[..|changes| - 1];
      ApplyAllAt(table, init, id);
      ChangeForNone(init, id);
      assert changes[|changes| - 1].id == id ==> ChangeFor(init, id) == None;
    }
  }

  method UpdateRows(table: Table, changes: seq<Change>) returns (table': Table)
    ensures table' == ApplyAll(table, changes)
  {
    table' := table;
    for i := 0 to |changes|
      invariant table' == ApplyAll(table, changes[..i])
    {
      assert changes[..i + 1][..i] == changes[..i];
      var c := changes[i];
      if c.id in table' {
        table' := table'[c.id := Apply(table'[c.id], c.update)];
      }
    }
    assert changes[..|changes|] == changes;
  }

  /** A surviving row as it ends up in the table. */
  function Final(updated: seq<DProbe>, i: nat): DProbe
    requires i < |updated| && Survives(updated, i)
  {
    updated[i].(ip := if VerdictAt(updated, i).nullifyIp then "" else updated[i].ip, altIps := VerdictAt(updated, i).altIps)
  }

  /** One row through the nullification and its merged update. */
  lemma FinalRow(row: DProbe, u: Update, updated: seq<DProbe>, i: nat)
    requires i < |updated| && Survives(updated, i) && updated[i] == Apply(row, u)
    requires VerdictAt(updated, i).nullifyIp ==> u.ip.None? && updated[i].status == OFFLINE
    ensures var data := if u == NO_UPDATE then None else Some(u);
            Changed(Changed(Some(row), NullifyAt(updated, i)), Merged(data, AltIpsAt(updated, i))) == Some(Final(updated, i))
  {
    assert forall m: map<string, string> :: m + map[] == m;
  }

  lemma NullifiedIsLeft(matched: seq<Match>, columns: seq<Columns>, rest: seq<DProbe>, updated: seq<DProbe>, i: nat)
    requires |columns| == |matched| && i < |updated| == |matched| + |rest| && AreUpdated(updated, matched, columns, rest)
    requires forall k :: 0 <= k < |columns| ==> columns[k].status != OFFLINE
    requires Survives(updated, i) && VerdictAt(updated, i).nullifyIp
    ensures DataUpdateAt(matched, columns, rest, i).ip.None? && updated[i].status == OFFLINE
  {
    if i < |matched| {
      DiffBringsUpToDate(matched[i].dProbe, columns[i]);
    }
  }

  ghost predicate IsTable(table: Table, matched: seq<Match>, rest: seq<DProbe>) {
    && (forall i :: 0 <= i < |matched| + |rest| ==> Lookup(table, RowAt(matched, rest, i).id) == Some(RowAt(matched, rest, i)))
    && (forall id :: id in table ==> exists i :: 0 <= i < |matched| + |rest| && RowAt(matched, rest, i).id == id)
  }

  lemma UpdatedIds(matched: seq<Match>, columns: seq<Columns>, rest: seq<DProbe>, updated: seq<DProbe>)
    requires |columns| == |matched| && |updated| == |matched| + |rest| && AreUpdated(updated, matched, columns, rest)
    ensures forall i :: 0 <= i < |updated| ==> updated[i].id == RowAt(matched, rest, i).id
    ensures AllIdsDistinct(matched, rest) ==> DistinctIds(updated)
  {
  }

  /** Deletes, then nullified IPs, then updates. */
  method ApplyInOrder(table: Table, deleteIds: set<string>, nullified: seq<Change>, updates: seq<Change>) returns (table': Table)
    requires DistinctChanges(nullified) && DistinctChanges(updates)
    ensures forall id :: Lookup(table', id) ==
                         Changed(Changed(Lookup(table - deleteIds, id), ChangeFor(nullified, id)), ChangeFor(updates, id))
  {
    var table1 := table - deleteIds;
    var table2 := UpdateRows(table1, nullified);
    table' := UpdateRows(table2, updates);
    forall id ensures Lookup(table', id) == Changed(Changed(Lookup(table1, id), ChangeFor(nullified, id)), ChangeFor(updates, id)) {
      ApplyAllAt(table1, nullified, id);
      ApplyAllAt(table2, updates, id);
    }
  }

  lemma DeletedIds(rows: seq<DProbe>, deleted: seq<DProbe>, i: nat)
    requires DistinctIds(rows) && i < |rows| && DeletesUpTo(deleted, rows, |rows|)
    ensures rows[i].id in (set d | d in deleted :: d.id) <==> !Survives(rows, i)
  {
    if Survives(rows, i) {
      forall d | d in deleted ensures d.id != rows[i].id {
        var k :| 0 <= k < |rows| && d == rows[k] && !Survives(rows, k);
      }
    } else {
      assert rows[i] in deleted;
    }
  }

  lemma RowIsSynced(table: Table, matched: seq<Match>, columns: seq<Columns>, rest: seq<DProbe>, updates: seq<Change>,
                    updated: seq<DProbe>, deleted: seq<DProbe>, nullified: seq<Change>, altIpUpdates: seq<Change>, i: nat)
    requires |columns| == |matched| && AllIdsDistinct(matched, rest) && IsTable(table, matched, rest)
    requires forall k :: 0 <= k < |columns| ==> columns[k].status != OFFLINE
    requires i < |updated| == |matched| + |rest| && AreUpdated(updated, matched, columns, rest)
    requires HoldsUpdates(updates, matched, columns, rest, |updated|)
    requires FoundUpTo(updated, |updated|, deleted, nullified, altIpUpdates)
    ensures var id, deleteIds := updated[i].id, set d | d in deleted :: d.id;
            var update := if id in deleteIds then None else Merged(ChangeFor(updates, id), ChangeFor(altIpUpdates, id));
            Changed(Changed(Lookup(table - deleteIds, id), ChangeFor(nullified, id)), update) ==
            if Survives(updated, i) then Some(Final(updated, i)) else None
  {
    UpdatedIds(matched, columns, rest, updated);
    DeletedIds(updated, deleted, i);
    if Survives(updated, i) {
      if VerdictAt(updated, i).nullifyIp {
        NullifiedIsLeft(matched, columns, rest, updated, i);
      }
      FinalRow(RowAt(matched, rest, i), DataUpdateAt(matched, columns, rest, i), updated, i);
    }
  }

  /**
    The statements of a synchronization. `columns` gives, for each matched row, what its copied fields
    should be; no live probe has the status offline.
   */
  method SyncDashboardData(table: Table, matched: seq<Match>, columns: seq<Columns>, rest: seq<DProbe>)
    returns (table': Table, ghost updated: seq<DProbe>)
    requires |columns| == |matched| && AllIdsDistinct(matched, rest) && IsTable(table, matched, rest)
    requires forall k :: 0 <= k < |columns| ==> columns[k].status != OFFLINE
    ensures |updated| == |matched| + |rest| && AreUpdated(updated, matched, columns, rest)
    ensures forall i :: 0 <= i < |updated| ==>
              Lookup(table', updated[i].id) == if Survives(updated, i) then Some(Final(updated, i)) else None
    ensures forall id :: id in table' ==> id in table
  {
    var updates, rows := GenerateUpdatedDProbes(matched, columns, rest);
    updated := rows;
    UpdatedIds(matched, columns, rest, rows);
    var deleted, nullified, altIpUpdates := FindDProbeDuplicates(rows);
    var merged := MergeUpdates(updates, altIpUpdates, deleted);
    table' := ApplyInOrder(table, set d | d in deleted :: d.id, nullified, merged);
    forall i | 0 <= i < |updated| ensures Lookup(table', updated[i].id) == if Survives(updated, i) then Some(Final(updated, i)) else None {
      RowIsSynced(table, matched, columns, rest, updates, updated, deleted, nullified, altIpUpdates, i);
    }
    forall id | id in table' ensures id in table {
      assert Lookup(table', id).Some?;
    }
  }

  // ---------------------------------------------------------------- from the live probes to the table

  /** The rows that were fetched are those of the table. */
  ghost predicate IsFetched(table: Table, dProbes: seq<DProbe>) {
    && DistinctIds(dProbes)
    && (forall d :: d in dProbes ==> Lookup(table, d.id) == Some(d))
    && (forall id :: id in table ==> exists d :: d in dProbes && d.id == id)
  }

  lemma ReorderedIds(rows: seq<DProbe>, others: seq<DProbe>)
    requires DistinctIds(rows) && multiset(rows) == multiset(others)
    ensures DistinctIds(others)
  {
    SameMembers(rows, others);
    forall i, j | 0 <= i < j < |others| ensures others[i].id != others[j].id {
      assert others[i] in rows && others[j] in rows;
    }
  }

  lemma RowsAtAre(matched: seq<Match>, rest: seq<DProbe>)
    ensures forall i :: 0 <= i < |matched| + |rest| ==> RowAt(matched, rest, i) == (RowsOf(matched) + rest)[i]
  {
  }

  /** Matching gives each fetched row one place. */
  lemma MatchedRowsAreTheTable(table: Table, dProbes: seq<DProbe>, matched: seq<Match>, rest: seq<DProbe>)
    requires IsFetched(table, dProbes) && multiset(dProbes) == multiset(RowsOf(matched)) + multiset(rest)
    ensures AllIdsDistinct(matched, rest) && IsTable(table, matched, rest)
  {
    var rows := RowsOf(matched) + rest;
    assert multiset(rows) == multiset(dProbes);
    ReorderedIds(dProbes, rows);
    SameMembers(dProbes, rows);
    RowsAtAre(matched, rest);
    forall i | 0 <= i < |matched| + |rest| ensures Lookup(table, RowAt(matched, rest, i).id) == Some(RowAt(matched, rest, i)) {
      assert rows[i] in dProbes;
    }
    forall id | id in table ensures exists i :: 0 <= i < |matched| + |rest| && RowAt(matched, rest, i).id == id {
      var d :| d in dProbes && d.id == id;
      assert d in rows;
      var i :| 0 <= i < |rows| && rows[i] == d;
      assert RowAt(matched, rest, i).id == id;
    }
  }

  lemma MatchedRowsAreFetched(dProbes: seq<DProbe>, matched: seq<Match>, rest: seq<DProbe>)
    requires multiset(dProbes) == multiset(RowsOf(matched)) + multiset(rest)
    ensures forall k :: 0 <= k < |matched| ==> matched[k].dProbe in dProbes
  {
    forall k | 0 <= k < |matched| ensures matched[k].dProbe in dProbes {
      assert RowsOf(matched)[k] in multiset(RowsOf(matched));
      assert matched[k].dProbe in multiset(dProbes);
    }
  }

  /** What the copied columns of the matched rows should be. */
  function Targets(matched: seq<Match>, target: (DProbe, Probe) -> Columns): seq<Columns> {
    seq(|matched|, i requires 0 <= i < |matched| => target(matched[i].dProbe, matched[i].probe))
  }

  /**
    The row of a match shows its probe, the alternative IPs aside, and keeps its other columns. A row without
    a probe becomes offline, may lose IPs, and is otherwise as it was.
   */
  ghost predicate ShowsProbe(row: DProbe, matched: seq<Match>, rest: seq<DProbe>, target: (DProbe, Probe) -> Columns, i: nat)
    requires i < |matched| + |rest|
  {
    if i < |matched| then
      var d, c := matched[i].dProbe, target(matched[i].dProbe, matched[i].probe);
      && ColumnsOf(row, c.others.Keys) == c.(altIps := row.altIps) && row.status != OFFLINE
      && row.id == d.id && row.userId == d.userId && row.adoptionToken == d.adoptionToken
      && (forall k :: k !in c.others ==> Lookup(row.others, k) == Lookup(d.others, k))
      && (forall x :: x in row.altIps ==> x in c.altIps)
    else
      var d := rest[i - |matched|];
      && row == d.(status := OFFLINE, ip := row.ip, altIps := row.altIps)
      && (row.ip == d.ip || row.ip == "") && (forall x :: x in row.altIps ==> x in d.altIps)
  }

  lemma FinalRowShowsProbe(matched: seq<Match>, rest: seq<DProbe>, target: (DProbe, Probe) -> Columns, updated: seq<DProbe>, i: nat)
    requires |updated| == |matched| + |rest| && AreUpdated(updated, matched, Targets(matched, target), rest)
    requires forall k :: 0 <= k < |matched| ==> target(matched[k].dProbe, matched[k].probe).status != OFFLINE
    requires i < |updated| && Survives(updated, i)
    ensures ShowsProbe(Final(updated, i), matched, rest, target, i)
  {
    forall x | x in VerdictAt(updated, i).altIps ensures x in updated[i].altIps {
      KeptAltIpsAreNew(updated, i, x);
    }
    if VerdictAt(updated, i).nullifyIp {
      NullifiedIsLeft(matched, Targets(matched, target), rest, updated, i);
    }
    if i < |matched| {
      DiffBringsUpToDate(matched[i].dProbe, target(matched[i].dProbe, matched[i].probe));
      assert updated[i].status != OFFLINE;
    } else {
      assert updated[i].others == rest[i - |matched|].others + map[] == rest[i - |matched|].others;
    }
  }

  // ---------------------------------------------------------------- what the rows of the table do not share

  /** No two rows have an alternative IP in common, and no two rows without an owner a uuid or an IP. */
  ghost predicate RowsApart(table: Table) {
    forall a, b :: a in table && b in table && a != b ==> ApartFrom(table[a], table[b])
  }

  ghost predicate ApartFrom(d: DProbe, e: DProbe) {
    && (forall x :: x in d.altIps ==> x !in e.altIps)
    && (d.userId.None? && e.userId.None? ==> d.uuid != e.uuid && (d.ip == "" || d.ip != e.ip))
  }

  lemma FinalRowsApart(updated: seq<DProbe>, i: nat, j: nat)
    requires i < j < |updated| && Survives(updated, i) && Survives(updated, j)
    ensures ApartFrom(Final(updated, i), Final(updated, j)) && ApartFrom(Final(updated, j), Final(updated, i))
  {
    forall x | x in Final(updated, j).altIps ensures x !in Final(updated, i).altIps {
      KeptAltIpsAreNew(updated, j, x);
      assert !Owns(updated, i, x);
    }
    if updated[j].userId.None? {
      UnownedSurvivorsAreUnique(updated, i, j);
    }
  }

  /** The table holds exactly the final rows. */
  ghost predicate HoldsFinal(table: Table, updated: seq<DProbe>) {
    && (forall i :: 0 <= i < |updated| ==> Lookup(table, updated[i].id) == if Survives(updated, i) then Some(Final(updated, i)) else None)
    && (forall id :: id in table ==> exists i :: 0 <= i < |updated| && updated[i].id == id)
  }

  lemma FinalRowAt(table: Table, updated: seq<DProbe>, id: string) returns (i: nat)
    requires HoldsFinal(table, updated) && id in table
    ensures i < |updated| && updated[i].id == id && Survives(updated, i) && table[id] == Final(updated, i)
  {
    i :| i < |updated| && updated[i].id == id;
    assert Lookup(table, updated[i].id).Some?;
  }

  lemma TableRowsApart(table: Table, updated: seq<DProbe>)
    requires HoldsFinal(table, updated)
    ensures RowsApart(table)
  {
    forall a, b | a in table && b in table && a != b ensures ApartFrom(table[a], table[b]) {
      var i := FinalRowAt(table, updated, a);
      var j := FinalRowAt(table, updated, b);
      if i < j {
        FinalRowsApart(updated, i, j);
      } else {
        FinalRowsApart(updated, j, i);
      }
    }
  }

  /** A whole synchronization: match, update, remove duplicates, merge and apply. */
  method SyncWithProbes(table: Table, dProbes: seq<DProbe>, probes: seq<Probe>, target: (DProbe, Probe) -> Columns)
    returns (table': Table, ghost matched: seq<Match>, ghost rest: seq<DProbe>, ghost kept: seq<Probe>, ghost updated: seq<DProbe>)
    requires IsFetched(table, dProbes) && forall d, p :: d in dProbes && p in probes ==> target(d, p).status != OFFLINE
    ensures multiset(dProbes) == multiset(RowsOf(matched)) + multiset(rest) && OneRowEach(matched)
    ensures forall i :: 0 <= i < |matched| ==> matched[i].probe in probes
    ensures IsUnique(probes, kept)
    ensures UniqueUuidsAndAltIps(probes) ==> NobodyIsPassedOver(kept, rest, matched) && PrioritiesKept(dProbes, kept, rest, matched)
    ensures |updated| == |matched| + |rest| && AreUpdated(updated, matched, Targets(matched, target), rest)
    ensures forall i :: 0 <= i < |updated| ==> updated[i].id == RowAt(matched, rest, i).id
    ensures forall i :: 0 <= i < |updated| ==>
              Lookup(table', updated[i].id) == if Survives(updated, i) then Some(Final(updated, i)) else None
    ensures forall i :: 0 <= i < |updated| && Survives(updated, i) ==> ShowsProbe(Final(updated, i), matched, rest, target, i)
    ensures (forall id :: id in table' ==> id in table) && RowsApart(table')
  {
    var pairs, others, left;
    ghost var levels;
    pairs, others, left, kept, levels := MatchDProbesAndProbes(dProbes, probes);
    MatchedRowsAreTheTable(table, dProbes, pairs, others);
    MatchedRowsAreFetched(dProbes, pairs, others);
    forall p | p in kept ensures p in probes {
      assert IsFirstOfIp(probes, p);
    }
    table', updated := SyncDashboardData(table, pairs, Targets(pairs, target), others);
    matched, rest := pairs, others;
    UpdatedIds(matched, Targets(matched, target), rest, updated);
    forall i | 0 <= i < |updated| && Survives(updated, i) ensures ShowsProbe(Final(updated, i), matched, rest, target, i) {
      FinalRowShowsProbe(matched, rest, target, updated, i);
    }
    forall id | id in table' ensures exists i :: 0 <= i < |updated| && updated[i].id == id {
      var i :| 0 <= i < |matched| + |rest| && RowAt(matched, rest, i).id == id;
      assert updated[i].id == id;
    }
    TableRowsApart(table', updated);
  }
}
