/** Which rows of the dashboard are duplicates of an earlier one, and what happens to them. */
module DashboardDuplicates {
  import opened Common
  import opened DashboardRows
  import opened DashboardUpdates

  datatype Verdict = Delete | Keep(nullifyIp: bool, altIps: seq<string>)

  /** The survivors so far, by uuid and by IP or alternative IP. */
  datatype Seen = Seen(uuids: map<string, DProbe>, ips: map<string, DProbe>)

  function Existing(seen: Seen, d: DProbe): Option<DProbe> {
    if d.uuid in seen.uuids then Some(seen.uuids[d.uuid]) else if d.ip != "" then Lookup(seen.ips, d.ip) else None
  }

  function NewAltIps(seen: Seen, altIps: seq<string>): seq<string> {
    if altIps == [] then []
    else
      var last := altIps[|altIps| - 1];
      NewAltIps(seen, altIps[..|altIps| - 1]) + if last in seen.ips then [] else [last]
  }

  function Judge(seen: Seen, d: DProbe): Verdict {
    var existing := Existing(seen, d);
    if existing.Some? && (existing.value.userId == d.userId || d.userId.None?) then Delete
    else Keep(existing.Some? && d.ip != "" && d.ip in seen.ips && d.status == OFFLINE, NewAltIps(seen, d.altIps))
  }

  function Note(seen: Seen, d: DProbe, altIps: seq<string>): Seen {
    var ips := if d.ip != "" then seen.ips[d.ip := d] else seen.ips;
    Seen(seen.uuids[d.uuid := d], ips + map x | x in altIps :: d)
  }

  function SeenAfter(rows: seq<DProbe>): Seen {
    if rows == [] then Seen(map[], map[])
    else
      var seen, d := SeenAfter(rows[..|rows| - 1]), rows[|rows| - 1];
      var verdict := Judge(seen, d);
      if verdict.Delete? then seen else Note(seen, d, verdict.altIps)
  }

  function VerdictAt(rows: seq<DProbe>, i: nat): Verdict
    requires i < |rows|
  {
    Judge(SeenAfter(rows[..i]), rows[i])
  }

  predicate Survives(rows: seq<DProbe>, i: nat)
    requires i < |rows|
  {
    VerdictAt(rows, i).Keep?
  }

  lemma SeenOneMore(rows: seq<DProbe>, i: nat)
    requires i < |rows|
    ensures var seen, verdict := SeenAfter(rows[..i]), VerdictAt(rows, i);
            SeenAfter(rows[..i + 1]) == if verdict.Delete? then seen else Note(seen, rows[i], verdict.altIps)
  {
    assert rows[..i + 1][..i] == rows[..i];
  }

  lemma {:induction false} HasNewAltIp(seen: Seen, altIps: seq<string>, x: string)
    ensures x in NewAltIps(seen, altIps) <==> x in altIps && x !in seen.ips
  {
    if altIps != [] {
      var n := |altIps| - 1;
      HasNewAltIp(seen, altIps[..n], x);
      assert altIps == altIps[..n] + [altIps[n]];
    }
  }

  lemma {:induction false} NoFewerAltIps(seen: Seen, altIps: seq<string>)
    ensures |NewAltIps(seen, altIps)| <= |altIps|
    ensures |NewAltIps(seen, altIps)| == |altIps| ==> NewAltIps(seen, altIps) == altIps
  {
    if altIps != [] {
      var n := |altIps| - 1;
      NoFewerAltIps(seen, altIps[..n]);
      assert altIps == altIps[..n] + [altIps[n]];
    }
  }

  lemma {:induction false} AllNewAltIps(seen: Seen, altIps: seq<string>)
    requires forall x :: x in altIps ==> x !in seen.ips
    ensures NewAltIps(seen, altIps) == altIps
  {
    if altIps != [] {
      var n := |altIps| - 1;
      assert altIps == altIps[..n] + [altIps[n]];
      AllNewAltIps(seen, altIps[..n]);
    }
  }

  lemma NewAltIpsAre(seen: Seen, altIps: seq<string>)
    ensures forall x :: x in NewAltIps(seen, altIps) <==> x in altIps && x !in seen.ips
    ensures |NewAltIps(seen, altIps)| <= |altIps|
    ensures |NewAltIps(seen, altIps)| == |altIps| ==> NewAltIps(seen, altIps) == altIps
    ensures (forall x :: x in altIps ==> x !in seen.ips) ==> NewAltIps(seen, altIps) == altIps
  {
    forall x ensures x in NewAltIps(seen, altIps) <==> x in altIps && x !in seen.ips {
      HasNewAltIp(seen, altIps, x);
    }
    NoFewerAltIps(seen, altIps);
    if forall x :: x in altIps ==> x !in seen.ips {
      AllNewAltIps(seen, altIps);
    }
  }

  // ---------------------------------------------------------------- what has been seen

  /** Row `i` owns this address: its IP, or an alternative IP it was allowed to keep. */
  predicate Owns(rows: seq<DProbe>, i: nat, ip: string)
    requires i < |rows|
  {
    Survives(rows, i) && ((ip != "" && ip == rows[i].ip) || ip in VerdictAt(rows, i).altIps)
  }

  lemma {:induction false} SeenCovers(rows: seq<DProbe>, n: nat, i: nat)
    requires i < n <= |rows| && Survives(rows, i)
    ensures rows[i].uuid in SeenAfter(rows[..n]).uuids
    ensures forall ip :: Owns(rows, i, ip) ==> ip in SeenAfter(rows[..n]).ips
  {
    SeenOneMore(rows, n - 1);
    if i < n - 1 {
      SeenCovers(rows, n - 1, i);
    }
  }

  lemma {:induction false} UuidSeenAt(rows: seq<DProbe>, n: nat, uuid: string) returns (i: nat)
    requires n <= |rows| && uuid in SeenAfter(rows[..n]).uuids
    ensures i < n && Survives(rows, i) && rows[i].uuid == uuid && rows[i] == SeenAfter(rows[..n]).uuids[uuid]
  {
    SeenOneMore(rows, n - 1);
    if Survives(rows, n - 1) && rows[n - 1].uuid == uuid {
      i := n - 1;
    } else {
      i := UuidSeenAt(rows, n - 1, uuid);
    }
  }

  /** The entry for a uuid is the last survivor with it. */
  lemma {:induction false} LastWithUuid(rows: seq<DProbe>, n: nat, i: nat)
    requires i < n <= |rows| && Survives(rows, i) && forall k :: i < k < n && Survives(rows, k) ==> rows[k].uuid != rows[i].uuid
    ensures Lookup(SeenAfter(rows[..n]).uuids, rows[i].uuid) == Some(rows[i])
  {
    SeenOneMore(rows, n - 1);
    if i < n - 1 {
      LastWithUuid(rows, n - 1, i);
      assert Survives(rows, n - 1) ==> rows[n - 1].uuid != rows[i].uuid;
    }
  }

  lemma {:induction false} IpSeenAt(rows: seq<DProbe>, n: nat, ip: string) returns (i: nat)
    requires n <= |rows| && ip in SeenAfter(rows[..n]).ips
    ensures i < n && Owns(rows, i, ip) && rows[i] == SeenAfter(rows[..n]).ips[ip]
  {
    SeenOneMore(rows, n - 1);
    if Owns(rows, n - 1, ip) {
      i := n - 1;
    } else {
      i := IpSeenAt(rows, n - 1, ip);
    }
  }

  // ---------------------------------------------------------------- what the survivors do not share

  /** A survivor keeps exactly those alternative IPs that no earlier survivor owns. */
  lemma KeptAltIpsAreNew(rows: seq<DProbe>, j: nat, ip: string)
    requires j < |rows| && Survives(rows, j)
    ensures ip in VerdictAt(rows, j).altIps <==> ip in rows[j].altIps && forall i :: 0 <= i < j ==> !Owns(rows, i, ip)
  {
    NewAltIpsAre(SeenAfter(rows[..j]), rows[j].altIps);
    if ip in SeenAfter(rows[..j]).ips {
      var i := IpSeenAt(rows, j, ip);
    }
    forall i | 0 <= i < j && Owns(rows, i, ip) ensures ip in SeenAfter(rows[..j]).ips {
      SeenCovers(rows, j, i);
    }
  }

  /** A row without an owner survives only if no earlier survivor has its uuid or owns its IP. */
  lemma UnownedSurvivorsAreUnique(rows: seq<DProbe>, i: nat, j: nat)
    requires i < j < |rows| && Survives(rows, i) && Survives(rows, j) && rows[j].userId.None?
    ensures rows[j].uuid != rows[i].uuid && (rows[j].ip != "" ==> !Owns(rows, i, rows[j].ip))
  {
    SeenCovers(rows, j, i);
  }

  /** An offline survivor gives up its IP exactly when an earlier survivor owns it. */
  lemma OfflineSurvivorsGiveUpIps(rows: seq<DProbe>, j: nat)
    requires j < |rows| && Survives(rows, j) && rows[j].status == OFFLINE
    ensures VerdictAt(rows, j).nullifyIp <==> rows[j].ip != "" && exists i :: 0 <= i < j && Owns(rows, i, rows[j].ip)
  {
    if rows[j].ip in SeenAfter(rows[..j]).ips {
      var i := IpSeenAt(rows, j, rows[j].ip);
    }
    forall i | 0 <= i < j && Owns(rows, i, rows[j].ip) ensures rows[j].ip in SeenAfter(rows[..j]).ips {
      SeenCovers(rows, j, i);
    }
  }

  /** Of two consecutive survivors with one uuid, the later one has an owner, and another one. */
  lemma SameUuidMeansOtherOwner(rows: seq<DProbe>, i: nat, j: nat)
    requires i < j < |rows| && Survives(rows, i) && Survives(rows, j) && rows[i].uuid == rows[j].uuid
    requires forall k :: i < k < j && Survives(rows, k) ==> rows[k].uuid != rows[j].uuid
    ensures rows[j].userId.Some? && rows[j].userId != rows[i].userId
  {
    LastWithUuid(rows, j, i);
  }

  /** Only duplicates are deleted: an earlier survivor has the uuid or owns the IP, and nobody else's row goes. */
  lemma DeletedHasASurvivor(rows: seq<DProbe>, j: nat) returns (i: nat)
    requires j < |rows| && !Survives(rows, j)
    ensures i < j && Survives(rows, i) && (rows[i].uuid == rows[j].uuid || (rows[j].ip != "" && Owns(rows, i, rows[j].ip)))
    ensures rows[j].userId.None? || rows[i].userId == rows[j].userId
  {
    if rows[j].uuid in SeenAfter(rows[..j]).uuids {
      i := UuidSeenAt(rows, j, rows[j].uuid);
    } else {
      i := IpSeenAt(rows, j, rows[j].ip);
    }
  }

  // ---------------------------------------------------------------- who decides

  /** The latest of the first `n` rows that survives with this uuid. */
  ghost predicate IsLatest(rows: seq<DProbe>, n: nat, l: nat, uuid: string)
    requires n <= |rows|
  {
    l < n && Survives(rows, l) && rows[l].uuid == uuid && forall k :: l < k < n && Survives(rows, k) ==> rows[k].uuid != uuid
  }

  ghost predicate IsLatestOwner(rows: seq<DProbe>, n: nat, l: nat, ip: string)
    requires n <= |rows|
  {
    l < n && Owns(rows, l, ip) && forall k :: l < k < n ==> !Owns(rows, k, ip)
  }

  lemma {:induction false} HasGreatest(s: set<nat>, i: nat) returns (l: nat)
    requires i in s
    ensures i <= l && l in s && forall k :: k in s ==> k <= l
    decreases |s|
  {
    var larger := set k | k in s && k > i;
    assert forall k :: k in s ==> k <= i || k in larger;
    if larger == {} {
      l := i;
    } else {
      var k :| k in larger;
      SubsetSize(larger, s - {i});
      l := HasGreatest(larger, k);
    }
  }

  lemma HasLatest(rows: seq<DProbe>, n: nat, i: nat) returns (l: nat)
    requires i < n <= |rows| && Survives(rows, i)
    ensures i <= l && IsLatest(rows, n, l, rows[i].uuid)
  {
    var same := set k: nat | k < n && Survives(rows, k) && rows[k].uuid == rows[i].uuid;
    l := HasGreatest(same, i);
    forall k | l < k < n && Survives(rows, k) ensures rows[k].uuid != rows[i].uuid {
      assert k !in same;
    }
  }

  /** What one more row does to the entry of an address. */
  lemma NotedIp(rows: seq<DProbe>, n: nat, ip: string)
    requires n < |rows|
    ensures Lookup(SeenAfter(rows[..n + 1]).ips, ip) ==
            if Owns(rows, n, ip) then Some(rows[n]) else Lookup(SeenAfter(rows[..n]).ips, ip)
  {
    SeenOneMore(rows, n);
  }

  lemma {:induction false} LatestOwnerIsSeen(rows: seq<DProbe>, n: nat, l: nat, ip: string)
    requires n <= |rows| && IsLatestOwner(rows, n, l, ip)
    ensures Lookup(SeenAfter(rows[..n]).ips, ip) == Some(rows[l])
  {
    NotedIp(rows, n - 1, ip);
    if l < n - 1 {
      assert !Owns(rows, n - 1, ip);
      LatestOwnerIsSeen(rows, n - 1, l, ip);
    }
  }

  /** A row goes if it has no owner, or the same as the row that decides. */
  predicate Yields(d: DProbe, decisive: DProbe) {
    d.userId.None? || d.userId == decisive.userId
  }

  ghost predicate UuidIsNew(rows: seq<DProbe>, j: nat)
    requires j < |rows|
  {
    forall i :: 0 <= i < j && Survives(rows, i) ==> rows[i].uuid != rows[j].uuid
  }

  lemma NewUuidIsNotSeen(rows: seq<DProbe>, j: nat)
    requires j < |rows| && UuidIsNew(rows, j)
    ensures rows[j].uuid !in SeenAfter(rows[..j]).uuids
  {
    if rows[j].uuid in SeenAfter(rows[..j]).uuids {
      var i := UuidSeenAt(rows, j, rows[j].uuid);
    }
  }

  /** The latest survivor with the uuid decides. */
  lemma LatestOfUuidDecides(rows: seq<DProbe>, j: nat, l: nat)
    requires j < |rows| && IsLatest(rows, j, l, rows[j].uuid)
    ensures Survives(rows, j) <==> !Yields(rows[j], rows[l])
  {
    LastWithUuid(rows, j, l);
  }

  /** Without one, the latest survivor that owns the IP decides. */
  lemma LatestOwnerDecides(rows: seq<DProbe>, j: nat, l: nat)
    requires j < |rows| && UuidIsNew(rows, j) && rows[j].ip != "" && IsLatestOwner(rows, j, l, rows[j].ip)
    ensures Survives(rows, j) <==> !Yields(rows[j], rows[l])
  {
    NewUuidIsNotSeen(rows, j);
    LatestOwnerIsSeen(rows, j, l, rows[j].ip);
  }

  /** Without either, the row stays. */
  lemma NewRowSurvives(rows: seq<DProbe>, j: nat)
    requires j < |rows| && UuidIsNew(rows, j) && (rows[j].ip == "" || forall i :: 0 <= i < j ==> !Owns(rows, i, rows[j].ip))
    ensures Survives(rows, j)
  {
    NewUuidIsNotSeen(rows, j);
    if rows[j].ip != "" && rows[j].ip in SeenAfter(rows[..j]).ips {
      var i := IpSeenAt(rows, j, rows[j].ip);
    }
  }

  /** A later row of a survivor's uuid and owner survives exactly if it has an owner and the latest survivor of the uuid has another one. */
  lemma OnlyAnotherOwnerKeepsADuplicate(rows: seq<DProbe>, i: nat, j: nat)
    requires i < j < |rows| && Survives(rows, i) && rows[i].uuid == rows[j].uuid && rows[i].userId == rows[j].userId
    ensures Survives(rows, j) <==>
            rows[j].userId.Some? && exists l: nat :: i < l < j && IsLatest(rows, j, l, rows[j].uuid) && rows[l].userId != rows[j].userId
  {
    var latest := HasLatest(rows, j, i);
    LatestOfUuidDecides(rows, j, latest);
    if l: nat :| i < l < j && IsLatest(rows, j, l, rows[j].uuid) && rows[l].userId != rows[j].userId {
      assert !(l < latest) && !(latest < l);
    }
  }

  /** So two owners who take turns keep all their duplicates. */
  lemma TakingTurnsKeepsDuplicates(a: DProbe, b: DProbe, c: DProbe)
    requires a.uuid == b.uuid == c.uuid && a.userId == c.userId && a.userId != b.userId && a.userId.Some? && b.userId.Some?
    ensures Survives([a, b, c], 0) && Survives([a, b, c], 1) && Survives([a, b, c], 2)
  {
    var rows := [a, b, c];
    assert rows[..0] == [];
    SeenOneMore(rows, 0);
    SeenOneMore(rows, 1);
  }

  // ---------------------------------------------------------------- the loop

  const NULLIFIED := NO_UPDATE.(ip := Some(""), status := Some(OFFLINE))

  function AltIpsUpdate(altIps: seq<string>): Update {
    NO_UPDATE.(altIps := Some(altIps))
  }

  /** The changes say `what` about the first `n` rows and nothing else. */
  ghost predicate SaysOf(changes: seq<Change>, rows: seq<DProbe>, n: nat, what: (seq<DProbe>, nat) --> Option<Update>)
    requires n <= |rows| && forall i :: 0 <= i < |rows| ==> what.requires(rows, i)
  {
    && DistinctChanges(changes)
    && (forall c :: c in changes ==> exists i :: 0 <= i < n && rows[i].id == c.id)
    && (forall i :: 0 <= i < n ==> ChangeFor(changes, rows[i].id) == what(rows, i))
  }

  function NullifyAt(rows: seq<DProbe>, i: nat): Option<Update>
    requires i < |rows|
  {
    if Survives(rows, i) && VerdictAt(rows, i).nullifyIp then Some(NULLIFIED) else None
  }

  function AltIpsAt(rows: seq<DProbe>, i: nat): Option<Update>
    requires i < |rows|
  {
    if Survives(rows, i) && VerdictAt(rows, i).altIps != rows[i].altIps then Some(AltIpsUpdate(VerdictAt(rows, i).altIps)) else None
  }

  function WithOption(changes: seq<Change>, id: string, u: Option<Update>): seq<Change> {
    if u.None? then changes else changes + [Change(id, u.value)]
  }

  lemma SaysOneMore(changes: seq<Change>, rows: seq<DProbe>, n: nat, what: (seq<DProbe>, nat) --> Option<Update>)
    requires n < |rows| && DistinctIds(rows) && forall i :: 0 <= i < |rows| ==> what.requires(rows, i)
    requires SaysOf(changes, rows, n, what)
    ensures SaysOf(WithOption(changes, rows[n].id, what(rows, n)), rows, n + 1, what)
  {
    var id, u := rows[n].id, what(rows, n);
    ChangeForNone(changes, id);
    if u.Some? {
      forall i | 0 <= i < n + 1 ensures ChangeFor(changes + [Change(id, u.value)], rows[i].id) == what(rows, i) {
        ChangeForOneMore(changes, Change(id, u.value), rows[i].id);
      }
    }
  }

  /** The alternative IPs that nobody has yet, and whether there are others. */
  method SplitAltIps(seen: Seen, altIps: seq<string>) returns (duplicated: seq<string>, newOnes: seq<string>)
    ensures newOnes == NewAltIps(seen, altIps) && (duplicated == [] <==> newOnes == altIps)
  {
    duplicated, newOnes := [], [];
    for i := 0 to |altIps|
      invariant newOnes == NewAltIps(seen, altIps[..i]) && |duplicated| + |newOnes| == i
    {
      assert altIps[..i + 1][..i] == altIps[..i];
      if altIps[i] in seen.ips {
        duplicated := duplicated + [altIps[i]];
      } else {
        newOnes := newOnes + [altIps[i]];
      }
    }
    assert altIps[..|altIps|] == altIps;
    NewAltIpsAre(seen, altIps);
  }

  ghost predicate DeletesUpTo(deleted: seq<DProbe>, rows: seq<DProbe>, n: nat)
    requires n <= |rows|
  {
    forall d :: d in deleted <==> exists i :: 0 <= i < n && d == rows[i] && !Survives(rows, i)
  }

  ghost predicate FoundUpTo(rows: seq<DProbe>, n: nat, deleted: seq<DProbe>, nullified: seq<Change>, altIpUpdates: seq<Change>) {
    n <= |rows| && DeletesUpTo(deleted, rows, n) && SaysOf(nullified, rows, n, NullifyAt) && SaysOf(altIpUpdates, rows, n, AltIpsAt)
  }

  lemma DeletesOneMore(deleted: seq<DProbe>, rows: seq<DProbe>, n: nat)
    requires n < |rows| && DeletesUpTo(deleted, rows, n)
    ensures DeletesUpTo(if Survives(rows, n) then deleted else deleted + [rows[n]], rows, n + 1)
  {
    var deleted' := if Survives(rows, n) then deleted else deleted + [rows[n]];
    assert forall d :: d in deleted' <==> d in deleted || (!Survives(rows, n) && d == rows[n]);
  }

  lemma FoundOneMore(rows: seq<DProbe>, n: nat, deleted: seq<DProbe>, nullified: seq<Change>, altIpUpdates: seq<Change>)
    requires n < |rows| && DistinctIds(rows) && FoundUpTo(rows, n, deleted, nullified, altIpUpdates)
    ensures FoundUpTo(rows, n + 1, if Survives(rows, n) then deleted else deleted + [rows[n]],
                      WithOption(nullified, rows[n].id, NullifyAt(rows, n)), WithOption(altIpUpdates, rows[n].id, AltIpsAt(rows, n)))
  {
    DeletesOneMore(deleted, rows, n);
    SaysOneMore(nullified, rows, n, NullifyAt);
    SaysOneMore(altIpUpdates, rows, n, AltIpsAt);
  }

  method FindDProbeDuplicates(rows: seq<DProbe>) returns (deleted: seq<DProbe>, nullified: seq<Change>, altIpUpdates: seq<Change>)
    requires DistinctIds(rows)
    ensures FoundUpTo(rows, |rows|, deleted, nullified, altIpUpdates)
  {
    deleted, nullified, altIpUpdates := [], [], [];
    var uniqUuids: map<string, DProbe>, uniqIps: map<string, DProbe> := map[], map[];
    for n := 0 to |rows|
      invariant Seen(uniqUuids, uniqIps) == SeenAfter(rows[..n])
      invariant FoundUpTo(rows, n, deleted, nullified, altIpUpdates)
    {
      SeenOneMore(rows, n);
      FoundOneMore(rows, n, deleted, nullified, altIpUpdates);
      var d := rows[n];
      var existing := if d.uuid in uniqUuids then Some(uniqUuids[d.uuid]) else if d.ip != "" then Lookup(uniqIps, d.ip) else None;
      if existing.Some? && (existing.value.userId == d.userId || d.userId.None?) {
        deleted := deleted + [d];
        continue;
      }
      if existing.Some? && d.ip != "" && d.ip in uniqIps && d.status == OFFLINE {
        nullified := nullified + [Change(d.id, NULLIFIED)];
      }
      var duplicated, newOnes := SplitAltIps(Seen(uniqUuids, uniqIps), d.altIps);
      if duplicated != [] {
        altIpUpdates := altIpUpdates + [Change(d.id, AltIpsUpdate(newOnes))];
      }
      uniqUuids := uniqUuids[d.uuid := d];
      if d.ip != "" {
        uniqIps := uniqIps[d.ip := d];
      }
      uniqIps := uniqIps + map x | x in newOnes :: d;
    }
    assert rows[..|rows|] == rows;
  }
}
