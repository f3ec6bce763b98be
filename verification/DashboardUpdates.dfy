/** From matched rows to the table: updated rows, duplicates, merged updates, and the order in which they are applied. */
module DashboardUpdates {
  import opened Common
  import opened DashboardRows

  // ---------------------------------------------------------------- updates

  datatype Update = Update(uuid: Option<string>, ip: Option<string>, altIps: Option<seq<string>>, status: Option<string>,
                           asn: Option<string>, city: Option<string>, others: map<string, string>)

  const NO_UPDATE := Update(None, None, None, None, None, None, map[])

  /** What the table of copied fields yields for a matched pair, after formatting and custom locations. */
  datatype Columns = Columns(uuid: string, ip: string, altIps: seq<string>, status: string, asn: string, city: string,
                             others: map<string, string>)

  function Apply(d: DProbe, u: Update): DProbe {
    d.(uuid := u.uuid.GetOr(d.uuid), ip := u.ip.GetOr(d.ip), altIps := u.altIps.GetOr(d.altIps), status := u.status.GetOr(d.status),
       asn := u.asn.GetOr(d.asn), city := u.city.GetOr(d.city), others := d.others + u.others)
  }

  function Differing<T(==)>(have: T, want: T): Option<T> {
    if have == want then None else Some(want)
  }

  function Diff(d: DProbe, c: Columns): Update {
    Update(Differing(d.uuid, c.uuid), Differing(d.ip, c.ip), Differing(d.altIps, c.altIps), Differing(d.status, c.status),
           Differing(d.asn, c.asn), Differing(d.city, c.city),
           map k | k in c.others && Lookup(d.others, k) != Some(c.others[k]) :: c.others[k])
  }

  function ColumnsOf(d: DProbe, names: set<string>): Columns {
    Columns(d.uuid, d.ip, d.altIps, d.status, d.asn, d.city, map k | k in names && k in d.others :: d.others[k])
  }

  /** The update brings exactly the copied columns up to date, leaves the others, and is empty if nothing differs. */
  lemma DiffBringsUpToDate(d: DProbe, c: Columns)
    ensures var d' := Apply(d, Diff(d, c));
            && ColumnsOf(d', c.others.Keys) == c
            && d'.id == d.id && d'.userId == d.userId && d'.adoptionToken == d.adoptionToken
            && forall k :: k !in c.others ==> Lookup(d'.others, k) == Lookup(d.others, k)
    ensures Diff(d, c) == NO_UPDATE <==> ColumnsOf(d, c.others.Keys) == c
  {
    var d' := Apply(d, Diff(d, c));
    assert forall k :: k in c.others ==> k in d'.others && d'.others[k] == c.others[k];
    if ColumnsOf(d, c.others.Keys) == c {
      assert forall k :: k in c.others ==> Lookup(ColumnsOf(d, c.others.Keys).others, k) == Some(c.others[k]);
      assert Diff(d, c).others == map[];
    }
    if Diff(d, c) == NO_UPDATE {
      forall k | k in c.others ensures Lookup(d.others, k) == Some(c.others[k]) {
        assert k !in Diff(d, c).others;
      }
      assert ColumnsOf(d, c.others.Keys).others == c.others;
    }
  }

  /** A column is written only if its value changes. */
  lemma DiffIsMinimal(d: DProbe, c: Columns)
    ensures var u := Diff(d, c);
            && u.uuid != Some(d.uuid) && u.ip != Some(d.ip) && u.altIps != Some(d.altIps) && u.status != Some(d.status)
            && u.asn != Some(d.asn) && u.city != Some(d.city)
            && forall k :: k in u.others ==> Lookup(d.others, k) != Some(u.others[k])
  {
  }

  function OfflineUpdate(d: DProbe): Update {
    NO_UPDATE.(status := Differing(d.status, OFFLINE))
  }

  datatype Change = Change(id: string, update: Update)

  function ChangeFor(changes: seq<Change>, id: string): Option<Update> {
    if changes == [] then None
    else if changes[|changes| - 1].id == id then Some(changes[|changes| - 1].update)
    else ChangeFor(changes[..|changes| - 1], id)
  }

  ghost predicate DistinctIds(rows: seq<DProbe>) {
    forall i, j :: 0 <= i < j < |rows| ==> rows[i].id != rows[j].id
  }

  ghost predicate DistinctChanges(changes: seq<Change>) {
    forall i, j :: 0 <= i < j < |changes| ==> changes[i].id != changes[j].id
  }

  lemma ChangeForOneMore(changes: seq<Change>, c: Change, id: string)
    ensures ChangeFor(changes + [c], id) == if c.id == id then Some(c.update) else ChangeFor(changes, id)
  {
    assert (changes + [c])[..|changes|] == changes;
  }

  lemma {:induction false} ChangeForNone(changes: seq<Change>, id: string)
    ensures ChangeFor(changes, id) == None <==> forall i :: 0 <= i < |changes| ==> changes[i].id != id
  {
    if changes != [] {
      ChangeForNone(changes[..|changes| - 1], id);
      assert forall i :: 0 <= i < |changes| - 1 ==> changes[..|changes| - 1][i] == changes[i];
    }
  }

  // ---------------------------------------------------------------- updated rows

  function RowAt(matched: seq<Match>, rest: seq<DProbe>, i: nat): DProbe
    requires i < |matched| + |rest|
  {
    if i < |matched| then matched[i].dProbe else rest[i - |matched|]
  }

  function DataUpdateAt(matched: seq<Match>, columns: seq<Columns>, rest: seq<DProbe>, i: nat): Update
    requires |columns| == |matched| && i < |matched| + |rest|
  {
    if i < |matched| then Diff(matched[i].dProbe, columns[i]) else OfflineUpdate(rest[i - |matched|])
  }

  /** The rows as they should be: matched ones first, with their copied columns; the others are offline. */
  ghost predicate AreUpdated(updated: seq<DProbe>, matched: seq<Match>, columns: seq<Columns>, rest: seq<DProbe>)
    requires |columns| == |matched|
  {
    && |updated| <= |matched| + |rest|
    && forall i :: 0 <= i < |updated| ==> updated[i] == Apply(RowAt(matched, rest, i), DataUpdateAt(matched, columns, rest, i))
  }

  /** The changes hold the non-empty updates of the first `n` rows, under their ids. */
  ghost predicate HoldsUpdates(changes: seq<Change>, matched: seq<Match>, columns: seq<Columns>, rest: seq<DProbe>, n: nat)
    requires |columns| == |matched| && n <= |matched| + |rest|
  {
    && DistinctChanges(changes)
    && (forall c :: c in changes ==> exists i :: 0 <= i < n && c.id == RowAt(matched, rest, i).id)
    && (forall i :: 0 <= i < n ==>
          ChangeFor(changes, RowAt(matched, rest, i).id) ==
          var u := DataUpdateAt(matched, columns, rest, i); if u == NO_UPDATE then None else Some(u))
  }

  ghost predicate AllIdsDistinct(matched: seq<Match>, rest: seq<DProbe>) {
    forall i, j :: 0 <= i < j < |matched| + |rest| ==> RowAt(matched, rest, i).id != RowAt(matched, rest, j).id
  }

  lemma OneMoreUpdate(changes: seq<Change>, matched: seq<Match>, columns: seq<Columns>, rest: seq<DProbe>, n: nat)
    requires |columns| == |matched| && n < |matched| + |rest| && AllIdsDistinct(matched, rest)
    requires HoldsUpdates(changes, matched, columns, rest, n)
    ensures var u := DataUpdateAt(matched, columns, rest, n);
            HoldsUpdates(if u == NO_UPDATE then changes else changes + [Change(RowAt(matched, rest, n).id, u)],
                         matched, columns, rest, n + 1)
  {
    var u, id := DataUpdateAt(matched, columns, rest, n), RowAt(matched, rest, n).id;
    ChangeForNone(changes, id);
    forall i | 0 <= i < n + 1 ensures ChangeFor(changes + [Change(id, u)], RowAt(matched, rest, i).id) ==
                                      if i == n then Some(u) else ChangeFor(changes, RowAt(matched, rest, i).id) {
      ChangeForOneMore(changes, Change(id, u), RowAt(matched, rest, i).id);
    }
  }

  function WithChange(changes: seq<Change>, id: string, u: Update): seq<Change> {
    if u == NO_UPDATE then changes else changes + [Change(id, u)]
  }

  ghost predicate GeneratedUpTo(updates: seq<Change>, updated: seq<DProbe>, matched: seq<Match>, columns: seq<Columns>,
                                rest: seq<DProbe>, n: nat)
    requires |columns| == |matched|
  {
    |updated| == n <= |matched| + |rest| && AreUpdated(updated, matched, columns, rest) && HoldsUpdates(updates, matched, columns, rest, n)
  }

  lemma GeneratedOneMore(updates: seq<Change>, updated: seq<DProbe>, matched: seq<Match>, columns: seq<Columns>,
                         rest: seq<DProbe>, n: nat)
    requires |columns| == |matched| && n < |matched| + |rest| && AllIdsDistinct(matched, rest)
    requires GeneratedUpTo(updates, updated, matched, columns, rest, n)
    ensures var d, u := RowAt(matched, rest, n), DataUpdateAt(matched, columns, rest, n);
            GeneratedUpTo(WithChange(updates, d.id, u), updated + [Apply(d, u)], matched, columns, rest, n + 1)
  {
    OneMoreUpdate(updates, matched, columns, rest, n);
  }

  method GenerateUpdatedDProbes(matched: seq<Match>, columns: seq<Columns>, rest: seq<DProbe>)
    returns (updates: seq<Change>, updated: seq<DProbe>)
    requires |columns| == |matched| && AllIdsDistinct(matched, rest)
    ensures |updated| == |matched| + |rest| && AreUpdated(updated, matched, columns, rest)
    ensures HoldsUpdates(updates, matched, columns, rest, |matched| + |rest|)
  {
    updates, updated := [], [];
    for i := 0 to |matched|
      invariant GeneratedUpTo(updates, updated, matched, columns, rest, i)
    {
      GeneratedOneMore(updates, updated, matched, columns, rest, i);
      var d := matched[i].dProbe;
      var update := Diff(d, columns[i]);
      if update != NO_UPDATE {
        updates := updates + [Change(d.id, update)];
      }
      updated := updated + [Apply(d, update)];
    }
    for i := 0 to |rest|
      invariant GeneratedUpTo(updates, updated, matched, columns, rest, |matched| + i)
    {
      GeneratedOneMore(updates, updated, matched, columns, rest, |matched| + i);
      var d := rest[i];
      var update := if d.status != OFFLINE then NO_UPDATE.(status := Some(OFFLINE)) else NO_UPDATE;
      if update != NO_UPDATE {
        updates := updates + [Change(d.id, update)];
      }
      updated := updated + [Apply(d, update)];
    }
  }
}
