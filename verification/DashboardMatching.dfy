/** The passes that give each dashboard row at most one live probe. */
module DashboardMatching {
  import opened Common
  import opened Indexing
  import opened DashboardRows

  // ---------------------------------------------------------------- what each pass looks for

  datatype Kind = SameUuid | SameIp | IpAmongAltIps | AltIpAmongIps | SameToken

  const LAST: nat := 8

  /** Levels 0 to 3 serve adopted rows only, 4 to 7 any row, and 8 offline rows of the same adoption token. */
  function KindOf(level: nat): Kind {
    if level >= LAST then SameToken
    else if level % 4 == 0 then SameUuid
    else if level % 4 == 1 then SameIp
    else if level % 4 == 2 then IpAmongAltIps
    else AltIpAmongIps
  }

  function TokenKey(token: string, asn: string, city: string): string {
    token + "-" + asn + "-" + city
  }

  predicate HasIp(p: Probe, ip: string) {
    ip == p.ip || ip in p.altIps
  }

  predicate Related(kind: Kind, d: DProbe, p: Probe) {
    match kind
    case SameUuid => d.uuid != "" && d.uuid == p.uuid
    case SameIp => d.ip != "" && d.ip == p.ip
    case IpAmongAltIps => d.ip != "" && d.ip in p.altIps
    case AltIpAmongIps => exists x :: x in d.altIps && HasIp(p, x)
    case SameToken =>
      d.adoptionToken != "" && d.status == OFFLINE && p.adoptionToken != "" &&
      TokenKey(d.adoptionToken, d.asn, d.city) == TokenKey(p.adoptionToken, p.asn, p.city)
  }

  predicate RelatedAt(level: nat, d: DProbe, p: Probe) {
    (level < 4 ==> Adopted(d)) && Related(KindOf(level), d, p)
  }

  // ---------------------------------------------------------------- the indexes of probes that are still free

  datatype Index = Index(uuids: map<string, Probe>, ips: map<string, Probe>, altIps: map<string, Probe>)

  function Without(index: Index, p: Probe): Index {
    Index(index.uuids - {p.uuid}, index.ips - {p.ip}, index.altIps - set x | x in p.altIps)
  }

  ghost predicate Free(matched: seq<Match>, p: Probe) {
    forall i :: 0 <= i < |matched| ==> matched[i].probe != p
  }

  /** Every entry is a free probe under a key of its own. */
  ghost predicate Sound(probes: seq<Probe>, index: Index, matched: seq<Match>) {
    && (forall x :: x in index.uuids ==> index.uuids[x].uuid == x && index.uuids[x] in probes && Free(matched, index.uuids[x]))
    && (forall x :: x in index.ips ==> index.ips[x].ip == x && index.ips[x] in probes && Free(matched, index.ips[x]))
    && (forall x :: x in index.altIps ==> x in index.altIps[x].altIps && index.altIps[x] in probes && Free(matched, index.altIps[x]))
  }

  ghost predicate Indexed(index: Index, p: Probe) {
    && Lookup(index.uuids, p.uuid) == Some(p)
    && Lookup(index.ips, p.ip) == Some(p)
    && forall x :: x in p.altIps ==> Lookup(index.altIps, x) == Some(p)
  }

  ghost predicate Complete(probes: seq<Probe>, index: Index, matched: seq<Match>) {
    forall p :: p in probes && Free(matched, p) ==> Indexed(index, p)
  }

  ghost predicate Apart(p: Probe, q: Probe) {
    p.uuid != q.uuid && p.ip != q.ip && forall x :: x in p.altIps ==> x !in q.altIps
  }

  /** No two probes share a uuid, an IP or an alternative IP. */
  ghost predicate AllApart(probes: seq<Probe>) {
    forall p, q :: p in probes && q in probes && p != q ==> Apart(p, q)
  }

  ghost predicate OneRowEach(matched: seq<Match>) {
    forall i, j :: 0 <= i < j < |matched| ==> matched[i].probe != matched[j].probe
  }

  ghost predicate MatchedAtLevels(probes: seq<Probe>, matched: seq<Match>, levels: seq<nat>) {
    && |levels| == |matched|
    && (forall i :: 0 <= i < |matched| ==> matched[i].probe in probes && RelatedAt(levels[i], matched[i].dProbe, matched[i].probe))
    && (forall i, j :: 0 <= i < j < |levels| ==> levels[i] <= levels[j] <= LAST)
  }

  function UuidOf(p: Probe): seq<string> {
    [p.uuid]
  }

  function IpOf(p: Probe): seq<string> {
    [p.ip]
  }

  function AltIpsOf(p: Probe): seq<string> {
    p.altIps
  }

  lemma EntriesHaveTheirKeys(probes: seq<Probe>, m: map<string, Probe>, keys: Probe -> seq<string>, x: string)
    requires IsIndex(m, probes, keys) && x in m
    ensures m[x] in probes && x in keys(m[x])
  {
    assert IsLast(probes, keys, x, m[x]);
  }

  ghost predicate IndexesAll(probes: seq<Probe>, index: Index) {
    IsIndex(index.uuids, probes, UuidOf) && IsIndex(index.ips, probes, IpOf) && IsIndex(index.altIps, probes, AltIpsOf)
  }

  lemma IndexesAreSound(probes: seq<Probe>, index: Index)
    requires IndexesAll(probes, index)
    ensures Sound(probes, index, [])
  {
    forall x | x in index.uuids ensures index.uuids[x] in probes && x in UuidOf(index.uuids[x]) {
      EntriesHaveTheirKeys(probes, index.uuids, UuidOf, x);
    }
    forall x | x in index.ips ensures index.ips[x] in probes && x in IpOf(index.ips[x]) {
      EntriesHaveTheirKeys(probes, index.ips, IpOf, x);
    }
    forall x | x in index.altIps ensures index.altIps[x] in probes && x in AltIpsOf(index.altIps[x]) {
      EntriesHaveTheirKeys(probes, index.altIps, AltIpsOf, x);
    }
  }

  lemma ApartIsIndexed(probes: seq<Probe>, index: Index, p: Probe)
    requires IndexesAll(probes, index) && p in probes && forall q :: q in probes && q != p ==> Apart(p, q)
    ensures Indexed(index, p)
  {
    FoundUnderItsKeys(index.uuids, probes, UuidOf, p, p.uuid);
    FoundUnderItsKeys(index.ips, probes, IpOf, p, p.ip);
    forall x | x in p.altIps ensures Lookup(index.altIps, x) == Some(p) {
      FoundUnderItsKeys(index.altIps, probes, AltIpsOf, p, x);
    }
  }

  lemma TakingKeepsSound(probes: seq<Probe>, index: Index, matched: seq<Match>, d: DProbe, p: Probe)
    requires Sound(probes, index, matched) && Free(matched, p)
    ensures Sound(probes, Without(index, p), matched + [Match(d, p)])
  {
    var index', matched' := Without(index, p), matched + [Match(d, p)];
    forall q | q != p && Free(matched, q) ensures Free(matched', q) {
    }
  }

  lemma TakingKeepsComplete(probes: seq<Probe>, index: Index, matched: seq<Match>, d: DProbe, p: Probe)
    requires Complete(probes, index, matched) && AllApart(probes) && p in probes
    ensures Complete(probes, Without(index, p), matched + [Match(d, p)])
  {
    var matched' := matched + [Match(d, p)];
    forall q | q in probes && Free(matched', q) ensures Indexed(Without(index, p), q) {
      assert matched'[|matched|].probe == p;
      assert forall i :: 0 <= i < |matched| ==> matched'[i] == matched[i];
      assert Apart(p, q) && Indexed(index, q);
    }
  }

  // ---------------------------------------------------------------- finding a probe

  function FirstByAltIp(index: Index, altIps: seq<string>): Option<Probe> {
    if altIps == [] then None
    else if altIps[0] in index.ips then Some(index.ips[altIps[0]])
    else if altIps[0] in index.altIps then Some(index.altIps[altIps[0]])
    else FirstByAltIp(index, altIps[1..])
  }

  function Find(index: Index, kind: Kind, d: DProbe): Option<Probe> {
    match kind
    case SameUuid => if d.uuid == "" then None else Lookup(index.uuids, d.uuid)
    case SameIp => if d.ip == "" then None else Lookup(index.ips, d.ip)
    case IpAmongAltIps => if d.ip == "" then None else Lookup(index.altIps, d.ip)
    case AltIpAmongIps => FirstByAltIp(index, d.altIps)
    case SameToken => None
  }

  /** The first indexed address decides, as an IP rather than as an alternative IP. */
  ghost predicate DecidedAt(index: Index, altIps: seq<string>, found: Option<Probe>, n: nat) {
    && n < |altIps| && found.Some?
    && (Lookup(index.ips, altIps[n]) == found || (altIps[n] !in index.ips && Lookup(index.altIps, altIps[n]) == found))
    && forall j :: 0 <= j < n ==> altIps[j] !in index.ips && altIps[j] !in index.altIps
  }

  lemma {:induction false} FirstByAltIpFinds(index: Index, altIps: seq<string>)
    ensures var found := FirstByAltIp(index, altIps);
            && (found.None? <==> forall x :: x in altIps ==> x !in index.ips && x !in index.altIps)
            && (found.Some? ==> exists n: nat :: DecidedAt(index, altIps, found, n))
  {
    var found := FirstByAltIp(index, altIps);
    if altIps == [] {
    } else if altIps[0] in index.ips || altIps[0] in index.altIps {
      assert altIps[0] in altIps;
      assert DecidedAt(index, altIps, found, 0);
    } else {
      FirstByAltIpFinds(index, altIps[1..]);
      assert altIps == [altIps[0]] + altIps[1..];
      if found.Some? {
        var n: nat :| DecidedAt(index, altIps[1..], found, n);
        assert DecidedAt(index, altIps, found, n + 1);
      }
    }
  }

  /** What is found is free and related, and under a complete index nothing is missed. */
  lemma FindFinds(probes: seq<Probe>, index: Index, matched: seq<Match>, kind: Kind, d: DProbe)
    requires Sound(probes, index, matched) && kind != SameToken
    ensures var found := Find(index, kind, d);
            && (found.Some? ==> found.value in probes && Free(matched, found.value) && Related(kind, d, found.value))
            && (found.None? && Complete(probes, index, matched) ==>
                  forall p :: p in probes && Free(matched, p) ==> !Related(kind, d, p))
  {
    if kind == AltIpAmongIps {
      FirstByAltIpFinds(index, d.altIps);
      var found := FirstByAltIp(index, d.altIps);
      if found.Some? {
        var n: nat :| DecidedAt(index, d.altIps, found, n);
        assert d.altIps[n] in d.altIps && HasIp(found.value, d.altIps[n]);
      }
    }
    if Find(index, kind, d).None? && Complete(probes, index, matched) {
      forall p | p in probes && Free(matched, p) ensures !Related(kind, d, p) {
        assert Indexed(index, p);
      }
    }
  }

  // ---------------------------------------------------------------- stability

  /** None of these rows is related, at this level, to a free probe. */
  ghost predicate Settled(level: nat, probes: seq<Probe>, rows: seq<DProbe>, matched: seq<Match>) {
    forall d, p :: d in rows && p in probes && Free(matched, p) ==> !RelatedAt(level, d, p)
  }

  /** The row has no probe, or got one only after this level. */
  ghost predicate RowWaits(level: nat, rest: seq<DProbe>, matched: seq<Match>, levels: seq<nat>, d: DProbe)
    requires |levels| == |matched|
  {
    d in rest || exists i :: 0 <= i < |matched| && matched[i].dProbe == d && levels[i] > level
  }

  ghost predicate ProbeWaits(level: nat, matched: seq<Match>, levels: seq<nat>, p: Probe)
    requires |levels| == |matched|
  {
    forall i :: 0 <= i < |matched| && matched[i].probe == p ==> levels[i] > level
  }

  /** No row and probe that are related at this level both had to wait longer. */
  ghost predicate NoBlockingPair(level: nat, probes: seq<Probe>, rest: seq<DProbe>, matched: seq<Match>, levels: seq<nat>)
    requires |levels| == |matched|
  {
    forall d, p :: RowWaits(level, rest, matched, levels, d) && p in probes && ProbeWaits(level, matched, levels, p) ==>
                     !RelatedAt(level, d, p)
  }

  /** What the passes after `level` did. */
  ghost predicate Continues(level: nat, rows: seq<DProbe>, matched: seq<Match>, levels: seq<nat>,
                            rest: seq<DProbe>, matched': seq<Match>, levels': seq<nat>) {
    && |levels| == |matched| && |levels'| == |matched'|
    && matched <= matched' && levels <= levels'
    && (forall d :: d in rest ==> d in rows)
    && (forall i :: |matched| <= i < |matched'| ==> matched'[i].dProbe in rows && levels'[i] > level)
  }

  lemma SettledHasNoBlockingPair(level: nat, probes: seq<Probe>, rows: seq<DProbe>, matched: seq<Match>, levels: seq<nat>)
    requires Settled(level, probes, rows, matched) && |levels| == |matched|
    requires forall i :: 0 <= i < |levels| ==> levels[i] <= level
    ensures NoBlockingPair(level, probes, rows, matched, levels)
  {
  }

  lemma NoBlockingPairLater(level: nat, probes: seq<Probe>, rows: seq<DProbe>, matched: seq<Match>, levels: seq<nat>,
                            rest: seq<DProbe>, matched': seq<Match>, levels': seq<nat>)
    requires Continues(level, rows, matched, levels, rest, matched', levels')
    requires NoBlockingPair(level, probes, rows, matched, levels)
    ensures NoBlockingPair(level, probes, rest, matched', levels')
  {
    forall d, p | RowWaits(level, rest, matched', levels', d) && p in probes && ProbeWaits(level, matched', levels', p)
      ensures !RelatedAt(level, d, p) {
      assert RowWaits(level, rows, matched, levels, d) by {
        if d !in rest {
          var i :| 0 <= i < |matched'| && matched'[i].dProbe == d && levels'[i] > level;
          assert i < |matched| ==> matched[i].dProbe == d && levels[i] > level;
        }
      }
      assert ProbeWaits(level, matched, levels, p) by {
        assert forall i :: 0 <= i < |matched| ==> matched'[i] == matched[i] && levels'[i] == levels[i];
      }
    }
  }

  // ---------------------------------------------------------------- the order of the rows

  ghost predicate Before(rows: seq<DProbe>, d: DProbe, e: DProbe) {
    exists i, j :: 0 <= i < j < |rows| && rows[i] == d && rows[j] == e
  }

  ghost predicate SameOrder(rows: seq<DProbe>, some: seq<DProbe>) {
    && (forall d :: d in some ==> d in rows)
    && forall d, e :: Before(some, d, e) ==> Before(rows, d, e)
  }

  /** A match of this pass went to the first of the rows that were related to its probe. */
  ghost predicate InTurn(level: nat, rows: seq<DProbe>, from: nat, rest: seq<DProbe>, matched: seq<Match>) {
    && SameOrder(rows, rest)
    && (forall i :: from <= i < |matched| ==> matched[i].dProbe in rows)
    && forall i, d :: from <= i < |matched| && d in rest && RelatedAt(level, d, matched[i].probe) ==> Before(rows, matched[i].dProbe, d)
  }

  lemma BeforeOneMore(rows: seq<DProbe>, d: DProbe)
    ensures forall a, b :: Before(rows + [d], a, b) <==> Before(rows, a, b) || (a in rows && b == d)
  {
    var more := rows + [d];
    forall a, b ensures Before(more, a, b) <==> Before(rows, a, b) || (a in rows && b == d) {
      if Before(rows, a, b) {
        var i, j :| 0 <= i < j < |rows| && rows[i] == a && rows[j] == b;
        assert more[i] == a && more[j] == b;
      }
      if a in rows && b == d {
        var i :| 0 <= i < |rows| && rows[i] == a;
        assert more[i] == a && more[|rows|] == b;
      }
      if Before(more, a, b) {
        var i, j :| 0 <= i < j < |more| && more[i] == a && more[j] == b;
        assert more[i] == rows[i];
        assert j < |rows| ==> more[j] == rows[j];
      }
    }
  }

  lemma TakingKeepsTurn(level: nat, probes: seq<Probe>, rows: seq<DProbe>, from: nat, rest: seq<DProbe>, matched: seq<Match>, m: Match)
    requires InTurn(level, rows, from, rest, matched) && Settled(level, probes, rest, matched)
    requires m.probe in probes && Free(matched, m.probe)
    ensures InTurn(level, rows + [m.dProbe], from, rest, matched + [m])
  {
    BeforeOneMore(rows, m.dProbe);
    var matched' := matched + [m];
    forall i, d | from <= i < |matched'| && d in rest && RelatedAt(level, d, matched'[i].probe)
      ensures Before(rows + [m.dProbe], matched'[i].dProbe, d) {
      if i < |matched| {
        assert matched'[i] == matched[i];
      }
    }
  }

  lemma LeavingKeepsTurn(level: nat, rows: seq<DProbe>, from: nat, rest: seq<DProbe>, matched: seq<Match>, d: DProbe)
    requires InTurn(level, rows, from, rest, matched)
    ensures InTurn(level, rows + [d], from, rest + [d], matched)
  {
    BeforeOneMore(rows, d);
    BeforeOneMore(rest, d);
  }

  // ---------------------------------------------------------------- what a pass keeps and what it achieves

  /** The probes, the indexes and the matches made so far belong together. */
  ghost predicate Fits(probes: seq<Probe>, index: Index, matched: seq<Match>, levels: seq<nat>) {
    && Sound(probes, index, matched)
    && OneRowEach(matched)
    && MatchedAtLevels(probes, matched, levels)
    && (AllApart(probes) ==> Complete(probes, index, matched))
  }

  lemma TakingKeepsFit(probes: seq<Probe>, index: Index, matched: seq<Match>, levels: seq<nat>, d: DProbe, p: Probe, level: nat)
    requires Fits(probes, index, matched, levels) && p in probes && Free(matched, p) && RelatedAt(level, d, p) && level <= LAST
    requires forall i :: 0 <= i < |levels| ==> levels[i] <= level
    ensures Fits(probes, Without(index, p), matched + [Match(d, p)], levels + [level])
  {
    TakingKeepsSound(probes, index, matched, d, p);
    if AllApart(probes) {
      TakingKeepsComplete(probes, index, matched, d, p);
    }
  }

  /** The matches of a pass come last, and every row it looked at is matched or left over. */
  ghost predicate Passed(level: nat, rows: seq<DProbe>, matched: seq<Match>, levels: seq<nat>,
                         rest: seq<DProbe>, matched': seq<Match>, levels': seq<nat>) {
    && |levels| == |matched| && |levels'| == |matched'|
    && matched <= matched' && levels <= levels'
    && (forall i :: |matched| <= i < |levels'| ==> levels'[i] == level)
    && multiset(RowsOf(matched)) + multiset(rows) == multiset(RowsOf(matched')) + multiset(rest)
  }

  lemma OneMoreOnBothSides<T>(a: multiset<T>, b: multiset<T>, c: multiset<T>, d: multiset<T>, x: T)
    requires a + b == c + d
    ensures a + (b + multiset{x}) == (c + multiset{x}) + d
    ensures a + (b + multiset{x}) == c + (d + multiset{x})
  {
    assert a + (b + multiset{x}) == (a + b) + multiset{x};
  }

  lemma SameOnBothSides<T>(a: multiset<T>, b: multiset<T>, c: multiset<T>, d: multiset<T>)
    requires a + b == (a + c) + d
    ensures b == c + d
  {
    assert (a + b) - a == b;
    assert ((a + c) + d) - a == c + d;
  }

  lemma PassTakes(level: nat, rows: seq<DProbe>, matched: seq<Match>, levels: seq<nat>,
                  rest: seq<DProbe>, matched': seq<Match>, levels': seq<nat>, m: Match)
    requires Passed(level, rows, matched, levels, rest, matched', levels')
    ensures Passed(level, rows + [m.dProbe], matched, levels, rest, matched' + [m], levels' + [level])
  {
    RowsOfOneMore(matched', m);
    assert multiset(RowsOf(matched') + [m.dProbe]) == multiset(RowsOf(matched')) + multiset{m.dProbe};
    assert multiset(rows + [m.dProbe]) == multiset(rows) + multiset{m.dProbe};
    OneMoreOnBothSides(multiset(RowsOf(matched)), multiset(rows), multiset(RowsOf(matched')), multiset(rest), m.dProbe);
  }

  lemma TakingKeepsSettled(level: nat, probes: seq<Probe>, rest: seq<DProbe>, matched: seq<Match>, m: Match)
    requires Settled(level, probes, rest, matched)
    ensures Settled(level, probes, rest, matched + [m])
  {
    forall p | Free(matched + [m], p) ensures Free(matched, p) {
      assert forall i :: 0 <= i < |matched| ==> (matched + [m])[i] == matched[i];
    }
  }

  lemma PassLeaves(level: nat, rows: seq<DProbe>, matched: seq<Match>, levels: seq<nat>,
                   rest: seq<DProbe>, matched': seq<Match>, levels': seq<nat>, d: DProbe)
    requires Passed(level, rows, matched, levels, rest, matched', levels')
    ensures Passed(level, rows + [d], matched, levels, rest + [d], matched', levels')
  {
    assert multiset(rows + [d]) == multiset(rows) + multiset{d};
    assert multiset(rest + [d]) == multiset(rest) + multiset{d};
    OneMoreOnBothSides(multiset(RowsOf(matched)), multiset(rows), multiset(RowsOf(matched')), multiset(rest), d);
  }

  /** A pass that has looked at `rows`. */
  ghost predicate Underway(level: nat, probes: seq<Probe>, rows: seq<DProbe>, matched: seq<Match>, levels: seq<nat>,
                           rest: seq<DProbe>, matched': seq<Match>, levels': seq<nat>) {
    && Passed(level, rows, matched, levels, rest, matched', levels')
    && (forall i :: 0 <= i < |levels'| ==> levels'[i] <= level)
    && (AllApart(probes) ==> Settled(level, probes, rest, matched') && InTurn(level, rows, |matched|, rest, matched'))
  }

  lemma UnderwayTakes(level: nat, probes: seq<Probe>, rows: seq<DProbe>, matched: seq<Match>, levels: seq<nat>,
                      rest: seq<DProbe>, matched': seq<Match>, levels': seq<nat>, m: Match)
    requires Underway(level, probes, rows, matched, levels, rest, matched', levels')
    requires m.probe in probes && Free(matched', m.probe)
    ensures Underway(level, probes, rows + [m.dProbe], matched, levels, rest, matched' + [m], levels' + [level])
  {
    PassTakes(level, rows, matched, levels, rest, matched', levels', m);
    if AllApart(probes) {
      TakingKeepsSettled(level, probes, rest, matched', m);
      TakingKeepsTurn(level, probes, rows, |matched|, rest, matched', m);
    }
  }

  lemma UnderwayLeaves(level: nat, probes: seq<Probe>, rows: seq<DProbe>, matched: seq<Match>, levels: seq<nat>,
                       rest: seq<DProbe>, matched': seq<Match>, levels': seq<nat>, d: DProbe)
    requires Underway(level, probes, rows, matched, levels, rest, matched', levels')
    requires AllApart(probes) ==> forall p :: p in probes && Free(matched', p) ==> !RelatedAt(level, d, p)
    ensures Underway(level, probes, rows + [d], matched, levels, rest + [d], matched', levels')
  {
    PassLeaves(level, rows, matched, levels, rest, matched', levels', d);
    if AllApart(probes) {
      LeavingKeepsTurn(level, rows, |matched|, rest, matched', d);
    }
  }

  lemma PassContinues(before: nat, level: nat, rows: seq<DProbe>, matched: seq<Match>, levels: seq<nat>,
                      rest: seq<DProbe>, matched': seq<Match>, levels': seq<nat>)
    requires Passed(level, rows, matched, levels, rest, matched', levels') && before < level
    ensures Continues(before, rows, matched, levels, rest, matched', levels')
  {
    var added := matched'[|matched|..];
    assert matched' == matched + added;
    assert RowsOf(matched') == RowsOf(matched) + RowsOf(added);
    assert multiset(RowsOf(matched')) == multiset(RowsOf(matched)) + multiset(RowsOf(added));
    SameOnBothSides(multiset(RowsOf(matched)), multiset(rows), multiset(RowsOf(added)), multiset(rest));
    forall d | d in rest ensures d in rows {
      assert d in multiset(rest);
      assert d in multiset(rows);
    }
    forall i | |matched| <= i < |matched'| ensures matched'[i].dProbe in rows {
      assert RowsOf(added)[i - |matched|] == matched'[i].dProbe;
      assert matched'[i].dProbe in multiset(RowsOf(added));
      assert matched'[i].dProbe in multiset(rows);
    }
  }

  ghost predicate Stable(upTo: nat, probes: seq<Probe>, rest: seq<DProbe>, matched: seq<Match>, levels: seq<nat>) {
    |levels| == |matched| && forall k :: 0 <= k <= upTo ==> NoBlockingPair(k, probes, rest, matched, levels)
  }

  /** A probe matched at this level did not go past an earlier row that had to wait. */
  ghost predicate EarlierTook(level: nat, order: seq<DProbe>, rest: seq<DProbe>, matched: seq<Match>, levels: seq<nat>)
    requires |levels| == |matched|
  {
    forall i, d :: 0 <= i < |matched| && levels[i] == level && RowWaits(level, rest, matched, levels, d) ==>
                     RelatedAt(level, d, matched[i].probe) ==> Before(order, matched[i].dProbe, d)
  }

  ghost predicate InOrder(upTo: nat, order: seq<DProbe>, rest: seq<DProbe>, matched: seq<Match>, levels: seq<nat>) {
    && |levels| == |matched| && SameOrder(order, rest)
    && forall k :: 0 <= k <= upTo ==> EarlierTook(k, order, rest, matched, levels)
  }

  lemma EarlierTookLater(level: nat, order: seq<DProbe>, rows: seq<DProbe>, matched: seq<Match>, levels: seq<nat>,
                         rest: seq<DProbe>, matched': seq<Match>, levels': seq<nat>)
    requires Continues(level, rows, matched, levels, rest, matched', levels')
    requires EarlierTook(level, order, rows, matched, levels)
    ensures EarlierTook(level, order, rest, matched', levels')
  {
    forall i, d | 0 <= i < |matched'| && levels'[i] == level && RowWaits(level, rest, matched', levels', d) &&
                  RelatedAt(level, d, matched'[i].probe)
      ensures Before(order, matched'[i].dProbe, d) {
      assert matched'[i] == matched[i] && levels'[i] == levels[i];
      assert RowWaits(level, rows, matched, levels, d) by {
        if d !in rest {
          var j :| 0 <= j < |matched'| && matched'[j].dProbe == d && levels'[j] > level;
          assert j < |matched| ==> matched[j].dProbe == d && levels[j] > level;
        }
      }
    }
  }

  lemma PassTookInOrder(level: nat, order: seq<DProbe>, rows: seq<DProbe>, from: nat,
                        rest: seq<DProbe>, matched: seq<Match>, levels: seq<nat>)
    requires SameOrder(order, rows) && InTurn(level, rows, from, rest, matched) && |levels| == |matched|
    requires forall i :: 0 <= i < |levels| ==> levels[i] <= level && (i < from ==> levels[i] < level)
    ensures EarlierTook(level, order, rest, matched, levels)
  {
    forall i, d | 0 <= i < |matched| && levels[i] == level && RowWaits(level, rest, matched, levels, d) &&
                  RelatedAt(level, d, matched[i].probe)
      ensures Before(order, matched[i].dProbe, d) {
      assert d in rest;
      assert Before(rows, matched[i].dProbe, d);
    }
  }

  /** A pass keeps the order of the earlier levels and its own. */
  lemma PassKeepsOrder(level: nat, order: seq<DProbe>, rows: seq<DProbe>, matched: seq<Match>, levels: seq<nat>,
                       rest: seq<DProbe>, matched': seq<Match>, levels': seq<nat>)
    requires Passed(level, rows, matched, levels, rest, matched', levels') && InTurn(level, rows, |matched|, rest, matched')
    requires forall i :: 0 <= i < |levels| ==> levels[i] < level
    requires if level > 0 then InOrder(level - 1, order, rows, matched, levels) else order == rows
    ensures InOrder(level, order, rest, matched', levels')
  {
    forall i | 0 <= i < |levels'| ensures levels'[i] <= level && (i < |matched| ==> levels'[i] < level) {
      assert i < |levels| ==> levels'[i] == levels[i];
    }
    PassTookInOrder(level, order, rows, |matched|, rest, matched', levels');
    forall k | 0 <= k < level ensures EarlierTook(k, order, rest, matched', levels') {
      PassContinues(k, level, rows, matched, levels, rest, matched', levels');
      EarlierTookLater(k, order, rows, matched, levels, rest, matched', levels');
    }
  }

  /** A pass leaves earlier levels without blocking pairs, and so its own. */
  lemma PassKeepsStable(level: nat, probes: seq<Probe>, rows: seq<DProbe>, matched: seq<Match>, levels: seq<nat>,
                        rest: seq<DProbe>, matched': seq<Match>, levels': seq<nat>)
    requires Passed(level, rows, matched, levels, rest, matched', levels')
    requires Settled(level, probes, rest, matched')
    requires forall i :: 0 <= i < |levels'| ==> levels'[i] <= level
    requires level > 0 ==> Stable(level - 1, probes, rows, matched, levels)
    ensures Stable(level, probes, rest, matched', levels')
  {
    forall k | 0 <= k <= level ensures NoBlockingPair(k, probes, rest, matched', levels') {
      if k < level {
        PassContinues(k, level, rows, matched, levels, rest, matched', levels');
        NoBlockingPairLater(k, probes, rows, matched, levels, rest, matched', levels');
      } else {
        SettledHasNoBlockingPair(level, probes, rest, matched', levels');
      }
    }
  }

  // ---------------------------------------------------------------- the probes of an adoption token

  function KeyOfProbe(p: Probe): string {
    TokenKey(p.adoptionToken, p.asn, p.city)
  }

  function GroupOf(groups: map<string, seq<Probe>>, key: string): seq<Probe> {
    if key in groups then groups[key] else []
  }

  /** Each group lists free probes of its key, none twice. */
  ghost predicate GroupsSound(probes: seq<Probe>, matched: seq<Match>, groups: map<string, seq<Probe>>) {
    && (forall key, p :: key in groups && p in groups[key] ==>
          p in probes && Free(matched, p) && p.adoptionToken != "" && KeyOfProbe(p) == key)
    && (forall key :: key in groups ==> Distinct(groups[key]))
  }

  ghost predicate GroupsComplete(probes: seq<Probe>, matched: seq<Match>, groups: map<string, seq<Probe>>) {
    forall p :: p in probes && Free(matched, p) && p.adoptionToken != "" ==> p in GroupOf(groups, KeyOfProbe(p))
  }

  /** The probes that have been grouped so far. */
  ghost predicate Grouped(probes: seq<Probe>, matched: seq<Match>, groups: map<string, seq<Probe>>, done: set<Probe>) {
    && GroupsSound(probes, matched, groups)
    && (forall key, p :: key in groups && p in groups[key] ==> p in done)
    && (forall p :: p in done && p.adoptionToken != "" ==> p in GroupOf(groups, KeyOfProbe(p)))
  }

  lemma GroupedOneMore(probes: seq<Probe>, matched: seq<Match>, groups: map<string, seq<Probe>>, done: set<Probe>, p: Probe)
    requires Grouped(probes, matched, groups, done) && p !in done && p in probes && Free(matched, p)
    ensures var key := KeyOfProbe(p);
            Grouped(probes, matched, if p.adoptionToken == "" then groups else groups[key := GroupOf(groups, key) + [p]], done + {p})
  {
  }

  function Shifted(groups: map<string, seq<Probe>>, key: string): map<string, seq<Probe>>
    requires key in groups && groups[key] != []
  {
    groups[key := groups[key][1..]]
  }

  lemma TakingKeepsGroups(probes: seq<Probe>, matched: seq<Match>, groups: map<string, seq<Probe>>, key: string, d: DProbe)
    requires GroupsSound(probes, matched, groups) && key in groups && groups[key] != []
    ensures GroupsSound(probes, matched + [Match(d, groups[key][0])], Shifted(groups, key))
    ensures GroupsComplete(probes, matched, groups) ==>
              GroupsComplete(probes, matched + [Match(d, groups[key][0])], Shifted(groups, key))
  {
    var p := groups[key][0];
    var matched', groups' := matched + [Match(d, p)], Shifted(groups, key);
    assert groups[key] == [p] + groups[key][1..];
    forall k, q | k in groups' && q in groups'[k] ensures q in probes && Free(matched', q) && q.adoptionToken != "" && KeyOfProbe(q) == k {
      assert q in groups[k] && p in groups[key];
      assert q != p;
    }
    forall q | q in probes && Free(matched', q) && q.adoptionToken != "" && GroupsComplete(probes, matched, groups)
      ensures q in GroupOf(groups', KeyOfProbe(q)) {
      assert matched'[|matched|].probe == p;
      assert forall i :: 0 <= i < |matched| ==> matched'[i] == matched[i];
      assert q in GroupOf(groups, KeyOfProbe(q));
    }
  }

  lemma NoneInGroup(probes: seq<Probe>, matched: seq<Match>, groups: map<string, seq<Probe>>, d: DProbe)
    requires GroupsComplete(probes, matched, groups)
    requires d.adoptionToken == "" || d.status != OFFLINE || GroupOf(groups, TokenKey(d.adoptionToken, d.asn, d.city)) == []
    ensures forall p :: p in probes && Free(matched, p) ==> !RelatedAt(LAST, d, p)
  {
    forall p | p in probes && Free(matched, p) && p.adoptionToken != "" ensures !RelatedAt(LAST, d, p) {
      assert p in GroupOf(groups, KeyOfProbe(p));
    }
  }

  // ---------------------------------------------------------------- the passes

  class Matcher {
    ghost const probes: seq<Probe>
    var uuidToProbe: map<string, Probe>
    var ipToProbe: map<string, Probe>
    var altIpToProbe: map<string, Probe>
    var dProbesWithProbe: seq<Match>
    /** The level at which each match was made. */
    ghost var levels: seq<nat>

    function View(): Index
      reads this
    {
      Index(uuidToProbe, ipToProbe, altIpToProbe)
    }

    ghost predicate Valid()
      reads this
    {
      Fits(probes, View(), dProbesWithProbe, levels)
    }

    constructor (probes: seq<Probe>)
      ensures Valid() && this.probes == probes && dProbesWithProbe == [] && levels == []
    {
      var uuids := IndexByKeys(probes, UuidOf);
      var ips := IndexByKeys(probes, IpOf);
      var altIps := IndexByKeys(probes, AltIpsOf);
      IndexesAreSound(probes, Index(uuids, ips, altIps));
      forall p | AllApart(probes) && p in probes ensures Indexed(Index(uuids, ips, altIps), p) {
        ApartIsIndexed(probes, Index(uuids, ips, altIps), p);
      }
      uuidToProbe, ipToProbe, altIpToProbe, dProbesWithProbe, levels := uuids, ips, altIps, [], [];
      this.probes := probes;
    }

    method Unlink(p: Probe)
      modifies this`uuidToProbe, this`ipToProbe, this`altIpToProbe
      ensures View() == Without(old(View()), p)
    {
      uuidToProbe := uuidToProbe - {p.uuid};
      ipToProbe := ipToProbe - {p.ip};
      for j := 0 to |p.altIps|
        invariant uuidToProbe == old(uuidToProbe) - {p.uuid} && ipToProbe == old(ipToProbe) - {p.ip}
        invariant altIpToProbe == old(altIpToProbe) - set x | x in p.altIps[..j]
      {
        assert p.altIps[..j + 1] == p.altIps[..j] + [p.altIps[j]];
        altIpToProbe := altIpToProbe - {p.altIps[j]};
      }
      assert p.altIps[..|p.altIps|] == p.altIps;
    }

    /** The statements that every pass repeats for a match it found. */
    method Take(d: DProbe, p: Probe, ghost level: nat)
      requires Valid() && p in probes && Free(dProbesWithProbe, p) && RelatedAt(level, d, p) && level <= LAST
      requires forall i :: 0 <= i < |levels| ==> levels[i] <= level
      modifies this
      ensures Valid() && View() == Without(old(View()), p)
      ensures dProbesWithProbe == old(dProbesWithProbe) + [Match(d, p)] && levels == old(levels) + [level]
    {
      TakingKeepsFit(probes, View(), dProbesWithProbe, levels, d, p, level);
      dProbesWithProbe := dProbesWithProbe + [Match(d, p)];
      levels := levels + [level];
      Unlink(p);
    }

    method FindByAltIps(altIps: seq<string>) returns (found: Option<Probe>)
      ensures found == FirstByAltIp(View(), altIps)
    {
      for i := 0 to |altIps|
        invariant FirstByAltIp(View(), altIps) == FirstByAltIp(View(), altIps[i..])
      {
        if altIps[i] in ipToProbe {
          return Some(ipToProbe[altIps[i]]);
        }
        if altIps[i] in altIpToProbe {
          return Some(altIpToProbe[altIps[i]]);
        }
      }
      return None;
    }

    method FindFor(level: nat, d: DProbe) returns (found: Option<Probe>)
      requires level < LAST
      ensures found == if level < 4 && !Adopted(d) then None else Find(View(), KindOf(level), d)
    {
      if KindOf(level) == AltIpAmongIps {
        found := FindByAltIps(d.altIps);
      } else {
        found := Find(View(), KindOf(level), d);
      }
      if level < 4 && d.userId.None? {
        found := None;
      }
    }

    method RunPass(level: nat, dProbesToCheck: seq<DProbe>) returns (dProbesWithoutProbe: seq<DProbe>)
      requires Valid() && level < LAST && forall i :: 0 <= i < |levels| ==> levels[i] <= level
      modifies this
      ensures Valid() && Underway(level, probes, dProbesToCheck, old(dProbesWithProbe), old(levels), dProbesWithoutProbe, dProbesWithProbe, levels)
    {
      dProbesWithoutProbe := [];
      for i := 0 to |dProbesToCheck|
        invariant Valid()
        invariant Underway(level, probes, dProbesToCheck[..i], old(dProbesWithProbe), old(levels), dProbesWithoutProbe, dProbesWithProbe, levels)
      {
        var d := dProbesToCheck[i];
        assert dProbesToCheck[..i + 1] == dProbesToCheck[..i] + [d];
        var probe := FindFor(level, d);
        FindFinds(probes, View(), dProbesWithProbe, KindOf(level), d);
        if probe.Some? {
          UnderwayTakes(level, probes, dProbesToCheck[..i], old(dProbesWithProbe), old(levels), dProbesWithoutProbe,
                        dProbesWithProbe, levels, Match(d, probe.value));
          Take(d, probe.value, level);
        } else {
          UnderwayLeaves(level, probes, dProbesToCheck[..i], old(dProbesWithProbe), old(levels), dProbesWithoutProbe,
                         dProbesWithProbe, levels, d);
          dProbesWithoutProbe := dProbesWithoutProbe + [d];
        }
      }
      assert dProbesToCheck[..|dProbesToCheck|] == dProbesToCheck;
    }

    /** The groups of the probes that are still in the uuid index, in any order. */
    method GroupByToken() returns (groups: map<string, seq<Probe>>)
      requires Valid()
      ensures GroupsSound(probes, dProbesWithProbe, groups)
      ensures AllApart(probes) ==> GroupsComplete(probes, dProbesWithProbe, groups)
    {
      groups := map[];
      var left := uuidToProbe.Values;
      while left != {}
        invariant left <= uuidToProbe.Values && Grouped(probes, dProbesWithProbe, groups, uuidToProbe.Values - left)
      {
        var p :| p in left;
        GroupedOneMore(probes, dProbesWithProbe, groups, uuidToProbe.Values - left, p);
        assert uuidToProbe.Values - (left - {p}) == (uuidToProbe.Values - left) + {p};
        left := left - {p};
        if p.adoptionToken != "" {
          var key := KeyOfProbe(p);
          groups := groups[key := GroupOf(groups, key) + [p]];
        }
      }
      forall p | AllApart(probes) && p in probes && Free(dProbesWithProbe, p) ensures p in uuidToProbe.Values {
        assert Indexed(View(), p);
      }
    }

    /** The first probe of a group, for a row of the group's key. */
    method TakeFromGroup(d: DProbe, groups: map<string, seq<Probe>>, key: string) returns (groups': map<string, seq<Probe>>)
      requires Valid() && forall i :: 0 <= i < |levels| ==> levels[i] <= LAST
      requires GroupsSound(probes, dProbesWithProbe, groups) && key in groups && groups[key] != []
      requires d.adoptionToken != "" && d.status == OFFLINE && key == TokenKey(d.adoptionToken, d.asn, d.city)
      modifies this
      ensures Valid() && dProbesWithProbe == old(dProbesWithProbe) + [Match(d, groups[key][0])] && levels == old(levels) + [LAST]
      ensures GroupsSound(probes, dProbesWithProbe, groups')
      ensures GroupsComplete(probes, old(dProbesWithProbe), groups) ==> GroupsComplete(probes, dProbesWithProbe, groups')
    {
      assert groups[key][0] in groups[key];
      TakingKeepsGroups(probes, dProbesWithProbe, groups, key, d);
      Take(d, groups[key][0], LAST);
      groups' := groups[key := groups[key][1..]];
    }

    method RunTokenPass(dProbesToCheck: seq<DProbe>) returns (dProbesWithoutProbe: seq<DProbe>)
      requires Valid() && forall i :: 0 <= i < |levels| ==> levels[i] <= LAST
      modifies this
      ensures Valid() && Underway(LAST, probes, dProbesToCheck, old(dProbesWithProbe), old(levels), dProbesWithoutProbe, dProbesWithProbe, levels)
    {
      var adoptionTokenToProbes := GroupByToken();
      dProbesWithoutProbe := [];
      for i := 0 to |dProbesToCheck|
        invariant Valid()
        invariant Underway(LAST, probes, dProbesToCheck[..i], old(dProbesWithProbe), old(levels), dProbesWithoutProbe, dProbesWithProbe, levels)
        invariant GroupsSound(probes, dProbesWithProbe, adoptionTokenToProbes)
        invariant AllApart(probes) ==> GroupsComplete(probes, dProbesWithProbe, adoptionTokenToProbes)
      {
        var d := dProbesToCheck[i];
        assert dProbesToCheck[..i + 1] == dProbesToCheck[..i] + [d];
        var key := TokenKey(d.adoptionToken, d.asn, d.city);
        if d.adoptionToken != "" && d.status == OFFLINE && key in adoptionTokenToProbes && adoptionTokenToProbes[key] != [] {
          UnderwayTakes(LAST, probes, dProbesToCheck[..i], old(dProbesWithProbe), old(levels), dProbesWithoutProbe,
                        dProbesWithProbe, levels, Match(d, adoptionTokenToProbes[key][0]));
          adoptionTokenToProbes := TakeFromGroup(d, adoptionTokenToProbes, key);
        } else {
          if AllApart(probes) {
            NoneInGroup(probes, dProbesWithProbe, adoptionTokenToProbes, d);
          }
          UnderwayLeaves(LAST, probes, dProbesToCheck[..i], old(dProbesWithProbe), old(levels), dProbesWithoutProbe,
                         dProbesWithProbe, levels, d);
          dProbesWithoutProbe := dProbesWithoutProbe + [d];
        }
      }
      assert dProbesToCheck[..|dProbesToCheck|] == dProbesToCheck;
    }

    /** The eight passes over the indexes, each with the rows that the one before left over. */
    method RunPasses(dProbes: seq<DProbe>) returns (dProbesWithoutProbe: seq<DProbe>)
      requires Valid() && dProbesWithProbe == []
      modifies this
      ensures Valid() && forall i :: 0 <= i < |levels| ==> levels[i] <= LAST - 1
      ensures multiset(dProbes) == multiset(RowsOf(dProbesWithProbe)) + multiset(dProbesWithoutProbe)
      ensures AllApart(probes) ==> Stable(LAST - 1, probes, dProbesWithoutProbe, dProbesWithProbe, levels)
      ensures AllApart(probes) ==> InOrder(LAST - 1, dProbes, dProbesWithoutProbe, dProbesWithProbe, levels)
    {
      dProbesWithoutProbe := dProbes;
      for level := 0 to LAST
        invariant Valid() && forall i :: 0 <= i < |levels| ==> levels[i] < level
        invariant multiset(dProbes) == multiset(RowsOf(dProbesWithProbe)) + multiset(dProbesWithoutProbe)
        invariant level > 0 && AllApart(probes) ==> Stable(level - 1, probes, dProbesWithoutProbe, dProbesWithProbe, levels)
        invariant if level > 0 then AllApart(probes) ==> InOrder(level - 1, dProbes, dProbesWithoutProbe, dProbesWithProbe, levels)
                  else dProbesWithoutProbe == dProbes
      {
        ghost var rows, matched, levels0 := dProbesWithoutProbe, dProbesWithProbe, levels;
        dProbesWithoutProbe := RunPass(level, dProbesWithoutProbe);
        if AllApart(probes) {
          PassKeepsStable(level, probes, rows, matched, levels0, dProbesWithoutProbe, dProbesWithProbe, levels);
          PassKeepsOrder(level, dProbes, rows, matched, levels0, dProbesWithoutProbe, dProbesWithProbe, levels);
        }
      }
    }

    method MatchRows(dProbes: seq<DProbe>) returns (dProbesWithoutProbe: seq<DProbe>, probesWithoutDProbe: set<Probe>)
      requires Valid() && dProbesWithProbe == []
      modifies this
      ensures Valid()
      ensures multiset(dProbes) == multiset(RowsOf(dProbesWithProbe)) + multiset(dProbesWithoutProbe)
      ensures AllApart(probes) ==> Stable(LAST, probes, dProbesWithoutProbe, dProbesWithProbe, levels)
      ensures AllApart(probes) ==> InOrder(LAST, dProbes, dProbesWithoutProbe, dProbesWithProbe, levels)
      ensures forall p :: p in probesWithoutDProbe ==> p in probes && Free(dProbesWithProbe, p)
      ensures AllApart(probes) ==> forall p :: p in probes && Free(dProbesWithProbe, p) ==> p in probesWithoutDProbe
    {
      var dProbesToCheck := RunPasses(dProbes);
      ghost var matched, levels0 := dProbesWithProbe, levels;
      dProbesWithoutProbe := RunTokenPass(dProbesToCheck);
      if AllApart(probes) {
        PassKeepsStable(LAST, probes, dProbesToCheck, matched, levels0, dProbesWithoutProbe, dProbesWithProbe, levels);
        PassKeepsOrder(LAST, dProbes, dProbesToCheck, matched, levels0, dProbesWithoutProbe, dProbesWithProbe, levels);
      }
      probesWithoutDProbe := uuidToProbe.Values;
      forall p | AllApart(probes) && p in probes && Free(dProbesWithProbe, p) ensures p in probesWithoutDProbe {
        assert Indexed(View(), p);
      }
    }
  }

  // ---------------------------------------------------------------- what the matching means

  /**
    The ways of sharing, the stronger ones first: 0 by uuid, 1 by IP, 2 the row's IP is an alternative IP of the probe,
    3 an alternative IP of the row is an IP or alternative IP of the probe.
   */
  predicate SharesBy(k: nat, d: DProbe, p: Probe) {
    || (k == 0 && d.uuid != "" && d.uuid == p.uuid)
    || (k == 1 && d.ip != "" && d.ip == p.ip)
    || (k == 2 && d.ip != "" && d.ip in p.altIps)
    || (k == 3 && exists x :: x in d.altIps && (x == p.ip || x in p.altIps))
  }

  /** The row and the probe share a uuid, or an address. */
  predicate Shares(d: DProbe, p: Probe) {
    (d.uuid != "" && d.uuid == p.uuid) || (d.ip != "" && HasIp(p, d.ip)) || exists x :: x in d.altIps && HasIp(p, x)
  }

  ghost predicate GivenToUnadopted(matched: seq<Match>, p: Probe) {
    exists i :: 0 <= i < |matched| && matched[i].probe == p && !Adopted(matched[i].dProbe)
  }

  /** The first four passes look for the ways of sharing in their order, for adopted rows; the next four do so for any row. */
  lemma RelatedInOrder(level: nat, d: DProbe, p: Probe)
    requires level < LAST
    ensures RelatedAt(level, d, p) <==> SharesBy(level % 4, d, p) && (level < 4 ==> Adopted(d))
  {
    assert level == 4 * (level / 4) + level % 4;
  }

  /** A row that shares something with a probe is related to it in one of four passes, of the adopted and of the general ones. */
  lemma SharingIsRelated(d: DProbe, p: Probe) returns (k: nat)
    requires Shares(d, p)
    ensures k < 4 && RelatedAt(k + 4, d, p) && (Adopted(d) ==> RelatedAt(k, d, p))
  {
    assert SharesBy(0, d, p) || SharesBy(1, d, p) || SharesBy(2, d, p) || SharesBy(3, d, p);
    k :| k < 4 && SharesBy(k, d, p);
    RelatedInOrder(k, d, p);
    RelatedInOrder(k + 4, d, p);
  }

  /** A live probe of an unadopted row was still waiting after all passes for adopted rows. */
  lemma UnadoptedCameLater(probes: seq<Probe>, matched: seq<Match>, levels: seq<nat>, p: Probe, k: nat)
    requires MatchedAtLevels(probes, matched, levels) && OneRowEach(matched) && GivenToUnadopted(matched, p) && k < 4
    ensures ProbeWaits(k, matched, levels, p)
  {
    var i :| 0 <= i < |matched| && matched[i].probe == p && !Adopted(matched[i].dProbe);
    assert RelatedAt(levels[i], matched[i].dProbe, p);
    forall j | 0 <= j < |matched| && matched[j].probe == p ensures levels[j] > k {
      assert i == j;
    }
  }

  /** Adoption comes before everything else, and nobody goes without a probe that is left. */
  ghost predicate NobodyIsPassedOver(probes: seq<Probe>, rest: seq<DProbe>, matched: seq<Match>) {
    forall d, p :: d in rest && p in probes && Shares(d, p) ==>
      !Free(matched, p) && (Adopted(d) ==> !GivenToUnadopted(matched, p))
  }

  lemma StableMeansNobodyIsPassedOver(probes: seq<Probe>, rest: seq<DProbe>, matched: seq<Match>, levels: seq<nat>)
    requires Stable(LAST, probes, rest, matched, levels) && MatchedAtLevels(probes, matched, levels) && OneRowEach(matched)
    ensures NobodyIsPassedOver(probes, rest, matched)
  {
    forall d, p | d in rest && p in probes && Shares(d, p)
      ensures !Free(matched, p) && (Adopted(d) ==> !GivenToUnadopted(matched, p)) {
      var k := SharingIsRelated(d, p);
      assert NoBlockingPair(k, probes, rest, matched, levels) && NoBlockingPair(k + 4, probes, rest, matched, levels);
      assert RowWaits(k, rest, matched, levels, d) && RowWaits(k + 4, rest, matched, levels, d);
      assert Free(matched, p) ==> ProbeWaits(k + 4, matched, levels, p);
      if Adopted(d) && GivenToUnadopted(matched, p) {
        UnadoptedCameLater(probes, matched, levels, p, k);
      }
    }
  }

  // ---------------------------------------------------------------- the priorities

  /** The match has the row or the probe, shares in a stronger way, or in the same way and for an earlier row. */
  ghost predicate AtLeastAsStrong(order: seq<DProbe>, m: Match, k: nat, d: DProbe, p: Probe) {
    || (m.dProbe == d && exists j :: 0 <= j <= k && SharesBy(j, d, m.probe))
    || (m.probe == p && exists j :: 0 <= j < k && SharesBy(j, m.dProbe, p))
    || (m.probe == p && SharesBy(k, m.dProbe, p) && Before(order, m.dProbe, d))
  }

  ghost predicate ForAdopted(order: seq<DProbe>, m: Match, k: nat, d: DProbe, p: Probe) {
    Adopted(m.dProbe) && AtLeastAsStrong(order, m, k, d, p)
  }

  /** A match of an adopted row comes first, however it shares. */
  ghost predicate ForAny(order: seq<DProbe>, m: Match, k: nat, d: DProbe, p: Probe) {
    || ((m.dProbe == d || m.probe == p) && Adopted(m.dProbe) && exists j :: 0 <= j < 4 && SharesBy(j, m.dProbe, m.probe))
    || AtLeastAsStrong(order, m, k, d, p)
  }

  /** The token, network and city of an offline row are those of the probe. */
  predicate SharesToken(d: DProbe, p: Probe) {
    d.status == OFFLINE && d.adoptionToken != "" && d.adoptionToken == p.adoptionToken && d.asn == p.asn && d.city == p.city
  }

  /** What the matching owes to a row and a live probe, whatever the other rows and probes are. */
  ghost predicate PairKept(order: seq<DProbe>, rest: seq<DProbe>, matched: seq<Match>, d: DProbe, p: Probe) {
    && (forall k :: 0 <= k < 4 && SharesBy(k, d, p) && Adopted(d) ==> exists m :: m in matched && ForAdopted(order, m, k, d, p))
    && (forall k :: 0 <= k < 4 && SharesBy(k, d, p) ==> exists m :: m in matched && ForAny(order, m, k, d, p))
    && (d in rest && Free(matched, p) ==> !SharesToken(d, p))
  }

  ghost predicate PrioritiesKept(order: seq<DProbe>, probes: seq<Probe>, rest: seq<DProbe>, matched: seq<Match>) {
    forall d, p :: d in order && p in probes ==> PairKept(order, rest, matched, d, p)
  }

  lemma RowIsSomewhere(order: seq<DProbe>, rest: seq<DProbe>, matched: seq<Match>, d: DProbe)
    requires multiset(order) == multiset(RowsOf(matched)) + multiset(rest) && d in order
    ensures d in rest || exists i :: 0 <= i < |matched| && matched[i].dProbe == d
  {
    assert d in multiset(order);
    if d !in rest {
      assert d in multiset(RowsOf(matched));
      var i :| 0 <= i < |RowsOf(matched)| && RowsOf(matched)[i] == d;
      assert matched[i].dProbe == d;
    }
  }

  /** A related row and probe: one of them has a match of this level at the latest, and of this level only for an earlier row. */
  lemma RelatedPairIsServed(level: nat, order: seq<DProbe>, probes: seq<Probe>, rest: seq<DProbe>, matched: seq<Match>, levels: seq<nat>,
                            d: DProbe, p: Probe) returns (i: nat)
    requires multiset(order) == multiset(RowsOf(matched)) + multiset(rest) && d in order && p in probes && |levels| == |matched|
    requires NoBlockingPair(level, probes, rest, matched, levels) && EarlierTook(level, order, rest, matched, levels)
    requires RelatedAt(level, d, p)
    ensures i < |matched| && levels[i] <= level
    ensures matched[i].dProbe == d || (matched[i].probe == p && (levels[i] == level ==> Before(order, matched[i].dProbe, d)))
  {
    if RowWaits(level, rest, matched, levels, d) {
      i :| 0 <= i < |matched| && matched[i].probe == p && levels[i] <= level;
    } else {
      RowIsSomewhere(order, rest, matched, d);
      i :| 0 <= i < |matched| && matched[i].dProbe == d;
    }
  }

  lemma AdoptedRowsComeFirst(order: seq<DProbe>, probes: seq<Probe>, rest: seq<DProbe>, matched: seq<Match>, levels: seq<nat>,
                             d: DProbe, p: Probe, k: nat)
    requires multiset(order) == multiset(RowsOf(matched)) + multiset(rest) && d in order && p in probes
    requires Stable(LAST, probes, rest, matched, levels) && InOrder(LAST, order, rest, matched, levels)
    requires MatchedAtLevels(probes, matched, levels) && k < 4 && SharesBy(k, d, p) && Adopted(d)
    ensures exists m :: m in matched && ForAdopted(order, m, k, d, p)
  {
    RelatedInOrder(k, d, p);
    var i := RelatedPairIsServed(k, order, probes, rest, matched, levels, d, p);
    RelatedInOrder(levels[i], matched[i].dProbe, matched[i].probe);
    assert ForAdopted(order, matched[i], k, d, p);
  }

  lemma OtherRowsComeNext(order: seq<DProbe>, probes: seq<Probe>, rest: seq<DProbe>, matched: seq<Match>, levels: seq<nat>,
                          d: DProbe, p: Probe, k: nat)
    requires multiset(order) == multiset(RowsOf(matched)) + multiset(rest) && d in order && p in probes
    requires Stable(LAST, probes, rest, matched, levels) && InOrder(LAST, order, rest, matched, levels)
    requires MatchedAtLevels(probes, matched, levels) && k < 4 && SharesBy(k, d, p)
    ensures exists m :: m in matched && ForAny(order, m, k, d, p)
  {
    RelatedInOrder(k + 4, d, p);
    var i := RelatedPairIsServed(k + 4, order, probes, rest, matched, levels, d, p);
    RelatedInOrder(levels[i], matched[i].dProbe, matched[i].probe);
    assert ForAny(order, matched[i], k, d, p);
  }

  /** The stable outcome in terms of the rows and the probes: the strongest claims are served first. */
  lemma StableKeepsPriorities(order: seq<DProbe>, probes: seq<Probe>, rest: seq<DProbe>, matched: seq<Match>, levels: seq<nat>)
    requires multiset(order) == multiset(RowsOf(matched)) + multiset(rest)
    requires Stable(LAST, probes, rest, matched, levels) && InOrder(LAST, order, rest, matched, levels)
    requires MatchedAtLevels(probes, matched, levels)
    ensures PrioritiesKept(order, probes, rest, matched)
  {
    forall d, p | d in order && p in probes ensures PairKept(order, rest, matched, d, p) {
      forall k | 0 <= k < 4 && SharesBy(k, d, p) && Adopted(d) ensures exists m :: m in matched && ForAdopted(order, m, k, d, p) {
        AdoptedRowsComeFirst(order, probes, rest, matched, levels, d, p, k);
      }
      forall k | 0 <= k < 4 && SharesBy(k, d, p) ensures exists m :: m in matched && ForAny(order, m, k, d, p) {
        OtherRowsComeNext(order, probes, rest, matched, levels, d, p, k);
      }
      if d in rest && Free(matched, p) && SharesToken(d, p) {
        assert NoBlockingPair(LAST, probes, rest, matched, levels);
        assert RowWaits(LAST, rest, matched, levels, d) && ProbeWaits(LAST, matched, levels, p);
        assert RelatedAt(LAST, d, p);
        assert false;
      }
    }
  }

  lemma UpToDash(a: string, b: string, a': string, b': string)
    requires a + "-" + b == a' + "-" + b' && '-' !in a && '-' !in a'
    ensures a == a' && b == b'
  {
    var s, s' := a + "-" + b, a' + "-" + b';
    assert s[|a|] == '-' && s'[|a'|] == '-';
    assert forall k :: 0 <= k < |a| ==> s[k] == a[k] && s[k] != '-';
    assert forall k :: 0 <= k < |a'| ==> s'[k] == a'[k] && s'[k] != '-';
    assert |a| == |a'|;
    assert s[..|a|] == a && s[|a| + 1..] == b;
    assert s'[..|a'|] == a' && s'[|a'| + 1..] == b';
  }

  /** Nothing is matched otherwise; a match by token shares it when tokens and networks are written without dashes. */
  lemma MatchesShare(probes: seq<Probe>, matched: seq<Match>, levels: seq<nat>, i: nat)
    requires MatchedAtLevels(probes, matched, levels) && i < |matched|
    ensures var d, p := matched[i].dProbe, matched[i].probe;
            || (exists k :: 0 <= k < 4 && SharesBy(k, d, p))
            || (d.status == OFFLINE && d.adoptionToken != "" && p.adoptionToken != "" &&
                ('-' !in d.adoptionToken + d.asn && '-' !in p.adoptionToken + p.asn ==> SharesToken(d, p)))
  {
    var d, p := matched[i].dProbe, matched[i].probe;
    if levels[i] < LAST {
      RelatedInOrder(levels[i], d, p);
      assert SharesBy(levels[i] % 4, d, p);
    } else if '-' !in d.adoptionToken + d.asn && '-' !in p.adoptionToken + p.asn {
      assert d.adoptionToken + "-" + d.asn + "-" + d.city == d.adoptionToken + "-" + (d.asn + "-" + d.city);
      assert p.adoptionToken + "-" + p.asn + "-" + p.city == p.adoptionToken + "-" + (p.asn + "-" + p.city);
      UpToDash(d.adoptionToken, d.asn + "-" + d.city, p.adoptionToken, p.asn + "-" + p.city);
      UpToDash(d.asn, d.city, p.asn, p.city);
    }
  }

  // ---------------------------------------------------------------- the whole matching

  ghost predicate DistinctIps(probes: seq<Probe>) {
    forall i, j :: 0 <= i < j < |probes| ==> probes[i].ip != probes[j].ip
  }

  ghost predicate IsFirstOfIp(probes: seq<Probe>, p: Probe) {
    exists i :: 0 <= i < |probes| && probes[i] == p && forall j :: 0 <= j < i ==> probes[j].ip != p.ip
  }

  ghost predicate HasProbeWithIp(probes: seq<Probe>, ip: string) {
    exists p :: p in probes && p.ip == ip
  }

  /** `kept` has the first probe of each IP. */
  ghost predicate IsUnique(probes: seq<Probe>, kept: seq<Probe>) {
    && DistinctIps(kept)
    && (forall p :: p in kept ==> IsFirstOfIp(probes, p))
    && (forall p :: p in probes ==> HasProbeWithIp(kept, p.ip))
  }

  lemma UniqueOneMore(probes: seq<Probe>, kept: seq<Probe>, p: Probe)
    requires IsUnique(probes, kept)
    ensures HasProbeWithIp(probes, p.ip) ==> IsUnique(probes + [p], kept)
    ensures !HasProbeWithIp(probes, p.ip) ==> IsUnique(probes + [p], kept + [p])
  {
    var all := probes + [p];
    forall q | q in kept ensures IsFirstOfIp(all, q) && q in probes {
      var i :| 0 <= i < |probes| && probes[i] == q && forall j :: 0 <= j < i ==> probes[j].ip != q.ip;
      assert all[i] == q && forall j :: 0 <= j < i ==> all[j] == probes[j];
    }
    if HasProbeWithIp(probes, p.ip) {
      var q :| q in probes && q.ip == p.ip;
      assert HasProbeWithIp(kept, q.ip);
    } else {
      assert all[|probes|] == p && forall j :: 0 <= j < |probes| ==> probes[j] in probes;
      assert IsFirstOfIp(all, p);
      forall q | q in all ensures HasProbeWithIp(kept + [p], q.ip) {
        if q in probes {
          var k :| k in kept && k.ip == q.ip;
          assert k in kept + [p];
        } else {
          assert p in kept + [p];
        }
      }
    }
  }

  /** The first probe of each IP, in the given order (which is that of the socket ids). */
  method UniqueByIp(probes: seq<Probe>) returns (kept: seq<Probe>)
    ensures IsUnique(probes, kept)
  {
    kept := [];
    var seen: set<string> := {};
    for n := 0 to |probes|
      invariant forall ip :: ip in seen <==> HasProbeWithIp(probes[..n], ip)
      invariant IsUnique(probes[..n], kept)
    {
      assert probes[..n + 1] == probes[..n] + [probes[n]];
      UniqueOneMore(probes[..n], kept, probes[n]);
      SeenOneMore(probes[..n], probes[n]);
      if probes[n].ip !in seen {
        kept := kept + [probes[n]];
      }
      seen := seen + {probes[n].ip};
    }
    assert probes[..|probes|] == probes;
  }

  lemma SeenOneMore(probes: seq<Probe>, p: Probe)
    ensures forall ip :: HasProbeWithIp(probes + [p], ip) <==> HasProbeWithIp(probes, ip) || ip == p.ip
  {
    forall ip ensures HasProbeWithIp(probes + [p], ip) <==> HasProbeWithIp(probes, ip) || ip == p.ip {
      assert p in probes + [p];
      if HasProbeWithIp(probes, ip) {
        var q :| q in probes && q.ip == ip;
        assert q in probes + [p];
      }
    }
  }

  ghost predicate UniqueUuidsAndAltIps(probes: seq<Probe>) {
    forall p, q :: p in probes && q in probes && p != q ==> p.uuid != q.uuid && forall x :: x in p.altIps ==> x !in q.altIps
  }

  lemma KeptAreApart(kept: seq<Probe>, probes: seq<Probe>)
    requires UniqueUuidsAndAltIps(probes) && IsUnique(probes, kept)
    ensures AllApart(kept)
  {
    forall p | p in kept ensures p in probes {
      assert IsFirstOfIp(probes, p);
    }
  }

  /** The matching of rows with probes of different IPs. */
  method MatchWith(dProbes: seq<DProbe>, probes: seq<Probe>)
    returns (matched: seq<Match>, rest: seq<DProbe>, left: set<Probe>, ghost levels: seq<nat>)
    ensures multiset(dProbes) == multiset(RowsOf(matched)) + multiset(rest)
    ensures OneRowEach(matched) && MatchedAtLevels(probes, matched, levels)
    ensures forall p :: p in left ==> p in probes && Free(matched, p)
    ensures AllApart(probes) ==>
              && Stable(LAST, probes, rest, matched, levels) && InOrder(LAST, dProbes, rest, matched, levels)
              && forall p :: p in probes && Free(matched, p) ==> p in left
  {
    var matcher := new Matcher(probes);
    rest, left := matcher.MatchRows(dProbes);
    matched, levels := matcher.dProbesWithProbe, matcher.levels;
  }

  method MatchDProbesAndProbes(dProbes: seq<DProbe>, probes: seq<Probe>)
    returns (matched: seq<Match>, rest: seq<DProbe>, left: set<Probe>, ghost kept: seq<Probe>, ghost levels: seq<nat>)
    ensures multiset(dProbes) == multiset(RowsOf(matched)) + multiset(rest)
    ensures IsUnique(probes, kept) && OneRowEach(matched) && MatchedAtLevels(kept, matched, levels)
    ensures forall p :: p in left ==> p in kept && Free(matched, p)
    ensures UniqueUuidsAndAltIps(probes) ==>
              && Stable(LAST, kept, rest, matched, levels)
              && NobodyIsPassedOver(kept, rest, matched)
              && PrioritiesKept(dProbes, kept, rest, matched)
              && forall p :: p in kept && Free(matched, p) ==> p in left
  {
    var unique := UniqueByIp(probes);
    kept := unique;
    matched, rest, left, levels := MatchWith(dProbes, unique);
    if UniqueUuidsAndAltIps(probes) {
      KeptAreApart(kept, probes);
      StableMeansNobodyIsPassedOver(kept, rest, matched, levels);
      StableKeepsPriorities(dProbes, kept, rest, matched, levels);
    }
  }
}
