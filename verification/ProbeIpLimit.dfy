/** Limits on the addresses of connected probes: the pass that disconnects, and the checks before a probe is admitted. */
module ProbeIpLimit {
  import opened Common
  import opened Sorting

  /** Socket ids, numbered in the order of the strings. */
  type SocketId = nat

  /** An IPv6 address is split after its first 64 bits. */
  datatype Ip = V4(address: nat) | Mapped(address: nat) | V6(prefix: nat, suffix: nat)

  datatype IpKey = Address(address: nat) | Range64(prefix: nat)

  function KeyOf(ip: Ip): IpKey {
    match ip
    case V4(a) => Address(a)
    case Mapped(a) => Address(a)
    case V6(prefix, _) => Range64(prefix)
  }

  /** An IPv4 address has its key to itself, mapped into IPv6 or not; IPv6 addresses share it if their first 64 bits agree. */
  lemma SameKeyMeans(a: Ip, b: Ip)
    ensures KeyOf(a) == KeyOf(b) <==> if a.V6? then b.V6? && a.prefix == b.prefix else !b.V6? && a.address == b.address
    ensures KeyOf(a).Range64? <==> a.V6?
  {
  }

  /** `owner` is the user to whom the adoption token or the dashboard row belongs. */
  datatype Probe = Probe(client: SocketId, ip: Ip, altIps: seq<Ip>, owner: Option<string>, asn: nat, city: string)

  datatype Place = Place(owner: string, asn: nat, city: string)

  predicate Holds(p: Probe, ip: Ip) {
    ip == p.ip || ip in p.altIps
  }

  predicate InRange(p: Probe, key: IpKey) {
    key == KeyOf(p.ip) || exists ip :: ip in p.altIps && KeyOf(ip) == key
  }

  predicate At(p: Probe, place: Place) {
    p.owner == Some(place.owner) && p.asn == place.asn && p.city == place.city
  }

  function Holders(probes: seq<Probe>, ip: Ip): set<SocketId> {
    set p | p in probes && Holds(p, ip) :: p.client
  }

  function PrimaryHolders(probes: seq<Probe>, ip: Ip): set<SocketId> {
    set p | p in probes && p.ip == ip :: p.client
  }

  function RangeHolders(probes: seq<Probe>, key: IpKey): set<SocketId> {
    set p | p in probes && InRange(p, key) :: p.client
  }

  function PrimaryRangeHolders(probes: seq<Probe>, key: IpKey): set<SocketId> {
    set p | p in probes && KeyOf(p.ip) == key :: p.client
  }

  function KeyHolders(probes: seq<Probe>, place: Place, key: IpKey): set<SocketId> {
    set p | p in probes && At(p, place) && KeyOf(p.ip) == key :: p.client
  }

  function KeysAt(probes: seq<Probe>, place: Place): set<IpKey> {
    set p | p in probes && At(p, place) :: KeyOf(p.ip)
  }

  // ---------------------------------------------------------------- the limits

  ghost predicate DistinctClients(probes: seq<Probe>) {
    forall i, j :: 0 <= i < j < |probes| ==> probes[i].client != probes[j].client
  }

  ghost predicate NoSharedIp(probes: seq<Probe>) {
    forall p, q, ip :: p in probes && q in probes && p != q && Holds(p, ip) ==> !Holds(q, ip)
  }

  ghost predicate PrimariesAlone(probes: seq<Probe>) {
    forall p, q :: p in probes && q in probes && p != q && KeyOf(p.ip).Range64? ==> !InRange(q, KeyOf(p.ip))
  }

  ghost predicate FewKeysEach(probes: seq<Probe>, asnCityPerUser: nat) {
    forall place :: |KeysAt(probes, place)| <= asnCityPerUser
  }

  ghost predicate WithinLimits(probes: seq<Probe>, asnCityPerUser: nat) {
    NoSharedIp(probes) && PrimariesAlone(probes) && FewKeysEach(probes, asnCityPerUser)
  }

  function Survivors(probes: seq<Probe>, gone: set<SocketId>): seq<Probe> {
    if probes == [] then []
    else Survivors(probes[..|probes| - 1], gone) + if probes[|probes| - 1].client in gone then [] else [probes[|probes| - 1]]
  }

  lemma {:induction false} SurvivorsAre(probes: seq<Probe>, gone: set<SocketId>)
    ensures forall p :: p in Survivors(probes, gone) <==> p in probes && p.client !in gone
  {
    if probes != [] {
      SurvivorsAre(probes[..|probes| - 1], gone);
      assert probes == probes[..|probes| - 1] + [probes[|probes| - 1]];
    }
  }

  lemma {:induction false} SurvivorsAreDistinct(probes: seq<Probe>, gone: set<SocketId>)
    requires DistinctClients(probes)
    ensures DistinctClients(Survivors(probes, gone))
  {
    if probes != [] {
      var init, last := probes[..|probes| - 1], probes[|probes| - 1];
      SurvivorsAreDistinct(init, gone);
      SurvivorsAre(init, gone);
      forall p | p in init ensures p.client != last.client {
        var i :| 0 <= i < |init| && init[i] == p;
        assert probes[i] == p;
      }
    }
  }

  lemma SameClientSameProbe(probes: seq<Probe>, p: Probe, q: Probe)
    requires DistinctClients(probes) && p in probes && q in probes && p.client == q.client
    ensures p == q
  {
  }

  // ---------------------------------------------------------------- what each pass leaves

  /** At most one client is left of these. */
  ghost predicate OneLeft(clients: set<SocketId>, gone: set<SocketId>) {
    forall c, d :: c in clients && d in clients && c !in gone && d !in gone ==> c == d
  }

  ghost predicate RangeSettled(probes: seq<Probe>, key: IpKey, gone: set<SocketId>) {
    PrimaryRangeHolders(probes, key) <= gone || OneLeft(RangeHolders(probes, key), gone)
  }

  function LiveKeys(probes: seq<Probe>, place: Place, gone: set<SocketId>): set<IpKey> {
    set p | p in probes && At(p, place) && p.client !in gone :: KeyOf(p.ip)
  }

  ghost predicate PlaceSettled(probes: seq<Probe>, place: Place, gone: set<SocketId>, asnCityPerUser: nat) {
    |LiveKeys(probes, place, gone)| <= asnCityPerUser
  }

  lemma SettledStays(probes: seq<Probe>, key: IpKey, place: Place, clients: set<SocketId>, gone: set<SocketId>, more: set<SocketId>, n: nat)
    requires gone <= more
    ensures OneLeft(clients, gone) ==> OneLeft(clients, more)
    ensures RangeSettled(probes, key, gone) ==> RangeSettled(probes, key, more)
    ensures PlaceSettled(probes, place, gone, n) ==> PlaceSettled(probes, place, more, n)
  {
    assert LiveKeys(probes, place, more) <= LiveKeys(probes, place, gone);
    SubsetSize(LiveKeys(probes, place, more), LiveKeys(probes, place, gone));
  }

  lemma SettledMeansWithinLimits(probes: seq<Probe>, gone: set<SocketId>, n: nat)
    requires DistinctClients(probes)
    requires forall ip :: OneLeft(Holders(probes, ip), gone)
    requires forall key: IpKey :: key.Range64? ==> RangeSettled(probes, key, gone)
    requires forall place :: PlaceSettled(probes, place, gone, n)
    ensures WithinLimits(Survivors(probes, gone), n)
  {
    SurvivorsAre(probes, gone);
    var left := Survivors(probes, gone);
    forall p, q, ip | p in left && q in left && p != q && Holds(p, ip) ensures !Holds(q, ip) {
      assert OneLeft(Holders(probes, ip), gone);
      if Holds(q, ip) {
        assert p.client in Holders(probes, ip) && q.client in Holders(probes, ip);
        SameClientSameProbe(probes, p, q);
      }
    }
    forall p, q | p in left && q in left && p != q && KeyOf(p.ip).Range64? ensures !InRange(q, KeyOf(p.ip)) {
      var key := KeyOf(p.ip);
      assert RangeSettled(probes, key, gone);
      assert p.client in PrimaryRangeHolders(probes, key) && p.client in RangeHolders(probes, key);
      if InRange(q, key) {
        assert q.client in RangeHolders(probes, key);
        SameClientSameProbe(probes, p, q);
      }
    }
    forall place ensures |KeysAt(left, place)| <= n {
      assert PlaceSettled(probes, place, gone, n);
      assert KeysAt(left, place) == LiveKeys(probes, place, gone);
    }
  }

  // ---------------------------------------------------------------- only for a reason

  ghost predicate SharesIp(probes: seq<Probe>, c: SocketId) {
    exists ip, d :: c in Holders(probes, ip) && d in Holders(probes, ip) && c != d
  }

  ghost predicate PrimaryNotAlone(probes: seq<Probe>, c: SocketId) {
    exists key: IpKey, d :: key.Range64? && c in PrimaryRangeHolders(probes, key) && d in RangeHolders(probes, key) && c != d
  }

  ghost predicate TooManyKeys(probes: seq<Probe>, c: SocketId, n: nat) {
    exists place, key :: c in KeyHolders(probes, place, key) && |KeysAt(probes, place)| > n
  }

  /** Another holder of the IP comes before: one that has it as an alternative IP before one that has it as its primary IP, then the lower socket id. */
  ghost predicate GivesWay(probes: seq<Probe>, ip: Ip, c: SocketId, d: SocketId) {
    && c in Holders(probes, ip) && d in Holders(probes, ip) && c != d
    && if d in PrimaryHolders(probes, ip) then c in PrimaryHolders(probes, ip) && d < c
       else c in PrimaryHolders(probes, ip) || d < c
  }

  ghost predicate LosesAnIp(probes: seq<Probe>, c: SocketId) {
    exists ip, d :: GivesWay(probes, ip, c, d)
  }

  /** In a range of its primary IP there is a client with an alternative IP, or one with a primary IP and a lower socket id. */
  ghost predicate Crowded(probes: seq<Probe>, gone: set<SocketId>, c: SocketId) {
    exists key: IpKey, d :: key.Range64? && c in PrimaryRangeHolders(probes, key) && d in RangeHolders(probes, key) - gone && c != d &&
                            (d in PrimaryRangeHolders(probes, key) ==> d < c)
  }

  ghost predicate LowerHolder(probes: seq<Probe>, place: Place, gone: set<SocketId>, key: IpKey, c: SocketId) {
    exists d :: d in KeyHolders(probes, place, key) - gone && d < c
  }

  ghost predicate AreLower(probes: seq<Probe>, place: Place, gone: set<SocketId>, keys: set<IpKey>, c: SocketId) {
    forall key :: key in keys ==> LowerHolder(probes, place, gone, key, c)
  }

  /** `n` other keys of the place have clients with lower socket ids. */
  ghost predicate Outnumbered(probes: seq<Probe>, gone: set<SocketId>, c: SocketId, n: nat) {
    exists place, key, keys :: c in KeyHolders(probes, place, key) && key !in keys && |keys| == n && AreLower(probes, place, gone, keys, c)
  }

  lemma OutnumberedHasTooMany(probes: seq<Probe>, gone: set<SocketId>, c: SocketId, n: nat)
    requires Outnumbered(probes, gone, c, n)
    ensures TooManyKeys(probes, c, n)
  {
    var place, key, keys :| c in KeyHolders(probes, place, key) && key !in keys && |keys| == n && AreLower(probes, place, gone, keys, c);
    forall k | k in keys + {key} ensures k in KeysAt(probes, place) {
      assert k in keys ==> LowerHolder(probes, place, gone, k, c);
    }
    SubsetSize(keys + {key}, KeysAt(probes, place));
  }

  ghost predicate HasReason(probes: seq<Probe>, c: SocketId, n: nat) {
    SharesIp(probes, c) || PrimaryNotAlone(probes, c) || TooManyKeys(probes, c, n)
  }

  lemma WithinLimitsGivesNoReason(probes: seq<Probe>, c: SocketId, n: nat)
    requires WithinLimits(probes, n)
    ensures !HasReason(probes, c, n)
  {
    forall ip, d | c in Holders(probes, ip) && d in Holders(probes, ip) ensures c == d {
      var p :| p in probes && Holds(p, ip) && p.client == c;
      var q :| q in probes && Holds(q, ip) && q.client == d;
      assert p == q;
    }
    forall key: IpKey, d | key.Range64? && c in PrimaryRangeHolders(probes, key) && d in RangeHolders(probes, key) ensures c == d {
      var p :| p in probes && KeyOf(p.ip) == key && p.client == c;
      var q :| q in probes && InRange(q, key) && q.client == d;
      assert p == q;
    }
  }

  // ---------------------------------------------------------------- the indexes

  function Get<K>(m: map<K, set<SocketId>>, k: K): set<SocketId> {
    if k in m then m[k] else {}
  }

  function With(ids: set<SocketId>, c: SocketId, added: bool): set<SocketId> {
    if added then ids + {c} else ids
  }

  function AddToSet<K>(m: map<K, set<SocketId>>, k: K, c: SocketId): map<K, set<SocketId>> {
    m[k := Get(m, k) + {c}]
  }

  lemma AddToSetAt<K>(m: map<K, set<SocketId>>, k: K, c: SocketId, x: K)
    ensures Get(AddToSet(m, k, c), x) == With(Get(m, x), c, x == k)
  {
  }

  /** The four indexes of the pass. */
  datatype Indexes = Indexes(ips: map<Ip, set<SocketId>>, primaryIps: map<Ip, set<SocketId>>,
                             ranges: map<IpKey, set<SocketId>>, primaryRanges: map<IpKey, set<SocketId>>)

  ghost predicate IndexesIps(x: Indexes, probes: seq<Probe>) {
    forall ip :: Get(x.ips, ip) == Holders(probes, ip) && Get(x.primaryIps, ip) == PrimaryHolders(probes, ip)
  }

  ghost predicate IndexesRanges(x: Indexes, probes: seq<Probe>) {
    forall key :: Get(x.ranges, key) == RangeHolders(probes, key) && Get(x.primaryRanges, key) == PrimaryRangeHolders(probes, key)
  }

  lemma HoldersOfOneMore(probes: seq<Probe>, p: Probe, ip: Ip)
    ensures Holders(probes + [p], ip) == With(Holders(probes, ip), p.client, Holds(p, ip))
    ensures PrimaryHolders(probes + [p], ip) == With(PrimaryHolders(probes, ip), p.client, p.ip == ip)
  {
    assert forall q :: q in probes + [p] <==> q in probes || q == p;
  }

  lemma RangeHoldersOfOneMore(probes: seq<Probe>, p: Probe, key: IpKey)
    ensures RangeHolders(probes + [p], key) == With(RangeHolders(probes, key), p.client, InRange(p, key))
    ensures PrimaryRangeHolders(probes + [p], key) == With(PrimaryRangeHolders(probes, key), p.client, KeyOf(p.ip) == key)
  {
    assert forall q :: q in probes + [p] <==> q in probes || q == p;
  }

  function AddUnderAll<K>(m: map<K, set<SocketId>>, keys: seq<K>, c: SocketId): map<K, set<SocketId>> {
    if keys == [] then m else AddToSet(AddUnderAll(m, keys[..|keys| - 1], c), keys[|keys| - 1], c)
  }

  lemma {:induction false} AddUnderAllAt<K>(m: map<K, set<SocketId>>, keys: seq<K>, c: SocketId, x: K)
    ensures Get(AddUnderAll(m, keys, c), x) == With(Get(m, x), c, x in keys)
  {
    if keys != [] {
      AddUnderAllAt(m, keys[..|keys| - 1], c, x);
      assert keys == keys[..|keys| - 1] + [keys[|keys| - 1]];
    }
  }

  function KeysOf(ips: seq<Ip>): seq<IpKey> {
    if ips == [] then [] else KeysOf(ips[..|ips| - 1]) + [KeyOf(ips[|ips| - 1])]
  }

  lemma {:induction false} KeysOfHas(ips: seq<Ip>, key: IpKey)
    ensures key in KeysOf(ips) <==> exists ip :: ip in ips && KeyOf(ip) == key
  {
    if ips != [] {
      KeysOfHas(ips[..|ips| - 1], key);
      assert ips == ips[..|ips| - 1] + [ips[|ips| - 1]];
    }
  }

  /** The loop over the alternative IPs of a probe. */
  method IndexAltIps(ips0: map<Ip, set<SocketId>>, ranges0: map<IpKey, set<SocketId>>, altIps: seq<Ip>, c: SocketId)
    returns (ips: map<Ip, set<SocketId>>, ranges: map<IpKey, set<SocketId>>)
    ensures ips == AddUnderAll(ips0, altIps, c) && ranges == AddUnderAll(ranges0, KeysOf(altIps), c)
  {
    ips, ranges := ips0, ranges0;
    for i := 0 to |altIps|
      invariant ips == AddUnderAll(ips0, altIps[..i], c) && ranges == AddUnderAll(ranges0, KeysOf(altIps[..i]), c)
    {
      assert altIps[..i + 1][..i] == altIps[..i];
      assert KeysOf(altIps[..i + 1]) == KeysOf(altIps[..i]) + [KeyOf(altIps[i])];
      assert KeysOf(altIps[..i + 1])[..|KeysOf(altIps[..i])|] == KeysOf(altIps[..i]);
      ips := AddToSet(ips, altIps[i], c);
      ranges := AddToSet(ranges, KeyOf(altIps[i]), c);
    }
    assert altIps[..|altIps|] == altIps;
  }

  /** One probe's addresses, put into the indexes. */
  method IndexProbe(x: Indexes, p: Probe) returns (x': Indexes)
    ensures forall ip :: Get(x'.ips, ip) == With(Get(x.ips, ip), p.client, Holds(p, ip))
    ensures forall ip :: Get(x'.primaryIps, ip) == With(Get(x.primaryIps, ip), p.client, p.ip == ip)
    ensures forall key :: Get(x'.ranges, key) == With(Get(x.ranges, key), p.client, InRange(p, key))
    ensures forall key :: Get(x'.primaryRanges, key) == With(Get(x.primaryRanges, key), p.client, KeyOf(p.ip) == key)
  {
    var ips0, ranges0 := AddToSet(x.ips, p.ip, p.client), AddToSet(x.ranges, KeyOf(p.ip), p.client);
    var ips, ranges := IndexAltIps(ips0, ranges0, p.altIps, p.client);
    x' := Indexes(ips, AddToSet(x.primaryIps, p.ip, p.client), ranges, AddToSet(x.primaryRanges, KeyOf(p.ip), p.client));
    forall ip ensures Get(ips, ip) == With(Get(x.ips, ip), p.client, Holds(p, ip)) {
      AddToSetAt(x.ips, p.ip, p.client, ip);
      AddUnderAllAt(ips0, p.altIps, p.client, ip);
    }
    forall key ensures Get(ranges, key) == With(Get(x.ranges, key), p.client, InRange(p, key)) {
      AddToSetAt(x.ranges, KeyOf(p.ip), p.client, key);
      AddUnderAllAt(ranges0, KeysOf(p.altIps), p.client, key);
      KeysOfHas(p.altIps, key);
    }
  }

  method IndexIpsForSync(probes: seq<Probe>) returns (x: Indexes)
    ensures IndexesIps(x, probes) && IndexesRanges(x, probes)
  {
    x := Indexes(map[], map[], map[], map[]);
    for i := 0 to |probes|
      invariant IndexesIps(x, probes[..i]) && IndexesRanges(x, probes[..i])
    {
      var before := x;
      x := IndexProbe(x, probes[i]);
      IndexedOneMore(before, x, probes[..i], probes[i]);
      assert probes[..i + 1] == probes[..i] + [probes[i]];
    }
    assert probes[..|probes|] == probes;
  }

  lemma IndexedOneMore(x: Indexes, x': Indexes, probes: seq<Probe>, p: Probe)
    requires IndexesIps(x, probes) && IndexesRanges(x, probes)
    requires forall ip :: Get(x'.ips, ip) == With(Get(x.ips, ip), p.client, Holds(p, ip))
    requires forall ip :: Get(x'.primaryIps, ip) == With(Get(x.primaryIps, ip), p.client, p.ip == ip)
    requires forall key :: Get(x'.ranges, key) == With(Get(x.ranges, key), p.client, InRange(p, key))
    requires forall key :: Get(x'.primaryRanges, key) == With(Get(x.primaryRanges, key), p.client, KeyOf(p.ip) == key)
    ensures IndexesIps(x', probes + [p]) && IndexesRanges(x', probes + [p])
  {
    forall ip ensures Get(x'.ips, ip) == Holders(probes + [p], ip) && Get(x'.primaryIps, ip) == PrimaryHolders(probes + [p], ip) {
      HoldersOfOneMore(probes, p, ip);
    }
    forall key ensures Get(x'.ranges, key) == RangeHolders(probes + [p], key) && Get(x'.primaryRanges, key) == PrimaryRangeHolders(probes + [p], key) {
      RangeHoldersOfOneMore(probes, p, key);
    }
  }

  // ---------------------------------------------------------------- the first two passes

  predicate IsLowest(ids: set<SocketId>, low: SocketId) {
    low in ids && forall c :: c in ids ==> low <= c
  }

  lemma {:induction false} HasLowest(ids: set<SocketId>)
    requires ids != {}
    ensures exists low :: IsLowest(ids, low)
  {
    var c :| c in ids;
    var rest := ids - {c};
    var low := c;
    if rest != {} {
      HasLowest(rest);
      var other :| IsLowest(rest, other);
      low := if c < other then c else other;
    }
    forall d | d in ids ensures low <= d {
      assert d == c || d in rest;
    }
    assert IsLowest(ids, low);
  }

  function LowestSocketId(ids: set<SocketId>): (low: SocketId)
    requires ids != {}
    ensures IsLowest(ids, low)
  {
    HasLowest(ids);
    var low :| low in ids && IsLowest(ids, low);
    low
  }

  /** An alternative IP holder is preferred. */
  function Survivor(clients: set<SocketId>, primaries: set<SocketId>): SocketId
    requires clients != {}
  {
    LowestSocketId(if clients - primaries != {} then clients - primaries else clients)
  }

  function ExactLosers(probes: seq<Probe>, ip: Ip): set<SocketId> {
    if |Holders(probes, ip)| <= 1 then {} else Holders(probes, ip) - {Survivor(Holders(probes, ip), PrimaryHolders(probes, ip))}
  }

  /** The losers of an IP are those that give way to somebody. */
  lemma LosersGiveWay(probes: seq<Probe>, ip: Ip, c: SocketId)
    ensures c in ExactLosers(probes, ip) <==> exists d :: GivesWay(probes, ip, c, d)
  {
    var clients, primaries := Holders(probes, ip), PrimaryHolders(probes, ip);
    if c in ExactLosers(probes, ip) {
      assert GivesWay(probes, ip, c, Survivor(clients, primaries)) by {
        assert primaries <= clients;
      }
    }
    if d :| GivesWay(probes, ip, c, d) {
      SubsetSize({c, d}, clients);
      assert d in clients - primaries || clients - primaries == {} || c in primaries;
    }
  }

  lemma FewClients(clients: set<SocketId>, gone: set<SocketId>)
    requires |clients - gone| <= 1
    ensures OneLeft(clients, gone)
  {
    forall c, d | c in clients && d in clients && c !in gone && d !in gone ensures c == d {
      if c != d {
        SubsetSize({c, d}, clients - gone);
      }
    }
  }

  /** Every client that loses an IP to another one. */
  method DisconnectExactDuplicates(x: Indexes, probes: seq<Probe>) returns (gone: set<SocketId>)
    requires IndexesIps(x, probes)
    ensures forall c :: c in gone <==> LosesAnIp(probes, c)
    ensures forall ip :: OneLeft(Holders(probes, ip), gone)
  {
    gone := {};
    var keys := x.ips.Keys;
    while keys != {}
      invariant keys <= x.ips.Keys
      invariant forall c :: c in gone ==> LosesAnIp(probes, c)
      invariant forall ip :: ip in x.ips && ip !in keys ==> ExactLosers(probes, ip) <= gone
    {
      var ip :| ip in keys;
      keys := keys - {ip};
      assert Get(x.ips, ip) == Holders(probes, ip) && Get(x.primaryIps, ip) == PrimaryHolders(probes, ip);
      var clients := x.ips[ip];
      if |clients| > 1 {
        var survivor := Survivor(clients, Get(x.primaryIps, ip));
        assert ExactLosers(probes, ip) == clients - {survivor};
        forall c | c in clients - {survivor} ensures LosesAnIp(probes, c) {
          LosersGiveWay(probes, ip, c);
        }
        gone := gone + (clients - {survivor});
      }
    }
    forall ip ensures ExactLosers(probes, ip) <= gone && OneLeft(Holders(probes, ip), gone) {
      assert Get(x.ips, ip) == Holders(probes, ip);
      if ip in x.ips && |Holders(probes, ip)| <= 1 {
        SubsetSize(Holders(probes, ip) - gone, Holders(probes, ip));
        FewClients(Holders(probes, ip), gone);
      }
    }
    forall c | LosesAnIp(probes, c) ensures c in gone {
      var ip, d :| GivesWay(probes, ip, c, d);
      LosersGiveWay(probes, ip, c);
    }
  }

  /** Who goes in one range, given who is gone already. */
  function RangeLosers(clients: set<SocketId>, primaries: set<SocketId>): set<SocketId>
    requires primaries <= clients
  {
    if |clients| <= 1 || primaries == {} then {}
    else if |clients| > |primaries| then primaries
    else primaries - {LowestSocketId(primaries)}
  }

  lemma PrimariesAreInRange(probes: seq<Probe>, key: IpKey)
    ensures PrimaryRangeHolders(probes, key) <= RangeHolders(probes, key)
  {
  }

  lemma RangeLosersSettle(probes: seq<Probe>, key: IpKey, gone: set<SocketId>, live: set<SocketId>, primaries: set<SocketId>)
    requires live == RangeHolders(probes, key) - gone && primaries == PrimaryRangeHolders(probes, key) - gone && primaries <= live
    ensures RangeSettled(probes, key, gone + RangeLosers(live, primaries))
  {
    var all, losers := RangeHolders(probes, key), RangeLosers(live, primaries);
    if |live| <= 1 {
      assert all - (gone + losers) == live;
      FewClients(all, gone + losers);
    } else if primaries != {} && |live| == |primaries| {
      SameSize(primaries, live);
      assert all - (gone + losers) == {LowestSocketId(primaries)};
      FewClients(all, gone + losers);
    } else if primaries != {} {
      SubsetSize(primaries, live);
    }
  }

  lemma RangeLosersAreNotAlone(probes: seq<Probe>, key: IpKey, gone: set<SocketId>, live: set<SocketId>, primaries: set<SocketId>, c: SocketId)
    requires live == RangeHolders(probes, key) - gone && primaries == PrimaryRangeHolders(probes, key) - gone && primaries <= live
    requires key.Range64? && c in RangeLosers(live, primaries)
    ensures Crowded(probes, gone, c)
  {
    if |live| > |primaries| {
      if live <= primaries {
        SubsetSize(live, primaries);
      }
      var d :| d in live && d !in primaries;
      assert d in RangeHolders(probes, key) - gone && d !in PrimaryRangeHolders(probes, key);
    } else {
      var d := LowestSocketId(primaries);
      assert d in RangeHolders(probes, key) - gone && d < c;
    }
  }

  lemma SameSize<T>(a: set<T>, b: set<T>)
    requires a <= b && |a| == |b|
    ensures a == b
  {
    assert b == a + (b - a);
    assert |b - a| == 0;
  }

  lemma CrowdedBefore(probes: seq<Probe>, gone0: set<SocketId>, gone: set<SocketId>, c: SocketId)
    requires gone0 <= gone && Crowded(probes, gone, c)
    ensures Crowded(probes, gone0, c)
  {
  }

  method DisconnectRangeDuplicates(x: Indexes, probes: seq<Probe>, gone0: set<SocketId>) returns (gone: set<SocketId>)
    requires IndexesRanges(x, probes) && DistinctClients(probes)
    ensures gone0 <= gone && forall c :: c in gone ==> c in gone0 || Crowded(probes, gone0, c)
    ensures forall key: IpKey :: key.Range64? ==> RangeSettled(probes, key, gone)
  {
    gone := gone0;
    var keys := x.ranges.Keys;
    while keys != {}
      invariant keys <= x.ranges.Keys
      invariant gone0 <= gone && forall c :: c in gone ==> c in gone0 || Crowded(probes, gone0, c)
      invariant forall key :: key in x.ranges && key !in keys && key.Range64? ==> RangeSettled(probes, key, gone)
    {
      var key :| key in keys;
      keys := keys - {key};
      if key.Range64? {
        assert Get(x.ranges, key) == RangeHolders(probes, key) && Get(x.primaryRanges, key) == PrimaryRangeHolders(probes, key);
        PrimariesAreInRange(probes, key);
        var before, live, primaries := gone, x.ranges[key] - gone, Get(x.primaryRanges, key) - gone;
        RangeLosersSettle(probes, key, gone, live, primaries);
        forall c | c in RangeLosers(live, primaries) ensures Crowded(probes, gone0, c) {
          RangeLosersAreNotAlone(probes, key, gone, live, primaries, c);
          CrowdedBefore(probes, gone0, gone, c);
        }
        gone := gone + RangeLosers(live, primaries);
        forall k | RangeSettled(probes, k, before) ensures RangeSettled(probes, k, gone) {
          SettledStays(probes, k, Place("", 0, ""), {}, before, gone, 0);
        }
      }
    }
    forall key: IpKey | key !in x.ranges ensures RangeSettled(probes, key, gone) {
      assert Get(x.ranges, key) == RangeHolders(probes, key);
    }
  }

  // ---------------------------------------------------------------- the pass over users, networks and cities

  function GroupsAt(m: map<Place, map<IpKey, set<SocketId>>>, place: Place): map<IpKey, set<SocketId>> {
    if place in m then m[place] else map[]
  }

  ghost predicate IndexesPlaces(m: map<Place, map<IpKey, set<SocketId>>>, probes: seq<Probe>) {
    forall place, key :: Get(GroupsAt(m, place), key) == KeyHolders(probes, place, key)
  }

  lemma KeyHoldersOfOneMore(probes: seq<Probe>, p: Probe, place: Place, key: IpKey)
    ensures KeyHolders(probes + [p], place, key) == With(KeyHolders(probes, place, key), p.client, At(p, place) && KeyOf(p.ip) == key)
  {
    assert forall q :: q in probes + [p] <==> q in probes || q == p;
  }

  method IndexAsnCity(probes: seq<Probe>) returns (m: map<Place, map<IpKey, set<SocketId>>>)
    ensures IndexesPlaces(m, probes)
  {
    m := map[];
    for i := 0 to |probes|
      invariant IndexesPlaces(m, probes[..i])
    {
      var p := probes[i];
      var before := m;
      if p.owner.Some? {
        var place := Place(p.owner.value, p.asn, p.city);
        m := m[place := AddToSet(GroupsAt(m, place), KeyOf(p.ip), p.client)];
      }
      assert probes[..i + 1] == probes[..i] + [p];
      forall place, key ensures Get(GroupsAt(m, place), key) == KeyHolders(probes[..i + 1], place, key) {
        KeyHoldersOfOneMore(probes[..i], p, place, key);
        AddToSetAt(GroupsAt(before, place), KeyOf(p.ip), p.client, key);
        assert Get(GroupsAt(before, place), key) == KeyHolders(probes[..i], place, key);
      }
    }
    assert probes[..|probes|] == probes;
  }

  datatype KeyGroup = KeyGroup(key: IpKey, live: set<SocketId>)

  ghost predicate AreGroups(list: seq<KeyGroup>, groups: map<IpKey, set<SocketId>>, gone: set<SocketId>) {
    && (forall i :: 0 <= i < |list| ==> list[i].live == Get(groups, list[i].key) - gone && list[i].live != {})
    && (forall i, j :: 0 <= i < j < |list| ==> list[i].key != list[j].key)
    && (forall key :: Get(groups, key) - gone != {} ==> exists i :: 0 <= i < |list| && list[i].key == key)
  }

  method LiveGroups(groups: map<IpKey, set<SocketId>>, gone: set<SocketId>) returns (list: seq<KeyGroup>)
    ensures AreGroups(list, groups, gone)
  {
    list := [];
    var keys := groups.Keys;
    while keys != {}
      invariant keys <= groups.Keys
      invariant forall i :: 0 <= i < |list| ==> list[i].key in groups && list[i].key !in keys && list[i].live == groups[list[i].key] - gone != {}
      invariant forall i, j :: 0 <= i < j < |list| ==> list[i].key != list[j].key
      invariant forall key :: key in groups && key !in keys && groups[key] - gone != {} ==> exists i :: 0 <= i < |list| && list[i].key == key
    {
      var key :| key in keys;
      keys := keys - {key};
      ghost var before := list;
      if groups[key] - gone != {} {
        list := list + [KeyGroup(key, groups[key] - gone)];
        assert list[|before|].key == key;
      }
      assert forall i :: 0 <= i < |before| ==> list[i] == before[i];
    }
  }

  predicate NotAfter(g: KeyGroup, h: KeyGroup) {
    g.live == {} || h.live == {} || LowestSocketId(g.live) <= LowestSocketId(h.live)
  }

  /** Groups that have clients can be compared. */
  lemma GroupsCompare(list: seq<KeyGroup>)
    requires forall h :: h in list ==> h.live != {}
    ensures Compares(NotAfter, list)
  {
  }

  function Clients(list: seq<KeyGroup>): set<SocketId> {
    set i, c | 0 <= i < |list| && c in list[i].live :: c
  }

  function KeysIn(list: seq<KeyGroup>): set<IpKey> {
    set i | 0 <= i < |list| :: list[i].key
  }

  lemma {:induction false} KeysInSize(list: seq<KeyGroup>)
    ensures |KeysIn(list)| <= |list|
    ensures (forall i, j :: 0 <= i < j < |list| ==> list[i].key != list[j].key) ==> |KeysIn(list)| == |list|
  {
    if list != [] {
      var init := list[..|list| - 1];
      KeysInSize(init);
      assert KeysIn(list) == KeysIn(init) + {list[|list| - 1].key} by {
        forall key | key in KeysIn(list) ensures key in KeysIn(init) + {list[|list| - 1].key} {
          var i :| 0 <= i < |list| && list[i].key == key;
          assert i < |init| ==> init[i].key == key;
        }
        forall key | key in KeysIn(init) ensures key in KeysIn(list) {
          var i :| 0 <= i < |init| && init[i].key == key;
          assert list[i].key == key;
        }
      }
    }
  }

  lemma ClientDropped(sorted: seq<KeyGroup>, n: nat, j: nat, c: SocketId)
    requires n <= |sorted| && j < |sorted| && c in sorted[j].live
    ensures n <= j ==> c in Clients(sorted[n..])
  {
    if n <= j {
      assert sorted[n..][j - n] == sorted[j];
    }
  }

  /** Dropping the groups from `n` on leaves at most `n` keys. */
  lemma DroppedSettle(probes: seq<Probe>, place: Place, groups: map<IpKey, set<SocketId>>, list: seq<KeyGroup>,
                      gone: set<SocketId>, sorted: seq<KeyGroup>, n: nat)
    requires forall key :: Get(groups, key) == KeyHolders(probes, place, key)
    requires AreGroups(list, groups, gone) && multiset(sorted) == multiset(list) && n <= |sorted|
    ensures PlaceSettled(probes, place, gone + Clients(sorted[n..]), n)
  {
    var gone' := gone + Clients(sorted[n..]);
    forall key | key in LiveKeys(probes, place, gone') ensures key in KeysIn(sorted[..n]) {
      var p :| p in probes && At(p, place) && p.client !in gone' && KeyOf(p.ip) == key;
      assert p.client in KeyHolders(probes, place, key);
      assert p.client in Get(groups, key) - gone;
      var i :| 0 <= i < |list| && list[i].key == key;
      assert list[i] in multiset(sorted);
      var j :| 0 <= j < |sorted| && sorted[j] == list[i];
      ClientDropped(sorted, n, j, p.client);
      assert sorted[..n][j].key == key;
    }
    KeysInSize(sorted[..n]);
    SubsetSize(LiveKeys(probes, place, gone'), KeysIn(sorted[..n]));
  }

  lemma {:induction false} FirstKeys(sorted: seq<KeyGroup>, n: nat)
    requires n <= |sorted| && forall i, j :: 0 <= i < j < |sorted| ==> sorted[i].key != sorted[j].key
    ensures |KeysIn(sorted[..n])| == n && forall j :: n <= j < |sorted| ==> sorted[j].key !in KeysIn(sorted[..n])
  {
    KeysInSize(sorted[..n]);
  }

  /** The keys that stay have lower clients than the one that goes. */
  lemma DroppedAreOutnumbered(probes: seq<Probe>, place: Place, groups: map<IpKey, set<SocketId>>, gone: set<SocketId>,
                              sorted: seq<KeyGroup>, n: nat, c: SocketId)
    requires DistinctClients(probes) && forall key :: Get(groups, key) == KeyHolders(probes, place, key)
    requires AreGroups(sorted, groups, gone) && Ordered(NotAfter, sorted) && n <= |sorted| && c in Clients(sorted[n..])
    ensures Outnumbered(probes, gone, c, n)
  {
    var i :| 0 <= i < |sorted| - n && c in sorted[n..][i].live;
    var g := sorted[n + i];
    assert c in KeyHolders(probes, place, g.key);
    FirstKeys(sorted, n);
    var keys := KeysIn(sorted[..n]);
    forall key | key in keys ensures LowerHolder(probes, place, gone, key, c) {
      var j :| 0 <= j < n && sorted[..n][j].key == key;
      var h := sorted[j];
      var d := LowestSocketId(h.live);
      assert NotAfter(h, g) && d <= LowestSocketId(g.live) <= c;
      assert d in KeyHolders(probes, place, key) - gone;
      if d == c {
        OneKeyOfClient(probes, place, h.key, g.key, c);
      }
    }
    assert AreLower(probes, place, gone, keys, c);
  }

  lemma OneKeyOfClient(probes: seq<Probe>, place: Place, k: IpKey, l: IpKey, c: SocketId)
    requires DistinctClients(probes) && c in KeyHolders(probes, place, k) && c in KeyHolders(probes, place, l)
    ensures k == l
  {
    var p :| p in probes && At(p, place) && KeyOf(p.ip) == k && p.client == c;
    var q :| q in probes && At(q, place) && KeyOf(q.ip) == l && q.client == c;
    SameClientSameProbe(probes, p, q);
  }

  /** A key that loses clients does not have a lower socket id than a key that keeps some. */
  ghost predicate LowestFirst(groups: map<IpKey, set<SocketId>>, gone0: set<SocketId>, gone: set<SocketId>) {
    forall kept, lost :: Get(groups, kept) - gone != {} && (Get(groups, lost) - gone0) * gone != {} ==>
      NotAfter(KeyGroup(kept, Get(groups, kept) - gone0), KeyGroup(lost, Get(groups, lost) - gone0))
  }

  lemma SortedDropsHighest(groups: map<IpKey, set<SocketId>>, list: seq<KeyGroup>, gone: set<SocketId>, sorted: seq<KeyGroup>, n: nat)
    requires AreGroups(list, groups, gone) && Ordered(NotAfter, sorted) && (forall h :: h in sorted <==> h in list) && n <= |sorted|
    requires forall k, l, c :: k in groups && l in groups && c in groups[k] && c in groups[l] ==> k == l
    ensures LowestFirst(groups, gone, gone + Clients(sorted[n..]))
  {
    var gone' := gone + Clients(sorted[n..]);
    forall kept, lost | Get(groups, kept) - gone' != {} && (Get(groups, lost) - gone) * gone' != {}
      ensures NotAfter(KeyGroup(kept, Get(groups, kept) - gone), KeyGroup(lost, Get(groups, lost) - gone)) {
      var c :| c in Get(groups, kept) && c !in gone';
      assert c in Get(groups, kept) - gone;
      var i := PlaceInSorted(groups, list, gone, sorted, kept);
      ClientDropped(sorted, n, i, c);
      var d :| d in Get(groups, lost) && d !in gone && d in Clients(sorted[n..]);
      var j :| 0 <= j < |sorted| - n && d in sorted[n..][j].live;
      assert sorted[n + j] in list;
      assert sorted[n + j].key == lost;
    }
  }

  lemma OneKeyEach(probes: seq<Probe>, place: Place, groups: map<IpKey, set<SocketId>>, k: IpKey, l: IpKey, c: SocketId)
    requires DistinctClients(probes) && forall key :: Get(groups, key) == KeyHolders(probes, place, key)
    requires k in groups && l in groups && c in groups[k] && c in groups[l]
    ensures k == l
  {
    assert Get(groups, k) == KeyHolders(probes, place, k) && Get(groups, l) == KeyHolders(probes, place, l);
    OneKeyOfClient(probes, place, k, l, c);
  }

  lemma PlaceInSorted(groups: map<IpKey, set<SocketId>>, list: seq<KeyGroup>, gone: set<SocketId>, sorted: seq<KeyGroup>, key: IpKey) returns (i: nat)
    requires AreGroups(list, groups, gone) && (forall h :: h in sorted <==> h in list) && Get(groups, key) - gone != {}
    ensures i < |sorted| && sorted[i] == KeyGroup(key, Get(groups, key) - gone)
  {
    var k :| 0 <= k < |list| && list[k].key == key;
    assert list[k] in sorted;
    i :| 0 <= i < |sorted| && sorted[i] == list[k];
  }

  /** Sorting keeps the groups of different keys. */
  lemma SortedGroups(list: seq<KeyGroup>, sorted: seq<KeyGroup>, groups: map<IpKey, set<SocketId>>, gone: set<SocketId>)
    requires AreGroups(list, groups, gone) && multiset(sorted) == multiset(list)
    ensures AreGroups(sorted, groups, gone)
  {
    assert Distinct(list);
    SameMembers(list, sorted);
    forall i | 0 <= i < |sorted| ensures sorted[i].live == Get(groups, sorted[i].key) - gone != {} {
      assert sorted[i] in list;
    }
    forall i, j | 0 <= i < j < |sorted| ensures sorted[i].key != sorted[j].key {
      var k, l :| 0 <= k < |list| && 0 <= l < |list| && list[k] == sorted[i] && list[l] == sorted[j];
      assert k != l;
    }
    forall key | Get(groups, key) - gone != {} ensures exists i :: 0 <= i < |sorted| && sorted[i].key == key {
      var i :| 0 <= i < |list| && list[i].key == key;
      assert list[i] in sorted;
    }
  }

  method DropGroups(probes: seq<Probe>, ghost place: Place, groups: map<IpKey, set<SocketId>>, gone0: set<SocketId>, asnCityPerUser: nat)
    returns (gone: set<SocketId>)
    requires forall key :: Get(groups, key) == KeyHolders(probes, place, key)
    requires DistinctClients(probes)
    ensures gone0 <= gone && PlaceSettled(probes, place, gone, asnCityPerUser)
    ensures forall c :: c in gone ==> c in gone0 || Outnumbered(probes, gone0, c, asnCityPerUser)
    ensures LowestFirst(groups, gone0, gone)
  {
    var list := LiveGroups(groups, gone0);
    forall k, l, c | k in groups && l in groups && c in groups[k] && c in groups[l] ensures k == l {
      OneKeyEach(probes, place, groups, k, l, c);
    }
    if |list| <= asnCityPerUser {
      gone := gone0;
      forall key | key in LiveKeys(probes, place, gone) ensures key in KeysIn(list) {
        var p :| p in probes && At(p, place) && p.client !in gone && KeyOf(p.ip) == key;
        assert p.client in KeyHolders(probes, place, key);
        assert p.client in Get(groups, key) - gone;
      }
      KeysInSize(list);
      SubsetSize(LiveKeys(probes, place, gone), KeysIn(list));
    } else {
      var sorted := Sorted(NotAfter, list);
      GroupsCompare(list);
      SortedIsOrdered(NotAfter, list);
      SortedHas(NotAfter, list);
      gone := gone0 + Clients(sorted[asnCityPerUser..]);
      DroppedSettle(probes, place, groups, list, gone0, sorted, asnCityPerUser);
      SortedDropsHighest(groups, list, gone0, sorted, asnCityPerUser);
      SortedGroups(list, sorted, groups, gone0);
      forall c | c in Clients(sorted[asnCityPerUser..]) ensures Outnumbered(probes, gone0, c, asnCityPerUser) {
        DroppedAreOutnumbered(probes, place, groups, gone0, sorted, asnCityPerUser, c);
      }
    }
  }

  lemma OutnumberedBefore(probes: seq<Probe>, gone0: set<SocketId>, gone: set<SocketId>, c: SocketId, n: nat)
    requires gone0 <= gone && Outnumbered(probes, gone, c, n)
    ensures Outnumbered(probes, gone0, c, n)
  {
    var place, key, keys :| c in KeyHolders(probes, place, key) && key !in keys && |keys| == n && AreLower(probes, place, gone, keys, c);
    forall k | k in keys ensures LowerHolder(probes, place, gone0, k, c) {
      assert LowerHolder(probes, place, gone, k, c);
      var d :| d in KeyHolders(probes, place, k) - gone && d < c;
      assert d in KeyHolders(probes, place, k) - gone0;
    }
    assert AreLower(probes, place, gone0, keys, c);
  }

  method DisconnectByPlace(probes: seq<Probe>, gone0: set<SocketId>, asnCityPerUser: nat) returns (gone: set<SocketId>)
    requires DistinctClients(probes)
    ensures gone0 <= gone && forall place :: PlaceSettled(probes, place, gone, asnCityPerUser)
    ensures forall c :: c in gone ==> c in gone0 || Outnumbered(probes, gone0, c, asnCityPerUser)
  {
    var m := IndexAsnCity(probes);
    gone := gone0;
    var places := m.Keys;
    while places != {}
      invariant places <= m.Keys && gone0 <= gone
      invariant forall place :: place in m && place !in places ==> PlaceSettled(probes, place, gone, asnCityPerUser)
      invariant forall c :: c in gone ==> c in gone0 || Outnumbered(probes, gone0, c, asnCityPerUser)
    {
      var place :| place in places;
      places := places - {place};
      assert forall key :: Get(m[place], key) == Get(GroupsAt(m, place), key);
      var before := gone;
      gone := DropGroups(probes, place, m[place], gone, asnCityPerUser);
      forall c | Outnumbered(probes, before, c, asnCityPerUser) ensures Outnumbered(probes, gone0, c, asnCityPerUser) {
        OutnumberedBefore(probes, gone0, before, c, asnCityPerUser);
      }
      forall other | PlaceSettled(probes, other, before, asnCityPerUser) ensures PlaceSettled(probes, other, gone, asnCityPerUser) {
        SettledStays(probes, Address(0), other, {}, before, gone, asnCityPerUser);
      }
    }
    forall place | place !in m ensures PlaceSettled(probes, place, gone, asnCityPerUser) {
      forall p | p in probes ensures !At(p, place) {
        assert Get(GroupsAt(m, place), KeyOf(p.ip)) == KeyHolders(probes, place, KeyOf(p.ip)) == {};
        assert At(p, place) ==> p.client in KeyHolders(probes, place, KeyOf(p.ip));
      }
      assert LiveKeys(probes, place, gone) == {};
    }
  }

  /**
    The whole pass. What is left is within the limits, and nobody is disconnected without a reason; so a
    list that is within the limits, such as what an earlier pass left, loses nobody.
   */
  method SyncProbeLimits(probes: seq<Probe>, asnCityPerUser: nat)
    returns (gone: set<SocketId>, ghost forIps: set<SocketId>, ghost forRanges: set<SocketId>)
    requires DistinctClients(probes)
    ensures DistinctClients(Survivors(probes, gone)) && WithinLimits(Survivors(probes, gone), asnCityPerUser)
    ensures forIps <= forRanges <= gone && forall c :: c in forIps <==> LosesAnIp(probes, c)
    ensures forall c :: c in forRanges ==> c in forIps || Crowded(probes, forIps, c)
    ensures forall c :: c in gone ==> c in forRanges || Outnumbered(probes, forRanges, c, asnCityPerUser)
    ensures WithinLimits(probes, asnCityPerUser) ==> gone == {}
  {
    var x := IndexIpsForSync(probes);
    var gone1 := DisconnectExactDuplicates(x, probes);
    var gone2 := DisconnectRangeDuplicates(x, probes, gone1);
    gone := DisconnectByPlace(probes, gone2, asnCityPerUser);
    forIps, forRanges := gone1, gone2;
    forall ip ensures OneLeft(Holders(probes, ip), gone) {
      SettledStays(probes, Address(0), Place("", 0, ""), Holders(probes, ip), gone1, gone, 0);
    }
    forall key: IpKey | key.Range64? ensures RangeSettled(probes, key, gone) {
      SettledStays(probes, key, Place("", 0, ""), {}, gone2, gone, 0);
    }
    SettledMeansWithinLimits(probes, gone, asnCityPerUser);
    SurvivorsAreDistinct(probes, gone);
    forall c | c in gone ensures HasReason(probes, c, asnCityPerUser) {
      GoneHasReason(probes, gone1, gone2, c, asnCityPerUser);
    }
    forall c | WithinLimits(probes, asnCityPerUser) ensures !HasReason(probes, c, asnCityPerUser) {
      WithinLimitsGivesNoReason(probes, c, asnCityPerUser);
    }
  }

  lemma GoneHasReason(probes: seq<Probe>, gone1: set<SocketId>, gone2: set<SocketId>, c: SocketId, n: nat)
    requires LosesAnIp(probes, c) || Crowded(probes, gone1, c) || Outnumbered(probes, gone2, c, n)
    ensures HasReason(probes, c, n)
  {
    if LosesAnIp(probes, c) {
      var ip, d :| GivesWay(probes, ip, c, d);
      assert SharesIp(probes, c);
    } else if !Crowded(probes, gone1, c) {
      OutnumberedHasTooMany(probes, gone2, c, n);
    }
  }

  /** The next pass over what is left disconnects nobody. */
  method SyncProbeLimitsTwice(probes: seq<Probe>, asnCityPerUser: nat) returns (gone: set<SocketId>, later: set<SocketId>)
    requires DistinctClients(probes)
    ensures WithinLimits(Survivors(probes, gone), asnCityPerUser) && later == {}
  {
    ghost var forIps, forRanges;
    gone, forIps, forRanges := SyncProbeLimits(probes, asnCityPerUser);
    later, forIps, forRanges := SyncProbeLimits(Survivors(probes, gone), asnCityPerUser);
  }

  // ---------------------------------------------------------------- admission

  method IndexIpKeys(probes: seq<Probe>) returns (keys: map<IpKey, set<SocketId>>)
    ensures forall key :: Get(keys, key) == RangeHolders(probes, key) && (key in keys ==> keys[key] != {})
  {
    keys := map[];
    for i := 0 to |probes|
      invariant forall key :: Get(keys, key) == RangeHolders(probes[..i], key) && (key in keys ==> keys[key] != {})
    {
      var p := probes[i];
      var before := keys;
      var all := KeysOf([p.ip] + p.altIps);
      keys := AddUnderAll(keys, all, p.client);
      assert probes[..i + 1] == probes[..i] + [p];
      forall key ensures Get(keys, key) == RangeHolders(probes[..i + 1], key) && (key in keys ==> keys[key] != {}) {
        AddUnderAllAt(before, all, p.client, key);
        KeysOfHas([p.ip] + p.altIps, key);
        RangeHoldersOfOneMore(probes[..i], p, key);
        AddUnderAllKeys(before, all, p.client, key);
        assert key in all <==> InRange(p, key) by {
          assert [p.ip] + p.altIps == [p.ip] + p.altIps;
          assert forall ip :: ip in [p.ip] + p.altIps <==> ip == p.ip || ip in p.altIps;
        }
      }
    }
    assert probes[..|probes|] == probes;
  }

  lemma {:induction false} AddUnderAllKeys<K>(m: map<K, set<SocketId>>, keys: seq<K>, c: SocketId, x: K)
    requires forall k :: k in m ==> m[k] != {}
    ensures x in AddUnderAll(m, keys, c) ==> AddUnderAll(m, keys, c)[x] != {}
  {
    if keys != [] {
      AddUnderAllKeys(m, keys[..|keys| - 1], c, x);
    }
  }

  /** Nobody holds an address with the same key. */
  method VerifyIpLimit(probes: seq<Probe>, ip: Ip) returns (ok: bool)
    ensures ok <==> forall p :: p in probes ==> !InRange(p, KeyOf(ip))
  {
    var keys := IndexIpKeys(probes);
    ok := KeyOf(ip) !in keys;
    assert Get(keys, KeyOf(ip)) == RangeHolders(probes, KeyOf(ip));
    forall p | p in probes && InRange(p, KeyOf(ip)) ensures !ok {
      assert p.client in RangeHolders(probes, KeyOf(ip));
    }
  }

  /** The user has no probe in the network and city, or fewer keys than allowed. */
  ghost predicate UserHasRoom(probes: seq<Probe>, probe: Probe, asnCityPerUser: nat) {
    probe.owner.Some? ==>
      var keys := KeysAt(probes, Place(probe.owner.value, probe.asn, probe.city));
      keys == {} || |keys| < asnCityPerUser
  }

  method VerifyAsnLimit(probes: seq<Probe>, probe: Probe, asnCityPerUser: nat) returns (ok: bool)
    ensures ok <==> UserHasRoom(probes, probe, asnCityPerUser)
  {
    if probe.owner.None? {
      return true;
    }
    ghost var place := Place(probe.owner.value, probe.asn, probe.city);
    var ipKeys: set<IpKey> := {};
    for i := 0 to |probes|
      invariant ipKeys == KeysAt(probes[..i], place) && (ipKeys == {} || |ipKeys| < asnCityPerUser)
    {
      var other := probes[i];
      assert probes[..i + 1] == probes[..i] + [other];
      assert KeysAt(probes[..i + 1], place) == if At(other, place) then KeysAt(probes[..i], place) + {KeyOf(other.ip)} else KeysAt(probes[..i], place);
      if other.asn != probe.asn || other.city != probe.city || other.owner != probe.owner {
        continue;
      }
      ipKeys := ipKeys + {KeyOf(other.ip)};
      if |ipKeys| >= asnCityPerUser {
        assert KeysAt(probes[..i + 1], place) <= KeysAt(probes, place);
        SubsetSize(KeysAt(probes[..i + 1], place), KeysAt(probes, place));
        return false;
      }
    }
    assert probes[..|probes|] == probes;
    return true;
  }

  lemma AdmittedSharesNoIp(probes: seq<Probe>, probe: Probe)
    requires NoSharedIp(probes) && PrimariesAlone(probes) && probe.altIps == []
    requires forall p :: p in probes ==> !InRange(p, KeyOf(probe.ip))
    ensures NoSharedIp(probes + [probe]) && PrimariesAlone(probes + [probe])
  {
    var all := probes + [probe];
    assert forall p :: p in all <==> p in probes || p == probe;
    forall p | p in probes ensures !Holds(p, probe.ip) && KeyOf(p.ip) != KeyOf(probe.ip) {
      assert Holds(p, probe.ip) ==> InRange(p, KeyOf(probe.ip));
    }
  }

  lemma AdmittedHasRoom(probes: seq<Probe>, probe: Probe, asnCityPerUser: nat)
    requires FewKeysEach(probes, asnCityPerUser) && UserHasRoom(probes, probe, asnCityPerUser)
    requires asnCityPerUser > 0 || probe.owner.None?
    ensures FewKeysEach(probes + [probe], asnCityPerUser)
  {
    var all := probes + [probe];
    assert forall p :: p in all <==> p in probes || p == probe;
    forall place ensures |KeysAt(all, place)| <= asnCityPerUser {
      assert |KeysAt(probes, place)| <= asnCityPerUser;
      if At(probe, place) {
        assert KeysAt(all, place) == KeysAt(probes, place) + {KeyOf(probe.ip)};
      } else {
        assert KeysAt(all, place) == KeysAt(probes, place);
      }
    }
  }

  lemma OwnedProbeNeedsRoom(probes: seq<Probe>, probe: Probe)
    requires probe.owner.Some?
    ensures !FewKeysEach(probes + [probe], 0)
  {
    var all, place := probes + [probe], Place(probe.owner.value, probe.asn, probe.city);
    assert KeyOf(probe.ip) in KeysAt(all, place) by {
      assert probe in all && At(probe, place);
    }
    assert |KeysAt(all, place)| > 0;
  }

  /**
    A probe that passes both checks, and has no alternative IPs yet, keeps the limits, unless a user gets a
    first probe where the limit is zero.
   */
  lemma AdmissionKeepsLimits(probes: seq<Probe>, probe: Probe, asnCityPerUser: nat)
    requires WithinLimits(probes, asnCityPerUser) && probe.altIps == []
    requires forall p :: p in probes ==> !InRange(p, KeyOf(probe.ip))
    requires UserHasRoom(probes, probe, asnCityPerUser)
    ensures NoSharedIp(probes + [probe]) && PrimariesAlone(probes + [probe])
    ensures WithinLimits(probes + [probe], asnCityPerUser) <==> asnCityPerUser > 0 || probe.owner.None?
  {
    AdmittedSharesNoIp(probes, probe);
    if asnCityPerUser > 0 || probe.owner.None? {
      AdmittedHasRoom(probes, probe, asnCityPerUser);
    } else {
      OwnedProbeNeedsRoom(probes, probe);
    }
  }

  /** A limit of zero is not enforced on admission: the first probe of a user passes. */
  lemma ZeroLimitAdmitsOne(probe: Probe)
    requires probe.owner.Some?
    ensures UserHasRoom([], probe, 0) && WithinLimits([], 0) && !WithinLimits([probe], 0)
  {
    assert KeysAt([], Place(probe.owner.value, probe.asn, probe.city)) == {};
    forall other ensures |KeysAt([], other)| == 0 {
      assert KeysAt([], other) == {};
    }
    OwnedProbeNeedsRoom([], probe);
    assert [] + [probe] == [probe];
  }
}
