/** The random order that takes one probe from each place before it takes a second one from any. */
module DiversifiedShuffle {
  import opened Common
  import opened Sorting

  datatype Probe = Probe(client: string, continent: string, groupingKey: string)

  datatype Group = Group(key: string, probes: seq<Probe>, rank: nat, cityKey: string, prevSameCity: nat)

  ghost predicate WellGrouped(groups: seq<Group>) {
    && (forall i :: 0 <= i < |groups| ==> groups[i].probes != [] && forall p :: p in groups[i].probes ==> p.groupingKey == groups[i].key)
    && (forall i, j :: 0 <= i < j < |groups| ==> groups[i].key != groups[j].key)
  }

  function All(groups: seq<Group>): seq<Probe> {
    if groups == [] then [] else groups[0].probes + All(groups[1..])
  }

  function Last(g: Group): Probe
    requires g.probes != []
  {
    g.probes[|g.probes| - 1]
  }

  ghost predicate NoneEmpty(groups: seq<Group>) {
    forall i :: 0 <= i < |groups| ==> groups[i].probes != []
  }

  /** One probe of each group. */
  function Popped(groups: seq<Group>): seq<Probe>
    requires NoneEmpty(groups)
  {
    if groups == [] then [] else [Last(groups[0])] + Popped(groups[1..])
  }

  function Rest(groups: seq<Group>): seq<Group>
    requires NoneEmpty(groups)
  {
    if groups == [] then []
    else
      Shortened(groups[0]) + Rest(groups[1..])
  }

  function Shortened(g: Group): seq<Group>
    requires g.probes != []
  {
    var left := g.probes[..|g.probes| - 1];
    if left == [] then [] else [g.(probes := left)]
  }

  lemma TailIsWellGrouped(groups: seq<Group>)
    requires WellGrouped(groups) && groups != []
    ensures WellGrouped(groups[1..]) && forall i :: 0 <= i < |groups| - 1 ==> groups[1..][i].key != groups[0].key
  {
  }

  lemma {:induction false} RestKeys(groups: seq<Group>, i: nat)
    requires NoneEmpty(groups) && i < |Rest(groups)|
    ensures exists k :: 0 <= k < |groups| && groups[k].key == Rest(groups)[i].key
  {
    var n := |Shortened(groups[0])|;
    if i >= n {
      RestKeys(groups[1..], i - n);
      var k :| 0 <= k < |groups| - 1 && groups[1..][k].key == Rest(groups[1..])[i - n].key;
      assert groups[k + 1].key == Rest(groups)[i].key;
    }
  }

  lemma {:induction false} RestIsWellGrouped(groups: seq<Group>)
    requires WellGrouped(groups)
    ensures WellGrouped(Rest(groups))
  {
    if groups != [] {
      TailIsWellGrouped(groups);
      RestIsWellGrouped(groups[1..]);
      var first, rest := Shortened(groups[0]), Rest(groups[1..]);
      forall i | 0 <= i < |rest| ensures rest[i].key != groups[0].key {
        RestKeys(groups[1..], i);
      }
      assert Rest(groups) == first + rest;
    }
  }

  lemma AllFirst(g: Group, groups: seq<Group>)
    ensures All([g] + groups) == g.probes + All(groups)
  {
    assert ([g] + groups)[1..] == groups;
  }

  lemma AllAfterShortened(g: Group, rest: seq<Group>)
    requires g.probes != []
    ensures All(Shortened(g) + rest) == g.probes[..|g.probes| - 1] + All(rest)
  {
    if |g.probes| == 1 {
      assert Shortened(g) + rest == rest;
    } else {
      AllFirst(g.(probes := g.probes[..|g.probes| - 1]), rest);
    }
  }

  lemma PoppedFirst<T>(left: multiset<T>, last: T, popped: multiset<T>, rest: multiset<T>, tail: multiset<T>)
    requires popped + rest == tail
    ensures (multiset{last} + popped) + (left + rest) == (left + multiset{last}) + tail
  {
  }

  lemma {:induction false} PoppedAndRest(groups: seq<Group>)
    requires WellGrouped(groups)
    ensures |Popped(groups)| == |groups|
    ensures multiset(Popped(groups)) + multiset(All(Rest(groups))) == multiset(All(groups))
  {
    if groups != [] {
      var g, tail := groups[0], groups[1..];
      TailIsWellGrouped(groups);
      PoppedAndRest(tail);
      var left := g.probes[..|g.probes| - 1];
      assert g.probes == left + [Last(g)];
      AllAfterShortened(g, Rest(tail));
      PoppedFirst(multiset(left), Last(g), multiset(Popped(tail)), multiset(All(Rest(tail))), multiset(All(tail)));
    }
  }

  lemma RestIs(groups: seq<Group>)
    requires WellGrouped(groups)
    ensures WellGrouped(Rest(groups)) && |Popped(groups)| == |groups|
    ensures |All(Rest(groups))| + |groups| == |All(groups)|
    ensures multiset(Popped(groups)) + multiset(All(Rest(groups))) == multiset(All(groups))
  {
    RestIsWellGrouped(groups);
    PoppedAndRest(groups);
    assert |multiset(Popped(groups)) + multiset(All(Rest(groups)))| == |Popped(groups)| + |All(Rest(groups))|;
  }

  /** The groups give one probe each, round after round. */
  function Spread(groups: seq<Group>): seq<Probe>
    requires WellGrouped(groups)
    decreases |All(groups)|
  {
    if groups == [] then []
    else
      RestIs(groups);
      Popped(groups) + Spread(Rest(groups))
  }

  // ---------------------------------------------------------------- a permutation

  lemma {:induction false} SpreadIsPermutation(groups: seq<Group>)
    requires WellGrouped(groups)
    ensures multiset(Spread(groups)) == multiset(All(groups))
    decreases |All(groups)|
  {
    if groups != [] {
      RestIs(groups);
      SpreadIsPermutation(Rest(groups));
    }
  }

  // ---------------------------------------------------------------- balance

  function CountKey(probes: seq<Probe>, key: string): nat {
    if probes == [] then 0
    else CountKey(probes[..|probes| - 1], key) + if probes[|probes| - 1].groupingKey == key then 1 else 0
  }

  function SizeOf(groups: seq<Group>, key: string): nat {
    if groups == [] then 0 else if groups[0].key == key then |groups[0].probes| else SizeOf(groups[1..], key)
  }

  lemma {:induction false} CountKeyAdds(a: seq<Probe>, b: seq<Probe>, key: string)
    ensures CountKey(a + b, key) == CountKey(a, key) + CountKey(b, key)
  {
    if b == [] {
      assert a + b == a;
    } else {
      assert (a + b)[..|a + b| - 1] == a + b[..|b| - 1];
      CountKeyAdds(a, b[..|b| - 1], key);
    }
  }

  lemma {:induction false} SizeOfNone(groups: seq<Group>, key: string)
    requires forall i :: 0 <= i < |groups| ==> groups[i].key != key
    ensures SizeOf(groups, key) == 0
  {
    if groups != [] {
      SizeOfNone(groups[1..], key);
    }
  }

  lemma SizeOfFirst(g: Group, rest: seq<Group>, key: string)
    requires g.probes != []
    ensures SizeOf(Shortened(g) + rest, key) == if g.key == key && |g.probes| > 1 then |g.probes| - 1 else SizeOf(rest, key)
  {
    var all := Shortened(g) + rest;
    if |g.probes| == 1 {
      assert all == rest;
    } else {
      assert all[0] == g.(probes := g.probes[..|g.probes| - 1]) && all[1..] == rest;
    }
  }

  lemma {:induction false} RestSizes(groups: seq<Group>, key: string)
    requires WellGrouped(groups)
    ensures SizeOf(Rest(groups), key) == Max(SizeOf(groups, key) - 1, 0)
  {
    if groups != [] {
      var g, tail := groups[0], groups[1..];
      TailIsWellGrouped(groups);
      RestSizes(tail, key);
      if g.key == key {
        SizeOfNone(tail, key);
      }
      SizeOfFirst(g, Rest(tail), key);
    }
  }

  lemma CountKeyFirst(p: Probe, probes: seq<Probe>, key: string)
    ensures CountKey([p] + probes, key) == CountKey(probes, key) + if p.groupingKey == key then 1 else 0
  {
    CountKeyAdds([p], probes, key);
    assert [p][..0] == [];
  }

  lemma {:induction false} PoppedAll(groups: seq<Group>)
    requires NoneEmpty(groups)
    ensures |Popped(groups)| == |groups|
  {
    if groups != [] {
      PoppedAll(groups[1..]);
    }
  }

  /** A round takes at most one probe of a key, and exactly one when it is complete and the group has any. */
  lemma {:induction false} PoppedOnce(groups: seq<Group>, n: nat, key: string)
    requires WellGrouped(groups) && n <= |groups| == |Popped(groups)|
    ensures CountKey(Popped(groups)[..n], key) <= Min(1, SizeOf(groups, key))
    ensures n == |groups| ==> CountKey(Popped(groups)[..n], key) == Min(1, SizeOf(groups, key))
  {
    if n > 0 {
      var g, tail := groups[0], groups[1..];
      TailIsWellGrouped(groups);
      PoppedAll(tail);
      PoppedOnce(tail, n - 1, key);
      assert Popped(groups)[..n] == [Last(g)] + Popped(tail)[..n - 1];
      CountKeyFirst(Last(g), Popped(tail)[..n - 1], key);
      assert Last(g).groupingKey == g.key by {
        assert Last(g) in g.probes;
      }
      if g.key == key {
        SizeOfNone(tail, key);
      }
    }
  }

  /** How many rounds are complete before a prefix of this length ends. */
  function RoundsIn(groups: seq<Group>, n: nat): nat
    requires WellGrouped(groups)
    decreases n
  {
    if n <= |groups| || groups == [] then 0
    else
      RestIsWellGrouped(groups);
      1 + RoundsIn(Rest(groups), n - |groups|)
  }

  lemma SpreadRound(groups: seq<Group>)
    requires WellGrouped(groups) && groups != []
    ensures WellGrouped(Rest(groups)) && |Popped(groups)| == |groups| && Spread(groups) == Popped(groups) + Spread(Rest(groups))
  {
    RestIs(groups);
  }

  /** A prefix that goes beyond the first round is that round and a prefix of the others. */
  lemma PrefixSplit(groups: seq<Group>, n: nat)
    requires WellGrouped(groups) && |groups| < n <= |Spread(groups)|
    ensures WellGrouped(Rest(groups)) && |Popped(groups)| == |groups| && n - |groups| <= |Spread(Rest(groups))|
    ensures Spread(groups)[..n] == Popped(groups) + Spread(Rest(groups))[..n - |groups|]
    ensures groups != [] && RoundsIn(groups, n) == 1 + RoundsIn(Rest(groups), n - |groups|)
  {
    assert groups != [];
    SpreadRound(groups);
  }

  lemma PrefixOfFirst(groups: seq<Group>, n: nat)
    requires WellGrouped(groups) && n <= |groups| && n <= |Spread(groups)|
    ensures |Popped(groups)| == |groups| && Spread(groups)[..n] == Popped(groups)[..n]
  {
    if groups != [] {
      SpreadRound(groups);
    }
  }

  /** A complete round and what is taken of the groups after it. */
  lemma AfterRound(groups: seq<Group>, later: seq<Probe>, key: string)
    requires WellGrouped(groups) && |Popped(groups)| == |groups|
    ensures CountKey(Popped(groups) + later, key) == Min(1, SizeOf(groups, key)) + CountKey(later, key)
    ensures SizeOf(Rest(groups), key) == Max(SizeOf(groups, key) - 1, 0)
  {
    var popped := Popped(groups);
    assert popped[..|groups|] == popped;
    CountKeyAdds(popped, later, key);
    PoppedOnce(groups, |groups|, key);
    RestSizes(groups, key);
  }

  predicate Between(r: nat, size: nat, count: nat) {
    Min(r, size) <= count <= Min(r + 1, size)
  }

  lemma FirstIsBetween(groups: seq<Group>, n: nat, key: string)
    requires WellGrouped(groups) && n <= |groups| && n <= |Spread(groups)|
    ensures Between(RoundsIn(groups, n), SizeOf(groups, key), CountKey(Spread(groups)[..n], key))
  {
    PrefixOfFirst(groups, n);
    PoppedOnce(groups, n, key);
  }

  lemma LaterIsBetween(groups: seq<Group>, n: nat, later: seq<Probe>, r: nat, key: string)
    requires WellGrouped(groups) && n <= |Spread(groups)| && |Popped(groups)| == |groups| && Spread(groups)[..n] == Popped(groups) + later
    requires Between(r, SizeOf(Rest(groups), key), CountKey(later, key))
    ensures Between(r + 1, SizeOf(groups, key), CountKey(Spread(groups)[..n], key))
  {
    AfterRound(groups, later, key);
  }

  /** After so many full rounds and part of another one. */
  lemma {:induction false} PrefixIsBetweenRounds(groups: seq<Group>, n: nat, key: string)
    requires WellGrouped(groups) && n <= |Spread(groups)|
    ensures Between(RoundsIn(groups, n), SizeOf(groups, key), CountKey(Spread(groups)[..n], key))
    decreases n
  {
    if n <= |groups| {
      FirstIsBetween(groups, n, key);
    } else {
      PrefixSplit(groups, n);
      PrefixIsBetweenRounds(Rest(groups), n - |groups|, key);
      LaterIsBetween(groups, n, Spread(Rest(groups))[..n - |groups|], RoundsIn(Rest(groups), n - |groups|), key);
    }
  }

  /** In every prefix, a key is at most one probe behind another one, unless it has no probe left. */
  lemma PrefixesAreBalanced(groups: seq<Group>, n: nat, a: string, b: string)
    requires WellGrouped(groups) && n <= |Spread(groups)|
    ensures var prefix := Spread(groups)[..n];
            CountKey(prefix, a) <= CountKey(prefix, b) + 1 || CountKey(prefix, b) == SizeOf(groups, b)
  {
    PrefixIsBetweenRounds(groups, n, a);
    PrefixIsBetweenRounds(groups, n, b);
  }

  lemma {:induction false} CountsBoth(probes: seq<Probe>, i: nat, j: nat)
    requires i < j < |probes| && probes[i].groupingKey == probes[j].groupingKey
    ensures CountKey(probes, probes[i].groupingKey) >= 2
  {
    if j < |probes| - 1 {
      CountsBoth(probes[..|probes| - 1], i, j);
    } else {
      CountsOne(probes[..|probes| - 1], i);
    }
  }

  lemma {:induction false} CountsOne(probes: seq<Probe>, i: nat)
    requires i < |probes|
    ensures CountKey(probes, probes[i].groupingKey) >= 1
  {
    if i < |probes| - 1 {
      CountsOne(probes[..|probes| - 1], i);
    }
  }

  /** The first results, as many as there are keys, have different keys. */
  lemma FirstResultsDiffer(groups: seq<Group>, i: nat, j: nat)
    requires WellGrouped(groups) && i < j < |groups|
    ensures |Spread(groups)| >= |groups| && Spread(groups)[i].groupingKey != Spread(groups)[j].groupingKey
  {
    RestIs(groups);
    var first := Spread(groups)[..|groups|];
    PrefixIsBetweenRounds(groups, |groups|, first[i].groupingKey);
    if first[i].groupingKey == first[j].groupingKey {
      CountsBoth(first, i, j);
    }
  }

  // ---------------------------------------------------------------- grouping

  function WithKey(probes: seq<Probe>, key: string): seq<Probe> {
    if probes == [] then []
    else WithKey(probes[..|probes| - 1], key) + if probes[|probes| - 1].groupingKey == key then [probes[|probes| - 1]] else []
  }

  lemma {:induction false} WithKeyIs(probes: seq<Probe>, key: string, p: Probe)
    ensures multiset(WithKey(probes, key))[p] == if p.groupingKey == key then multiset(probes)[p] else 0
  {
    if probes != [] {
      var init, last := probes[..|probes| - 1], probes[|probes| - 1];
      WithKeyIs(init, key, p);
      assert probes == init + [last];
    }
  }

  /** Each group has all the probes of its key. */
  ghost predicate Partitions(groups: seq<Group>, probes: seq<Probe>) {
    && WellGrouped(groups)
    && (forall i :: 0 <= i < |groups| ==> groups[i].probes == WithKey(probes, groups[i].key))
    && (forall p :: p in probes ==> exists i :: 0 <= i < |groups| && groups[i].key == p.groupingKey)
  }

  lemma {:induction false} AllOf(groups: seq<Group>, p: Probe)
    requires WellGrouped(groups)
    ensures (forall i :: 0 <= i < |groups| ==> groups[i].key != p.groupingKey) ==> multiset(All(groups))[p] == 0
    ensures forall i :: 0 <= i < |groups| && groups[i].key == p.groupingKey ==> multiset(All(groups))[p] == multiset(groups[i].probes)[p]
  {
    if groups != [] {
      var g, tail := groups[0], groups[1..];
      TailIsWellGrouped(groups);
      AllOf(tail, p);
      assert g.key != p.groupingKey ==> p !in g.probes;
      forall i | 0 <= i < |groups| && groups[i].key == p.groupingKey ensures multiset(All(groups))[p] == multiset(groups[i].probes)[p] {
        if i > 0 {
          assert tail[i - 1] == groups[i];
        }
      }
    }
  }

  lemma PartitionIsPermutation(groups: seq<Group>, probes: seq<Probe>)
    requires Partitions(groups, probes)
    ensures multiset(All(groups)) == multiset(probes)
  {
    forall p ensures multiset(All(groups))[p] == multiset(probes)[p] {
      AllOf(groups, p);
      if p in probes {
        var i :| 0 <= i < |groups| && groups[i].key == p.groupingKey;
        WithKeyIs(probes, groups[i].key, p);
      } else if i :| 0 <= i < |groups| && groups[i].key == p.groupingKey {
        WithKeyIs(probes, groups[i].key, p);
      }
    }
  }

  function CeilLog2(n: nat): nat {
    if n <= 1 then 0 else 1 + CeilLog2((n + 1) / 2)
  }

  function GroupRank(count: nat): nat {
    if count < 8 then count / 2 else CeilLog2(count)
  }

  /** All but the last part of a key. */
  function CityKey(key: string): string {
    if key == "" then "" else if key[|key| - 1] == '-' then key[..|key| - 1] else CityKey(key[..|key| - 1])
  }

  /** Half of a small size, and the logarithm of a larger one, rounded up. */
  ghost predicate RanksSize(rank: nat, count: nat) {
    if count < 8 then 2 * rank <= count < 2 * rank + 2
    else rank > 0 && Pow2(rank - 1) < count <= Pow2(rank)
  }

  lemma {:induction false} CeilLog2Is(n: nat)
    requires n > 1
    ensures CeilLog2(n) > 0 && Pow2(CeilLog2(n) - 1) < n <= Pow2(CeilLog2(n))
  {
    if n > 2 {
      CeilLog2Is((n + 1) / 2);
    } else {
      assert CeilLog2(2) == 1 + CeilLog2(1) && Pow2(0) == 1;
    }
  }

  lemma GroupRankRanks(count: nat)
    ensures RanksSize(GroupRank(count), count)
  {
    if count >= 8 {
      CeilLog2Is(count);
    }
  }

  /** The key up to its last dash. */
  ghost predicate IsCityOf(city: string, key: string) {
    ('-' !in key && city == "") || exists asn :: '-' !in asn && key == city + "-" + asn
  }

  lemma {:induction false} CityKeyIsCity(key: string)
    ensures IsCityOf(CityKey(key), key)
  {
    if key != "" {
      var init, last := key[..|key| - 1], key[|key| - 1];
      if last == '-' {
        assert key == init + "-" + "";
      } else {
        CityKeyIsCity(init);
        if '-' in init {
          var asn :| '-' !in asn && init == CityKey(init) + "-" + asn;
          assert key == CityKey(key) + "-" + (asn + [last]);
        } else {
          assert key == init + [last];
        }
      }
    }
  }

  lemma WithKeyOneMore(probes: seq<Probe>, i: nat, key: string)
    requires i < |probes|
    ensures WithKey(probes[..i + 1], key) == WithKey(probes[..i], key) + if probes[i].groupingKey == key then [probes[i]] else []
  {
    assert probes[..i + 1][..i] == probes[..i];
  }

  method CollectByKey(probes: seq<Probe>) returns (keys: seq<string>, lists: map<string, seq<Probe>>)
    ensures Distinct(keys) && forall k :: k in keys <==> k in lists
    ensures forall k :: k in lists ==> lists[k] == WithKey(probes, k) && lists[k] != []
    ensures forall k :: k !in lists ==> WithKey(probes, k) == []
  {
    keys, lists := [], map[];
    for i := 0 to |probes|
      invariant Distinct(keys) && forall k :: k in keys <==> k in lists
      invariant forall k :: k in lists ==> lists[k] == WithKey(probes[..i], k) && lists[k] != []
      invariant forall k :: k !in lists ==> WithKey(probes[..i], k) == []
    {
      var p, key := probes[i], probes[i].groupingKey;
      forall k ensures WithKey(probes[..i + 1], k) == WithKey(probes[..i], k) + if key == k then [p] else [] {
        WithKeyOneMore(probes, i, k);
      }
      var before := if key in lists then lists[key] else [];
      if key !in lists {
        keys := keys + [key];
      }
      lists := lists[key := before + [p]];
    }
    assert probes[..|probes|] == probes;
  }

  lemma KeyOfMember(probes: seq<Probe>, key: string, p: Probe)
    ensures p in WithKey(probes, key) <==> p in probes && p.groupingKey == key
  {
    WithKeyIs(probes, key, p);
    assert p in WithKey(probes, key) <==> multiset(WithKey(probes, key))[p] > 0;
    assert p in probes <==> multiset(probes)[p] > 0;
  }

  method GroupByKey(probes: seq<Probe>) returns (groups: seq<Group>)
    ensures Partitions(groups, probes)
    ensures forall g :: g in groups ==> RanksSize(g.rank, |g.probes|) && IsCityOf(g.cityKey, g.key) && g.prevSameCity == 0
  {
    var keys, lists := CollectByKey(probes);
    groups := seq(|keys|, i requires 0 <= i < |keys| =>
      Group(keys[i], lists[keys[i]], GroupRank(|lists[keys[i]]|), CityKey(keys[i]), 0));
    forall i, p | 0 <= i < |groups| && p in groups[i].probes ensures p.groupingKey == groups[i].key {
      KeyOfMember(probes, keys[i], p);
    }
    forall p | p in probes ensures exists i :: 0 <= i < |groups| && groups[i].key == p.groupingKey {
      KeyOfMember(probes, p.groupingKey, p);
      assert p.groupingKey in keys;
      var i :| 0 <= i < |keys| && keys[i] == p.groupingKey;
      assert groups[i].key == p.groupingKey;
    }
    forall g | g in groups ensures RanksSize(g.rank, |g.probes|) && IsCityOf(g.cityKey, g.key) {
      GroupRankRanks(|g.probes|);
      CityKeyIsCity(g.key);
    }
  }

  // ---------------------------------------------------------------- the order of the groups

  predicate HigherRank(a: Group, b: Group) {
    a.rank >= b.rank
  }

  predicate Before(a: Group, b: Group) {
    a.rank > b.rank || (a.rank == b.rank && a.prevSameCity <= b.prevSameCity)
  }

  /** Sorting keeps the groups, by any comparison. */
  lemma SortedIsWellGrouped(before: (Group, Group) -> bool, groups: seq<Group>)
    requires WellGrouped(groups)
    ensures WellGrouped(Sorted(before, groups)) && forall g :: g in Sorted(before, groups) <==> g in groups
  {
    var sorted := Sorted(before, groups);
    SortedHas(before, groups);
    SameMembers(groups, sorted);
    forall i | 0 <= i < |sorted| ensures sorted[i].probes != [] && forall p :: p in sorted[i].probes ==> p.groupingKey == sorted[i].key {
      assert sorted[i] in groups;
    }
    forall i, j | 0 <= i < j < |sorted| ensures sorted[i].key != sorted[j].key {
      assert sorted[i] in groups && sorted[j] in groups;
    }
  }

  lemma SameGroupsPartition(groups: seq<Group>, others: seq<Group>, probes: seq<Probe>)
    requires Partitions(groups, probes) && WellGrouped(others)
    requires forall h :: h in others ==> exists g :: g in groups && g.key == h.key && g.probes == h.probes
    requires forall g :: g in groups ==> exists h :: h in others && g.key == h.key && g.probes == h.probes
    ensures Partitions(others, probes)
  {
    forall i | 0 <= i < |others| ensures others[i].probes == WithKey(probes, others[i].key) {
      assert others[i] in others;
    }
    forall p | p in probes ensures exists i :: 0 <= i < |others| && others[i].key == p.groupingKey {
      var i :| 0 <= i < |groups| && groups[i].key == p.groupingKey;
      assert groups[i] in groups;
      var h :| h in others && groups[i].key == h.key;
    }
  }

  /** How many of these groups are of the city. */
  function InCity(groups: seq<Group>, cityKey: string): nat {
    if groups == [] then 0 else InCity(groups[..|groups| - 1], cityKey) + if groups[|groups| - 1].cityKey == cityKey then 1 else 0
  }

  lemma InCityOneMore(groups: seq<Group>, i: nat, cityKey: string)
    requires i < |groups|
    ensures InCity(groups[..i + 1], cityKey) == InCity(groups[..i], cityKey) + if groups[i].cityKey == cityKey then 1 else 0
  {
    assert groups[..i + 1][..i] == groups[..i];
  }

  /** How many groups before this one are of its city. */
  function Earlier(groups: seq<Group>, i: nat): nat
    requires i < |groups|
  {
    InCity(groups[..i], groups[i].cityKey)
  }

  ghost predicate CountsCities(counts: map<string, nat>, groups: seq<Group>) {
    forall c :: Lookup(counts, c).GetOr(0) == InCity(groups, c)
  }

  lemma CountsOneMore(counts: map<string, nat>, groups: seq<Group>, i: nat)
    requires i < |groups| && CountsCities(counts, groups[..i])
    ensures CountsCities(counts[groups[i].cityKey := Lookup(counts, groups[i].cityKey).GetOr(0) + 1], groups[..i + 1])
  {
    var city := groups[i].cityKey;
    var counts' := counts[city := Lookup(counts, city).GetOr(0) + 1];
    forall c ensures Lookup(counts', c).GetOr(0) == InCity(groups[..i + 1], c) {
      InCityOneMore(groups, i, c);
      assert Lookup(counts, c).GetOr(0) == InCity(groups[..i], c);
      assert c != city ==> Lookup(counts', c) == Lookup(counts, c);
    }
  }

  function InCityAt(groups: seq<Group>, cityKey: string): set<nat> {
    set j: nat | j < |groups| && groups[j].cityKey == cityKey
  }

  lemma {:induction false} InCityIsSize(groups: seq<Group>, cityKey: string)
    ensures InCity(groups, cityKey) == |InCityAt(groups, cityKey)|
  {
    if groups != [] {
      var n := |groups| - 1;
      InCityIsSize(groups[..n], cityKey);
      assert InCityAt(groups, cityKey) == InCityAt(groups[..n], cityKey) + if groups[n].cityKey == cityKey then {n as nat} else {};
    }
  }

  /** The number is that of the groups of the same city before it. */
  ghost predicate CountsEarlier(groups: seq<Group>, i: nat, count: nat)
    requires i < |groups|
  {
    count == |set j: nat | j < i && groups[j].cityKey == groups[i].cityKey|
  }

  lemma EarlierCounts(groups: seq<Group>, i: nat)
    requires i < |groups|
    ensures CountsEarlier(groups, i, Earlier(groups, i))
  {
    InCityIsSize(groups[..i], groups[i].cityKey);
    assert InCityAt(groups[..i], groups[i].cityKey) == set j: nat | j < i && groups[j].cityKey == groups[i].cityKey;
  }

  /** Each group with the number of groups of its city before it. */
  function Counted(groups: seq<Group>): seq<Group> {
    seq(|groups|, i requires 0 <= i < |groups| => groups[i].(prevSameCity := Earlier(groups, i)))
  }

  method CountSameCity(groups: seq<Group>) returns (counted: seq<Group>)
    ensures counted == Counted(groups)
    ensures forall i :: 0 <= i < |groups| ==>
              counted[i] == groups[i].(prevSameCity := counted[i].prevSameCity) && CountsEarlier(groups, i, counted[i].prevSameCity)
  {
    forall i | 0 <= i < |groups| ensures CountsEarlier(groups, i, Counted(groups)[i].prevSameCity) {
      EarlierCounts(groups, i);
    }
    counted := [];
    var counts: map<string, nat> := map[];
    for i := 0 to |groups|
      invariant |counted| == i && CountsCities(counts, groups[..i])
      invariant forall j :: 0 <= j < i ==> counted[j] == Counted(groups)[j]
    {
      CountsOneMore(counts, groups, i);
      var city := groups[i].cityKey;
      var count := Lookup(counts, city).GetOr(0);
      counted := counted + [groups[i].(prevSameCity := count)];
      counts := counts[city := count + 1];
    }
  }

  // ---------------------------------------------------------------- the shuffle

  method PopEach(groups: seq<Group>) returns (popped: seq<Probe>, left: seq<Group>)
    requires NoneEmpty(groups)
    ensures popped == Popped(groups) && left == Rest(groups)
  {
    popped, left := [], [];
    assert groups[0..] == groups;
    for i := 0 to |groups|
      invariant popped + Popped(groups[i..]) == Popped(groups) && left + Rest(groups[i..]) == Rest(groups)
    {
      assert groups[i..][1..] == groups[i + 1..];
      var n := |groups[i].probes| - 1;
      popped := popped + [groups[i].probes[n]];
      if n > 0 {
        left := left + [groups[i].(probes := groups[i].probes[..n])];
      }
    }
  }

  method TakeRounds(groups: seq<Group>, total: nat) returns (shuffled: seq<Probe>)
    requires WellGrouped(groups) && total == |All(groups)|
    ensures shuffled == Spread(groups)
  {
    shuffled := [];
    var left := groups;
    while |shuffled| < total
      invariant WellGrouped(left) && shuffled + Spread(left) == Spread(groups) && |shuffled| + |All(left)| == total
      decreases total - |shuffled|
    {
      RestIs(left);
      var popped, rest := PopEach(left);
      assert shuffled + (popped + Spread(rest)) == (shuffled + popped) + Spread(rest);
      shuffled, left := shuffled + popped, rest;
    }
    RestIs(left);
  }

  /**
    `probes` comes in the order of a random shuffle. The groups are ranked by size, counted by city in that
    order, and then ordered by rank and by the number of earlier groups of their city.
   */
  method DiversifiedShuffle(probes: seq<Probe>) returns (shuffled: seq<Probe>, ghost ranked: seq<Group>, ghost order: seq<Group>)
    ensures multiset(shuffled) == multiset(probes)
    ensures Partitions(ranked, probes) && Ordered(HigherRank, ranked)
    ensures forall g :: g in ranked ==> RanksSize(g.rank, |g.probes|) && IsCityOf(g.cityKey, g.key)
    ensures multiset(order) == multiset(Counted(ranked)) && Ordered(Before, order)
    ensures forall i :: 0 <= i < |ranked| ==> CountsEarlier(ranked, i, Counted(ranked)[i].prevSameCity)
    ensures forall i, j :: 0 <= i < j < |order| ==>
              order[i].rank > order[j].rank || (order[i].rank == order[j].rank && order[i].prevSameCity <= order[j].prevSameCity)
    ensures forall i, j :: 0 <= i < j < |ranked| ==> ranked[i].rank >= ranked[j].rank
    ensures Partitions(order, probes) && shuffled == Spread(order)
  {
    var grouped := GroupByKey(probes);
    var byRank := Sorted(HigherRank, grouped);
    SortedIsOrdered(HigherRank, grouped);
    SortedIsWellGrouped(HigherRank, grouped);
    SameGroupsPartition(grouped, byRank, probes);
    var counted := CountSameCity(byRank);
    CountedPartition(byRank, probes);
    var groups := Sorted(Before, counted);
    SortedIsOrdered(Before, counted);
    SortedHas(Before, counted);
    SortedIsWellGrouped(Before, counted);
    SameGroupsPartition(counted, groups, probes);
    PartitionIsPermutation(groups, probes);
    SpreadIsPermutation(groups);
    assert |multiset(All(groups))| == |multiset(probes)|;
    shuffled := TakeRounds(groups, |probes|);
    ranked, order := byRank, groups;
  }

  lemma CountedPartition(groups: seq<Group>, probes: seq<Probe>)
    requires Partitions(groups, probes)
    ensures Partitions(Counted(groups), probes)
  {
    assert forall i :: 0 <= i < |groups| ==> Counted(groups)[i].key == groups[i].key && Counted(groups)[i].probes == groups[i].probes;
  }
}
