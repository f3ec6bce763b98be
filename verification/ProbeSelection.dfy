/** The ways in which the router asks for probes: by continent weights, with one limit, and with a limit per location. */
module ProbeSelection {
  import opened Common
  import opened DiversifiedShuffle
  import opened Sorting
  import opened WeightedExcess
  import opened WeightedSelection
  import opened WeightedShares

  /** The random order of a list; nothing is known of it. */
  method AnyOrder(probes: seq<Probe>) returns (shuffled: seq<Probe>)
    ensures multiset(shuffled) == multiset(probes)
  {
    shuffled := probes;
  }

  method FilterByContinent(probes: seq<Probe>, continent: string) returns (found: seq<Probe>)
    ensures forall p :: p in found <==> p in probes && p.continent == continent
    ensures Distinct(probes) ==> Distinct(found)
  {
    var filtered: seq<Probe> := [];
    for i := 0 to |probes|
      invariant forall p :: p in filtered <==> p in probes[..i] && p.continent == continent
      invariant Distinct(probes) ==> Distinct(filtered)
    {
      assert probes[..i + 1] == probes[..i] + [probes[i]];
      if probes[i].continent == continent {
        filtered := filtered + [probes[i]];
      }
    }
    assert probes[..|probes|] == probes;
    var random := AnyOrder(filtered);
    ghost var ranked, order;
    found, ranked, order := DiversifiedShuffle.DiversifiedShuffle(random);
    SameMembers(filtered, found);
  }

  ghost predicate InContinents(p: Probe, continents: seq<string>) {
    p.continent in continents
  }

  function OfContinent(probes: seq<Probe>, continent: string): set<Probe> {
    set p | p in probes && p.continent == continent
  }

  /** Each continent gets its floored share, or one probe, or has none left; only a limit met by earlier continents leaves it without. */
  ghost predicate SharesInTurn(probes: seq<Probe>, continents: seq<string>, weights: seq<nat>, limit: nat, picked: seq<Probe>)
    requires |weights| == |continents|
  {
    forall i :: 0 <= i < |continents| && Sum(weights) > 0 ==>
      || |OfContinent(picked, continents[i])| >= Min(Max(limit * weights[i] / Sum(weights), 1), |OfContinent(probes, continents[i])|)
      || (|picked| == limit && forall j :: i <= j < |continents| ==> OfContinent(picked, continents[j]) == {})
  }

  /** No share is rounded to nothing. */
  ghost predicate NoneTooSmall(weights: seq<nat>, limit: nat) {
    forall i :: 0 <= i < |weights| ==> limit * weights[i] >= Sum(weights)
  }

  /** Then each continent gets its floored share or has none left. */
  ghost predicate SharesServed(probes: seq<Probe>, continents: seq<string>, weights: seq<nat>, limit: nat, picked: seq<Probe>)
    requires |weights| == |continents|
  {
    Sum(weights) > 0 && NoneTooSmall(weights, limit) ==>
      forall i :: 0 <= i < |continents| ==> GetsItsShare(probes, continents[i], weights[i], limit, Sum(weights), picked)
  }

  ghost predicate GetsItsShare(probes: seq<Probe>, continent: string, weight: nat, limit: nat, total: nat, picked: seq<Probe>)
    requires total > 0
  {
    |OfContinent(picked, continent)| >= Min(limit * weight / total, |OfContinent(probes, continent)|)
  }

  ghost predicate CanGiveWhole(probes: seq<Probe>, continent: string, weight: nat, limit: nat, total: nat) {
    total > 0 && weight > 0 && limit * weight % total == 0 && |OfContinent(probes, continent)| >= limit * weight / total
  }

  /** If the limit can be divided by the weights and each continent has enough probes, each gets exactly its share. */
  ghost predicate WholeSharesGiven(probes: seq<Probe>, continents: seq<string>, weights: seq<nat>, limit: nat, picked: seq<Probe>)
    requires |weights| == |continents|
  {
    Sum(weights) > 0 && limit > 0 &&
    (forall i :: 0 <= i < |weights| ==> CanGiveWhole(probes, continents[i], weights[i], limit, Sum(weights))) ==>
      forall i :: 0 <= i < |continents| ==> GetsExactly(continents[i], weights[i], limit, Sum(weights), picked)
  }

  /** The picks of the continent are to the limit as its weight is to all weights. */
  ghost predicate GetsExactly(continent: string, weight: nat, limit: nat, total: nat, picked: seq<Probe>) {
    |OfContinent(picked, continent)| * total == limit * weight
  }

  /** The probes of each continent, once each. */
  ghost predicate AreFound(probes: seq<Probe>, continents: seq<string>, found: seq<seq<Probe>>) {
    && |found| == |continents|
    && forall i :: 0 <= i < |found| ==> Distinct(found[i]) && forall p :: p in found[i] <==> p in probes && p.continent == continents[i]
  }

  lemma FoundSize(probes: seq<Probe>, continents: seq<string>, found: seq<seq<Probe>>, i: nat)
    requires AreFound(probes, continents, found) && i < |found|
    ensures |found[i]| == |OfContinent(probes, continents[i])|
  {
    DistinctSize(found[i]);
    assert OfContinent(probes, continents[i]) == set p | p in found[i];
  }

  lemma TakenSize<P>(probes: seq<P>, n: nat)
    requires Distinct(probes)
    ensures |set p | p in Taken(probes, n)| == Min(n, |probes|)
  {
    assert Distinct(Taken(probes, n));
    DistinctSize(Taken(probes, n));
  }

  lemma TakenCount(probes: seq<Probe>, continents: seq<string>, found: seq<seq<Probe>>, picked: seq<Probe>, i: nat, n: nat)
    requires AreFound(probes, continents, found) && i < |found| && forall p :: p in Taken(found[i], n) ==> p in picked
    ensures |OfContinent(picked, continents[i])| >= Min(n, |OfContinent(probes, continents[i])|)
  {
    FoundSize(probes, continents, found, i);
    TakenSize(found[i], n);
    forall p | p in Taken(found[i], n) ensures p in found[i] {
    }
    SubsetSize((set p | p in Taken(found[i], n)), OfContinent(picked, continents[i]));
  }

  /** The clause of one continent; `n` is what it gives in the first round. */
  lemma InTurnAt(probes: seq<Probe>, continents: seq<string>, weights: seq<nat>, limit: nat, found: seq<seq<Probe>>, i: nat, n: nat)
    requires |weights| == |continents| && Distinct(continents) && AreFound(probes, continents, found)
    requires i < |continents| && n == Count(limit, weights[i], Sum(weights))
    ensures var picked := Select(weights, found, limit);
            || |OfContinent(picked, continents[i])| >= Min(n, |OfContinent(probes, continents[i])|)
            || (|picked| == limit && forall j :: i <= j < |continents| ==> OfContinent(picked, continents[j]) == {})
  {
    var picked := Select(weights, found, limit);
    if forall p :: p in Taken(found[i], n) ==> p in picked {
      TakenCount(probes, continents, found, picked, i, n);
    } else {
      var p :| p in Taken(found[i], n) && p !in picked;
      SelectServes(weights, found, limit, i, p, p);
      forall j | i <= j < |continents| ensures OfContinent(picked, continents[j]) == {} {
        forall q | q in picked ensures q.continent != continents[j] {
          SelectServes(weights, found, limit, i, p, q);
          var k :| 0 <= k < i && q in found[..i][k];
          assert found[..i][k] == found[k] && continents[k] != continents[j];
        }
      }
    }
  }

  lemma InTurn(probes: seq<Probe>, continents: seq<string>, weights: seq<nat>, limit: nat, found: seq<seq<Probe>>)
    requires |weights| == |continents| && Distinct(continents) && AreFound(probes, continents, found)
    ensures SharesInTurn(probes, continents, weights, limit, Select(weights, found, limit))
  {
    var picked := Select(weights, found, limit);
    forall i | 0 <= i < |continents| && Sum(weights) > 0
      ensures || |OfContinent(picked, continents[i])| >=
                 Min(Max(limit * weights[i] / Sum(weights), 1), |OfContinent(probes, continents[i])|)
              || (|picked| == limit && forall j :: i <= j < |continents| ==> OfContinent(picked, continents[j]) == {})
    {
      CountIsShareOrOne(limit, weights[i], Sum(weights));
      InTurnAt(probes, continents, weights, limit, found, i, Count(limit, weights[i], Sum(weights)));
    }
  }

  lemma CountIsShareOrOne(limit: nat, weight: nat, total: nat)
    requires total > 0
    ensures Count(limit, weight, total) == Max(limit * weight / total, 1)
  {
  }

  lemma FoundAreApart(probes: seq<Probe>, continents: seq<string>, found: seq<seq<Probe>>)
    requires Distinct(continents) && AreFound(probes, continents, found)
    ensures FoundApart(found)
  {
    forall i, j, p | 0 <= i < j < |found| && p in found[i] ensures p !in found[j] {
      assert continents[i] != continents[j];
    }
  }

  lemma AtLeastOne(x: nat, d: nat)
    requires 0 < d <= x
    ensures x / d > 0
  {
    assert x == (x / d) * d + x % d;
    LessThan(0, x / d, d);
  }

  lemma BigShares(weights: seq<nat>, limit: nat)
    requires Sum(weights) > 0 && NoneTooSmall(weights, limit)
    ensures SharesAreBig(weights, limit)
  {
    forall i | 0 <= i < |weights| ensures limit * weights[i] / Sum(weights) > 0 {
      AtLeastOne(limit * weights[i], Sum(weights));
    }
  }

  lemma GotItsShare(probes: seq<Probe>, continents: seq<string>, weights: seq<nat>, limit: nat, found: seq<seq<Probe>>, i: nat)
    requires |weights| == |continents| && AreFound(probes, continents, found) && FoundApart(found)
    requires limit > 0 && SharesAreBig(weights, limit) && i < |continents|
    ensures GetsItsShare(probes, continents[i], weights[i], limit, Sum(weights), Select(weights, found, limit))
  {
    ServedAt(probes, continents, weights, limit, found, i, limit * weights[i] / Sum(weights));
  }

  lemma ServedAt(probes: seq<Probe>, continents: seq<string>, weights: seq<nat>, limit: nat, found: seq<seq<Probe>>, i: nat, n: nat)
    requires |weights| == |continents| && AreFound(probes, continents, found) && FoundApart(found)
    requires limit > 0 && SharesAreBig(weights, limit) && i < |continents| && n == limit * weights[i] / Sum(weights)
    ensures |OfContinent(Select(weights, found, limit), continents[i])| >= Min(n, |OfContinent(probes, continents[i])|)
  {
    forall p | p in Taken(found[i], n) ensures p in Select(weights, found, limit) {
      BigSharesAreServed(weights, found, limit, i, p);
    }
    TakenCount(probes, continents, found, Select(weights, found, limit), i, n);
  }

  lemma AllServed(probes: seq<Probe>, continents: seq<string>, weights: seq<nat>, limit: nat, found: seq<seq<Probe>>)
    requires |weights| == |continents| && Distinct(continents) && AreFound(probes, continents, found)
    ensures SharesServed(probes, continents, weights, limit, Select(weights, found, limit))
  {
    var picked := Select(weights, found, limit);
    if limit > 0 && Sum(weights) > 0 && NoneTooSmall(weights, limit) {
      BigShares(weights, limit);
      FoundAreApart(probes, continents, found);
      forall i | 0 <= i < |continents| ensures GetsItsShare(probes, continents[i], weights[i], limit, Sum(weights), picked) {
        GotItsShare(probes, continents, weights, limit, found, i);
      }
    }
  }

  /** Of a continent, only what its own location gave is picked. */
  lemma ExactlyItsShare(probes: seq<Probe>, continents: seq<string>, weights: seq<nat>, limit: nat, found: seq<seq<Probe>>, i: nat)
    requires |weights| == |continents| && Distinct(continents) && AreFound(probes, continents, found)
    requires limit > 0 && SharesCanBeWhole(weights, found, limit) && i < |continents|
    ensures |OfContinent(Select(weights, found, limit), continents[i])| == limit * weights[i] / Sum(weights)
  {
    var picked, n := Select(weights, found, limit), limit * weights[i] / Sum(weights);
    FoundAreApart(probes, continents, found);
    TakenSize(found[i], n);
    forall p ensures p in OfContinent(picked, continents[i]) <==> p in Taken(found[i], n) {
      if p in OfContinent(picked, continents[i]) {
        var k := OnlySharesAreGiven(weights, found, limit, p);
        assert p in found[k];
        assert continents[k] == continents[i];
      }
      if p in Taken(found[i], n) {
        BigSharesAreServed(weights, found, limit, i, p);
        assert p in found[i];
      }
    }
    assert OfContinent(picked, continents[i]) == set p | p in Taken(found[i], n);
  }

  lemma WholeSharesFit(probes: seq<Probe>, continents: seq<string>, weights: seq<nat>, limit: nat, found: seq<seq<Probe>>)
    requires |weights| == |continents| && AreFound(probes, continents, found) && limit > 0 && Sum(weights) > 0
    requires forall i :: 0 <= i < |weights| ==> CanGiveWhole(probes, continents[i], weights[i], limit, Sum(weights))
    ensures SharesCanBeWhole(weights, found, limit)
  {
    forall i | 0 <= i < |weights|
      ensures limit * weights[i] / Sum(weights) > 0 && limit * weights[i] % Sum(weights) == 0
      ensures |found[i]| >= limit * weights[i] / Sum(weights) {
      assert CanGiveWhole(probes, continents[i], weights[i], limit, Sum(weights));
      FoundSize(probes, continents, found, i);
      PositiveQuotient(limit, weights[i], Sum(weights));
    }
  }

  lemma GotExactly(probes: seq<Probe>, continents: seq<string>, weights: seq<nat>, limit: nat, found: seq<seq<Probe>>, i: nat)
    requires |weights| == |continents| && Distinct(continents) && AreFound(probes, continents, found) && i < |continents|
    requires limit > 0 && SharesCanBeWhole(weights, found, limit) && CanGiveWhole(probes, continents[i], weights[i], limit, Sum(weights))
    ensures GetsExactly(continents[i], weights[i], limit, Sum(weights), Select(weights, found, limit))
  {
    ExactlyItsShare(probes, continents, weights, limit, found, i);
    ExactQuotient(limit * weights[i], Sum(weights));
  }

  lemma WholeShares(probes: seq<Probe>, continents: seq<string>, weights: seq<nat>, limit: nat, found: seq<seq<Probe>>)
    requires |weights| == |continents| && Distinct(continents) && AreFound(probes, continents, found)
    ensures WholeSharesGiven(probes, continents, weights, limit, Select(weights, found, limit))
  {
    if Sum(weights) > 0 && limit > 0 &&
       forall i :: 0 <= i < |weights| ==> CanGiveWhole(probes, continents[i], weights[i], limit, Sum(weights)) {
      WholeSharesFit(probes, continents, weights, limit, found);
      forall i | 0 <= i < |continents| ensures GetsExactly(continents[i], weights[i], limit, Sum(weights), Select(weights, found, limit)) {
        assert CanGiveWhole(probes, continents[i], weights[i], limit, Sum(weights));
        GotExactly(probes, continents, weights, limit, found, i);
      }
    }
  }

  lemma PositiveQuotient(limit: nat, weight: nat, total: nat)
    requires limit > 0 && weight > 0 && total > 0 && limit * weight % total == 0
    ensures limit * weight / total > 0
  {
    MulMonotone(limit, 1, weight);
    ExactQuotient(limit * weight, total);
    LessThan(0, limit * weight / total, total);
  }

  /** The configured continents and their weights, in the order of a shuffle. */
  method FilterGloballyDistributed(probes: seq<Probe>, continents: seq<string>, weights: seq<nat>, limit: nat) returns (picked: seq<Probe>)
    requires |weights| == |continents|
    ensures Distinct(picked)
    ensures forall p :: p in picked ==> p in probes && InContinents(p, continents)
    ensures |picked| >= limit || forall p :: p in probes && InContinents(p, continents) ==> p in picked
    ensures |picked| <= limit + Max(|continents| - 1, 0)
    ensures (forall i :: 0 <= i < |weights| ==> weights[i] > 0) ==> |picked| <= limit + Max(|continents| - 2, 0)
    ensures Distinct(probes) && Distinct(continents) ==>
              && SharesInTurn(probes, continents, weights, limit, picked)
              && SharesServed(probes, continents, weights, limit, picked)
              && WholeSharesGiven(probes, continents, weights, limit, picked)
  {
    var found: seq<seq<Probe>> := [];
    for i := 0 to |continents|
      invariant |found| == i
      invariant forall j :: 0 <= j < i ==> forall p :: p in found[j] <==> p in probes && p.continent == continents[j]
      invariant Distinct(probes) ==> forall j :: 0 <= j < i ==> Distinct(found[j])
    {
      var matches := FilterByContinent(probes, continents[i]);
      found := found + [matches];
    }
    picked := FilterByLocationAndWeight(weights, found, limit);
    SelectedAreMatches(weights, found, limit);
    LimitIsPassedByFew(weights, found, limit);
    if Distinct(probes) && Distinct(continents) {
      InTurn(probes, continents, weights, limit, found);
      AllServed(probes, continents, weights, limit, found);
      WholeShares(probes, continents, weights, limit, found);
    }
    forall p ensures Matched(found, p) <==> p in probes && InContinents(p, continents) {
      if p in probes && InContinents(p, continents) {
        var i :| 0 <= i < |continents| && continents[i] == p.continent;
        assert p in found[i];
      }
    }
  }

  /** `world` is a permutation of the probes of the configured continents. */
  method World(probes: seq<Probe>, continents: seq<string>, weights: seq<nat>) returns (result: seq<Probe>)
    requires |weights| == |continents| && Distinct(probes)
    ensures Distinct(result) && forall p :: p in result <==> p in probes && InContinents(p, continents)
  {
    var picked := FilterGloballyDistributed(probes, continents, weights, |probes|);
    if |picked| >= |probes| {
      AllPicked(probes, picked);
    }
    var random := AnyOrder(picked);
    ghost var ranked, order;
    result, ranked, order := DiversifiedShuffle.DiversifiedShuffle(random);
    SameMembers(picked, result);
  }

  lemma AllPicked<T>(all: seq<T>, picked: seq<T>)
    requires Distinct(picked) && Distinct(all) && |picked| >= |all| && forall x :: x in picked ==> x in all
    ensures forall x :: x in all ==> x in picked
  {
    var chosen, whole := set x | x in picked, set x | x in all;
    DistinctSize(picked);
    DistinctSize(all);
    assert chosen <= whole;
    forall x | x in all ensures x in picked {
      if x !in picked {
        assert chosen <= whole - {x};
        SubsetSize(chosen, whole - {x});
      }
    }
  }

  /** One limit for all locations, which weigh the same: exactly so many probes, if there are so many. */
  method FindWithGlobalLimit(found: seq<seq<Probe>>, limit: nat) returns (picked: seq<Probe>)
    ensures Distinct(picked) && (forall p :: p in picked ==> Matched(found, p)) && |picked| == Min(limit, |Union(found)|)
  {
    var weights := seq(|found|, i => 1);
    picked := FilterByLocationAndWeight(weights, found, limit);
    SelectedAreMatches(weights, found, limit);
    EqualWeightsMeetTheLimit(weights, found, limit);
  }

  ghost predicate IsTaken<P>(found: seq<seq<P>>, limits: seq<nat>, n: nat, p: P)
    requires |limits| == |found|
  {
    exists i :: 0 <= i < n <= |found| && p in Taken(found[i], limits[i])
  }

  lemma TakenOneMore<P>(found: seq<seq<P>>, limits: seq<nat>, n: nat, p: P)
    requires |limits| == |found| && n < |found|
    ensures IsTaken(found, limits, n + 1, p) <==> IsTaken(found, limits, n, p) || p in Taken(found[n], limits[n])
  {
  }

  /** The first probes of each location, as many as its limit says. */
  method FindWithLocationLimit<P(==, !new)>(found: seq<seq<P>>, limits: seq<nat>) returns (picked: seq<P>)
    requires |limits| == |found|
    ensures Distinct(picked) && |picked| <= Sum(limits)
    ensures forall p :: p in picked <==> IsTaken(found, limits, |found|, p)
  {
    picked := [];
    for i := 0 to |found|
      invariant Distinct(picked) && |picked| <= Sum(limits[..i])
      invariant forall p :: p in picked <==> IsTaken(found, limits, i, p)
    {
      assert limits[..i + 1] == limits[..i] + [limits[i]];
      SumAppend(limits[..i], limits[i]);
      AddAllAdds(picked, Taken(found[i], limits[i]));
      SplicedApart(found[i], limits[i]);
      forall p ensures IsTaken(found, limits, i + 1, p) <==> IsTaken(found, limits, i, p) || p in Taken(found[i], limits[i]) {
        TakenOneMore(found, limits, i, p);
      }
      picked := AddEach(picked, Taken(found[i], limits[i]));
    }
    assert limits[..|limits|] == limits;
  }

  // ---------------------------------------------------------------- the order of magic matches

  const CATEGORIES: nat := 16

  /** Groups come in the order of their position; those with a keyword that is in no category come last. */
  function Rank(position: int): nat {
    if 0 <= position < CATEGORIES then position else CATEGORIES
  }

  function RankOf(position: map<Probe, int>, p: Probe): nat {
    Rank(if p in position then position[p] else -1)
  }

  method WithRank(probes: seq<Probe>, position: map<Probe, int>, rank: nat) returns (group: seq<Probe>)
    requires Distinct(probes)
    ensures Distinct(group) && forall p :: p in group <==> p in probes && RankOf(position, p) == rank
  {
    group := [];
    for i := 0 to |probes|
      invariant Distinct(group) && forall p :: p in group <==> p in probes[..i] && RankOf(position, p) == rank
    {
      assert probes[..i + 1] == probes[..i] + [probes[i]];
      if RankOf(position, probes[i]) == rank {
        group := group + [probes[i]];
      }
    }
    assert probes[..|probes|] == probes;
  }

  ghost predicate HasCategory(position: map<Probe, int>, p: Probe) {
    p in position && 0 <= position[p] < 16
  }

  /** The probe matches in an earlier category; matching in any comes before matching in none. */
  ghost predicate Closer(position: map<Probe, int>, p: Probe, q: Probe) {
    HasCategory(position, p) && (HasCategory(position, q) ==> position[p] < position[q])
  }

  lemma CloserRanksLower(position: map<Probe, int>, p: Probe, q: Probe)
    ensures Closer(position, p, q) <==> RankOf(position, p) < RankOf(position, q)
  {
  }

  ghost predicate InRankOrder(probes: seq<Probe>, position: map<Probe, int>) {
    forall i, j :: 0 <= i < j < |probes| ==> !Closer(position, probes[j], probes[i])
  }

  ghost predicate SortedUpTo(result: seq<Probe>, probes: seq<Probe>, position: map<Probe, int>, rank: nat) {
    && Distinct(result) && InRankOrder(result, position)
    && forall p :: p in result <==> p in probes && RankOf(position, p) < rank
  }

  lemma AppendGroup(result: seq<Probe>, group: seq<Probe>, probes: seq<Probe>, position: map<Probe, int>, rank: nat)
    requires SortedUpTo(result, probes, position, rank)
    requires Distinct(group) && forall p :: p in group <==> p in probes && RankOf(position, p) == rank
    ensures SortedUpTo(result + group, probes, position, rank + 1)
  {
    DistinctConcat(result, group);
    var all := result + group;
    forall i, j | 0 <= i < j < |all| ensures !Closer(position, all[j], all[i]) {
      CloserRanksLower(position, all[j], all[i]);
      assert i < |result| ==> all[i] in result;
      assert i >= |result| ==> all[i] in group;
      assert j >= |result| ==> all[j] in group;
    }
  }

  /**
    Whole groups in the order of their ranks, each diversified, until there are enough probes: what is left
    out ranks behind everything that is there.
   */
  method MagicSort(probes: seq<Probe>, position: map<Probe, int>, maxProbes: nat) returns (result: seq<Probe>, ghost cut: nat)
    requires Distinct(probes)
    ensures SortedUpTo(result, probes, position, cut)
    ensures Distinct(result) && InRankOrder(result, position) && forall p :: p in result ==> p in probes
    ensures forall p, q :: p in result && q in probes && q !in result ==> Closer(position, p, q)
    ensures |result| >= maxProbes || forall p :: p in probes ==> p in result
  {
    result, cut := [], 0;
    for rank := 0 to CATEGORIES + 1
      invariant cut <= rank && SortedUpTo(result, probes, position, cut)
      invariant cut < rank ==> |result| >= maxProbes
    {
      if |result| < maxProbes {
        var group := WithRank(probes, position, rank);
        var random := AnyOrder(group);
        var shuffled;
        ghost var ranked, order;
        shuffled, ranked, order := DiversifiedShuffle.DiversifiedShuffle(random);
        SameMembers(group, shuffled);
        AppendGroup(result, shuffled, probes, position, rank);
        result, cut := result + shuffled, rank + 1;
      }
    }
    forall p, q | p in result && q in probes && q !in result ensures Closer(position, p, q) {
      CloserRanksLower(position, p, q);
    }
  }
}
