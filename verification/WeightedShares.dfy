/** What each location is given by the rounds, in proportion to its weight. */
module WeightedShares {
  import opened Common
  import opened WeightedSelection
  import opened WeightedExcess

  // ---------------------------------------------------------------- one location in the first round

  lemma RoundKeepsPicked<P>(groups: seq<Group<P>>, picked: seq<P>, wanted: nat, total: nat, limit: nat, p: P)
    requires Distinct(picked) && p in picked
    ensures p in Round(groups, picked, wanted, total, limit).1
    decreases |groups|
  {
    if groups != [] && |picked| != limit {
      var taken := Taken(groups[0].probes, Count(wanted, groups[0].weight, total));
      AddAllAdds(picked, taken);
      RoundKeepsPicked(groups[1..], AddAll(picked, taken), wanted, total, limit, p);
    }
  }

  lemma {:induction false} RoundsKeepPicked<P>(groups: seq<Group<P>>, idle: nat, picked: seq<P>, limit: nat, p: P)
    requires NoneEmpty(groups) && Distinct(picked) && p in picked
    ensures p in Rounds(groups, idle, picked, limit)
    decreases Size(groups)
  {
    if groups != [] && |picked| < limit {
      var wanted, total := limit - |picked|, idle + Weight(groups);
      RoundsNext(groups, idle, picked, limit);
      RoundKeepsPicked(groups, picked, wanted, total, limit, p);
      RoundKeepsDistinct(groups, picked, wanted, total, limit);
      RoundsKeepPicked(NextRound(groups, idle, picked, limit).0, idle, NextRound(groups, idle, picked, limit).1, limit, p);
    }
  }

  /** A probe that the location gives is picked. */
  ghost predicate Given<P>(g: Group<P>, wanted: nat, total: nat, picked: seq<P>, p: P) {
    p in Taken(g.probes, Count(wanted, g.weight, total)) ==> p in picked
  }

  /** The round ended before the location: the limit is met by what was there and what earlier locations gave. */
  ghost predicate EndedBefore<P>(groups: seq<Group<P>>, picked: seq<P>, picked': seq<P>, limit: nat, j: nat, q: P)
    requires j <= |groups|
  {
    |picked'| == limit && (q in picked' ==> q in picked || InGroups(groups[..j], q))
  }

  lemma FirstIsServed<P>(groups: seq<Group<P>>, picked: seq<P>, wanted: nat, total: nat, limit: nat, p: P)
    requires Distinct(picked) && groups != [] && |picked| != limit
    ensures Given(groups[0], wanted, total, Round(groups, picked, wanted, total, limit).1, p)
  {
    var taken := Taken(groups[0].probes, Count(wanted, groups[0].weight, total));
    AddAllAdds(picked, taken);
    if p in taken {
      RoundKeepsPicked(groups[1..], AddAll(picked, taken), wanted, total, limit, p);
    }
  }

  lemma EndedBeforeNext<P>(groups: seq<Group<P>>, picked: seq<P>, n: nat, picked': seq<P>, limit: nat, j: nat, q: P)
    requires j < |groups| && Distinct(picked)
    requires EndedBefore(groups[1..], AddAll(picked, Taken(groups[0].probes, n)), picked', limit, j, q)
    ensures EndedBefore(groups, picked, picked', limit, j + 1, q)
  {
    AddAllAdds(picked, Taken(groups[0].probes, n));
    SplicedApart(groups[0].probes, n);
    assert groups[..j + 1] == [groups[0]] + groups[1..][..j];
  }

  ghost predicate Served<P>(groups: seq<Group<P>>, picked: seq<P>, wanted: nat, total: nat, picked': seq<P>, limit: nat, j: nat, p: P, q: P)
    requires j < |groups|
  {
    Given(groups[j], wanted, total, picked', p) || EndedBefore(groups, picked, picked', limit, j, q)
  }

  lemma ServedNext<P>(groups: seq<Group<P>>, picked: seq<P>, n: nat, wanted: nat, total: nat, picked': seq<P>, limit: nat, j: nat, p: P, q: P)
    requires Distinct(picked) && j + 1 < |groups|
    requires Served(groups[1..], AddAll(picked, Taken(groups[0].probes, n)), wanted, total, picked', limit, j, p, q)
    ensures Served(groups, picked, wanted, total, picked', limit, j + 1, p, q)
  {
    assert groups[1..][j] == groups[j + 1];
    if EndedBefore(groups[1..], AddAll(picked, Taken(groups[0].probes, n)), picked', limit, j, q) {
      EndedBeforeNext(groups, picked, n, picked', limit, j, q);
    }
  }

  lemma {:induction false} RoundServes<P>(groups: seq<Group<P>>, picked: seq<P>, wanted: nat, total: nat, limit: nat, j: nat, p: P, q: P)
    requires Distinct(picked) && j < |groups|
    ensures Served(groups, picked, wanted, total, Round(groups, picked, wanted, total, limit).1, limit, j, p, q)
    decreases j
  {
    if |picked| == limit {
    } else if j == 0 {
      FirstIsServed(groups, picked, wanted, total, limit, p);
    } else {
      var n := Count(wanted, groups[0].weight, total);
      var next := AddAll(picked, Taken(groups[0].probes, n));
      AddAllAdds(picked, Taken(groups[0].probes, n));
      RoundServes(groups[1..], next, wanted, total, limit, j - 1, p, q);
      ServedNext(groups, picked, n, wanted, total, Round(groups[1..], next, wanted, total, limit).1, limit, j - 1, p, q);
    }
  }

  lemma RoundsServe<P>(groups: seq<Group<P>>, idle: nat, limit: nat, j: nat, p: P, q: P)
    requires NoneEmpty(groups) && j < |groups|
    ensures var picked := Rounds(groups, idle, [], limit);
            Given(groups[j], limit, idle + Weight(groups), picked, p) || EndedBefore(groups, [], picked, limit, j, q)
  {
    if limit > 0 {
      var next := NextRound(groups, idle, [], limit);
      RoundsNext(groups, idle, [], limit);
      RoundServes(groups, [], limit, idle + Weight(groups), limit, j, p, q);
      RoundKeepsDistinct(groups, [], limit, idle + Weight(groups), limit);
      if !Given(groups[j], limit, idle + Weight(groups), next.1, p) {
        RoundsEnd(next.0, idle, next.1, limit);
      } else if p in next.1 {
        RoundsKeepPicked(next.0, idle, next.1, limit, p);
      }
    }
  }

  // ---------------------------------------------------------------- the locations and their weights

  lemma {:induction false} WeightAppend<P>(groups: seq<Group<P>>, more: seq<Group<P>>)
    ensures Weight(groups + more) == Weight(groups) + Weight(more)
  {
    if groups == [] {
      assert groups + more == more;
    } else {
      assert (groups + more)[1..] == groups[1..] + more;
      WeightAppend(groups[1..], more);
    }
  }

  lemma {:induction false} SumAppend(weights: seq<nat>, w: nat)
    ensures Sum(weights + [w]) == Sum(weights) + w
  {
    if weights == [] {
      assert (weights + [w])[1..] == [];
    } else {
      assert (weights + [w])[1..] == weights[1..] + [w];
      SumAppend(weights[1..], w);
    }
  }

  /** Locations without matches stay in the total. */
  lemma {:induction false} TotalIsSum<P>(weights: seq<nat>, found: seq<seq<P>>)
    requires |weights| == |found|
    ensures IdleWeight(weights, found) + Weight(Matching(weights, found)) == Sum(weights)
  {
    if found != [] {
      var n := |found| - 1;
      TotalIsSum(weights[..n], found[..n]);
      assert weights == weights[..n] + [weights[n]];
      SumAppend(weights[..n], weights[n]);
      var before, last := Matching(weights[..n], found[..n]), [Group(weights[n], found[n])];
      assert Weight(last) == weights[n] by {
        assert last[1..] == [];
      }
      WeightAppend(before, last);
      assert Matching(weights, found) == if found[n] == [] then before else before + last;
    }
  }

  lemma {:induction false} MatchingAt<P>(weights: seq<nat>, found: seq<seq<P>>, i: nat) returns (j: nat)
    requires |weights| == |found| && i < |found| && found[i] != []
    ensures j < |Matching(weights, found)| && Matching(weights, found)[j] == Group(weights[i], found[i])
    ensures Matching(weights, found)[..j] == Matching(weights[..i], found[..i])
  {
    var n := |found| - 1;
    var before := Matching(weights[..n], found[..n]);
    if i == n {
      j := |before|;
    } else {
      j := MatchingAt(weights[..n], found[..n], i);
      assert weights[..n][..i] == weights[..i] && found[..n][..i] == found[..i];
      assert Matching(weights, found)[..j] == before[..j];
    }
  }

  lemma MatchingOf<P>(weights: seq<nat>, found: seq<seq<P>>, j: nat) returns (i: nat)
    requires |weights| == |found| && j < |Matching(weights, found)|
    ensures i < |found| && Matching(weights, found)[j] == Group(weights[i], found[i])
  {
    MatchingGroups(weights, found);
    assert Matching(weights, found)[j] in Matching(weights, found);
    i :| i < |found| && Matching(weights, found)[j] == Group(weights[i], found[i]);
  }

  // ---------------------------------------------------------------- the selection

  /** Each location gives its share, or one probe, or all it has, unless earlier locations meet the limit. */
  lemma SelectServes<P>(weights: seq<nat>, found: seq<seq<P>>, limit: nat, i: nat, p: P, q: P)
    requires |weights| == |found| && i < |found| && p in Taken(found[i], Count(limit, weights[i], Sum(weights)))
    ensures var picked := Select(weights, found, limit);
            p in picked || (|picked| == limit && (q in picked ==> Matched(found[..i], q)))
  {
    var j := MatchingAt(weights, found, i);
    MatchingGroups(weights, found);
    SelectServesGroup(weights, found, limit, i, j, p, q);
    MatchedInGroups(weights[..i], found[..i], q);
  }

  lemma SelectServesGroup<P>(weights: seq<nat>, found: seq<seq<P>>, limit: nat, i: nat, j: nat, p: P, q: P)
    requires |weights| == |found| && i < |found| && j < |Matching(weights, found)| && NoneEmpty(Matching(weights, found))
    requires Matching(weights, found)[j] == Group(weights[i], found[i])
    requires p in Taken(found[i], Count(limit, weights[i], Sum(weights)))
    ensures var picked := Select(weights, found, limit);
            p in picked || (|picked| == limit && (q in picked ==> InGroups(Matching(weights, found)[..j], q)))
  {
    TotalIsSum(weights, found);
    RoundsServe(Matching(weights, found), IdleWeight(weights, found), limit, j, p, q);
  }

  /** No matching location is left with less than one probe by its share. */
  ghost predicate SharesAreBig(weights: seq<nat>, limit: nat) {
    Sum(weights) > 0 && forall i :: 0 <= i < |weights| ==> limit * weights[i] / Sum(weights) > 0
  }

  lemma {:induction false} BigSharesAreNotSmall<P>(groups: seq<Group<P>>, wanted: nat, total: nat)
    requires forall g :: g in groups ==> ShareOf(g, wanted, total) > 0
    ensures Small(groups, wanted, total) == 0
  {
    if groups != [] {
      assert groups[0] in groups && forall g :: g in groups[1..] ==> g in groups;
      BigSharesAreNotSmall(groups[1..], wanted, total);
    }
  }

  ghost predicate FoundApart<P>(found: seq<seq<P>>) {
    && (forall i :: 0 <= i < |found| ==> Distinct(found[i]))
    && forall i, j, p :: 0 <= i < j < |found| && p in found[i] ==> p !in found[j]
  }

  lemma {:induction false} MatchingApart<P>(weights: seq<nat>, found: seq<seq<P>>)
    requires |weights| == |found| && FoundApart(found)
    ensures Disjoint(Matching(weights, found)) && forall g :: g in Matching(weights, found) ==> Distinct(g.probes)
  {
    if found != [] {
      var n := |found| - 1;
      var before, groups := Matching(weights[..n], found[..n]), Matching(weights, found);
      assert FoundApart(found[..n]);
      MatchingApart(weights[..n], found[..n]);
      forall k, l, p | 0 <= k < l < |groups| && p in groups[k].probes ensures p !in groups[l].probes {
        assert groups[k] == before[k];
        if l == |before| {
          var i := MatchingOf(weights[..n], found[..n], k);
          assert found[..n][i] == found[i];
        }
      }
    }
  }

  lemma SharesWithinLimit<P>(groups: seq<Group<P>>, limit: nat, total: nat)
    requires Weight(groups) <= total && AllBig(groups, limit, total)
    ensures |Shares(groups, limit, total)| <= CountSum(groups, limit, total) <= limit
  {
    BigSharesAreNotSmall(groups, limit, total);
    SumsAdd(groups, limit, total);
    SharesAtMostWanted(groups, limit, total);
    SharesAtMostCounts(groups, limit, total);
  }

  lemma {:induction false} SharesAtMostCounts<P>(groups: seq<Group<P>>, wanted: nat, total: nat)
    ensures |Shares(groups, wanted, total)| <= CountSum(groups, wanted, total)
  {
    if groups != [] {
      SharesAtMostCounts(groups[1..], wanted, total);
      SplicedApart(groups[0].probes, Count(wanted, groups[0].weight, total));
    }
  }

  lemma {:induction false} GivesItsShare<P>(groups: seq<Group<P>>, wanted: nat, total: nat, j: nat, p: P)
    requires j < |groups| && p in Taken(groups[j].probes, Count(wanted, groups[j].weight, total))
    ensures p in Shares(groups, wanted, total)
  {
    if j > 0 {
      GivesItsShare(groups[1..], wanted, total, j - 1, p);
    }
  }

  lemma BigShare<P>(weights: seq<nat>, limit: nat, probes: seq<P>, i: nat)
    requires SharesAreBig(weights, limit) && i < |weights|
    ensures ShareOf(Group(weights[i], probes), limit, Sum(weights)) > 0
  {
    assert limit * weights[i] / Sum(weights) > 0;
  }

  ghost predicate AllBig<P>(groups: seq<Group<P>>, limit: nat, total: nat) {
    forall g :: g in groups ==> ShareOf(g, limit, total) > 0
  }

  lemma GroupsAreBig<P>(weights: seq<nat>, found: seq<seq<P>>, limit: nat)
    requires |weights| == |found| && SharesAreBig(weights, limit)
    ensures AllBig(Matching(weights, found), limit, Sum(weights))
  {
    MatchingGroups(weights, found);
    forall g | g in Matching(weights, found) ensures ShareOf(g, limit, Sum(weights)) > 0 {
      var i :| 0 <= i < |found| && g == Group(weights[i], found[i]);
      BigShare(weights, limit, found[i], i);
    }
  }

  lemma NonEmptyTake<P>(groups: seq<Group<P>>, wanted: nat, total: nat)
    requires NoneEmpty(groups)
    ensures AllTake(groups, wanted, total)
  {
  }

  lemma BigSharesArePicked<P>(groups: seq<Group<P>>, limit: nat, total: nat)
    requires NoneEmpty(groups) && AllBig(groups, limit, total) && Weight(groups) <= total && Distinct(Shares(groups, limit, total))
    ensures Round(groups, [], limit, total, limit).1 == Shares(groups, limit, total)
  {
    NonEmptyTake(groups, limit, total);
    SharesWithinLimit(groups, limit, total);
    assert [] + Shares(groups, limit, total) == Shares(groups, limit, total);
    RoundPicksShares(groups, [], limit, total, limit);
  }

  /** When no share is rounded to nothing, the first round serves all locations, one after the other. */
  lemma FirstRoundGivesShares<P>(weights: seq<nat>, found: seq<seq<P>>, limit: nat)
    requires |weights| == |found| && limit > 0 && SharesAreBig(weights, limit) && FoundApart(found)
    ensures var groups := Matching(weights, found);
            && NoneEmpty(groups) && Distinct(Shares(groups, limit, Sum(weights)))
            && NextRound(groups, IdleWeight(weights, found), [], limit).1 == Shares(groups, limit, Sum(weights))
  {
    var groups := Matching(weights, found);
    MatchingGroups(weights, found);
    TotalIsSum(weights, found);
    MatchingApart(weights, found);
    GroupsAreBig(weights, found, limit);
    SharesDistinct(groups, limit, Sum(weights));
    BigSharesArePicked(groups, limit, Sum(weights));
  }

  /** Then nobody gets less than its share. */
  lemma BigSharesAreServed<P>(weights: seq<nat>, found: seq<seq<P>>, limit: nat, i: nat, p: P)
    requires |weights| == |found| && limit > 0 && SharesAreBig(weights, limit) && FoundApart(found) && i < |found|
    requires p in Taken(found[i], limit * weights[i] / Sum(weights))
    ensures p in Select(weights, found, limit)
  {
    var groups, idle := Matching(weights, found), IdleWeight(weights, found);
    assert limit * weights[i] / Sum(weights) > 0;
    var j := MatchingAt(weights, found, i);
    FirstRoundGivesShares(weights, found, limit);
    GivesItsShare(groups, limit, Sum(weights), j, p);
    RoundsNext(groups, idle, [], limit);
    RoundsKeepPicked(NextRound(groups, idle, [], limit).0, idle, NextRound(groups, idle, [], limit).1, limit, p);
  }

  /** The limit can be divided by the weights, and each location has enough probes. */
  ghost predicate SharesCanBeWhole<P>(weights: seq<nat>, found: seq<seq<P>>, limit: nat)
    requires |weights| == |found|
  {
    SharesAreBig(weights, limit) &&
    forall i :: 0 <= i < |weights| ==> (limit * weights[i]) % Sum(weights) == 0 && |found[i]| >= limit * weights[i] / Sum(weights)
  }

  lemma ExactQuotient(x: nat, d: nat)
    requires d > 0 && x % d == 0
    ensures (x / d) * d == x
  {
  }

  lemma WholeGroup<P>(weights: seq<nat>, found: seq<seq<P>>, limit: nat, i: nat)
    requires |weights| == |found| && i < |found| && SharesCanBeWhole(weights, found, limit) && FoundApart(found)
    ensures found[i] != [] && ShareIsWhole(Group(weights[i], found[i]), limit, Sum(weights))
  {
    assert limit * weights[i] / Sum(weights) > 0;
    ExactQuotient(limit * weights[i], Sum(weights));
  }

  lemma SelectGivesShares<P>(weights: seq<nat>, found: seq<seq<P>>, limit: nat)
    requires |weights| == |found| > 0 && limit > 0 && SharesCanBeWhole(weights, found, limit) && FoundApart(found)
    ensures Select(weights, found, limit) == Shares(Matching(weights, found), limit, Sum(weights))
  {
    var groups, total := Matching(weights, found), Sum(weights);
    forall k | 0 <= k < |found| ensures found[k] != [] && ShareIsWhole(Group(weights[k], found[k]), limit, total) {
      WholeGroup(weights, found, limit, k);
    }
    MatchingGroups(weights, found);
    TotalIsSum(weights, found);
    AllMatch(weights, found);
    MatchingApart(weights, found);
    WholeSharesAreExact(groups, limit);
  }

  /** Then nobody gets more than its share either. */
  lemma OnlySharesAreGiven<P>(weights: seq<nat>, found: seq<seq<P>>, limit: nat, p: P) returns (i: nat)
    requires |weights| == |found| && limit > 0 && SharesCanBeWhole(weights, found, limit) && FoundApart(found)
    requires p in Select(weights, found, limit)
    ensures i < |found| && p in Taken(found[i], limit * weights[i] / Sum(weights))
  {
    SelectGivesShares(weights, found, limit);
    var j := TakenBySomebody(Matching(weights, found), limit, Sum(weights), p);
    i := MatchingOf(weights, found, j);
    assert limit * weights[i] / Sum(weights) > 0;
  }
}
