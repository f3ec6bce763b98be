/** Picking probes from the matches of several weighted locations, in rounds. */
module WeightedSelection {
  import opened Common

  /** The matches of a location that are not spliced off yet. */
  datatype Group<+P> = Group(weight: nat, probes: seq<P>)

  function Weight<P>(groups: seq<Group<P>>): nat {
    if groups == [] then 0 else groups[0].weight + Weight(groups[1..])
  }

  /** How many probes a location gives in a round: its floored share, or one. */
  function Count(wanted: nat, weight: nat, total: nat): (n: nat)
    ensures n > 0
  {
    var share := if total == 0 then 0 else wanted * weight / total;
    if share == 0 then 1 else share
  }

  function Taken<P>(probes: seq<P>, n: nat): seq<P> {
    if n < |probes| then probes[..n] else probes
  }

  function Left<P>(probes: seq<P>, n: nat): seq<P> {
    if n < |probes| then probes[n..] else []
  }

  /** A set that remembers the order of insertion. */
  function AddAll<P(==)>(picked: seq<P>, probes: seq<P>): seq<P>
    decreases |probes|
  {
    if probes == [] then picked
    else AddAll(if probes[0] in picked then picked else picked + [probes[0]], probes[1..])
  }

  /** The rest of a round: the groups left over and the probes picked. */
  function Round<P(==)>(groups: seq<Group<P>>, picked: seq<P>, wanted: nat, total: nat, limit: nat): (seq<Group<P>>, seq<P>) {
    if groups == [] || |picked| == limit then (groups, picked)
    else
      var g := groups[0];
      var n := Count(wanted, g.weight, total);
      var next := Round(groups[1..], AddAll(picked, Taken(g.probes, n)), wanted, total, limit);
      (if Left(g.probes, n) == [] then next.0 else [g.(probes := Left(g.probes, n))] + next.0, next.1)
  }

  function Size<P>(groups: seq<Group<P>>): nat {
    if groups == [] then 0 else |groups[0].probes| + Size(groups[1..])
  }

  ghost predicate NoneEmpty<P>(groups: seq<Group<P>>) {
    forall g :: g in groups ==> g.probes != []
  }

  lemma {:induction false} RoundShrinks<P>(groups: seq<Group<P>>, picked: seq<P>, wanted: nat, total: nat, limit: nat)
    requires NoneEmpty(groups)
    ensures var after := Round(groups, picked, wanted, total, limit).0;
            && NoneEmpty(after) && |after| <= |groups|
            && Size(after) <= Size(groups) && (groups != [] && |picked| != limit ==> Size(after) < Size(groups))
  {
    if groups != [] && |picked| != limit {
      var g := groups[0];
      var n := Count(wanted, g.weight, total);
      assert g in groups;
      assert forall h :: h in groups[1..] ==> h in groups;
      RoundShrinks(groups[1..], AddAll(picked, Taken(g.probes, n)), wanted, total, limit);
      var (after, _) := Round(groups[1..], AddAll(picked, Taken(g.probes, n)), wanted, total, limit);
      if Left(g.probes, n) != [] {
        assert ([g.(probes := Left(g.probes, n))] + after)[1..] == after;
      }
    }
  }

  /** One round with the weights that are left; `idle` is the weight of the locations that match nothing, which stays in the total. */
  function NextRound<P(==)>(groups: seq<Group<P>>, idle: nat, picked: seq<P>, limit: nat): (seq<Group<P>>, seq<P>)
    requires |picked| < limit
  {
    Round(groups, picked, limit - |picked|, idle + Weight(groups), limit)
  }

  lemma NextRoundShrinks<P>(groups: seq<Group<P>>, idle: nat, picked: seq<P>, limit: nat)
    requires NoneEmpty(groups) && |picked| < limit
    ensures var after := NextRound(groups, idle, picked, limit).0;
            NoneEmpty(after) && |after| <= |groups| && (groups != [] ==> Size(after) < Size(groups))
  {
    RoundShrinks(groups, picked, limit - |picked|, idle + Weight(groups), limit);
  }

  function Rounds<P(==)>(groups: seq<Group<P>>, idle: nat, picked: seq<P>, limit: nat): seq<P>
    requires NoneEmpty(groups)
    decreases Size(groups)
  {
    if groups == [] || |picked| >= limit then picked
    else
      NextRoundShrinks(groups, idle, picked, limit);
      Rounds(NextRound(groups, idle, picked, limit).0, idle, NextRound(groups, idle, picked, limit).1, limit)
  }

  lemma RoundsNext<P>(groups: seq<Group<P>>, idle: nat, picked: seq<P>, limit: nat)
    requires NoneEmpty(groups) && groups != [] && |picked| < limit
    ensures var next := NextRound(groups, idle, picked, limit);
            && NoneEmpty(next.0) && Size(next.0) < Size(groups)
            && Rounds(groups, idle, picked, limit) == Rounds(next.0, idle, next.1, limit)
  {
    NextRoundShrinks(groups, idle, picked, limit);
  }

  lemma RoundsEnd<P>(groups: seq<Group<P>>, idle: nat, picked: seq<P>, limit: nat)
    requires NoneEmpty(groups) && |picked| >= limit
    ensures Rounds(groups, idle, picked, limit) == picked
  {
  }

  // ---------------------------------------------------------------- whose probes are picked

  ghost predicate InGroups<P>(groups: seq<Group<P>>, p: P) {
    exists g :: g in groups && p in g.probes
  }

  lemma {:induction false} AddAllAdds<P>(picked: seq<P>, probes: seq<P>)
    requires Distinct(picked)
    ensures var all := AddAll(picked, probes);
            && Distinct(all) && (forall p :: p in all <==> p in picked || p in probes)
            && |picked| <= |all| <= |picked| + |probes|
    decreases |probes|
  {
    if probes != [] {
      AddAllAdds(if probes[0] in picked then picked else picked + [probes[0]], probes[1..]);
      assert probes == [probes[0]] + probes[1..];
    }
  }

  lemma {:induction false} AddAllAppends<P>(picked: seq<P>, probes: seq<P>)
    requires Distinct(probes) && forall p :: p in probes ==> p !in picked
    ensures AddAll(picked, probes) == picked + probes
    decreases |probes|
  {
    if probes != [] {
      AddAllAppends(picked + [probes[0]], probes[1..]);
      assert picked + [probes[0]] + probes[1..] == picked + probes;
    }
  }

  lemma SplicedApart<P>(probes: seq<P>, n: nat)
    ensures probes == Taken(probes, n) + Left(probes, n) && |Taken(probes, n)| <= n
  {
  }

  lemma InGroupsSplit<P>(groups: seq<Group<P>>, p: P)
    requires groups != []
    ensures InGroups(groups, p) <==> p in groups[0].probes || InGroups(groups[1..], p)
  {
    assert groups == [groups[0]] + groups[1..];
  }

  /** A round moves probes from the groups to the picked ones and loses none. */
  lemma {:induction false} RoundMoves<P>(groups: seq<Group<P>>, picked: seq<P>, wanted: nat, total: nat, limit: nat, p: P)
    requires Distinct(picked)
    ensures var (after, picked') := Round(groups, picked, wanted, total, limit);
            && Distinct(picked') && |picked| <= |picked'|
            && (p in picked' || InGroups(after, p) <==> p in picked || InGroups(groups, p))
  {
    if groups != [] && |picked| != limit {
      var g := groups[0];
      var n := Count(wanted, g.weight, total);
      var next := AddAll(picked, Taken(g.probes, n));
      AddAllAdds(picked, Taken(g.probes, n));
      RoundMoves(groups[1..], next, wanted, total, limit, p);
      var (rest, picked') := Round(groups[1..], next, wanted, total, limit);
      SplicedApart(g.probes, n);
      InGroupsSplit(groups, p);
      if Left(g.probes, n) != [] {
        var after := [g.(probes := Left(g.probes, n))] + rest;
        InGroupsSplit(after, p);
        assert after[1..] == rest;
      }
    }
  }

  /** Nothing is picked twice or from elsewhere, and everything is picked unless the limit is reached. */
  lemma {:induction false} RoundsPick<P>(groups: seq<Group<P>>, idle: nat, picked: seq<P>, limit: nat, p: P)
    requires NoneEmpty(groups) && Distinct(picked)
    ensures var all := Rounds(groups, idle, picked, limit);
            && Distinct(all) && (p in all ==> p in picked || InGroups(groups, p))
            && (|all| >= limit || (p in picked || InGroups(groups, p) ==> p in all))
    decreases Size(groups)
  {
    if groups != [] && |picked| < limit {
      NextRoundShrinks(groups, idle, picked, limit);
      RoundMoves(groups, picked, limit - |picked|, idle + Weight(groups), limit, p);
      RoundsPick(NextRound(groups, idle, picked, limit).0, idle, NextRound(groups, idle, picked, limit).1, limit, p);
    }
  }

  // ---------------------------------------------------------------- how many are picked

  function CountSum<P>(groups: seq<Group<P>>, wanted: nat, total: nat): nat {
    if groups == [] then 0 else Count(wanted, groups[0].weight, total) + CountSum(groups[1..], wanted, total)
  }

  function ShareOf<P>(g: Group<P>, wanted: nat, total: nat): nat {
    if total == 0 then 0 else wanted * g.weight / total
  }

  function ShareSum<P>(groups: seq<Group<P>>, wanted: nat, total: nat): nat {
    if groups == [] then 0 else ShareOf(groups[0], wanted, total) + ShareSum(groups[1..], wanted, total)
  }

  /** The locations whose share is rounded to nothing, and that get one probe all the same. */
  function Small<P>(groups: seq<Group<P>>, wanted: nat, total: nat): nat {
    if groups == [] then 0 else (if ShareOf(groups[0], wanted, total) == 0 then 1 else 0) + Small(groups[1..], wanted, total)
  }

  function BigWeight<P>(groups: seq<Group<P>>, wanted: nat, total: nat): nat {
    if groups == [] then 0
    else (if ShareOf(groups[0], wanted, total) == 0 then 0 else groups[0].weight) + BigWeight(groups[1..], wanted, total)
  }

  lemma {:induction false} SumsAdd<P>(groups: seq<Group<P>>, wanted: nat, total: nat)
    ensures CountSum(groups, wanted, total) == ShareSum(groups, wanted, total) + Small(groups, wanted, total)
    ensures Small(groups, wanted, total) <= |groups|
    ensures Small(groups, wanted, total) == |groups| ==> ShareSum(groups, wanted, total) == 0
    ensures BigWeight(groups, wanted, total) <= Weight(groups)
  {
    if groups != [] {
      SumsAdd(groups[1..], wanted, total);
    }
  }

  lemma ShareIsFloored(wanted: nat, weight: nat, total: nat)
    requires total > 0
    ensures (wanted * weight / total) * total <= wanted * weight
  {
  }

  lemma OneMoreFits(share: nat, rest: nat, weight: nat, big: nat, wanted: nat, total: nat)
    requires share * total <= wanted * weight && rest * total <= wanted * big
    ensures (share + rest) * total <= wanted * (weight + big)
  {
    assert (share + rest) * total == share * total + rest * total;
    assert wanted * (weight + big) == wanted * weight + wanted * big;
  }

  lemma {:induction false} SharesFit<P>(groups: seq<Group<P>>, wanted: nat, total: nat)
    requires total > 0
    ensures ShareSum(groups, wanted, total) * total <= wanted * BigWeight(groups, wanted, total)
  {
    if groups != [] {
      SharesFit(groups[1..], wanted, total);
      var share, rest := ShareOf(groups[0], wanted, total), ShareSum(groups[1..], wanted, total);
      var weight := if share == 0 then 0 else groups[0].weight;
      ShareIsFloored(wanted, groups[0].weight, total);
      OneMoreFits(share, rest, weight, BigWeight(groups[1..], wanted, total), wanted, total);
    }
  }

  ghost predicate Positive<P>(groups: seq<Group<P>>) {
    forall g :: g in groups ==> g.weight > 0
  }

  ghost predicate EqualWeights<P>(groups: seq<Group<P>>) {
    forall g, h :: g in groups && h in groups ==> g.weight == h.weight
  }

  lemma {:induction false} SmallWeightsCount<P>(groups: seq<Group<P>>, wanted: nat, total: nat)
    requires Positive(groups) && Small(groups, wanted, total) > 0
    ensures BigWeight(groups, wanted, total) < Weight(groups)
  {
    SumsAdd(groups[1..], wanted, total);
    assert groups[0] in groups;
    if ShareOf(groups[0], wanted, total) != 0 {
      assert forall g :: g in groups[1..] ==> g in groups;
      SmallWeightsCount(groups[1..], wanted, total);
    }
  }

  lemma {:induction false} EqualSharesAgree<P>(groups: seq<Group<P>>, wanted: nat, total: nat)
    requires EqualWeights(groups)
    ensures Small(groups, wanted, total) == 0 || Small(groups, wanted, total) == |groups|
  {
    if |groups| == 1 {
      assert groups[1..] == [];
    } else if |groups| > 1 {
      assert groups[0] in groups && groups[1] in groups;
      assert forall g :: g in groups[1..] ==> g in groups;
      EqualSharesAgree(groups[1..], wanted, total);
      SumsAdd(groups[1..][1..], wanted, total);
      assert groups[1..][0] == groups[1];
    }
  }

  lemma MulMonotone(a: nat, b: nat, c: nat)
    requires b <= c
    ensures a * b <= a * c
  {
  }

  lemma SharesAtMostWanted<P>(groups: seq<Group<P>>, wanted: nat, total: nat)
    requires Weight(groups) <= total
    ensures ShareSum(groups, wanted, total) <= wanted
    ensures wanted > 0 && Positive(groups) && Small(groups, wanted, total) > 0 ==> ShareSum(groups, wanted, total) < wanted
  {
    if total == 0 {
      NoShares(groups, wanted);
    } else {
      SharesFit(groups, wanted, total);
      SumsAdd(groups, wanted, total);
      var shares, big := ShareSum(groups, wanted, total), BigWeight(groups, wanted, total);
      MulMonotone(wanted, big, total);
      AtMost(shares, wanted, total);
      if wanted > 0 && Positive(groups) && Small(groups, wanted, total) > 0 {
        SmallWeightsCount(groups, wanted, total);
        MulMonotone(wanted, big, total - 1);
        assert wanted * (total - 1) == wanted * total - wanted;
        assert shares * total < wanted * total;
      }
    }
  }

  lemma {:induction false} NoShares<P>(groups: seq<Group<P>>, wanted: nat)
    ensures ShareSum(groups, wanted, 0) == 0
  {
    if groups != [] {
      NoShares(groups[1..], wanted);
    }
  }

  lemma {:induction false} RoundAddsAtMost<P>(groups: seq<Group<P>>, picked: seq<P>, wanted: nat, total: nat, limit: nat)
    requires Distinct(picked) && |picked| <= limit
    ensures var picked' := Round(groups, picked, wanted, total, limit).1;
            && |picked'| <= |picked| + CountSum(groups, wanted, total)
            && (Small(groups, wanted, total) == |groups| ==> |picked'| <= limit)
  {
    if groups != [] && |picked| != limit {
      var g := groups[0];
      var n := Count(wanted, g.weight, total);
      var next := AddAll(picked, Taken(g.probes, n));
      AddAllAdds(picked, Taken(g.probes, n));
      SplicedApart(g.probes, n);
      SumsAdd(groups[1..], wanted, total);
      RoundAddsOver(groups[1..], next, wanted, total, limit);
      if |next| <= limit {
        RoundAddsAtMost(groups[1..], next, wanted, total, limit);
      }
    }
  }

  lemma {:induction false} RoundAddsOver<P>(groups: seq<Group<P>>, picked: seq<P>, wanted: nat, total: nat, limit: nat)
    requires Distinct(picked)
    ensures |Round(groups, picked, wanted, total, limit).1| <= |picked| + CountSum(groups, wanted, total)
  {
    if groups != [] && |picked| != limit {
      var n := Count(wanted, groups[0].weight, total);
      AddAllAdds(picked, Taken(groups[0].probes, n));
      SplicedApart(groups[0].probes, n);
      RoundAddsOver(groups[1..], AddAll(picked, Taken(groups[0].probes, n)), wanted, total, limit);
    }
  }

  /** By how much the rounds may pass the limit. */
  ghost function Excess<P>(groups: seq<Group<P>>): nat {
    if EqualWeights(groups) || |groups| <= 1 then 0
    else if Positive(groups) then |groups| - 2
    else |groups| - 1
  }

  lemma RoundWithinExcess<P>(groups: seq<Group<P>>, picked: seq<P>, total: nat, limit: nat)
    requires Distinct(picked) && |picked| < limit && Weight(groups) <= total
    ensures |Round(groups, picked, limit - |picked|, total, limit).1| <= limit + Excess(groups)
  {
    var wanted := limit - |picked|;
    RoundAddsAtMost(groups, picked, wanted, total, limit);
    SumsAdd(groups, wanted, total);
    SharesAtMostWanted(groups, wanted, total);
    if EqualWeights(groups) {
      EqualSharesAgree(groups, wanted, total);
    }
  }

  lemma {:induction false} RoundKeepsWeights<P>(groups: seq<Group<P>>, picked: seq<P>, wanted: nat, total: nat, limit: nat, h: Group<P>)
    requires h in Round(groups, picked, wanted, total, limit).0
    ensures exists g :: g in groups && g.weight == h.weight
  {
    if groups != [] && |picked| != limit {
      var n := Count(wanted, groups[0].weight, total);
      if h != groups[0].(probes := Left(groups[0].probes, n)) {
        RoundKeepsWeights(groups[1..], AddAll(picked, Taken(groups[0].probes, n)), wanted, total, limit, h);
        var g :| g in groups[1..] && g.weight == h.weight;
        assert g in groups;
      } else {
        assert groups[0] in groups;
      }
    }
  }

  lemma ExcessShrinks<P>(groups: seq<Group<P>>, picked: seq<P>, wanted: nat, total: nat, limit: nat)
    requires NoneEmpty(groups)
    ensures Excess(Round(groups, picked, wanted, total, limit).0) <= Excess(groups)
  {
    var after := Round(groups, picked, wanted, total, limit).0;
    RoundShrinks(groups, picked, wanted, total, limit);
    forall h | h in after ensures exists g :: g in groups && g.weight == h.weight {
      RoundKeepsWeights(groups, picked, wanted, total, limit, h);
    }
  }

  lemma {:induction false} RoundKeepsDistinct<P>(groups: seq<Group<P>>, picked: seq<P>, wanted: nat, total: nat, limit: nat)
    requires Distinct(picked)
    ensures Distinct(Round(groups, picked, wanted, total, limit).1)
  {
    if groups != [] && |picked| != limit {
      var taken := Taken(groups[0].probes, Count(wanted, groups[0].weight, total));
      AddAllAdds(picked, taken);
      RoundKeepsDistinct(groups[1..], AddAll(picked, taken), wanted, total, limit);
    }
  }

  lemma {:induction false} RoundsWithinExcess<P>(groups: seq<Group<P>>, idle: nat, picked: seq<P>, limit: nat)
    requires NoneEmpty(groups) && Distinct(picked) && |picked| <= limit
    ensures |Rounds(groups, idle, picked, limit)| <= limit + Excess(groups)
    decreases Size(groups)
  {
    if groups != [] && |picked| < limit {
      var wanted, total := limit - |picked|, idle + Weight(groups);
      var after, picked' := NextRound(groups, idle, picked, limit).0, NextRound(groups, idle, picked, limit).1;
      NextRoundShrinks(groups, idle, picked, limit);
      RoundWithinExcess(groups, picked, total, limit);
      ExcessShrinks(groups, picked, wanted, total, limit);
      RoundKeepsDistinct(groups, picked, wanted, total, limit);
      if |picked'| <= limit {
        RoundsWithinExcess(after, idle, picked', limit);
      } else {
        RoundsEnd(after, idle, picked', limit);
      }
    }
  }

  // ---------------------------------------------------------------- the selection

  /** The locations that match something, in order. */
  function Matching<P>(weights: seq<nat>, found: seq<seq<P>>): seq<Group<P>>
    requires |weights| == |found|
  {
    if found == [] then []
    else
      var n := |found| - 1;
      Matching(weights[..n], found[..n]) + if found[n] == [] then [] else [Group(weights[n], found[n])]
  }

  function IdleWeight<P>(weights: seq<nat>, found: seq<seq<P>>): nat
    requires |weights| == |found|
  {
    if found == [] then 0
    else
      var n := |found| - 1;
      IdleWeight(weights[..n], found[..n]) + if found[n] == [] then weights[n] else 0
  }

  lemma {:induction false} MatchingGroups<P>(weights: seq<nat>, found: seq<seq<P>>)
    requires |weights| == |found|
    ensures var groups := Matching(weights, found);
            && NoneEmpty(groups) && |groups| <= |found|
            && (forall g :: g in groups ==> exists i :: 0 <= i < |found| && g == Group(weights[i], found[i]))
            && (forall i :: 0 <= i < |found| && found[i] != [] ==> Group(weights[i], found[i]) in groups)
  {
    if found != [] {
      var n := |found| - 1;
      MatchingGroups(weights[..n], found[..n]);
      assert forall i :: 0 <= i < n ==> weights[..n][i] == weights[i] && found[..n][i] == found[i];
    }
  }

  ghost predicate Matched<P>(found: seq<seq<P>>, p: P) {
    exists i :: 0 <= i < |found| && p in found[i]
  }

  lemma MatchedInGroups<P>(weights: seq<nat>, found: seq<seq<P>>, p: P)
    requires |weights| == |found|
    ensures InGroups(Matching(weights, found), p) <==> Matched(found, p)
  {
    MatchingGroups(weights, found);
    if Matched(found, p) {
      var i :| 0 <= i < |found| && p in found[i];
      assert Group(weights[i], found[i]) in Matching(weights, found);
    }
  }

  function Select<P(==)>(weights: seq<nat>, found: seq<seq<P>>, limit: nat): seq<P>
    requires |weights| == |found|
  {
    MatchingGroups(weights, found);
    Rounds(Matching(weights, found), IdleWeight(weights, found), [], limit)
  }

  function Union<P(==)>(found: seq<seq<P>>): set<P> {
    set i, p | 0 <= i < |found| && p in found[i] :: p
  }

  /** Distinct probes of the locations' matches, and all of them unless the limit is reached. */
  lemma SelectedAreMatches<P(!new)>(weights: seq<nat>, found: seq<seq<P>>, limit: nat)
    requires |weights| == |found|
    ensures var picked := Select(weights, found, limit);
            && Distinct(picked)
            && (forall p :: p in picked ==> Matched(found, p))
            && (|picked| >= limit || forall p :: Matched(found, p) ==> p in picked)
  {
    MatchingGroups(weights, found);
    var groups, idle := Matching(weights, found), IdleWeight(weights, found);
    var picked := Select(weights, found, limit);
    forall p ensures (p in picked ==> Matched(found, p)) && (|picked| >= limit || (Matched(found, p) ==> p in picked)) {
      RoundsPick(groups, idle, [], limit, p);
      MatchedInGroups(weights, found, p);
    }
    if groups != [] {
      RoundsPick(groups, idle, [], limit, groups[0].probes[0]);
    }
  }

  lemma EnoughSelected<P(!new)>(weights: seq<nat>, found: seq<seq<P>>, limit: nat)
    requires |weights| == |found|
    ensures Min(limit, |Union(found)|) <= |Select(weights, found, limit)| <= Min(limit + |found|, |Union(found)|)
  {
    SelectedAreMatches(weights, found, limit);
    var picked := Select(weights, found, limit);
    var chosen := set p | p in picked;
    DistinctSize(picked);
    assert chosen <= Union(found);
    SubsetSize(chosen, Union(found));
    if |picked| < limit {
      assert Union(found) <= chosen;
      SubsetSize(Union(found), chosen);
    }
    MatchingGroups(weights, found);
    RoundsWithinExcess(Matching(weights, found), IdleWeight(weights, found), [], limit);
  }

  /** With equal weights the rounds stop exactly at the limit. */
  lemma EqualWeightsMeetTheLimit<P(!new)>(weights: seq<nat>, found: seq<seq<P>>, limit: nat)
    requires |weights| == |found| && forall i, j :: 0 <= i < j < |weights| ==> weights[i] == weights[j]
    ensures |Select(weights, found, limit)| == Min(limit, |Union(found)|)
  {
    MatchingGroups(weights, found);
    EnoughSelected(weights, found, limit);
    var groups := Matching(weights, found);
    forall g, h | g in groups && h in groups ensures g.weight == h.weight {
    }
    RoundsWithinExcess(groups, IdleWeight(weights, found), [], limit);
  }

  /** With positive weights the excess is at most the number of locations minus two, with any weights minus one. */
  lemma LimitIsPassedByFew<P(!new)>(weights: seq<nat>, found: seq<seq<P>>, limit: nat)
    requires |weights| == |found|
    ensures |Select(weights, found, limit)| <= limit + Max(|found| - 1, 0)
    ensures (forall i :: 0 <= i < |weights| ==> weights[i] > 0) ==> |Select(weights, found, limit)| <= limit + Max(|found| - 2, 0)
  {
    MatchingGroups(weights, found);
    RoundsWithinExcess(Matching(weights, found), IdleWeight(weights, found), [], limit);
  }

  // ---------------------------------------------------------------- the bound is attained

  /** `k` locations with one match and the weight 1 each, then a heavy one with `n` matches. */
  function LightThenHeavy(first: nat, k: nat, weight: nat, n: nat): seq<Group<nat>>
    decreases k
  {
    if k == 0 then [Group(weight, seq(n, i => first + i))] else [Group(1, [first])] + LightThenHeavy(first + 1, k - 1, weight, n)
  }

  lemma {:induction false} LightThenHeavySizes(first: nat, k: nat, weight: nat, n: nat)
    requires n > 0
    ensures var groups := LightThenHeavy(first, k, weight, n); NoneEmpty(groups) && |groups| == k + 1 && Weight(groups) == k + weight
    decreases k
  {
    if k > 0 {
      LightThenHeavySizes(first + 1, k - 1, weight, n);
      assert LightThenHeavy(first, k, weight, n)[1..] == LightThenHeavy(first + 1, k - 1, weight, n);
    } else {
      assert LightThenHeavy(first, 0, weight, n)[1..] == [];
    }
  }

  /** Each light location adds one probe although its share is zero; the heavy one adds its whole share. */
  lemma {:induction false} LightThenHeavyRound(first: nat, k: nat, weight: nat, n: nat, picked: seq<nat>, wanted: nat, total: nat, limit: nat)
    requires Distinct(picked) && (forall p :: p in picked ==> p < first) && |picked| + k < limit
    requires total > wanted && Count(wanted, weight, total) == n > 0
    ensures |Round(LightThenHeavy(first, k, weight, n), picked, wanted, total, limit).1| == |picked| + k + n
    decreases k
  {
    var groups := LightThenHeavy(first, k, weight, n);
    if k == 0 {
      AddAllAppends(picked, groups[0].probes);
      assert groups[1..] == [];
    } else {
      assert wanted * 1 / total == 0 by {
        DivZero(wanted, total);
      }
      assert Taken([first], 1) == [first] && Left([first], 1) == [];
      AddAllAppends(picked, [first]);
      assert groups[1..] == LightThenHeavy(first + 1, k - 1, weight, n);
      LightThenHeavyRound(first + 1, k - 1, weight, n, picked + [first], wanted, total, limit);
    }
  }

  lemma DivZero(a: nat, b: nat)
    requires a < b
    ensures a / b == 0
  {
  }

  /** The share of the heavy location is all but one of the limit. */
  lemma HeavyShare(m: nat, limit: nat)
    requires m > 0 && limit > 1
    ensures var total := m + limit * m; total > limit && limit * (limit * m) / total == limit - 1
  {
    var total := m + limit * m;
    assert total == m * (limit + 1);
    MulMonotone(limit + 1, 1, m);
    var squared := limit * limit;
    assert limit * (limit * m) == squared * m;
    assert (limit - 1) * (limit + 1) == squared - 1;
    assert (limit - 1) * total == ((limit - 1) * (limit + 1)) * m;
    assert (squared - 1) * m + m == squared * m;
    Division(limit * (limit * m), limit - 1, m, total);
  }

  /** For every number of locations there are positive weights with which a limit is passed by that number minus two. */
  lemma ExcessIsAttained(k: nat, limit: nat)
    requires 2 <= k <= limit
    ensures var groups := LightThenHeavy(0, k - 1, limit * (k - 1), limit - 1);
            |groups| == k && Positive(groups) && NoneEmpty(groups) && |Rounds(groups, 0, [], limit)| == limit + k - 2
  {
    var weight := limit * (k - 1);
    assert weight > 0 by {
      MulMonotone(limit, 1, k - 1);
    }
    HeavyShare(k - 1, limit);
    LightRounds(k, limit, weight);
  }

  lemma LightFirstRound(k: nat, limit: nat, weight: nat, n: nat, total: nat)
    requires 2 <= k <= limit && n == limit - 1 && k - 1 + weight == total > limit && Count(limit, weight, total) == n
    ensures |Round(LightThenHeavy(0, k - 1, weight, n), [], limit, total, limit).1| == limit + k - 2
  {
    LightThenHeavyRound(0, k - 1, weight, n, [], limit, total, limit);
  }

  lemma LightRounds(k: nat, limit: nat, weight: nat)
    requires 2 <= k <= limit && weight > 0 && k - 1 + weight > limit && limit * weight / (k - 1 + weight) == limit - 1
    ensures var groups := LightThenHeavy(0, k - 1, weight, limit - 1);
            |groups| == k && Positive(groups) && NoneEmpty(groups) && |Rounds(groups, 0, [], limit)| == limit + k - 2
  {
    var groups, total := LightThenHeavy(0, k - 1, weight, limit - 1), k - 1 + weight;
    LightThenHeavySizes(0, k - 1, weight, limit - 1);
    LightThenHeavyPositive(0, k - 1, weight, limit - 1);
    LightFirstRound(k, limit, weight, limit - 1, total);
    OneRoundIsAll(groups, limit, total);
  }

  lemma OneRoundIsAll<P>(groups: seq<Group<P>>, limit: nat, total: nat)
    requires NoneEmpty(groups) && groups != [] && limit > 0 && total == Weight(groups) && |Round(groups, [], limit, total, limit).1| >= limit
    ensures Rounds(groups, 0, [], limit) == Round(groups, [], limit, total, limit).1
  {
    RoundsNext(groups, 0, [], limit);
    RoundsEnd(NextRound(groups, 0, [], limit).0, 0, NextRound(groups, 0, [], limit).1, limit);
  }

  lemma {:induction false} LightThenHeavyPositive(first: nat, k: nat, weight: nat, n: nat)
    requires weight > 0
    ensures Positive(LightThenHeavy(first, k, weight, n))
    decreases k
  {
    if k > 0 {
      LightThenHeavyPositive(first + 1, k - 1, weight, n);
    }
  }

  // ---------------------------------------------------------------- proportions

  /** Each location has its whole share of the limit, without rounding, and matches enough probes. */
  ghost predicate SharesAreWhole<P>(groups: seq<Group<P>>, limit: nat, total: nat) {
    forall g :: g in groups ==> ShareIsWhole(g, limit, total)
  }

  ghost predicate ShareIsWhole<P>(g: Group<P>, limit: nat, total: nat) {
    var share := ShareOf(g, limit, total);
    share > 0 && share * total == limit * g.weight && Distinct(g.probes) && |g.probes| >= share
  }

  lemma WholeShareTaken<P>(g: Group<P>, limit: nat, total: nat)
    requires ShareIsWhole(g, limit, total)
    ensures Count(limit, g.weight, total) == ShareOf(g, limit, total) == |Taken(g.probes, Count(limit, g.weight, total))|
    ensures |Taken(g.probes, Count(limit, g.weight, total))| * total == limit * g.weight
  {
  }

  ghost predicate Disjoint<P>(groups: seq<Group<P>>) {
    forall i, j, p :: 0 <= i < j < |groups| && p in groups[i].probes ==> p !in groups[j].probes
  }

  function Shares<P>(groups: seq<Group<P>>, limit: nat, total: nat): seq<P> {
    if groups == [] then []
    else Taken(groups[0].probes, Count(limit, groups[0].weight, total)) + Shares(groups[1..], limit, total)
  }

  lemma OneMoreShare(share: int, rest: int, weight: int, others: int, limit: int, total: int)
    requires share * total == limit * weight && rest * total == limit * others
    ensures (share + rest) * total == limit * (weight + others)
  {
    assert (share + rest) * total == share * total + rest * total;
    assert limit * (weight + others) == limit * weight + limit * others;
  }

  lemma {:induction false} WholeSharesAdd<P>(groups: seq<Group<P>>, limit: nat, total: nat)
    requires SharesAreWhole(groups, limit, total)
    ensures |Shares(groups, limit, total)| * total == limit * Weight(groups)
  {
    if groups != [] {
      var g, rest := groups[0], groups[1..];
      assert g in groups && forall h :: h in rest ==> h in groups;
      WholeSharesAdd(rest, limit, total);
      WholeShareTaken(g, limit, total);
      OneMoreShare(|Taken(g.probes, Count(limit, g.weight, total))|, |Shares(rest, limit, total)|, g.weight, Weight(rest), limit, total);
    }
  }

  ghost predicate AllTake<P>(groups: seq<Group<P>>, wanted: nat, total: nat) {
    forall g :: g in groups ==> Taken(g.probes, Count(wanted, g.weight, total)) != []
  }

  /** As long as the limit is not reached, a round picks the shares one after the other. */
  lemma {:induction false} RoundPicksShares<P>(groups: seq<Group<P>>, picked: seq<P>, wanted: nat, total: nat, limit: nat)
    requires AllTake(groups, wanted, total) && Distinct(picked + Shares(groups, wanted, total))
    requires |picked| + |Shares(groups, wanted, total)| <= limit
    ensures Round(groups, picked, wanted, total, limit).1 == picked + Shares(groups, wanted, total)
  {
    if groups != [] {
      var g, rest := groups[0], groups[1..];
      var taken := Taken(g.probes, Count(wanted, g.weight, total));
      assert g in groups && forall h :: h in rest ==> h in groups;
      assert picked + Shares(groups, wanted, total) == picked + taken + Shares(rest, wanted, total);
      DistinctParts(picked, taken, Shares(rest, wanted, total));
      AddAllAppends(picked, taken);
      RoundPicksShares(rest, picked + taken, wanted, total, limit);
    }
  }

  lemma DistinctParts<P>(a: seq<P>, b: seq<P>, c: seq<P>)
    requires Distinct(a + b + c)
    ensures Distinct(b) && Distinct(a + b) && forall p :: p in b ==> p !in a
  {
    forall i, j | 0 <= i < j < |a + b| ensures (a + b)[i] != (a + b)[j] {
      assert (a + b)[i] == (a + b + c)[i] && (a + b)[j] == (a + b + c)[j];
    }
    forall i, j | 0 <= i < j < |b| ensures b[i] != b[j] {
      assert (a + b)[|a| + i] == b[i] && (a + b)[|a| + j] == b[j];
    }
    forall i, j | 0 <= i < |a| && 0 <= j < |b| ensures a[i] != b[j] {
      assert (a + b)[i] == a[i] && (a + b)[|a| + j] == b[j];
    }
  }

  lemma {:induction false} SharesAreOfGroups<P>(groups: seq<Group<P>>, wanted: nat, total: nat, p: P) returns (j: nat)
    requires p in Shares(groups, wanted, total)
    ensures j < |groups| && p in groups[j].probes
  {
    if p in Taken(groups[0].probes, Count(wanted, groups[0].weight, total)) {
      j := 0;
    } else {
      j := SharesAreOfGroups(groups[1..], wanted, total, p);
      j := j + 1;
    }
  }

  lemma DistinctConcat<P>(a: seq<P>, b: seq<P>)
    requires Distinct(a) && Distinct(b) && forall p :: p in b ==> p !in a
    ensures Distinct(a + b)
  {
    forall i, j | 0 <= i < j < |a + b| ensures (a + b)[i] != (a + b)[j] {
      assert j >= |a| ==> (a + b)[j] in b;
      assert i < |a| ==> (a + b)[i] in a;
    }
  }

  lemma DisjointRest<P>(groups: seq<Group<P>>)
    requires groups != [] && Disjoint(groups)
    ensures Disjoint(groups[1..])
  {
    var rest := groups[1..];
    forall i, j, p | 0 <= i < j < |rest| && p in rest[i].probes ensures p !in rest[j].probes {
      assert rest[i] == groups[i + 1] && rest[j] == groups[j + 1];
    }
  }

  lemma {:induction false} SharesDistinct<P>(groups: seq<Group<P>>, wanted: nat, total: nat)
    requires Disjoint(groups) && forall g :: g in groups ==> Distinct(g.probes)
    ensures Distinct(Shares(groups, wanted, total))
  {
    if groups != [] {
      var g, rest := groups[0], groups[1..];
      assert g in groups && forall h :: h in rest ==> h in groups;
      DisjointRest(groups);
      SharesDistinct(rest, wanted, total);
      forall p | p in Shares(rest, wanted, total) ensures p !in g.probes {
        var j := SharesAreOfGroups(rest, wanted, total, p);
        assert groups[j + 1] == rest[j];
      }
      DistinctConcat(Taken(g.probes, Count(wanted, g.weight, total)), Shares(rest, wanted, total));
    }
  }

  /** Whole shares add up to the limit, and no probe is in two of them. */
  lemma WholeShares<P>(groups: seq<Group<P>>, limit: nat)
    requires groups != [] && SharesAreWhole(groups, limit, Weight(groups)) && Disjoint(groups)
    ensures var shares := Shares(groups, limit, Weight(groups));
            |shares| == limit && Distinct(shares) && AllTake(groups, limit, Weight(groups))
  {
    var total := Weight(groups);
    assert ShareIsWhole(groups[0], limit, total);
    WholeSharesAdd(groups, limit, total);
    AtMost(|Shares(groups, limit, total)|, limit, total);
    AtMost(limit, |Shares(groups, limit, total)|, total);
    SharesDistinct(groups, limit, total);
  }

  /** When the shares are whole and can be met, each location gives exactly its share. */
  lemma WholeSharesAreExact<P>(groups: seq<Group<P>>, limit: nat)
    requires NoneEmpty(groups) && groups != [] && limit > 0
    requires SharesAreWhole(groups, limit, Weight(groups)) && Disjoint(groups)
    ensures Rounds(groups, 0, [], limit) == Shares(groups, limit, Weight(groups))
    ensures |Shares(groups, limit, Weight(groups))| == limit
  {
    WholeShares(groups, limit);
    var shares := Shares(groups, limit, Weight(groups));
    assert [] + shares == shares;
    RoundPicksShares(groups, [], limit, Weight(groups), limit);
    RoundsNext(groups, 0, [], limit);
    RoundsEnd(NextRound(groups, 0, [], limit).0, 0, shares, limit);
  }

  // ---------------------------------------------------------------- the loops

  method AddEach<P(==)>(picked: seq<P>, probes: seq<P>) returns (picked': seq<P>)
    ensures picked' == AddAll(picked, probes)
  {
    picked' := picked;
    for i := 0 to |probes|
      invariant AddAll(picked, probes) == AddAll(picked', probes[i..])
    {
      assert probes[i..][1..] == probes[i + 1..];
      if probes[i] !in picked' {
        picked' := picked' + [probes[i]];
      }
    }
  }

  lemma RoundNext<P>(groups: seq<Group<P>>, i: nat, picked: seq<P>, wanted: nat, total: nat, limit: nat)
    requires i < |groups| && |picked| != limit
    ensures var n := Count(wanted, groups[i].weight, total);
            var left := Left(groups[i].probes, n);
            var next := Round(groups[i + 1..], AddAll(picked, Taken(groups[i].probes, n)), wanted, total, limit);
            && Round(groups[i..], picked, wanted, total, limit).1 == next.1
            && Round(groups[i..], picked, wanted, total, limit).0 ==
               if left == [] then next.0 else [groups[i].(probes := left)] + next.0
  {
    assert groups[i..][0] == groups[i] && groups[i..][1..] == groups[i + 1..];
  }

  /** The `for` over the locations that still have probes. */
  method RunRound<P(==)>(groups: seq<Group<P>>, picked: seq<P>, wanted: nat, total: nat, limit: nat)
    returns (after: seq<Group<P>>, picked': seq<P>)
    ensures after == Round(groups, picked, wanted, total, limit).0 && picked' == Round(groups, picked, wanted, total, limit).1
  {
    after, picked' := [], picked;
    assert groups[0..] == groups;
    var i := 0;
    while i < |groups|
      invariant 0 <= i <= |groups|
      invariant Round(groups, picked, wanted, total, limit).0 == after + Round(groups[i..], picked', wanted, total, limit).0
      invariant Round(groups, picked, wanted, total, limit).1 == Round(groups[i..], picked', wanted, total, limit).1
    {
      if |picked'| == limit {
        after := after + groups[i..];
        return;
      }
      RoundNext(groups, i, picked', wanted, total, limit);
      var n := Count(wanted, groups[i].weight, total);
      picked' := AddEach(picked', Taken(groups[i].probes, n));
      var left := Left(groups[i].probes, n);
      i := i + 1;
      if left != [] {
        var g := groups[i - 1].(probes := left);
        ghost var rest := Round(groups[i..], picked', wanted, total, limit).0;
        assert after + ([g] + rest) == after + [g] + rest;
        after := after + [g];
      }
    }
    assert groups[i..] == [] && after + [] == after;
  }

  method TotalWeight<P>(groups: seq<Group<P>>, idle: nat) returns (sum: nat)
    ensures sum == idle + Weight(groups)
  {
    sum := idle;
    for i := 0 to |groups|
      invariant sum + Weight(groups[i..]) == idle + Weight(groups)
    {
      sum := sum + groups[i].weight;
    }
  }

  method GroupByLocation<P>(weights: seq<nat>, found: seq<seq<P>>) returns (groups: seq<Group<P>>, idle: nat)
    requires |weights| == |found|
    ensures groups == Matching(weights, found) && idle == IdleWeight(weights, found)
  {
    groups, idle := [], 0;
    for i := 0 to |found|
      invariant groups == Matching(weights[..i], found[..i]) && idle == IdleWeight(weights[..i], found[..i])
    {
      assert weights[..i + 1][..i] == weights[..i] && found[..i + 1][..i] == found[..i];
      if |found[i]| > 0 {
        groups := groups + [Group(weights[i], found[i])];
      } else {
        idle := idle + weights[i];
      }
    }
    assert weights[..|found|] == weights && found[..|found|] == found;
  }

  /** One pass of the `while` loop. */
  method RunNextRound<P(==)>(groups: seq<Group<P>>, idle: nat, picked: seq<P>, limit: nat) returns (after: seq<Group<P>>, picked': seq<P>)
    requires NoneEmpty(groups) && groups != [] && |picked| < limit
    ensures NoneEmpty(after) && Size(after) < Size(groups)
    ensures Rounds(after, idle, picked', limit) == Rounds(groups, idle, picked, limit)
  {
    var total := TotalWeight(groups, idle);
    RoundsNext(groups, idle, picked, limit);
    after, picked' := RunRound(groups, picked, limit - |picked|, total, limit);
  }

  method FilterByLocationAndWeight<P(==)>(weights: seq<nat>, found: seq<seq<P>>, limit: nat) returns (picked: seq<P>)
    requires |weights| == |found|
    ensures picked == Select(weights, found, limit)
  {
    var groups, idle := GroupByLocation(weights, found);
    MatchingGroups(weights, found);
    picked := [];
    while groups != [] && |picked| < limit
      invariant NoneEmpty(groups) && Rounds(groups, idle, picked, limit) == Select(weights, found, limit)
      decreases Size(groups)
    {
      groups, picked := RunNextRound(groups, idle, picked, limit);
    }
  }
}
