/** For which weights the rounds pass the limit, when every location has enough probes of its own. */
module WeightedExcess {
  import opened Common
  import opened WeightedSelection

  // ---------------------------------------------------------------- by the weights alone

  function Sum(weights: seq<nat>): nat {
    if weights == [] then 0 else weights[0] + Sum(weights[1..])
  }

  /** What the locations give in one round. */
  function Counts(weights: seq<nat>, wanted: nat, total: nat): (n: nat)
    ensures weights != [] ==> n > 0
  {
    if weights == [] then 0 else Count(wanted, weights[0], total) + Counts(weights[1..], wanted, total)
  }

  /** The first locations give exactly what is wanted, so that the round ends after them. */
  ghost predicate MeetsExactly(weights: seq<nat>, wanted: nat, total: nat) {
    exists k :: 0 <= k <= |weights| && Counts(weights[..k], wanted, total) == wanted
  }

  /** A round that gives less is followed by another one; the limit is passed by one that gives more and meets it nowhere. */
  ghost predicate Passes(weights: seq<nat>, total: nat, wanted: nat)
    decreases wanted
  {
    && wanted > 0 && weights != [] && !MeetsExactly(weights, wanted, total)
    && (Counts(weights, wanted, total) > wanted || Passes(weights, total, wanted - Counts(weights, wanted, total)))
  }

  // ---------------------------------------------------------------- one round

  function WeightsOf<P>(groups: seq<Group<P>>): seq<nat> {
    seq(|groups|, i requires 0 <= i < |groups| => groups[i].weight)
  }

  /** Each location has so many probes that are nobody else's and not picked yet. */
  ghost predicate Plenty<P>(groups: seq<Group<P>>, picked: seq<P>, wanted: nat) {
    && Distinct(picked) && Disjoint(groups)
    && forall g :: g in groups ==> Distinct(g.probes) && |g.probes| >= wanted && forall p :: p in g.probes ==> p !in picked
  }

  /** No share is larger than what is wanted. */
  ghost predicate CountsFit<P>(groups: seq<Group<P>>, wanted: nat, total: nat) {
    forall g :: g in groups ==> Count(wanted, g.weight, total) <= wanted
  }

  lemma WeightsOfRest<P>(groups: seq<Group<P>>)
    requires groups != []
    ensures WeightsOf(groups) != [] && WeightsOf(groups)[0] == groups[0].weight && WeightsOf(groups)[1..] == WeightsOf(groups[1..])
  {
  }

  lemma PlentyOfRest<P>(groups: seq<Group<P>>, picked: seq<P>, wanted: nat, n: nat)
    requires groups != [] && Plenty(groups, picked, wanted) && n <= wanted
    ensures var taken := groups[0].probes[..n];
            |groups[0].probes| >= n && AddAll(picked, taken) == picked + taken && Plenty(groups[1..], picked + taken, wanted)
  {
    var g, rest := groups[0], groups[1..];
    assert g in groups;
    var taken := g.probes[..n];
    AddAllAppends(picked, taken);
    DistinctConcat(picked, taken);
    DisjointRest(groups);
    forall h | h in rest ensures h in groups && forall p :: p in h.probes ==> p !in picked + taken {
      var i :| 0 <= i < |rest| && rest[i] == h;
      assert groups[i + 1] == h;
    }
  }

  /** Some prefix of the locations brings the number of picked probes from `at` to the limit. */
  ghost predicate Hits(weights: seq<nat>, at: int, wanted: nat, total: nat, limit: nat)
    decreases |weights|
  {
    at == limit || (weights != [] && Hits(weights[1..], at + Count(wanted, weights[0], total), wanted, total, limit))
  }

  lemma {:induction false} HitsByPrefix(weights: seq<nat>, at: int, wanted: nat, total: nat, limit: nat, k: nat)
    requires k <= |weights| && at + Counts(weights[..k], wanted, total) == limit
    ensures Hits(weights, at, wanted, total, limit)
    decreases k
  {
    if k > 0 {
      assert weights[..k][1..] == weights[1..][..k - 1];
      HitsByPrefix(weights[1..], at + Count(wanted, weights[0], total), wanted, total, limit, k - 1);
    }
  }

  lemma {:induction false} PrefixOfHit(weights: seq<nat>, at: int, wanted: nat, total: nat, limit: nat) returns (k: nat)
    requires Hits(weights, at, wanted, total, limit)
    ensures k <= |weights| && at + Counts(weights[..k], wanted, total) == limit
    decreases |weights|
  {
    if at == limit {
      k := 0;
    } else {
      k := PrefixOfHit(weights[1..], at + Count(wanted, weights[0], total), wanted, total, limit);
      assert weights[..k + 1][1..] == weights[1..][..k];
      k := k + 1;
    }
  }

  /** A round picks up to the limit if it meets it, and what the locations give otherwise. */
  lemma {:induction false} RoundPicks<P>(groups: seq<Group<P>>, picked: seq<P>, wanted: nat, total: nat, limit: nat)
    requires Plenty(groups, picked, wanted) && CountsFit(groups, wanted, total)
    ensures |Round(groups, picked, wanted, total, limit).1| ==
            if Hits(WeightsOf(groups), |picked|, wanted, total, limit) then limit
            else |picked| + Counts(WeightsOf(groups), wanted, total)
  {
    if groups != [] && |picked| != limit {
      var n := Count(wanted, groups[0].weight, total);
      WeightsOfRest(groups);
      assert groups[0] in groups && forall h :: h in groups[1..] ==> h in groups;
      PlentyOfRest(groups, picked, wanted, n);
      assert Taken(groups[0].probes, n) == groups[0].probes[..n];
      RoundPicks(groups[1..], picked + groups[0].probes[..n], wanted, total, limit);
    }
  }

  /** What the locations have left when each has given what it counts. */
  ghost predicate AreSpent<P>(groups: seq<Group<P>>, after: seq<Group<P>>, wanted: nat, total: nat) {
    |after| == |groups| && forall i :: 0 <= i < |groups| ==> IsSpent(groups[i], after[i], Count(wanted, groups[i].weight, total))
  }

  ghost predicate IsSpent<P>(g: Group<P>, after: Group<P>, n: nat) {
    n < |g.probes| && after == g.(probes := g.probes[n..])
  }

  ghost predicate MoreThanCounted<P>(groups: seq<Group<P>>, wanted: nat, total: nat) {
    forall g :: g in groups ==> Count(wanted, g.weight, total) < |g.probes|
  }

  /** After a round that gives less than wanted, every location has lost what it gave. */
  lemma {:induction false} RoundSpends<P>(groups: seq<Group<P>>, picked: seq<P>, wanted: nat, total: nat, limit: nat)
    requires Plenty(groups, picked, wanted) && CountsFit(groups, wanted, total) && MoreThanCounted(groups, wanted, total)
    requires |picked| + Counts(WeightsOf(groups), wanted, total) < limit
    ensures AreSpent(groups, Round(groups, picked, wanted, total, limit).0, wanted, total)
  {
    if groups != [] {
      var g, n := groups[0], Count(wanted, groups[0].weight, total);
      WeightsOfRest(groups);
      assert g in groups && forall h :: h in groups[1..] ==> h in groups;
      PlentyOfRest(groups, picked, wanted, n);
      RoundSpends(groups[1..], picked + g.probes[..n], wanted, total, limit);
      var rest := Round(groups[1..], picked + g.probes[..n], wanted, total, limit).0;
      SpentCons(groups, g.(probes := g.probes[n..]), rest, wanted, total);
    }
  }

  lemma SpentCons<P>(groups: seq<Group<P>>, first: Group<P>, rest: seq<Group<P>>, wanted: nat, total: nat)
    requires groups != [] && AreSpent(groups[1..], rest, wanted, total)
    requires IsSpent(groups[0], first, Count(wanted, groups[0].weight, total))
    ensures AreSpent(groups, [first] + rest, wanted, total)
  {
    forall i | 0 < i < |groups| ensures IsSpent(groups[i], ([first] + rest)[i], Count(wanted, groups[i].weight, total)) {
      assert groups[1..][i - 1] == groups[i] && ([first] + rest)[i] == rest[i - 1];
    }
  }

  /** And what they gave is picked. */
  lemma {:induction false} RoundGives<P>(groups: seq<Group<P>>, picked: seq<P>, wanted: nat, total: nat, limit: nat)
    requires Plenty(groups, picked, wanted) && CountsFit(groups, wanted, total)
    requires |picked| + Counts(WeightsOf(groups), wanted, total) < limit
    ensures Round(groups, picked, wanted, total, limit).1 == picked + Shares(groups, wanted, total)
  {
    if groups != [] {
      var n := Count(wanted, groups[0].weight, total);
      WeightsOfRest(groups);
      assert groups[0] in groups && forall h :: h in groups[1..] ==> h in groups;
      PlentyOfRest(groups, picked, wanted, n);
      var taken := groups[0].probes[..n];
      assert Taken(groups[0].probes, n) == taken;
      RoundGives(groups[1..], picked + taken, wanted, total, limit);
      assert picked + taken + Shares(groups[1..], wanted, total) == picked + (taken + Shares(groups[1..], wanted, total));
    }
  }

  lemma {:induction false} CountsAtMost<P>(groups: seq<Group<P>>, wanted: nat, total: nat, g: Group<P>)
    requires g in groups
    ensures Count(wanted, g.weight, total) <= Counts(WeightsOf(groups), wanted, total)
  {
    WeightsOfRest(groups);
    if g != groups[0] {
      CountsAtMost(groups[1..], wanted, total, g);
    }
  }

  lemma TailIsDistinct<P>(probes: seq<P>, n: nat)
    requires n <= |probes| && Distinct(probes)
    ensures Distinct(probes[n..]) && forall p :: p in probes[n..] ==> p !in probes[..n] && p in probes
  {
  }

  /** What is left is still plenty for what is then wanted. */
  lemma PlentyAfter<P>(groups: seq<Group<P>>, picked: seq<P>, wanted: nat, total: nat, after: seq<Group<P>>)
    requires Plenty(groups, picked, wanted) && CountsFit(groups, wanted, total) && Counts(WeightsOf(groups), wanted, total) < wanted
    requires AreSpent(groups, after, wanted, total)
    ensures Plenty(after, picked + Shares(groups, wanted, total), wanted - Counts(WeightsOf(groups), wanted, total))
  {
    SharesDistinct(groups, wanted, total);
    forall p | p in Shares(groups, wanted, total) ensures p !in picked {
      var j := SharesAreOfGroups(groups, wanted, total, p);
      assert groups[j] in groups;
    }
    DistinctConcat(picked, Shares(groups, wanted, total));
    forall i | 0 <= i < |after|
      ensures Distinct(after[i].probes) && |after[i].probes| >= wanted - Counts(WeightsOf(groups), wanted, total)
      ensures forall p :: p in after[i].probes ==> p in groups[i].probes && p !in picked + Shares(groups, wanted, total) {
      assert groups[i] in groups && IsSpent(groups[i], after[i], Count(wanted, groups[i].weight, total));
      CountsAtMost(groups, wanted, total, groups[i]);
      TailIsDistinct(groups[i].probes, Count(wanted, groups[i].weight, total));
      forall p | p in after[i].probes ensures p !in Shares(groups, wanted, total) {
        TakenElsewhere(groups, wanted, total, i, p);
      }
    }
    assert Disjoint(after);
  }

  lemma {:induction false} TakenBySomebody<P>(groups: seq<Group<P>>, wanted: nat, total: nat, p: P) returns (j: nat)
    requires p in Shares(groups, wanted, total)
    ensures j < |groups| && p in Taken(groups[j].probes, Count(wanted, groups[j].weight, total))
  {
    if p in Taken(groups[0].probes, Count(wanted, groups[0].weight, total)) {
      j := 0;
    } else {
      j := TakenBySomebody(groups[1..], wanted, total, p);
      j := j + 1;
    }
  }

  lemma TakenIsOwn<P>(groups: seq<Group<P>>, wanted: nat, total: nat, i: nat, p: P)
    requires Disjoint(groups) && i < |groups| && p in groups[i].probes && p in Shares(groups, wanted, total)
    ensures p in Taken(groups[i].probes, Count(wanted, groups[i].weight, total))
  {
    var j := TakenBySomebody(groups, wanted, total, p);
    OneHolder(groups, i, j, p);
  }

  lemma OneHolder<P>(groups: seq<Group<P>>, i: nat, j: nat, p: P)
    requires Disjoint(groups) && i < |groups| && j < |groups| && p in groups[i].probes && p in groups[j].probes
    ensures i == j
  {
  }

  /** A probe that a location has left was not given by any. */
  lemma TakenElsewhere<P>(groups: seq<Group<P>>, wanted: nat, total: nat, i: nat, p: P)
    requires Disjoint(groups) && i < |groups| && Distinct(groups[i].probes)
    requires Count(wanted, groups[i].weight, total) <= |groups[i].probes|
    requires p in groups[i].probes[Count(wanted, groups[i].weight, total)..]
    ensures p !in Shares(groups, wanted, total)
  {
    TailIsDistinct(groups[i].probes, Count(wanted, groups[i].weight, total));
    if p in Shares(groups, wanted, total) {
      TakenIsOwn(groups, wanted, total, i, p);
    }
  }

  // ---------------------------------------------------------------- all rounds

  lemma ShareFits(wanted: nat, weight: nat, total: nat)
    requires wanted > 0 && weight <= total
    ensures Count(wanted, weight, total) <= wanted
  {
    if total > 0 {
      MulMonotone(wanted, weight, total);
      var share := wanted * weight / total;
      assert share * total <= wanted * total by {
        ShareIsFloored(wanted, weight, total);
      }
      AtMost(share, wanted, total);
    }
  }

  lemma {:induction false} WeightAtMost<P>(groups: seq<Group<P>>, g: Group<P>)
    requires g in groups
    ensures g.weight <= Weight(groups)
  {
    if g != groups[0] {
      WeightAtMost(groups[1..], g);
    }
  }

  lemma {:induction false} SameWeights<P>(groups: seq<Group<P>>, others: seq<Group<P>>)
    requires WeightsOf(groups) == WeightsOf(others)
    ensures Weight(groups) == Weight(others)
  {
    assert |groups| == |WeightsOf(groups)| == |others|;
    if groups != [] {
      WeightsOfRest(groups);
      WeightsOfRest(others);
      SameWeights(groups[1..], others[1..]);
    }
  }

  lemma MeetsIfHits(weights: seq<nat>, wanted: nat, total: nat, at: nat)
    ensures Hits(weights, at, wanted, total, at + wanted) <==> MeetsExactly(weights, wanted, total)
  {
    if Hits(weights, at, wanted, total, at + wanted) {
      var k := PrefixOfHit(weights, at, wanted, total, at + wanted);
    }
    if k :| 0 <= k <= |weights| && Counts(weights[..k], wanted, total) == wanted {
      HitsByPrefix(weights, at, wanted, total, at + wanted, k);
    }
  }

  lemma AllCountsFit<P>(groups: seq<Group<P>>, wanted: nat, total: nat)
    requires wanted > 0 && Weight(groups) <= total
    ensures CountsFit(groups, wanted, total)
  {
    forall g | g in groups ensures Count(wanted, g.weight, total) <= wanted {
      WeightAtMost(groups, g);
      ShareFits(wanted, g.weight, total);
    }
  }

  lemma RoundPicksOrMeets<P>(groups: seq<Group<P>>, picked: seq<P>, wanted: nat, total: nat)
    requires Plenty(groups, picked, wanted) && CountsFit(groups, wanted, total)
    ensures var n := |Round(groups, picked, wanted, total, |picked| + wanted).1|;
            n == |picked| + if MeetsExactly(WeightsOf(groups), wanted, total) then wanted else Counts(WeightsOf(groups), wanted, total)
  {
    RoundPicks(groups, picked, wanted, total, |picked| + wanted);
    MeetsIfHits(WeightsOf(groups), wanted, total, |picked|);
  }

  /** How many probes are picked after the next round. */
  lemma NextRoundPicks<P>(groups: seq<Group<P>>, idle: nat, picked: seq<P>, limit: nat)
    requires |picked| < limit && Plenty(groups, picked, limit - |picked|)
    ensures var wanted, total := limit - |picked|, idle + Weight(groups);
            |NextRound(groups, idle, picked, limit).1| ==
            |picked| + if MeetsExactly(WeightsOf(groups), wanted, total) then wanted else Counts(WeightsOf(groups), wanted, total)
  {
    AllCountsFit(groups, limit - |picked|, idle + Weight(groups));
    RoundPicksOrMeets(groups, picked, limit - |picked|, idle + Weight(groups));
  }

  lemma MeetsInAll(weights: seq<nat>, wanted: nat, total: nat)
    requires Counts(weights, wanted, total) == wanted
    ensures MeetsExactly(weights, wanted, total)
  {
    assert weights[..|weights|] == weights;
  }

  lemma PassesNow(weights: seq<nat>, wanted: nat, total: nat)
    requires wanted > 0 && weights != [] && (MeetsExactly(weights, wanted, total) || Counts(weights, wanted, total) >= wanted)
    ensures Passes(weights, total, wanted) <==> !MeetsExactly(weights, wanted, total)
  {
    if Counts(weights, wanted, total) == wanted {
      MeetsInAll(weights, wanted, total);
    }
  }

  lemma PassesLater(weights: seq<nat>, wanted: nat, total: nat)
    requires weights != [] && !MeetsExactly(weights, wanted, total) && Counts(weights, wanted, total) < wanted
    ensures Passes(weights, total, wanted) <==> Passes(weights, total, wanted - Counts(weights, wanted, total))
  {
  }

  /** The round that reaches the limit. */
  lemma LastRound<P>(groups: seq<Group<P>>, idle: nat, picked: seq<P>, limit: nat)
    requires NoneEmpty(groups) && groups != [] && |picked| < limit && Plenty(groups, picked, limit - |picked|)
    requires var wanted, total := limit - |picked|, idle + Weight(groups);
             MeetsExactly(WeightsOf(groups), wanted, total) || Counts(WeightsOf(groups), wanted, total) >= wanted
    ensures |Rounds(groups, idle, picked, limit)| >= limit
    ensures |Rounds(groups, idle, picked, limit)| > limit <==> !MeetsExactly(WeightsOf(groups), limit - |picked|, idle + Weight(groups))
  {
    if Counts(WeightsOf(groups), limit - |picked|, idle + Weight(groups)) == limit - |picked| {
      MeetsInAll(WeightsOf(groups), limit - |picked|, idle + Weight(groups));
    }
    NextRoundPicks(groups, idle, picked, limit);
    RoundsNext(groups, idle, picked, limit);
    var next := NextRound(groups, idle, picked, limit);
    RoundsEnd(next.0, idle, next.1, limit);
  }

  lemma {:induction false} RoundsPassExactly<P>(groups: seq<Group<P>>, idle: nat, picked: seq<P>, limit: nat)
    requires NoneEmpty(groups) && |picked| < limit && Plenty(groups, picked, limit - |picked|)
    ensures |Rounds(groups, idle, picked, limit)| > limit <==>
            Passes(WeightsOf(groups), idle + Weight(groups), limit - |picked|)
    decreases limit - |picked|
  {
    if groups != [] {
      var wanted, total, weights := limit - |picked|, idle + Weight(groups), WeightsOf(groups);
      if MeetsExactly(weights, wanted, total) || Counts(weights, wanted, total) >= wanted {
        LastRound(groups, idle, picked, limit);
        PassesNow(weights, wanted, total);
      } else {
        AllCountsFit(groups, wanted, total);
        NextPlenty(groups, idle, picked, limit);
        RoundsNext(groups, idle, picked, limit);
        var next := NextRound(groups, idle, picked, limit);
        RoundsPassExactly(next.0, idle, next.1, limit);
        PassesLater(weights, wanted, total);
      }
    }
  }

  lemma NextPlenty<P>(groups: seq<Group<P>>, idle: nat, picked: seq<P>, limit: nat)
    requires NoneEmpty(groups) && groups != [] && |picked| < limit && Plenty(groups, picked, limit - |picked|)
    requires CountsFit(groups, limit - |picked|, idle + Weight(groups))
    requires Counts(WeightsOf(groups), limit - |picked|, idle + Weight(groups)) < limit - |picked|
    ensures var (after, picked') := NextRound(groups, idle, picked, limit);
            && |picked'| == |picked| + Counts(WeightsOf(groups), limit - |picked|, idle + Weight(groups))
            && Plenty(after, picked', limit - |picked'|) && WeightsOf(after) == WeightsOf(groups) && Weight(after) == Weight(groups)
  {
    var wanted, total := limit - |picked|, idle + Weight(groups);
    forall g | g in groups ensures Count(wanted, g.weight, total) < |g.probes| {
      CountsAtMost(groups, wanted, total, g);
    }
    RoundSpends(groups, picked, wanted, total, limit);
    RoundGives(groups, picked, wanted, total, limit);
    RoundPicks(groups, picked, wanted, total, limit);
    var (after, picked') := NextRound(groups, idle, picked, limit);
    PlentyAfter(groups, picked, wanted, total, after);
    assert forall i :: 0 <= i < |groups| ==> IsSpent(groups[i], after[i], Count(wanted, groups[i].weight, total));
    assert WeightsOf(after) == WeightsOf(groups);
    SameWeights(after, groups);
    NoHitBelow(WeightsOf(groups), |picked|, wanted, total, limit);
  }

  /** What gives less in all meets the limit nowhere. */
  lemma {:induction false} NoHitBelow(weights: seq<nat>, at: int, wanted: nat, total: nat, limit: nat)
    requires at + Counts(weights, wanted, total) < limit
    ensures !Hits(weights, at, wanted, total, limit)
    decreases |weights|
  {
    if weights != [] {
      NoHitBelow(weights[1..], at + Count(wanted, weights[0], total), wanted, total, limit);
    }
  }

  // ---------------------------------------------------------------- the selection

  lemma {:induction false} AllMatch<P>(weights: seq<nat>, found: seq<seq<P>>)
    requires |weights| == |found| && forall i :: 0 <= i < |found| ==> found[i] != []
    ensures IdleWeight(weights, found) == 0 && |Matching(weights, found)| == |found|
    ensures forall i :: 0 <= i < |found| ==> Matching(weights, found)[i] == Group(weights[i], found[i])
  {
    if found != [] {
      var n := |found| - 1;
      AllMatch(weights[..n], found[..n]);
    }
  }

  lemma {:induction false} WeightIsSum<P>(groups: seq<Group<P>>)
    ensures Weight(groups) == Sum(WeightsOf(groups))
  {
    if groups != [] {
      WeightsOfRest(groups);
      WeightIsSum(groups[1..]);
    }
  }

  /** The matches of no two locations overlap, and none has fewer than the limit. */
  ghost predicate PlentyFound<P>(found: seq<seq<P>>, limit: nat) {
    && (forall i :: 0 <= i < |found| ==> Distinct(found[i]) && |found[i]| >= limit)
    && forall i, j, p :: 0 <= i < j < |found| && p in found[i] ==> p !in found[j]
  }

  /** With enough matches everywhere, exactly the weights decide whether the limit is passed. */
  lemma LimitIsPassedExactly<P>(weights: seq<nat>, found: seq<seq<P>>, limit: nat)
    requires |weights| == |found| && limit > 0 && PlentyFound(found, limit)
    ensures |Select(weights, found, limit)| > limit <==> Passes(weights, Sum(weights), limit)
  {
    AllMatch(weights, found);
    MatchingGroups(weights, found);
    var groups := Matching(weights, found);
    assert WeightsOf(groups) == weights;
    WeightIsSum(groups);
    assert Disjoint(groups);
    RoundsPassExactly(groups, 0, [], limit);
  }

  /** A round that does not reach the limit may be followed by one that passes it. */
  lemma SecondRoundPasses()
    ensures Counts([1, 1, 6, 1], 16, 9) == 13 && Passes([1, 1, 6, 1], 9, 16)
  {
    var w: seq<nat>, w1: seq<nat>, w2: seq<nat>, w3: seq<nat> := [1, 1, 6, 1], [1, 6, 1], [6, 1], [1];
    assert w[1..] == w1 && w1[1..] == w2 && w2[1..] == w3 && w3[1..] == [];
    assert Counts(w3, 16, 9) == 1 && Counts(w2, 16, 9) == 11 && Counts(w1, 16, 9) == 12 && Counts(w, 16, 9) == 13;
    NoHitBelow(w, 0, 16, 9, 16);
    MeetsIfHits(w, 16, 9, 0);
    assert Counts(w3, 3, 9) == 1 && Counts(w2, 3, 9) == 3 && Counts(w1, 3, 9) == 4 && Counts(w, 3, 9) == 5;
    assert !Hits(w3, 4, 3, 9, 3) && !Hits(w2, 2, 3, 9, 3) && !Hits(w1, 1, 3, 9, 3) && !Hits(w, 0, 3, 9, 3);
    MeetsIfHits(w, 3, 9, 0);
    assert Passes(w, 9, 3);
  }
}
