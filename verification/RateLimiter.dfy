/**
  Free points and credits of concurrent measurement requests, within one window of the limiter.
  Each await of the source ends one step.
 */
module RateLimiter {
  import opened Common

  /** Where a request of so many probes is between two awaits. */
  datatype Phase =
    | Over(consumed: nat)
    | Asking(required: nat)
    | Paid(required: nat)
    | Rejecting
    | Accepted
    | Rejected

  /** `taken` and `paid` only record what the counter and the user's credits gave for this request. */
  datatype Request = Request(probes: nat, phase: Phase, taken: int, paid: nat)

  /** A recent attempt to pay with credits that failed. */
  datatype Attempt = Attempt(requiredCredits: nat, remainingCredits: int)

  /** `consumed` is the limiter's counter; `charged` records the credits taken from the user. */
  datatype Window = Window(limit: nat, consumed: int, user: bool, attempt: Option<Attempt>, requests: seq<Request>, charged: nat)

  datatype Step =
    | Arrive(probes: nat)
    | Decide(i: nat)
    | Answer(i: nat, isConsumed: bool, remainingCredits: int)
    | Reward(i: nat)
    | ForgetAttempt

  /** The credits a request needs after the limiter counted it. */
  function RequiredCredits(limit: nat, consumed: nat, probes: nat): nat {
    if consumed <= limit then 0 else Min(consumed - limit, probes)
  }

  function SetPhase(w: Window, i: nat, phase: Phase): Window
    requires i < |w.requests|
  {
    w.(requests := w.requests[i := w.requests[i].(phase := phase)])
  }

  /** Gives points of a request back to the counter. */
  function GiveBack(w: Window, i: nat, points: nat): Window
    requires i < |w.requests|
  {
    var r := w.requests[i];
    w.(consumed := w.consumed - points, requests := w.requests[i := r.(taken := r.taken - points)])
  }

  /** Takes credits from the user for a request. */
  function Charge(w: Window, i: nat, credits: nat): Window
    requires i < |w.requests|
  {
    var r := w.requests[i];
    w.(charged := w.charged + credits, requests := w.requests[i := r.(paid := r.paid + credits)])
  }

  ghost predicate Enabled(w: Window, step: Step) {
    match step
    case Arrive(_) => true
    case Decide(i) => i < |w.requests| && w.requests[i].phase.Over?
    case Answer(i, _, _) => i < |w.requests| && w.requests[i].phase.Asking?
    case Reward(i) => i < |w.requests| && (w.requests[i].phase.Paid? || w.requests[i].phase.Rejecting?)
    case ForgetAttempt => true
  }

  function DoArrive(w: Window, probes: nat): Window {
    var consumed := w.consumed + probes;
    w.(consumed := consumed,
       requests := w.requests + [Request(probes, if consumed <= w.limit then Accepted else Over(consumed), probes, 0)])
  }

  /** Anonymous requests are rejected, and users whose last failed attempt was for no more credits. */
  function DoDecide(w: Window, i: nat): Window
    requires i < |w.requests| && w.requests[i].phase.Over?
  {
    var required := RequiredCredits(w.limit, w.requests[i].phase.consumed, w.requests[i].probes);
    if !w.user || (w.attempt.Some? && required >= w.attempt.value.requiredCredits) then SetPhase(w, i, Rejecting)
    else SetPhase(w, i, Asking(required))
  }

  function DoAnswer(w: Window, i: nat, isConsumed: bool, remainingCredits: int): Window
    requires i < |w.requests| && w.requests[i].phase.Asking?
  {
    var required := w.requests[i].phase.required;
    if isConsumed then Charge(SetPhase(w, i, Paid(required)), i, required)
    else SetPhase(w, i, Rejecting).(attempt := Some(Attempt(required, remainingCredits)))
  }

  function DoReward(w: Window, i: nat): Window
    requires i < |w.requests| && (w.requests[i].phase.Paid? || w.requests[i].phase.Rejecting?)
  {
    match w.requests[i].phase
    case Paid(required) => GiveBack(SetPhase(w, i, Accepted), i, required)
    case Rejecting => GiveBack(SetPhase(w, i, Rejected), i, w.requests[i].probes)
  }

  function Do(w: Window, step: Step): Window
    requires Enabled(w, step)
  {
    match step
    case Arrive(probes) => DoArrive(w, probes)
    case Decide(i) => DoDecide(w, i)
    case Answer(i, isConsumed, remainingCredits) => DoAnswer(w, i, isConsumed, remainingCredits)
    case Reward(i) => DoReward(w, i)
    case ForgetAttempt => w.(attempt := None)
  }

  // ---------------------------------------------------------------- what requests take, keep and pay

  /** The free points the request will keep, as far as it is decided. */
  function Kept(limit: nat, r: Request): int {
    match r.phase
    case Over(consumed) => r.probes - RequiredCredits(limit, consumed, r.probes)
    case Asking(required) => r.probes - required
    case Paid(required) => r.probes - required
    case Accepted => r.taken
    case _ => 0
  }

  function TotalTaken(requests: seq<Request>): int {
    if requests == [] then 0 else TotalTaken(requests[..|requests| - 1]) + requests[|requests| - 1].taken
  }

  function TotalPaid(requests: seq<Request>): nat {
    if requests == [] then 0 else TotalPaid(requests[..|requests| - 1]) + requests[|requests| - 1].paid
  }

  function TotalKept(limit: nat, requests: seq<Request>): int {
    if requests == [] then 0 else TotalKept(limit, requests[..|requests| - 1]) + Kept(limit, requests[|requests| - 1])
  }

  lemma {:induction false} TotalsOfUpdate(limit: nat, requests: seq<Request>, i: nat, r: Request)
    requires i < |requests|
    ensures TotalTaken(requests[i := r]) == TotalTaken(requests) - requests[i].taken + r.taken
    ensures TotalPaid(requests[i := r]) == TotalPaid(requests) - requests[i].paid + r.paid
    ensures TotalKept(limit, requests[i := r]) == TotalKept(limit, requests) - Kept(limit, requests[i]) + Kept(limit, r)
  {
    var n := |requests| - 1;
    if i == n {
      assert requests[i := r][..n] == requests[..n];
    } else {
      TotalsOfUpdate(limit, requests[..n], i, r);
      assert requests[i := r][..n] == requests[..n][i := r];
    }
  }

  lemma TotalsOfAppend(limit: nat, requests: seq<Request>, r: Request)
    ensures TotalTaken(requests + [r]) == TotalTaken(requests) + r.taken
    ensures TotalPaid(requests + [r]) == TotalPaid(requests) + r.paid
    ensures TotalKept(limit, requests + [r]) == TotalKept(limit, requests) + Kept(limit, r)
  {
    assert (requests + [r])[..|requests|] == requests;
  }

  // ---------------------------------------------------------------- the invariant

  /** What a request has taken and paid by now, and that it needs no more credits than it has probes. */
  ghost predicate RequestOk(limit: nat, r: Request) {
    match r.phase
    case Over(consumed) => consumed > limit && r.taken == r.probes && r.paid == 0
    case Asking(required) => required <= r.probes && r.taken == r.probes && r.paid == 0
    case Paid(required) => required <= r.probes && r.taken == r.probes && r.paid == required
    case Rejecting => r.taken == r.probes && r.paid == 0
    case Accepted => r.taken >= 0 && r.taken + r.paid == r.probes
    case Rejected => r.taken == 0 && r.paid == 0
  }

  /** Counter and charged credits are what the requests took and paid, and what they keep fits the limit. */
  ghost predicate Inv(w: Window) {
    && (forall i :: 0 <= i < |w.requests| ==> RequestOk(w.limit, w.requests[i]))
    && w.consumed == TotalTaken(w.requests)
    && w.charged == TotalPaid(w.requests)
    && TotalKept(w.limit, w.requests) <= w.limit
  }

  lemma KeptAtMostTaken(limit: nat, r: Request)
    requires RequestOk(limit, r)
    ensures 0 <= Kept(limit, r) <= r.taken
  {
  }

  lemma {:induction false} TotalKeptAtMostTaken(limit: nat, requests: seq<Request>)
    requires forall i :: 0 <= i < |requests| ==> RequestOk(limit, requests[i])
    ensures 0 <= TotalKept(limit, requests) <= TotalTaken(requests)
  {
    if requests != [] {
      TotalKeptAtMostTaken(limit, requests[..|requests| - 1]);
      KeptAtMostTaken(limit, requests[|requests| - 1]);
    }
  }

  lemma ArrivalKeepsInv(w: Window, probes: nat)
    requires Inv(w)
    ensures Inv(DoArrive(w, probes))
  {
    TotalKeptAtMostTaken(w.limit, w.requests);
    var w' := DoArrive(w, probes);
    TotalsOfAppend(w.limit, w.requests, w'.requests[|w.requests|]);
  }

  /** A step on one request changes the counter and the charge by what it changes in the request. */
  ghost predicate Settles(w: Window, w': Window, i: nat, r: Request)
    requires i < |w.requests|
  {
    && w'.requests == w.requests[i := r] && w'.limit == w.limit
    && w'.consumed == w.consumed - w.requests[i].taken + r.taken
    && w'.charged == w.charged - w.requests[i].paid + r.paid
    && RequestOk(w.limit, r) && Kept(w.limit, r) <= Kept(w.limit, w.requests[i])
  }

  lemma SettlingKeepsInv(w: Window, w': Window, i: nat, r: Request)
    requires Inv(w) && i < |w.requests| && Settles(w, w', i, r)
    ensures Inv(w')
  {
    TotalsOfUpdate(w.limit, w.requests, i, r);
  }

  lemma StepSettles(w: Window, step: Step)
    requires Enabled(w, step) && !step.Arrive? && !step.ForgetAttempt? && RequestOk(w.limit, w.requests[step.i])
    ensures Settles(w, Do(w, step), step.i, Do(w, step).requests[step.i])
  {
    var requests := Do(w, step).requests;
    assert requests == w.requests[step.i := requests[step.i]];
  }

  lemma StepKeepsInv(w: Window, step: Step)
    requires Inv(w) && Enabled(w, step)
    ensures Inv(Do(w, step)) && Do(w, step).limit == w.limit
  {
    match step
    case Arrive(probes) => ArrivalKeepsInv(w, probes);
    case ForgetAttempt =>
    case Decide(_) | Answer(_, _, _) | Reward(_) =>
      StepSettles(w, step);
      SettlingKeepsInv(w, Do(w, step), step.i, Do(w, step).requests[step.i]);
  }

  ghost predicate Init(w: Window) {
    w.consumed == 0 && w.requests == [] && w.charged == 0
  }

  ghost predicate IsRun(run: seq<Window>, steps: seq<Step>) {
    |run| == |steps| + 1 && Init(run[0]) &&
    forall i :: 0 <= i < |steps| ==> Enabled(run[i], steps[i]) && run[i + 1] == Do(run[i], steps[i])
  }

  lemma {:induction false} RunKeepsInv(run: seq<Window>, steps: seq<Step>, i: nat)
    requires IsRun(run, steps) && i < |run|
    ensures Inv(run[i]) && run[i].limit == run[0].limit
  {
    if i > 0 {
      RunKeepsInv(run, steps, i - 1);
      StepKeepsInv(run[i - 1], steps[i - 1]);
    }
  }

  // ---------------------------------------------------------------- the results

  predicate Done(r: Request) {
    r.phase.Accepted? || r.phase.Rejected?
  }

  /** Free points that finished requests keep. */
  function FreePoints(requests: seq<Request>): int {
    if requests == [] then 0
    else
      var last := requests[|requests| - 1];
      FreePoints(requests[..|requests| - 1]) + if Done(last) then last.taken else 0
  }

  lemma {:induction false} FreePointsAtMostKept(limit: nat, requests: seq<Request>)
    requires forall i :: 0 <= i < |requests| ==> RequestOk(limit, requests[i])
    ensures 0 <= FreePoints(requests) <= TotalKept(limit, requests)
    ensures (forall i :: 0 <= i < |requests| ==> Done(requests[i])) ==> FreePoints(requests) == TotalTaken(requests)
  {
    if requests != [] {
      FreePointsAtMostKept(limit, requests[..|requests| - 1]);
      KeptAtMostTaken(limit, requests[|requests| - 1]);
    }
  }

  /** What an accepted request took from the counter and from the user's credits are its probes; a rejected one took nothing. */
  lemma RequestsPayTheirProbes(run: seq<Window>, steps: seq<Step>, i: nat, k: nat)
    requires IsRun(run, steps) && i < |run| && k < |run[i].requests| && Done(run[i].requests[k])
    ensures var r := run[i].requests[k];
            && r.taken >= 0
            && (if r.phase.Accepted? then r.taken + r.paid == r.probes else r.taken == 0 && r.paid == 0)
  {
    RunKeepsInv(run, steps, i);
    assert RequestOk(run[i].limit, run[i].requests[k]);
  }

  /** The request owes, or has paid, what the count at its arrival was over the limit. */
  ghost predicate Owes(limit: nat, consumed: nat, r: Request) {
    var required := RequiredCredits(limit, consumed, r.probes);
    match r.phase
    case Over(c) => c == consumed && r.paid == 0
    case Asking(q) => q == required && r.paid == 0
    case Paid(_) => r.paid == required
    case Accepted => r.paid == required
    case _ => true
  }

  /** The request at `k` has so many probes, and owes what was over the limit at this count. */
  ghost predicate OwesAt(w: Window, k: nat, probes: nat, consumed: nat) {
    k < |w.requests| && w.requests[k].probes == probes && Owes(w.limit, consumed, w.requests[k])
  }

  lemma ArrivalOwes(w: Window, probes: nat)
    requires Inv(w)
    ensures w.consumed >= 0 && OwesAt(DoArrive(w, probes), |w.requests|, probes, w.consumed + probes)
  {
    TotalKeptAtMostTaken(w.limit, w.requests);
  }

  lemma StillOwes(w: Window, step: Step, k: nat, probes: nat, consumed: nat)
    requires Enabled(w, step) && OwesAt(w, k, probes, consumed)
    ensures OwesAt(Do(w, step), k, probes, consumed)
  {
    if !step.Arrive? && !step.ForgetAttempt? && step.i != k {
      assert Do(w, step).requests[k] == w.requests[k];
    }
  }

  /** An accepted request has paid by credits exactly what was over the limit when it was counted, whatever came in between. */
  lemma {:induction false} CreditsCoverTheExcess(run: seq<Window>, steps: seq<Step>, i: nat, j: nat)
    requires IsRun(run, steps) && i < j < |run| && steps[i].Arrive?
    ensures run[i].consumed >= 0 && OwesAt(run[j], |run[i].requests|, steps[i].probes, run[i].consumed + steps[i].probes)
  {
    RunKeepsInv(run, steps, i);
    ArrivalOwes(run[i], steps[i].probes);
    if j > i + 1 {
      CreditsCoverTheExcess(run, steps, i, j - 1);
      StillOwes(run[j - 1], steps[j - 1], |run[i].requests|, steps[i].probes, run[i].consumed + steps[i].probes);
    }
  }

  /** In every interleaving, finished requests keep no more free points than the limit, even while others are in flight. */
  lemma FreePointsStayWithinLimit(run: seq<Window>, steps: seq<Step>, i: nat)
    requires IsRun(run, steps) && i < |run|
    ensures 0 <= FreePoints(run[i].requests) <= run[0].limit
    ensures run[i].charged == TotalPaid(run[i].requests)
    ensures (forall k :: 0 <= k < |run[i].requests| ==> Done(run[i].requests[k])) ==> run[i].consumed == FreePoints(run[i].requests)
  {
    RunKeepsInv(run, steps, i);
    FreePointsAtMostKept(run[i].limit, run[i].requests);
  }

  /** Credits pay only for what does not fit the limit when the request is counted. */
  lemma FreePointsComeFirst(w: Window, probes: nat)
    requires Inv(w)
    ensures var r := DoArrive(w, probes).requests[|w.requests|];
            Kept(w.limit, r) == Min(probes, Max(w.limit - w.consumed, 0))
  {
    TotalKeptAtMostTaken(w.limit, w.requests);
  }

  // ---------------------------------------------------------------- who pays, and who is accepted

  /** There was a recent attempt for as few or fewer credits that failed. */
  predicate IsBlocked(attempt: Option<Attempt>, credits: nat) {
    attempt.Some? && attempt.value.requiredCredits <= credits
  }

  /** A user's request over the limit asks for what is over it, and no more than its probes, unless less has just failed. */
  lemma UsersAreAsked(w: Window, i: nat, consumed: nat)
    requires i < |w.requests| && w.requests[i].phase == Over(consumed) && consumed > w.limit && w.user
    ensures var w', r := Do(w, Decide(i)), w.requests[i];
            var credits: nat := if consumed - w.limit <= r.probes then consumed - w.limit else r.probes;
            && w'.consumed == w.consumed && w'.charged == w.charged && w'.attempt == w.attempt
            && w'.requests[i].phase == if IsBlocked(w.attempt, credits) then Rejecting else Asking(credits)
  {
  }

  /** And an anonymous one never. */
  lemma OthersAreRejected(w: Window, i: nat)
    requires i < |w.requests| && w.requests[i].phase.Over? && !w.user
    ensures Do(w, Decide(i)).requests[i].phase == Rejecting && Do(w, Decide(i)).charged == w.charged
  {
  }

  /** With the credits, the request is accepted and the counter gets its excess back. */
  lemma PaidRequestIsAccepted(w: Window, i: nat, credits: nat, remaining: int)
    requires i < |w.requests| && w.requests[i].phase == Asking(credits)
    ensures var w1 := Do(w, Answer(i, true, remaining));
            Enabled(w1, Reward(i)) && w1.charged == w.charged + credits && w1.attempt == w.attempt
    ensures var w2 := Do(Do(w, Answer(i, true, remaining)), Reward(i));
            w2.requests[i].phase == Accepted && w2.consumed == w.consumed - credits && w2.charged == w.charged + credits
  {
  }

  /** Without them it is rejected, gives all its points back, and is remembered. */
  lemma UnpaidRequestIsRejected(w: Window, i: nat, credits: nat, remaining: int)
    requires i < |w.requests| && w.requests[i].phase == Asking(credits)
    ensures var w1 := Do(w, Answer(i, false, remaining));
            Enabled(w1, Reward(i)) && w1.charged == w.charged && w1.attempt == Some(Attempt(credits, remaining))
    ensures var w2 := Do(Do(w, Answer(i, false, remaining)), Reward(i));
            w2.requests[i].phase == Rejected && w2.consumed == w.consumed - w.requests[i].probes && w2.charged == w.charged
  {
  }

  /** What has become of a request that was counted within the limit or not, and was paid for or not. */
  ghost predicate Fits(phase: Phase, within: bool, answered: bool) {
    match phase
    case Over(_) => !within && !answered
    case Asking(_) => !within && !answered
    case Paid(_) => !within && answered
    case Rejecting => !within && !answered
    case Accepted => within || answered
    case Rejected => !within && !answered
  }

  predicate IsPayment(step: Step, k: nat) {
    step.Answer? && step.i == k && step.isConsumed
  }

  ghost predicate Answered(steps: seq<Step>, from: nat, to: nat, k: nat)
    requires to <= |steps|
  {
    exists m :: from <= m < to && IsPayment(steps[m], k)
  }

  lemma FitsOn(w: Window, step: Step, k: nat, within: bool, answered: bool)
    requires Enabled(w, step) && k < |w.requests| && Fits(w.requests[k].phase, within, answered)
    ensures k < |Do(w, step).requests| && Fits(Do(w, step).requests[k].phase, within, answered || IsPayment(step, k))
  {
    if !step.Arrive? && !step.ForgetAttempt? && step.i != k {
      assert Do(w, step).requests[k] == w.requests[k];
    }
  }

  lemma {:induction false} PhaseFits(run: seq<Window>, steps: seq<Step>, i: nat, j: nat)
    requires IsRun(run, steps) && i < j <= |steps| && steps[i].Arrive?
    ensures var k := |run[i].requests|;
            k < |run[j].requests| &&
            Fits(run[j].requests[k].phase, run[i].consumed + steps[i].probes <= run[i].limit, Answered(steps, i + 1, j, k))
  {
    var k, within := |run[i].requests|, run[i].consumed + steps[i].probes <= run[i].limit;
    RunKeepsInv(run, steps, i);
    TotalKeptAtMostTaken(run[i].limit, run[i].requests);
    if j > i + 1 {
      PhaseFits(run, steps, i, j - 1);
      FitsOn(run[j - 1], steps[j - 1], k, within, Answered(steps, i + 1, j - 1, k));
      assert Answered(steps, i + 1, j, k) <==> Answered(steps, i + 1, j - 1, k) || IsPayment(steps[j - 1], k) by {
        if IsPayment(steps[j - 1], k) {
          assert i + 1 <= j - 1 < j;
        }
      }
    }
  }

  /** In every run, a request is accepted if and only if it was counted within the limit, or its credits were taken. */
  lemma AcceptedExactlyIfPaid(run: seq<Window>, steps: seq<Step>, i: nat, j: nat)
    requires IsRun(run, steps) && i < j <= |steps| && steps[i].Arrive?
    ensures |run[i].requests| < |run[j].requests|
    ensures var r := run[j].requests[|run[i].requests|];
            Done(r) ==> (r.phase.Accepted? <==> run[i].consumed + steps[i].probes <= run[i].limit ||
                                                Answered(steps, i + 1, j, |run[i].requests|))
  {
    PhaseFits(run, steps, i, j);
  }

  /** Nobody is asked to pay, and nobody has paid. */
  ghost predicate NobodyPays(w: Window) {
    !w.user && w.charged == 0 &&
    forall k :: 0 <= k < |w.requests| ==> w.requests[k].paid == 0 && !w.requests[k].phase.Asking? && !w.requests[k].phase.Paid?
  }

  /** In every run without a user, nobody pays, so exactly what fits the limit is accepted. */
  lemma {:induction false} AnonymousNeverPay(run: seq<Window>, steps: seq<Step>, j: nat)
    requires IsRun(run, steps) && j <= |steps| && !run[0].user
    ensures NobodyPays(run[j])
    ensures forall m :: 0 <= m < j ==> !steps[m].Answer?
  {
    if j > 0 {
      AnonymousNeverPay(run, steps, j - 1);
      StillNobodyPays(run[j - 1], steps[j - 1]);
    }
  }

  lemma StillNobodyPays(w: Window, step: Step)
    requires NobodyPays(w) && Enabled(w, step)
    ensures NobodyPays(Do(w, step)) && !step.Answer?
  {
  }

  // ---------------------------------------------------------------- the segments between the awaits

  class PostRateLimiter {
    const limit: nat
    const user: bool
    var consumedPoints: int
    var failedAttempt: Option<Attempt>

    constructor (limit: nat, user: bool)
      ensures this.limit == limit && this.user == user && consumedPoints == 0 && failedAttempt.None?
    {
      this.limit, this.user, consumedPoints, failedAttempt := limit, user, 0, None;
    }

    ghost predicate Shows(w: Window)
      reads this
    {
      w.limit == limit && w.user == user && w.consumed == consumedPoints && w.attempt == failedAttempt
    }

    /** The limiter counts first, and rejects when the count is over the limit. */
    method Consume(probes: nat, ghost w: Window) returns (over: Option<nat>)
      requires Shows(w) && Inv(w)
      modifies this`consumedPoints
      ensures Shows(DoArrive(w, probes))
      ensures var r := DoArrive(w, probes).requests[|w.requests|];
              r.phase == if over.Some? then Over(over.value) else Accepted
      ensures consumedPoints == old(consumedPoints) + probes
      ensures if consumedPoints > limit then over.Some? && over.value == consumedPoints else over.None?
    {
      TotalKeptAtMostTaken(w.limit, w.requests);
      consumedPoints := consumedPoints + probes;
      over := if consumedPoints > limit then Some(consumedPoints) else None;
    }

    method DecideToPay(probes: nat, consumed: nat, ghost w: Window, ghost i: nat) returns (required: Option<nat>)
      requires Shows(w) && i < |w.requests| && w.requests[i].probes == probes && w.requests[i].phase == Over(consumed)
      requires RequestOk(w.limit, w.requests[i])
      ensures DoDecide(w, i).requests[i].phase == if required.Some? then Asking(required.value) else Rejecting
      ensures Shows(DoDecide(w, i))
      ensures required.Some? ==> required.value == Min(consumed - limit, probes)
      ensures required.Some? <==> user && !IsBlocked(failedAttempt, Min(consumed - limit, probes))
    {
      if !user {
        return None;
      }
      var needed := if consumed - limit < probes then consumed - limit else probes;
      if failedAttempt.Some? && needed >= failedAttempt.value.requiredCredits {
        return None;
      }
      return Some(needed);
    }

    method RecordAnswer(required: nat, isConsumed: bool, remainingCredits: int, ghost w: Window, ghost i: nat)
      requires Shows(w) && i < |w.requests| && w.requests[i].phase == Asking(required)
      modifies this`failedAttempt
      ensures Shows(DoAnswer(w, i, isConsumed, remainingCredits))
      ensures failedAttempt == if isConsumed then old(failedAttempt) else Some(Attempt(required, remainingCredits))
    {
      if !isConsumed {
        failedAttempt := Some(Attempt(required, remainingCredits));
      }
    }

    method RewardPoints(points: nat, ghost w: Window, ghost i: nat)
      requires Shows(w) && Enabled(w, Reward(i))
      requires points == if w.requests[i].phase.Paid? then w.requests[i].phase.required else w.requests[i].probes
      modifies this`consumedPoints
      ensures Shows(DoReward(w, i)) && consumedPoints == old(consumedPoints) - points
    {
      consumedPoints := consumedPoints - points;
    }
  }
}
