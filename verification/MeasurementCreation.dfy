/** What a new measurement starts with: one result for each probe, and as many awaited ones as there are probes online. */
module MeasurementCreation {
  import opened Common
  import opened Indexing
  import opened MeasurementScripts
  import opened MeasurementLifecycle

  datatype Probe = Probe(uuid: string, ip: string, altIps: seq<string>)

  datatype Target = Online(probe: Probe) | OfflineTarget(ip: string)

  function InitialResult(target: Target, http: bool): TestResult {
    if target.OfflineTarget? then
      TestResult(TestStatus.Offline, "", "This probe is currently offline. Please try again later.", None, None)
    else
      TestResult(InProgress, "", "", if http then Some("") else None, if http then Some("") else None)
  }

  function ProbesToResults(all: seq<Target>, http: bool): seq<TestResult> {
    seq(|all|, i requires 0 <= i < |all| => InitialResult(all[i], http))
  }

  /** A connected probe starts in progress with empty texts, of headers and body only for HTTP; the result of any other is its message. */
  lemma InitialResultsAre(all: seq<Target>, http: bool, i: nat)
    requires i < |all|
    ensures |ProbesToResults(all, http)| == |all|
    ensures var r := ProbesToResults(all, http)[i];
            && r.failureSource == ""
            && (all[i].Online? ==> r.status.InProgress? && r.rawOutput == "" && r.rawHeaders == r.rawBody == if http then Some("") else None)
            && (!all[i].Online? ==> r.status.Offline? && r.rawOutput == "This probe is currently offline. Please try again later." &&
                                    r.rawHeaders == r.rawBody == None)
  {
  }

  /** The online probes are those of `all`, under their indexes. */
  ghost predicate OnlineOf(online: map<nat, Probe>, all: seq<Target>) {
    forall i: nat :: Lookup(online, i) == if i < |all| && all[i].Online? then Some(all[i].probe) else None
  }

  /** The counter starts at the number of results in progress, and without any the measurement is finished at once. */
  lemma OnlineProbesAreAwaited(online: map<nat, Probe>, all: seq<Target>, http: bool, start: nat)
    requires OnlineOf(online, all)
    ensures InProgressTests(ProbesToResults(all, http)) == online.Keys
    ensures |online| == |InProgressTests(InitialRecord(ProbesToResults(all, http), start).results)|
    ensures InitialRecord(ProbesToResults(all, http), start).finished <==> |online| == 0
  {
    forall i: nat ensures i in online <==> i in InProgressTests(ProbesToResults(all, http)) {
      assert i in online <==> Lookup(online, i).Some?;
    }
    assert InProgressTests(ProbesToResults(all, http)) == online.Keys;
    assert |online| == |online.Keys|;
  }

  /** The probes that `findWithGlobalLimit` and the like select are all online. */
  lemma SelectedProbesAreOnline(probes: seq<Probe>)
    ensures OnlineOf(map i: nat | i < |probes| :: probes[i], seq(|probes|, i requires 0 <= i < |probes| => Online(probes[i])))
  {
  }

  // ---------------------------------------------------------------- the probes of an earlier measurement

  predicate HasIp(p: Probe, ip: string) {
    ip == p.ip || ip in p.altIps
  }

  function IpsOf(p: Probe): seq<string> {
    [p.ip] + p.altIps
  }

  /** The last connected probe with an IP is found under it. */
  method IndexConnected(connected: seq<Probe>) returns (index: map<string, Probe>)
    ensures IsIndex(index, connected, IpsOf)
  {
    index := IndexByKeys(connected, IpsOf);
  }

  ghost predicate Connected(connected: seq<Probe>, ip: string) {
    exists p :: p in connected && HasIp(p, ip)
  }

  lemma IndexedIfConnected(index: map<string, Probe>, connected: seq<Probe>, ip: string)
    requires IsIndex(index, connected, IpsOf)
    ensures ip in index <==> Connected(connected, ip)
    ensures ip in index ==> index[ip] in connected && HasIp(index[ip], ip)
  {
    if ip in index {
      assert IsLast(connected, IpsOf, ip, index[ip]);
      assert index[ip] in connected && HasIp(index[ip], ip);
    }
    forall p | p in connected && HasIp(p, ip) ensures ip in index {
      var i :| 0 <= i < |connected| && connected[i] == p;
      assert ip in IpsOf(connected[i]);
    }
  }

  /** The previous measurement is known, and so is the result of each of its probes that is not connected. */
  ghost predicate Rebuildable(connected: seq<Probe>, prevIps: seq<string>, prevResults: Option<nat>) {
    prevIps != [] && prevResults.Some? &&
    forall i :: 0 <= i < |prevIps| ==> Connected(connected, prevIps[i]) || i < prevResults.value
  }

  ghost predicate SameProbes(all: seq<Target>, connected: seq<Probe>, prevIps: seq<string>) {
    |all| <= |prevIps| && forall i :: 0 <= i < |all| ==>
      if Connected(connected, prevIps[i]) then all[i].Online? && all[i].probe in connected && HasIp(all[i].probe, prevIps[i])
      else all[i] == OfflineTarget(prevIps[i])
  }

  /** `prevResults` is the number of results of the previous measurement, if there is one. */
  method FindWithMeasurementId(connected: seq<Probe>, prevIps: seq<string>, prevResults: Option<nat>)
    returns (online: map<nat, Probe>, all: seq<Target>)
    ensures OnlineOf(online, all) && SameProbes(all, connected, prevIps)
    ensures if Rebuildable(connected, prevIps, prevResults) then |all| == |prevIps| else all == []
  {
    var index := IndexConnected(connected);
    online, all := map[], [];
    if prevResults.None? || prevIps == [] {
      return;
    }
    for i := 0 to |prevIps|
      invariant |all| == i && OnlineOf(online, all) && SameProbes(all, connected, prevIps)
      invariant forall k :: 0 <= k < i ==> Connected(connected, prevIps[k]) || k < prevResults.value
    {
      var ip := prevIps[i];
      IndexedIfConnected(index, connected, ip);
      if ip in index {
        ghost var before := online;
        online := online[i := index[ip]];
        all := all + [Online(index[ip])];
        assert forall k: nat :: k != i ==> Lookup(online, k) == Lookup(before, k);
      } else {
        if i >= prevResults.value {
          return map[], [];
        }
        all := all + [OfflineTarget(ip)];
      }
    }
  }
}
