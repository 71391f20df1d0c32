/**
 * The monitor of src/process_log.py: every parsed request line goes to three
 * counters (visits per host, bytes per resource, visits per instant) and to
 * the guardian of failed logins; once the log is exhausted the counters are
 * reported, the visits per instant replaced by their one-hour windows.
 */
module ProcessLog {
  import opened Wrappers
  import opened Instants
  import opened Requests
  import opened Counters
  import opened Guardians
  import opened Windows

  /** The length of a window, in seconds: an hour. */
  const Hour: nat := 3600
  /** The resource whose requests the guardian watches. */
  const Login := "/login"
  /** The reply code of a failed login. */
  const Unauthorized: nat := 401
  /** How many hosts and how many hours a report lists. */
  const Top := 10

  /**
   * `calc_time_windows(timedict)`: for every logged instant `t`, the visits at
   * the instants in `[t, t + 3600)`; nothing for an empty dictionary.
   */
  method CalcTimeWindows(timedict: map<Instant, int>) returns (r: Option<map<Instant, int>>)
    ensures r.None? <==> timedict == map[]
    ensures r.Some? ==> r.value.Keys == timedict.Keys
    ensures r.Some? ==> forall t :: t in timedict ==> r.value[t] == Window(timedict, t, Hour)
  {
    r := ScanWindows(timedict, Hour);
  }

  /** The last instant of a nonempty log has only its own visits in its window. */
  lemma LastWindowIsOwn(timedict: map<Instant, int>, t: Instant)
    requires t in timedict
    requires forall u :: u in timedict ==> u <= t
    ensures Window(timedict, t, Hour) == timedict[t]
  {
    var ordered := SortedListing(timedict);
    WindowOfListing(timedict, ordered, t, Hour);
    var n := |ordered|;
    var p :| 0 <= p < n && ordered[p] == t;
    WithinEnds(ordered, p);
    assert ordered[n - 1] in timedict;
    WindowIsRun(timedict, ordered, n - 1, n, Hour);
  }

  /**
   * `if data.resource and data.reply_bytes`: a nonempty resource that sent
   * bytes. Python's truth test makes `None`, `''` and `0` all false.
   */
  predicate CountsBandwidth(req: Request): (counts: bool)
    ensures counts ==> req.resource.Some? && |req.resource.value| > 0 && req.replyBytes > 0
    ensures req.resource.Some? && |req.resource.value| > 0 && req.replyBytes > 0 ==> counts
  {
    req.resource.Some? && req.resource.value != "" && req.replyBytes != 0
  }

  /**
   * Feature 4 of one request: a login request first lifts an expired block of
   * its host, and a failed one is then recorded. Other requests leave the
   * guardian alone.
   */
  function GuardStep(g: Guard, req: Request): (r: Guard)
    ensures req.resource != Some(Login) ==> r == g
    ensures r.attempts.Keys <= g.attempts.Keys + {req.host}
    ensures forall h :: h != req.host ==> (h in r.blocked <==> h in g.blocked)
  {
    if req.resource == Some(Login) then
      var lifted := ExpireBlock(g, req.host, req.instant);
      if req.replyCode == Unauthorized then RecordFailure(lifted, req.host, req.instant) else lifted
    else g
  }

  /** A request line is kept exactly when its host is blocked after the guardian saw it. */
  function Kept(g: Guard, req: Request, line: string): (kept: seq<string>)
    ensures |kept| <= 1
    ensures forall k :: 0 <= k < |kept| ==> kept[k] == line
    ensures kept != [] <==> req.host in GuardStep(g, req).blocked
  {
    if req.host in GuardStep(g, req).blocked then [line] else []
  }

  lemma GuardStepValid(g: Guard, req: Request)
    requires Valid(g)
    ensures Valid(GuardStep(g, req))
  {
    if req.resource == Some(Login) {
      ExpireBlockValid(g, req.host, req.instant);
      RecordFailureValid(ExpireBlock(g, req.host, req.instant), req.host, req.instant);
    }
  }

  /**
   * The failed login that completes three failures within 20 seconds blocks
   * its host from its own instant, and, since the guardian logs last, is
   * itself kept.
   */
  lemma BlockingRequestKept(g: Guard, req: Request, line: string)
    requires req.resource == Some(Login) && req.replyCode == Unauthorized
    requires Offending(Recent(AttemptsOf(g, req.host), req.instant))
    ensures req.host in GuardStep(g, req).blocked
    ensures GuardStep(g, req).blocked[req.host] == req.instant
    ensures Kept(g, req, line) == [line]
  {
    var lifted := ExpireBlock(g, req.host, req.instant);
    assert AttemptsOf(lifted, req.host) == AttemptsOf(g, req.host);
  }

  /**
   * A blocked host stays blocked, and every line of it is kept, whatever
   * requests other than logins it sends: only a login request lifts a block.
   */
  lemma BlockOutlastsOtherRequests(g: Guard, req: Request, line: string)
    requires req.resource != Some(Login)
    requires req.host in g.blocked
    ensures GuardStep(g, req).blocked == g.blocked
    ensures Kept(g, req, line) == [line]
  {
  }

  /**
   * A successful login `BlockSeconds` or more after its host was blocked lifts
   * the block, and the line is not kept.
   */
  lemma LoginAfterBlockLifts(g: Guard, req: Request, line: string)
    requires req.resource == Some(Login) && req.replyCode != Unauthorized
    requires req.host in g.blocked && DeltaTime(g.blocked[req.host], req.instant) >= BlockSeconds
    ensures req.host !in GuardStep(g, req).blocked
    ensures Kept(g, req, line) == []
  {
  }

  /**
   * The body of the read loop of `main` for one parsed line: the host's
   * visits, the resource's bytes when it sent any, the instant's visits, the
   * guardian, and last the guardian's log of blocked hosts.
   */
  method Step(visitCount: Counter<string>, dataUsed: Counter<string>, visitTime: Counter<Instant>,
              guardian: Guardian, req: Request, line: string)
    requires visitCount != dataUsed
    modifies visitCount, dataUsed, visitTime, guardian
    ensures visitCount.counts == AddTo(old(visitCount.counts), req.host, 1)
    ensures dataUsed.counts ==
      if CountsBandwidth(req) then AddTo(old(dataUsed.counts), req.resource.value, req.replyBytes)
      else old(dataUsed.counts)
    ensures visitTime.counts == AddTo(old(visitTime.counts), req.instant, 1)
    ensures guardian.State() == GuardStep(old(guardian.State()), req)
    ensures guardian.log == old(guardian.log) + Kept(old(guardian.State()), req, line)
  {
    visitCount.Update(req.host, 1);
    if CountsBandwidth(req) {
      dataUsed.Update(req.resource.value, req.replyBytes);
    }
    visitTime.Update(req.instant, 1);
    if req.resource == Some(Login) {
      guardian.UpdateBlock(req.host, req.instant);
      if req.replyCode == Unauthorized {
        guardian.UpdateAttempts(req.host, req.instant);
      }
    }
    guardian.Logger(req.host, line);
  }

  /** The updates the host counter receives: one visit per request. */
  function HostUpdates(reqs: seq<Request>): (u: seq<(string, int)>)
    ensures |u| == |reqs|
  {
    if reqs == [] then [] else HostUpdates(reqs[..|reqs| - 1]) + [(reqs[|reqs| - 1].host, 1)]
  }

  /** The updates the bandwidth counter receives: the bytes of each request that counts. */
  function BandwidthUpdates(reqs: seq<Request>): (u: seq<(string, int)>)
    ensures |u| <= |reqs|
  {
    if reqs == [] then []
    else
      var last := reqs[|reqs| - 1];
      BandwidthUpdates(reqs[..|reqs| - 1]) +
        (if CountsBandwidth(last) then [(last.resource.value, last.replyBytes as int)] else [])
  }

  /** The bytes served for `resource` over `reqs`, zero-byte replies included. */
  function BytesTo(reqs: seq<Request>, resource: string): nat
  {
    if reqs == [] then 0
    else
      var last := reqs[|reqs| - 1];
      BytesTo(reqs[..|reqs| - 1], resource) + (if last.resource == Some(resource) then last.replyBytes else 0)
  }

  /**
   * Skipping the requests without bytes loses nothing: the bandwidth counter
   * credits every nonempty resource with all the bytes served for it.
   */
  lemma {:induction false} BandwidthTotals(reqs: seq<Request>, resource: string)
    requires resource != ""
    ensures KeyTotal(BandwidthUpdates(reqs), resource) == BytesTo(reqs, resource)
    decreases |reqs|
  {
    if reqs != [] {
      var init, last := reqs[..|reqs| - 1], reqs[|reqs| - 1];
      BandwidthTotals(init, resource);
      var extra := if CountsBandwidth(last) then [(last.resource.value, last.replyBytes as int)] else [];
      KeyTotalAppend(BandwidthUpdates(init), extra, resource);
      if extra != [] {
        assert extra[..0] == [];
      }
    }
  }

  /** The updates the instant counter receives: one visit per request. */
  function InstantUpdates(reqs: seq<Request>): (u: seq<(Instant, int)>)
    ensures |u| == |reqs|
  {
    if reqs == [] then [] else InstantUpdates(reqs[..|reqs| - 1]) + [(reqs[|reqs| - 1].instant, 1)]
  }

  /** The guardian, and the lines it kept, after a series of requests. */
  function Guarded(reqs: seq<Request>, lines: seq<string>): (Guard, seq<string>)
    requires |lines| == |reqs|
  {
    if reqs == [] then (Fresh(), [])
    else
      var (g, log) := Guarded(reqs[..|reqs| - 1], lines[..|lines| - 1]);
      (GuardStep(g, reqs[|reqs| - 1]), log + Kept(g, reqs[|reqs| - 1], lines[|lines| - 1]))
  }

  /** The requests of `reqs` from `host`. */
  function FromHost(reqs: seq<Request>, host: string): (n: nat)
    ensures n <= |reqs|
  {
    if reqs == [] then 0
    else FromHost(reqs[..|reqs| - 1], host) + (if reqs[|reqs| - 1].host == host then 1 else 0)
  }

  /** The host counter credits every host with one visit per request it made. */
  lemma {:induction false} HostUpdatesCount(reqs: seq<Request>, host: string)
    ensures KeyTotal(HostUpdates(reqs), host) == FromHost(reqs, host)
    decreases |reqs|
  {
    if reqs != [] {
      var init := reqs[..|reqs| - 1];
      HostUpdatesCount(init, host);
      assert HostUpdates(reqs)[..|reqs| - 1] == HostUpdates(init);
    }
  }

  /**
   * The host counter holds exactly the hosts that made requests, each with
   * the number of its requests.
   */
  lemma HostsCounted(reqs: seq<Request>, host: string)
    ensures host in Tally(HostUpdates(reqs)) <==> FromHost(reqs, host) > 0
    ensures host in Tally(HostUpdates(reqs)) ==> Tally(HostUpdates(reqs))[host] == FromHost(reqs, host)
  {
    TallyIsKeyTotal(HostUpdates(reqs), host);
    HostUpdatesCount(reqs, host);
  }

  /** The guardian stays valid over any series of requests. */
  lemma {:induction false} GuardedValid(reqs: seq<Request>, lines: seq<string>)
    requires |lines| == |reqs|
    ensures Valid(Guarded(reqs, lines).0)
    ensures |Guarded(reqs, lines).1| <= |reqs|
    decreases |reqs|
  {
    if reqs != [] {
      var init, initLines := reqs[..|reqs| - 1], lines[..|lines| - 1];
      GuardedValid(init, initLines);
      GuardStepValid(Guarded(init, initLines).0, reqs[|reqs| - 1]);
    }
  }

  /** Tallying one update more is adding it to the tally. */
  lemma TallyAppend<K>(updates: seq<(K, int)>, extra: seq<(K, int)>)
    requires |extra| <= 1
    ensures Tally(updates + extra) == if extra == [] then Tally(updates) else AddTo(Tally(updates), extra[0].0, extra[0].1)
  {
    if extra == [] {
      assert updates + extra == updates;
    } else {
      assert (updates + extra)[..|updates|] == updates;
    }
  }

  /** What one more request adds to each tally and to the guardian. */
  lemma MonitorStep(reqs: seq<Request>, lines: seq<string>, i: nat)
    requires |lines| == |reqs| && i < |reqs|
    ensures Tally(HostUpdates(reqs[..i + 1])) == AddTo(Tally(HostUpdates(reqs[..i])), reqs[i].host, 1)
    ensures Tally(BandwidthUpdates(reqs[..i + 1])) ==
      if CountsBandwidth(reqs[i]) then AddTo(Tally(BandwidthUpdates(reqs[..i])), reqs[i].resource.value, reqs[i].replyBytes)
      else Tally(BandwidthUpdates(reqs[..i]))
    ensures Tally(InstantUpdates(reqs[..i + 1])) == AddTo(Tally(InstantUpdates(reqs[..i])), reqs[i].instant, 1)
    ensures Guarded(reqs[..i + 1], lines[..i + 1]) ==
      (GuardStep(Guarded(reqs[..i], lines[..i]).0, reqs[i]),
       Guarded(reqs[..i], lines[..i]).1 + Kept(Guarded(reqs[..i], lines[..i]).0, reqs[i], lines[i]))
  {
    var req := reqs[i];
    assert reqs[..i + 1][..i] == reqs[..i] && lines[..i + 1][..i] == lines[..i];
    TallyAppend(HostUpdates(reqs[..i]), [(req.host, 1)]);
    TallyAppend(BandwidthUpdates(reqs[..i]),
      if CountsBandwidth(req) then [(req.resource.value, req.replyBytes as int)] else []);
    TallyAppend(InstantUpdates(reqs[..i]), [(req.instant, 1)]);
  }

  /**
   * `main` up to the end of the log: new counters and a new guardian, then
   * `Step` for each parsed line in order. The counters then hold the tallies
   * of their updates, and the guardian what `Guarded` says.
   */
  method Monitor(reqs: seq<Request>, lines: seq<string>)
    returns (visitCount: Counter<string>, dataUsed: Counter<string>, visitTime: Counter<Instant>, guardian: Guardian)
    requires |lines| == |reqs|
    ensures fresh(visitCount) && fresh(dataUsed) && fresh(visitTime) && fresh(guardian)
    ensures visitCount != dataUsed
    ensures visitCount.counts == Tally(HostUpdates(reqs))
    ensures dataUsed.counts == Tally(BandwidthUpdates(reqs))
    ensures visitTime.counts == Tally(InstantUpdates(reqs))
    ensures (guardian.State(), guardian.log) == Guarded(reqs, lines)
  {
    visitCount := new Counter();
    dataUsed := new Counter();
    visitTime := new Counter();
    guardian := new Guardian();
    for i := 0 to |reqs|
      invariant visitCount.counts == Tally(HostUpdates(reqs[..i]))
      invariant dataUsed.counts == Tally(BandwidthUpdates(reqs[..i]))
      invariant visitTime.counts == Tally(InstantUpdates(reqs[..i]))
      invariant (guardian.State(), guardian.log) == Guarded(reqs[..i], lines[..i])
    {
      MonitorStep(reqs, lines, i);
      Step(visitCount, dataUsed, visitTime, guardian, reqs[i], lines[i]);
    }
    assert reqs[..|reqs|] == reqs && lines[..|lines|] == lines;
  }

  /** What the summary writes: hosts.txt, resources.txt and hours.txt. */
  datatype Summary = Summary(hosts: seq<Line<string>>, resources: seq<Line<string>>, hours: seq<Line<Instant>>)

  /**
   * The summary written once the log is exhausted: the ten busiest hosts with
   * their visits, every resource by bytes without totals, and the ten busiest
   * one-hour windows, which replace the visits per instant. With no visits
   * at all the windows come back empty-handed and the report fails.
   */
  method Report(visitCount: Counter<string>, dataUsed: Counter<string>, visitTime: Counter<Instant>)
    returns (r: Option<Summary>)
    modifies visitTime
    ensures r.None? <==> old(visitTime.counts) == map[]
    ensures r.None? ==> visitTime.counts == old(visitTime.counts)
    ensures r.Some? ==> visitTime.counts == WindowsOf(old(visitTime.counts), Hour)
    ensures r.Some? ==> TopReport(r.value.hosts, visitCount.counts, AtMost(Top), true)
    ensures r.Some? ==> TopReport(r.value.resources, dataUsed.counts, Unlimited, false)
    ensures r.Some? ==> |r.value.resources| == |dataUsed.counts|
    ensures r.Some? ==> TopReport(r.value.hours, visitTime.counts, AtMost(Top), true)
    ensures r.Some? ==> forall i :: 0 <= i < |r.value.hours| ==>
              r.value.hours[i].key in old(visitTime.counts) &&
              r.value.hours[i].total == Window(old(visitTime.counts), r.value.hours[i].key, Hour)
  {
    var hosts := visitCount.Logger(AtMost(Top), true);
    var resources := dataUsed.Logger(Unlimited, false);
    var windows := CalcTimeWindows(visitTime.counts);
    if windows.None? {
      return None;
    }
    visitTime.counts := windows.value;
    var hours := visitTime.Logger(AtMost(Top), true);
    return Some(Summary(hosts, resources, hours));
  }
}
