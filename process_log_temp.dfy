/**
 * The second copy of the monitor, insight_testsuite/temp/src/process_log.py.
 * Its counters, guardian and parser are those of the other copy (with the
 * typographic quotes accepted, `TempQuotes`). What differs is the window
 * computation, which has an inclusive bound and a shortcut reusing the
 * previous window, and the body of the read loop for one line: a host is
 * counted only when nonempty, any nonempty resource is credited its bytes,
 * zero included, the log check runs only for a nonempty host, and it runs
 * between `update_block` and `update_attempts`.
 */
module ProcessLogTemp {
  import opened Wrappers
  import opened Instants
  import opened Requests
  import opened Counters
  import opened Guardians
  import opened Windows
  import opened ProcessLog

  /** A window `[t, t + 3600]`, bound included, covers `Hour + 1` whole seconds. */
  const InclusiveSpan: nat := Hour + 1

  /**
   * The expensive search: from position `j` on, adds the visits of every
   * instant at most an hour after the one at `i`, and stops at the first one
   * further away; running off the end steps `j` back onto the last position.
   * Gives the count and the final `j`.
   */
  function Search(counts: map<Instant, int>, ts: seq<Instant>, i: nat, j: nat, count: int): (r: (int, nat))
    requires Logged(counts, ts) && i < j < |ts|
    ensures i < r.1 < |ts|
    decreases |ts| - j
  {
    if DeltaTime(ts[i], ts[j]) <= Hour then
      var added := count + counts[ts[j]];
      if j + 1 > |ts| - 1 then (added, j) else Search(counts, ts, i, j + 1, added)
    else (count, j)
  }

  /** What one pass of the loop leaves for the next: `last_i`, `last_j`, `last_count`. */
  datatype Last = Last(i: nat, j: nat, count: int)

  /** The previous pass left positions the next one may index. */
  predicate Behind(ts: seq<Instant>, i: nat, last: Last)
  {
    i > 0 ==> last.i < i && last.j < |ts|
  }

  /**
   * The count the loop stores for the instant at `i` (not the last one), and
   * the `j` it leaves behind. When the window's left edge moved by as many
   * seconds as the gap after the previous `last_j`, the previous count is
   * reused: minus the visits at `last_i`, plus those at `last_j + 1`.
   * Otherwise (always for the first instant, and after a search that reached
   * the end) the expensive search runs.
   */
  function TempWindowAt(counts: map<Instant, int>, ts: seq<Instant>, i: nat, last: Last): (r: (int, nat))
    requires Logged(counts, ts) && i + 1 < |ts| && Behind(ts, i, last)
    ensures i < r.1 < |ts|
  {
    var endIdx := |ts| - 1;
    var (deltaI, deltaJ) :=
      if i == 0 || last.j == endIdx then (0, 1)
      else (DeltaTime(ts[last.i], ts[i]), DeltaTime(ts[last.j], ts[last.j + 1]));
    if deltaI == deltaJ then (last.count - counts[ts[last.i]] + counts[ts[last.j + 1]], i + 1)
    else Search(counts, ts, i, i + 1, counts[ts[i]])
  }

  /** Whether the pass at `i` takes the shortcut. */
  predicate Shortcut(ts: seq<Instant>, i: nat, last: Last)
    requires i + 1 < |ts| && Behind(ts, i, last)
  {
    !(i == 0 || last.j == |ts| - 1) && DeltaTime(ts[last.i], ts[i]) == DeltaTime(ts[last.j], ts[last.j + 1])
  }

  /** The two ways a pass computes its count. */
  lemma TempWindowAtCases(counts: map<Instant, int>, ts: seq<Instant>, i: nat, last: Last)
    requires Logged(counts, ts) && i + 1 < |ts| && Behind(ts, i, last)
    ensures Shortcut(ts, i, last) ==>
      TempWindowAt(counts, ts, i, last) == (last.count - counts[ts[last.i]] + counts[ts[last.j + 1]], i + 1)
    ensures !Shortcut(ts, i, last) ==> TempWindowAt(counts, ts, i, last) == Search(counts, ts, i, i + 1, counts[ts[i]])
  {
  }

  /** The scan from position `i` on, storing into `windowed`. */
  function TempScanFrom(counts: map<Instant, int>, ts: seq<Instant>, i: nat, last: Last,
                        windowed: map<Instant, int>): map<Instant, int>
    requires Logged(counts, ts) && i < |ts| && Behind(ts, i, last)
    decreases |ts| - i
  {
    if i == |ts| - 1 then windowed[ts[i] := counts[ts[i]]]
    else
      var (count, j) := TempWindowAt(counts, ts, i, last);
      TempScanFrom(counts, ts, i + 1, Last(i, j, count), windowed[ts[i] := count])
  }

  /** One pass of the scan: the count of `i` is stored and the scan goes on from `i + 1`. */
  lemma TempScanStep(counts: map<Instant, int>, ts: seq<Instant>, i: nat, last: Last,
                     windowed: map<Instant, int>, count: int, j: nat)
    requires Logged(counts, ts) && i + 1 < |ts| && Behind(ts, i, last)
    requires (count, j) == TempWindowAt(counts, ts, i, last)
    ensures Behind(ts, i + 1, Last(i, j, count))
    ensures TempScanFrom(counts, ts, i, last, windowed) ==
      TempScanFrom(counts, ts, i + 1, Last(i, j, count), windowed[ts[i] := count])
  {
  }

  /** The scan stores an entry for every instant it reaches, and nothing else. */
  lemma {:induction false} TempScanFromCovers(counts: map<Instant, int>, ts: seq<Instant>, i: nat, last: Last,
                                              windowed: map<Instant, int>, k: Instant)
    requires Logged(counts, ts) && i < |ts| && Behind(ts, i, last)
    ensures k in TempScanFrom(counts, ts, i, last, windowed) <==>
      k in windowed || exists p :: i <= p < |ts| && ts[p] == k
    decreases |ts| - i
  {
    if i < |ts| - 1 {
      var (count, j) := TempWindowAt(counts, ts, i, last);
      TempScanFromCovers(counts, ts, i + 1, Last(i, j, count), windowed[ts[i] := count], k);
      if exists p :: i <= p < |ts| && ts[p] == k {
        var p :| i <= p < |ts| && ts[p] == k;
        assert p == i || (i + 1 <= p < |ts| && ts[p] == k);
      }
    }
  }

  /** Scanning a listing of the logged instants from the start gives one entry per instant. */
  lemma TempScanKeys(counts: map<Instant, int>, ts: seq<Instant>)
    requires Logged(counts, ts) && ts != []
    requires forall k :: k in counts <==> k in ts
    ensures TempScanFrom(counts, ts, 0, Last(0, 0, 0), map[]).Keys == counts.Keys
  {
    var w := TempScanFrom(counts, ts, 0, Last(0, 0, 0), map[]);
    forall k ensures k in w <==> k in counts {
      TempScanFromCovers(counts, ts, 0, Last(0, 0, 0), map[], k);
    }
  }

  /**
   * `calc_time_windows` of this copy, as written, on the chronological
   * listing: one entry per logged instant, nothing for an empty dictionary.
   */
  function TempWindows(counts: map<Instant, int>): (r: Option<map<Instant, int>>)
    ensures r.None? <==> counts == map[]
    ensures r.Some? ==> r.value.Keys == counts.Keys
  {
    if counts == map[] then None
    else
      AscendingListing(counts.Keys);
      SomeKey(counts);
      TempScanKeys(counts, Ascending(counts.Keys));
      Some(TempScanFrom(counts, Ascending(counts.Keys), 0, Last(0, 0, 0), map[]))
  }

  /** The scan from a chronological listing is the scan of the dictionary. */
  lemma TempWindowsOf(counts: map<Instant, int>, ordered: seq<Instant>)
    requires Increasing(ordered) && Logged(counts, ordered) && ordered != []
    requires forall k :: k in counts <==> k in ordered
    ensures TempWindows(counts) == Some(TempScanFrom(counts, ordered, 0, Last(0, 0, 0), map[]))
  {
    AscendingUnique(counts.Keys, ordered);
    assert ordered[0] in counts;
  }

  /** The expensive search of one pass, loop for loop. */
  method SearchForward(timedict: map<Instant, int>, ordered: seq<Instant>, i: nat) returns (count: int, j: nat)
    requires Logged(timedict, ordered) && i + 1 < |ordered|
    ensures (count, j) == Search(timedict, ordered, i, i + 1, timedict[ordered[i]])
  {
    var endIdx := |ordered| - 1;
    var t := ordered[i];
    count := timedict[t];
    j := i + 1;
    while DeltaTime(t, ordered[j]) <= Hour
      invariant i < j <= endIdx
      invariant Search(timedict, ordered, i, j, count) == Search(timedict, ordered, i, i + 1, timedict[t])
      decreases endIdx - j
    {
      count := count + timedict[ordered[j]];
      j := j + 1;
      if j > endIdx {
        j := j - 1;
        break;
      }
    }
  }

  /**
   * One pass of the scan for the instant at `i`, not the last one: the two
   * edge moves, then the shortcut or the expensive search. The count and the
   * `j` it leaves are those of `TempWindowAt`.
   */
  method TempPass(timedict: map<Instant, int>, ordered: seq<Instant>, i: nat, lastI: nat, lastJ: nat, lastCount: int)
    returns (count: int, j: nat)
    requires Logged(timedict, ordered) && i + 1 < |ordered| && Behind(ordered, i, Last(lastI, lastJ, lastCount))
    ensures (count, j) == TempWindowAt(timedict, ordered, i, Last(lastI, lastJ, lastCount))
  {
    var endIdx := |ordered| - 1;
    var deltaI, deltaJ;
    if i == 0 || lastJ == endIdx {
      deltaI, deltaJ := 0, 1;
    } else {
      deltaI := DeltaTime(ordered[lastI], ordered[i]);
      deltaJ := DeltaTime(ordered[lastJ], ordered[lastJ + 1]);
    }
    ghost var last := Last(lastI, lastJ, lastCount);
    TempWindowAtCases(timedict, ordered, i, last);
    if deltaI == deltaJ {
      assert Shortcut(ordered, i, last);
      count, j := lastCount - timedict[ordered[lastI]] + timedict[ordered[lastJ + 1]], i + 1;
    } else {
      assert !Shortcut(ordered, i, last);
      count, j := SearchForward(timedict, ordered, i);
    }
  }

  /**
   * `calc_time_windows(timedict)` of this copy, loop for loop: its result is
   * `TempWindows`, and every position it reads, `last_j + 1` included, lies
   * in the listing.
   */
  method TempCalcTimeWindows(timedict: map<Instant, int>) returns (r: Option<map<Instant, int>>)
    ensures r == TempWindows(timedict)
  {
    var ordered := SortedKeys(timedict);
    var endIdx := |ordered| - 1;
    var windowed: map<Instant, int> := map[];
    var lastI: nat, lastJ: nat, lastCount := 0, 0, 0;
    ghost var whole := if ordered == [] then map[] else TempScanFrom(timedict, ordered, 0, Last(0, 0, 0), map[]);
    for i := 0 to |ordered|
      invariant Behind(ordered, i, Last(lastI, lastJ, lastCount))
      invariant i < |ordered| ==> TempScanFrom(timedict, ordered, i, Last(lastI, lastJ, lastCount), windowed) == whole
      invariant i == |ordered| ==> |ordered| == 0
    {
      var j := i + 1;
      var t := ordered[i];
      var count := timedict[t];
      if i == endIdx {
        windowed := windowed[t := count];
        TempWindowsOf(timedict, ordered);
        return Some(windowed);
      }
      count, j := TempPass(timedict, ordered, i, lastI, lastJ, lastCount);
      TempScanStep(timedict, ordered, i, Last(lastI, lastJ, lastCount), windowed, count, j);
      windowed := windowed[t := count];
      lastI, lastJ, lastCount := i, j, count;
    }
    return None;
  }

  /** The scan keeps what it stored before for instants it does not reach. */
  lemma {:induction false} TempScanFromKeeps(counts: map<Instant, int>, ts: seq<Instant>, i: nat, last: Last,
                                             windowed: map<Instant, int>, k: Instant)
    requires Logged(counts, ts) && i < |ts| && Behind(ts, i, last)
    requires forall p :: i <= p < |ts| ==> ts[p] != k
    requires k in windowed
    ensures k in TempScanFrom(counts, ts, i, last, windowed)
    ensures TempScanFrom(counts, ts, i, last, windowed)[k] == windowed[k]
    decreases |ts| - i
  {
    TempScanFromCovers(counts, ts, i, last, windowed, k);
    if i < |ts| - 1 {
      var (count, j) := TempWindowAt(counts, ts, i, last);
      TempScanFromKeeps(counts, ts, i + 1, Last(i, j, count), windowed[ts[i] := count], k);
    }
  }

  /**
   * The scan stores at the instant of position `i` the count of that pass:
   * its own visits for the last one, `TempWindowAt` otherwise.
   */
  lemma TempScanFromAt(counts: map<Instant, int>, ts: seq<Instant>, i: nat, last: Last, windowed: map<Instant, int>)
    requires Increasing(ts) && Logged(counts, ts) && i < |ts| && Behind(ts, i, last)
    ensures ts[i] in TempScanFrom(counts, ts, i, last, windowed)
    ensures TempScanFrom(counts, ts, i, last, windowed)[ts[i]] ==
      if i == |ts| - 1 then counts[ts[i]] else TempWindowAt(counts, ts, i, last).0
  {
    if i < |ts| - 1 {
      var (count, j) := TempWindowAt(counts, ts, i, last);
      assert forall p :: i + 1 <= p < |ts| ==> ts[i] < ts[p];
      TempScanFromCovers(counts, ts, i + 1, Last(i, j, count), windowed[ts[i] := count], ts[i]);
      TempScanFromKeeps(counts, ts, i + 1, Last(i, j, count), windowed[ts[i] := count], ts[i]);
    }
  }

  /**
   * The expensive search adds exactly the visits in the inclusive window: it
   * starts from the run up to `j`, all within an hour of the instant at `i`.
   */
  lemma {:induction false} SearchIsWindow(counts: map<Instant, int>, ts: seq<Instant>, i: nat, j: nat)
    requires Increasing(ts) && Logged(counts, ts) && i < j < |ts|
    requires DeltaTime(ts[i], ts[j - 1]) <= Hour
    ensures Search(counts, ts, i, j, RunTotal(counts, ts, i, j)).0 == SumIn(counts, ts, ts[i], ts[i] + InclusiveSpan)
    decreases |ts| - j
  {
    if DeltaTime(ts[i], ts[j]) <= Hour {
      if j + 1 > |ts| - 1 {
        WindowIsRun(counts, ts, i, j + 1, InclusiveSpan);
      } else {
        SearchIsWindow(counts, ts, i, j + 1);
      }
    } else {
      WindowIsRun(counts, ts, i, j, InclusiveSpan);
    }
  }

  /**
   * Wherever the expensive search runs (for the first instant, after a search
   * that reached the end, and whenever the two edges moved differently), the
   * count is the inclusive window `[t, t + 3600]`.
   */
  lemma SearchedIsWindow(counts: map<Instant, int>, ts: seq<Instant>, i: nat, last: Last)
    requires Increasing(ts) && Logged(counts, ts)
    requires forall k :: k in counts <==> k in ts
    requires i + 1 < |ts| && Behind(ts, i, last)
    requires !Shortcut(ts, i, last)
    ensures TempWindowAt(counts, ts, i, last).0 == Window(counts, ts[i], InclusiveSpan)
  {
    TempWindowAtCases(counts, ts, i, last);
    assert RunTotal(counts, ts, i, i + 1) == counts[ts[i]];
    SearchIsWindow(counts, ts, i, i + 1);
    WindowOfListing(counts, ts, ts[i], InclusiveSpan);
  }

  /** The scan stores the last instant's own visits. */
  lemma {:induction false} LastOfScan(counts: map<Instant, int>, ts: seq<Instant>, i: nat, last: Last,
                                      windowed: map<Instant, int>)
    requires Logged(counts, ts) && i < |ts| && Behind(ts, i, last)
    ensures ts[|ts| - 1] in TempScanFrom(counts, ts, i, last, windowed)
    ensures TempScanFrom(counts, ts, i, last, windowed)[ts[|ts| - 1]] == counts[ts[|ts| - 1]]
    decreases |ts| - i
  {
    if i < |ts| - 1 {
      var (count, j) := TempWindowAt(counts, ts, i, last);
      LastOfScan(counts, ts, i + 1, Last(i, j, count), windowed[ts[i] := count]);
    }
  }

  /**
   * The earliest instant's count is its inclusive window, as is the latest's,
   * which is its own visits alone.
   */
  lemma TempEdges(counts: map<Instant, int>, first: Instant, final: Instant)
    requires first in counts && final in counts
    requires forall u :: u in counts ==> first <= u <= final
    ensures TempWindows(counts).Some?
    ensures TempWindows(counts).value[first] == Window(counts, first, InclusiveSpan)
    ensures TempWindows(counts).value[final] == counts[final]
    ensures counts[final] == Window(counts, final, InclusiveSpan)
  {
    var ts := SortedListing(counts);
    var n := |ts|;
    TempWindowsOf(counts, ts);
    var p :| 0 <= p < n && ts[p] == first;
    var q :| 0 <= q < n && ts[q] == final;
    WithinEnds(ts, p);
    WithinEnds(ts, q);
    assert ts[0] in counts && ts[n - 1] in counts;
    assert ts[0] == first && ts[n - 1] == final;
    TempScanFromAt(counts, ts, 0, Last(0, 0, 0), map[]);
    if n > 1 {
      SearchedIsWindow(counts, ts, 0, Last(0, 0, 0));
    } else {
      WindowIsRun(counts, ts, 0, 1, InclusiveSpan);
      WindowOfListing(counts, ts, first, InclusiveSpan);
    }
    LastOfScan(counts, ts, 0, Last(0, 0, 0), map[]);
    WindowIsRun(counts, ts, n - 1, n, InclusiveSpan);
    WindowOfListing(counts, ts, final, InclusiveSpan);
  }

  /** An instant whose successor lies `span` seconds or more later is alone in its window. */
  lemma LoneInWindow(counts: map<Instant, int>, ts: seq<Instant>, i: nat, span: nat)
    requires Increasing(ts) && Logged(counts, ts)
    requires forall k :: k in counts <==> k in ts
    requires span >= 1 && i + 1 < |ts| && ts[i] + span <= ts[i + 1]
    ensures Window(counts, ts[i], span) == counts[ts[i]]
  {
    WindowIsRun(counts, ts, i, i + 1, span);
    WindowOfListing(counts, ts, ts[i], span);
  }

  /** Four instants, one visit each: the shortcut fires at the second. */
  function Sample(): map<Instant, int>
  {
    map[0 := 1, 1 := 1, 4000 := 1, 4001 := 1]
  }

  /** The chronological listing of `Sample`. */
  lemma SampleListing()
    ensures Increasing([0, 1, 4000, 4001]) && Logged(Sample(), [0, 1, 4000, 4001])
    ensures forall k :: k in Sample() <==> k in [0, 1, 4000, 4001]
  {
  }

  /** The first pass over `Sample` searches: instants 0 and 1, stopping at position 2. */
  lemma SampleFirstPass()
    ensures Logged(Sample(), [0, 1, 4000, 4001])
    ensures TempWindowAt(Sample(), [0, 1, 4000, 4001], 0, Last(0, 0, 0)) == (2, 2)
  {
    var ts: seq<Instant> := [0, 1, 4000, 4001];
    assert Search(Sample(), ts, 0, 2, 2) == (2, 2);
    assert Search(Sample(), ts, 0, 1, 1) == Search(Sample(), ts, 0, 2, 2);
  }

  /** The second pass over `Sample` takes the shortcut: both edges moved by one second. */
  lemma SampleSecondPass()
    ensures Logged(Sample(), [0, 1, 4000, 4001])
    ensures TempWindowAt(Sample(), [0, 1, 4000, 4001], 1, Last(0, 2, 2)).0 == 2
  {
  }

  /**
   * The shortcut is wrong: on `Sample` the count stored for instant 1 is 2,
   * taken over from instant 0 (minus instant 0, plus instant 4001), while its
   * window, inclusive or not, holds instant 1 alone.
   */
  lemma ShortcutCounterexample()
    ensures TempWindows(Sample()).Some?
    ensures TempWindows(Sample()).value[1] == 2
    ensures Window(Sample(), 1, InclusiveSpan) == 1
    ensures Window(Sample(), 1, Hour) == 1
  {
    var counts := Sample();
    var ts: seq<Instant> := [0, 1, 4000, 4001];
    SampleListing();
    TempWindowsOf(counts, ts);
    SampleFirstPass();
    assert TempScanFrom(counts, ts, 0, Last(0, 0, 0), map[]) == TempScanFrom(counts, ts, 1, Last(0, 2, 2), map[0 := 2]);
    TempScanFromAt(counts, ts, 1, Last(0, 2, 2), map[0 := 2]);
    SampleSecondPass();
    LoneInWindow(counts, ts, 1, InclusiveSpan);
    LoneInWindow(counts, ts, 1, Hour);
  }

  /**
   * The corrected window computation: the expensive search alone, never the
   * shortcut, for every instant; each gets its inclusive window `[t, t + 3600]`.
   */
  method CalcTimeWindowsCorrected(timedict: map<Instant, int>) returns (r: Option<map<Instant, int>>)
    ensures r.None? <==> timedict == map[]
    ensures r.Some? ==> r.value.Keys == timedict.Keys
    ensures r.Some? ==> forall t :: t in timedict ==> r.value[t] == Window(timedict, t, InclusiveSpan)
  {
    r := ScanWindows(timedict, InclusiveSpan);
  }

  /** The visits at an instant count in its own window, and the window grows with the span. */
  lemma {:induction false} SumInWider(counts: map<Instant, int>, xs: seq<Instant>, lo: int, hi: int, wider: int)
    requires Logged(counts, xs) && hi <= wider
    requires forall k :: 0 <= k < |xs| ==> counts[xs[k]] >= 0
    ensures SumIn(counts, xs, lo, hi) <= SumIn(counts, xs, lo, wider)
    decreases |xs|
  {
    if xs != [] {
      SumInWider(counts, xs[..|xs| - 1], lo, hi, wider);
    }
  }

  /**
   * The bound is the only difference between the corrected windows of the two
   * copies: with visits never negative, the inclusive window holds at least
   * what the half-open one does.
   */
  lemma InclusiveHoldsMore(counts: map<Instant, int>, t: Instant)
    requires forall k :: k in counts ==> counts[k] >= 0
    ensures Window(counts, t, Hour) <= Window(counts, t, InclusiveSpan)
  {
    AscendingListing(counts.Keys);
    SumInWider(counts, Ascending(counts.Keys), t, t + Hour, t + InclusiveSpan);
  }

  /** The guardian after `update_block`, which this copy runs before the log check. */
  function Lifted(g: Guard, req: Request): (r: Guard)
    ensures r.attempts == g.attempts
    ensures r.blocked.Keys <= g.blocked.Keys
  {
    if req.resource == Some(Login) then ExpireBlock(g, req.host, req.instant) else g
  }

  /** This copy keeps a line when its host is nonempty and blocked before its failure is recorded. */
  function KeptTemp(g: Guard, req: Request, line: string): (kept: seq<string>)
    ensures |kept| <= 1
    ensures kept != [] ==> req.host != ""
    ensures kept != [] <==> req.host != "" && req.host in Lifted(g, req).blocked
    ensures forall k :: 0 <= k < |kept| ==> kept[k] == line
  {
    if req.host != "" && req.host in Lifted(g, req).blocked then [line] else []
  }

  /**
   * The failed login that blocks a host not blocked before is not kept by
   * this copy, which checks the log before recording the failure, although
   * the other copy keeps it.
   */
  lemma BlockingRequestNotKept(g: Guard, req: Request, line: string)
    requires req.resource == Some(Login) && req.replyCode == Unauthorized
    requires req.host !in g.blocked
    requires Offending(Recent(AttemptsOf(g, req.host), req.instant))
    ensures req.host in GuardStep(g, req).blocked
    ensures KeptTemp(g, req, line) == []
    ensures Kept(g, req, line) == [line]
  {
    BlockingRequestKept(g, req, line);
  }

  /**
   * The two copies keep different lines for one request exactly when its
   * host ends up blocked and either is empty (this copy never logs an empty
   * host) or was not blocked after `update_block`: the failed login that
   * starts a block. Otherwise both keep the same lines.
   */
  lemma KeptAgree(g: Guard, req: Request, line: string)
    ensures KeptTemp(g, req, line) != Kept(g, req, line) <==>
      req.host in GuardStep(g, req).blocked && (req.host == "" || req.host !in Lifted(g, req).blocked)
  {
    if req.host in Lifted(g, req).blocked {
      assert req.host in GuardStep(g, req).blocked;
    }
  }

  /**
   * The body of the read loop of `main` in this copy: a nonempty host is
   * counted; any nonempty resource gets its bytes, zero included; the
   * instant is counted; a login lifts an expired block; the log check of a
   * nonempty host follows; a failed login is recorded last.
   */
  method Step(visitCount: Counter<string>, dataUsed: Counter<string>, visitTime: Counter<Instant>,
              guardian: Guardian, req: Request, line: string)
    requires visitCount != dataUsed
    modifies visitCount, dataUsed, visitTime, guardian
    ensures visitCount.counts == if req.host != "" then AddTo(old(visitCount.counts), req.host, 1) else old(visitCount.counts)
    ensures dataUsed.counts ==
      if req.resource.Some? && req.resource.value != "" then AddTo(old(dataUsed.counts), req.resource.value, req.replyBytes)
      else old(dataUsed.counts)
    ensures visitTime.counts == AddTo(old(visitTime.counts), req.instant, 1)
    ensures guardian.State() == GuardStep(old(guardian.State()), req)
    ensures guardian.log == old(guardian.log) + KeptTemp(old(guardian.State()), req, line)
  {
    if req.host != "" {
      visitCount.Update(req.host, 1);
    }
    if req.resource.Some? && req.resource.value != "" {
      dataUsed.Update(req.resource.value, req.replyBytes);
    }
    visitTime.Update(req.instant, 1);
    if req.resource == Some(Login) {
      guardian.UpdateBlock(req.host, req.instant);
    }
    if req.host != "" {
      guardian.Logger(req.host, line);
    }
    if req.resource == Some(Login) && req.replyCode == Unauthorized {
      guardian.UpdateAttempts(req.host, req.instant);
    }
  }
}
