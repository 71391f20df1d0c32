/**
 * Visits per time window: for every logged instant `t`, the number of visits
 * at the instants from `t` on that lie less than `span` seconds after it
 * (`calc_time_windows` of process_log.py).
 */
module Windows {
  import opened Wrappers
  import opened Instants

  /** All of `xs` are logged instants. */
  predicate Logged(counts: map<Instant, int>, xs: seq<Instant>)
  {
    forall k :: 0 <= k < |xs| ==> xs[k] in counts
  }

  /** The visits at the instants `xs`, added up. */
  function Total(counts: map<Instant, int>, xs: seq<Instant>): int
    requires Logged(counts, xs)
    decreases |xs|
  {
    if xs == [] then 0 else Total(counts, xs[..|xs| - 1]) + counts[xs[|xs| - 1]]
  }

  /** The visits at the instants `ts[i..j]`, added up. */
  function RunTotal(counts: map<Instant, int>, ts: seq<Instant>, i: nat, j: nat): int
    requires Logged(counts, ts) && i <= j <= |ts|
    decreases j - i
  {
    if j == i then 0 else RunTotal(counts, ts, i, j - 1) + counts[ts[j - 1]]
  }

  /** The visits at those instants of `xs` that lie in `[lo, hi)`, added up. */
  function SumIn(counts: map<Instant, int>, xs: seq<Instant>, lo: int, hi: int): int
    requires Logged(counts, xs)
    decreases |xs|
  {
    if xs == [] then 0
    else
      var last := xs[|xs| - 1];
      SumIn(counts, xs[..|xs| - 1], lo, hi) + (if lo <= last < hi then counts[last] else 0)
  }

  /**
   * The reference definition of a window: the visits at every logged instant
   * in `[t, t + span)`, each instant counted once.
   */
  function Window(counts: map<Instant, int>, t: Instant, span: nat): int
  {
    AscendingListing(counts.Keys);
    SumIn(counts, Ascending(counts.Keys), t, t + span)
  }

  /** Adding up a run by position is adding up the slice. */
  lemma {:induction false} RunTotalIsTotal(counts: map<Instant, int>, ts: seq<Instant>, i: nat, j: nat)
    requires Logged(counts, ts) && i <= j <= |ts|
    ensures Logged(counts, ts[i..j])
    ensures RunTotal(counts, ts, i, j) == Total(counts, ts[i..j])
    decreases j - i
  {
    if j > i {
      RunTotalIsTotal(counts, ts, i, j - 1);
      assert ts[i..j][..j - 1 - i] == ts[i..j - 1];
    }
  }

  /** Summing a window over two lists one after the other adds the two sums. */
  lemma {:induction false} SumInAppend(counts: map<Instant, int>, xs: seq<Instant>, ys: seq<Instant>, lo: int, hi: int)
    requires Logged(counts, xs) && Logged(counts, ys)
    ensures Logged(counts, xs + ys)
    ensures SumIn(counts, xs + ys, lo, hi) == SumIn(counts, xs, lo, hi) + SumIn(counts, ys, lo, hi)
    decreases |ys|
  {
    if ys == [] {
      assert xs + ys == xs;
    } else {
      var init := ys[..|ys| - 1];
      SumInAppend(counts, xs, init, lo, hi);
      assert (xs + ys)[..|xs + ys| - 1] == xs + init;
      assert (xs + ys)[|xs + ys| - 1] == ys[|ys| - 1];
    }
  }

  /** When every instant lies in the window, the window holds all their visits. */
  lemma {:induction false} SumInAll(counts: map<Instant, int>, xs: seq<Instant>, lo: int, hi: int)
    requires Logged(counts, xs)
    requires forall k :: 0 <= k < |xs| ==> lo <= xs[k] < hi
    ensures SumIn(counts, xs, lo, hi) == Total(counts, xs)
    decreases |xs|
  {
    if xs != [] {
      SumInAll(counts, xs[..|xs| - 1], lo, hi);
    }
  }

  /** When no instant lies in the window, the window is empty. */
  lemma {:induction false} SumInNone(counts: map<Instant, int>, xs: seq<Instant>, lo: int, hi: int)
    requires Logged(counts, xs)
    requires forall k :: 0 <= k < |xs| ==> !(lo <= xs[k] < hi)
    ensures SumIn(counts, xs, lo, hi) == 0
    decreases |xs|
  {
    if xs != [] {
      SumInNone(counts, xs[..|xs| - 1], lo, hi);
    }
  }

  /**
   * A listing whose instants before `i` lie before the window, from `i` to
   * `j` inside it and from `j` on after it: the window holds the run.
   */
  lemma RunSum(counts: map<Instant, int>, ts: seq<Instant>, i: nat, j: nat, lo: int, hi: int)
    requires Logged(counts, ts)
    requires i <= j <= |ts|
    requires forall k :: 0 <= k < i ==> ts[k] < lo
    requires forall k :: i <= k < j ==> lo <= ts[k] < hi
    requires forall k :: j <= k < |ts| ==> hi <= ts[k]
    ensures Logged(counts, ts[i..j])
    ensures SumIn(counts, ts, lo, hi) == Total(counts, ts[i..j])
  {
    SumInThree(counts, ts, i, j, lo, hi);
    SumInNone(counts, ts[..i], lo, hi);
    SumInNone(counts, ts[j..], lo, hi);
    SumInAll(counts, ts[i..j], lo, hi);
  }

  /** Summing a window over a list is summing it over the part before `i`, the run to `j` and the rest. */
  lemma SumInThree(counts: map<Instant, int>, ts: seq<Instant>, i: nat, j: nat, lo: int, hi: int)
    requires Logged(counts, ts) && i <= j <= |ts|
    ensures Logged(counts, ts[..i]) && Logged(counts, ts[i..j]) && Logged(counts, ts[j..])
    ensures SumIn(counts, ts, lo, hi) ==
      SumIn(counts, ts[..i], lo, hi) + SumIn(counts, ts[i..j], lo, hi) + SumIn(counts, ts[j..], lo, hi)
  {
    SumInSplit(counts, ts, i, lo, hi);
    SumInSplit(counts, ts[i..], j - i, lo, hi);
    assert ts[i..][..j - i] == ts[i..j] && ts[i..][j - i..] == ts[j..];
  }

  /** Summing a window over a list is summing it over a prefix and the rest. */
  lemma SumInSplit(counts: map<Instant, int>, xs: seq<Instant>, m: nat, lo: int, hi: int)
    requires Logged(counts, xs) && m <= |xs|
    ensures Logged(counts, xs[..m]) && Logged(counts, xs[m..])
    ensures SumIn(counts, xs, lo, hi) == SumIn(counts, xs[..m], lo, hi) + SumIn(counts, xs[m..], lo, hi)
  {
    assert xs == xs[..m] + xs[m..];
    SumInAppend(counts, xs[..m], xs[m..], lo, hi);
  }

  /**
   * In a chronological listing of logged instants, the window of the instant
   * at `i` is the run from `i` up to the first instant `span` or more seconds
   * later (or the end of the listing).
   */
  lemma WindowIsRun(counts: map<Instant, int>, ts: seq<Instant>, i: nat, j: nat, span: nat)
    requires Increasing(ts) && Logged(counts, ts)
    requires i < j <= |ts|
    requires ts[j - 1] < ts[i] + span
    requires j == |ts| || ts[j] >= ts[i] + span
    ensures RunTotal(counts, ts, i, j) == SumIn(counts, ts, ts[i], ts[i] + span)
  {
    var t := ts[i];
    assert forall k :: 0 <= k < i ==> ts[k] < t;
    assert forall k :: i <= k < j ==> t <= ts[k] <= ts[j - 1];
    assert forall k :: j <= k < |ts| ==> ts[j] <= ts[k];
    RunSum(counts, ts, i, j, t, t + span);
    RunTotalIsTotal(counts, ts, i, j);
  }

  /** The windows of every logged instant, keyed by instant. */
  function WindowsOf(counts: map<Instant, int>, span: nat): (w: map<Instant, int>)
    ensures w.Keys == counts.Keys
  {
    map t | t in counts :: Window(counts, t, span)
  }

  /** The first `n` instants of the listing have their windows in `windowed`. */
  ghost predicate Filled(counts: map<Instant, int>, ordered: seq<Instant>, windowed: map<Instant, int>, n: nat, span: nat)
    requires Logged(counts, ordered) && n <= |ordered|
    decreases n
  {
    n == 0 ||
    (Filled(counts, ordered, windowed, n - 1, span) &&
     ordered[n - 1] in windowed &&
     windowed[ordered[n - 1]] == SumIn(counts, ordered, ordered[n - 1], ordered[n - 1] + span))
  }

  /** Setting the value of a later instant keeps the windows of the earlier ones. */
  lemma {:induction false} FilledKeep(counts: map<Instant, int>, ordered: seq<Instant>, windowed: map<Instant, int>,
                                      n: nat, span: nat, k: nat, v: int)
    requires Increasing(ordered) && Logged(counts, ordered)
    requires n <= k < |ordered|
    requires Filled(counts, ordered, windowed, n, span)
    ensures Filled(counts, ordered, windowed[ordered[k] := v], n, span)
    decreases n
  {
    if n > 0 {
      FilledKeep(counts, ordered, windowed, n - 1, span, k, v);
      assert ordered[n - 1] < ordered[k];
    }
  }

  /** Setting the window of the next instant fills one instant more. */
  lemma FilledStep(counts: map<Instant, int>, ordered: seq<Instant>, windowed: map<Instant, int>,
                   n: nat, span: nat, v: int)
    requires Increasing(ordered) && Logged(counts, ordered)
    requires n < |ordered|
    requires Filled(counts, ordered, windowed, n, span)
    requires v == SumIn(counts, ordered, ordered[n], ordered[n] + span)
    ensures Filled(counts, ordered, windowed[ordered[n] := v], n + 1, span)
  {
    FilledKeep(counts, ordered, windowed, n, span, n, v);
  }

  /** Where the first `n` instants are filled, each of them is. */
  lemma {:induction false} FilledAt(counts: map<Instant, int>, ordered: seq<Instant>, windowed: map<Instant, int>,
                                    n: nat, span: nat, p: nat)
    requires Logged(counts, ordered) && n <= |ordered|
    requires Filled(counts, ordered, windowed, n, span)
    requires p < n
    ensures ordered[p] in windowed
    ensures windowed[ordered[p]] == SumIn(counts, ordered, ordered[p], ordered[p] + span)
    decreases n
  {
    if p < n - 1 {
      FilledAt(counts, ordered, windowed, n - 1, span, p);
    }
  }

  /** Any chronological listing of the logged instants gives the reference window. */
  lemma WindowOfListing(counts: map<Instant, int>, ordered: seq<Instant>, t: Instant, span: nat)
    requires Increasing(ordered) && Logged(counts, ordered)
    requires forall k :: k in counts <==> k in ordered
    ensures Window(counts, t, span) == SumIn(counts, ordered, t, t + span)
  {
    AscendingUnique(counts.Keys, ordered);
  }

  /** A chronological listing of the logged instants of a nonempty dictionary. */
  lemma SortedListing(counts: map<Instant, int>) returns (ts: seq<Instant>)
    requires counts != map[]
    ensures Increasing(ts) && Logged(counts, ts) && ts != []
    ensures forall k :: k in counts <==> k in ts
  {
    ts := Ascending(counts.Keys);
    AscendingListing(counts.Keys);
    SomeKey(counts);
  }

  /** Once every instant of the listing is filled, every listed instant is. */
  lemma FilledAll(counts: map<Instant, int>, ordered: seq<Instant>, windowed: map<Instant, int>, span: nat)
    requires Logged(counts, ordered)
    requires forall k :: k in counts ==> k in ordered
    requires Filled(counts, ordered, windowed, |ordered|, span)
    ensures forall t :: t in counts ==> t in windowed && windowed[t] == SumIn(counts, ordered, t, t + span)
  {
    forall t | t in counts ensures t in windowed && windowed[t] == SumIn(counts, ordered, t, t + span) {
      var p :| 0 <= p < |ordered| && ordered[p] == t;
      FilledAt(counts, ordered, windowed, |ordered|, span, p);
    }
  }

  /** Once every instant of the chronological listing is filled, the dictionary is the map of windows. */
  lemma AllFilled(counts: map<Instant, int>, ordered: seq<Instant>, windowed: map<Instant, int>, span: nat)
    requires Increasing(ordered)
    requires forall k :: k in counts <==> k in ordered
    requires Logged(counts, ordered)
    requires windowed.Keys <= counts.Keys
    requires Filled(counts, ordered, windowed, |ordered|, span)
    ensures windowed == WindowsOf(counts, span)
  {
    FilledAll(counts, ordered, windowed, span);
    forall t | t in counts ensures windowed[t] == Window(counts, t, span) {
      WindowOfListing(counts, ordered, t, span);
    }
  }

  /** Writing a key twice leaves the second value. */
  lemma Overwrite<K, V>(m: map<K, V>, k: K, a: V, b: V)
    ensures m[k := a][k := b] == m[k := b]
  {
  }

  /** `sorted(counts.keys())`: the logged instants, each once, in chronological order. */
  method SortedKeys(counts: map<Instant, int>) returns (ordered: seq<Instant>)
    ensures Increasing(ordered)
    ensures |ordered| == |counts|
    ensures forall k :: k in counts <==> k in ordered
    ensures Logged(counts, ordered)
  {
    ordered := Ascending(counts.Keys);
    AscendingListing(counts.Keys);
  }

  /**
   * The inner loop of the scan: the window of the instant at `i`, holding its
   * own visits, takes on those of each following instant for as long as that
   * one lies less than `span` seconds after it. Stops at the first instant
   * outside the window, `j`, or at the end of the listing.
   */
  method GrowWindow(counts: map<Instant, int>, ordered: seq<Instant>, i: nat, span: nat, windowed: map<Instant, int>)
    returns (grown: map<Instant, int>, j: nat)
    requires Increasing(ordered) && Logged(counts, ordered)
    requires i + 1 < |ordered|
    requires ordered[i] in windowed && windowed[ordered[i]] == counts[ordered[i]]
    requires span >= 1
    ensures i < j <= |ordered|
    ensures DeltaTime(ordered[i], ordered[j - 1]) < span
    ensures j == |ordered| || DeltaTime(ordered[i], ordered[j]) >= span
    ensures grown == windowed[ordered[i] := RunTotal(counts, ordered, i, j)]
  {
    var t := ordered[i];
    var endIdx := |ordered| - 1;
    grown := windowed;
    j := i + 1;
    while DeltaTime(t, ordered[j]) < span
      invariant i + 1 <= j <= endIdx
      invariant DeltaTime(t, ordered[j - 1]) < span
      invariant grown == windowed[t := RunTotal(counts, ordered, i, j)]
      decreases endIdx - j
    {
      grown := grown[t := grown[t] + counts[ordered[j]]];
      j := j + 1;
      if j > endIdx {
        return;
      }
    }
  }

  /**
   * `calc_time_windows(counts)`: every instant, in chronological order, gets
   * its own visits, then those of the following instants for as long as they
   * lie less than `span` seconds after it. Nothing when nothing was logged
   * (the function then falls off its loop).
   */
  method ScanWindows(counts: map<Instant, int>, span: nat) returns (r: Option<map<Instant, int>>)
    requires span >= 1
    ensures r.None? <==> counts == map[]
    ensures r.Some? ==> r.value == WindowsOf(counts, span)
  {
    var ordered := SortedKeys(counts);
    var endIdx := |ordered| - 1;
    var windowed: map<Instant, int> := map[];
    for i := 0 to |ordered|
      invariant |ordered| == 0 || i <= endIdx
      invariant windowed.Keys <= counts.Keys
      invariant Filled(counts, ordered, windowed, i, span)
    {
      var t := ordered[i];
      ghost var before := windowed;
      windowed := windowed[t := counts[t]];
      if i == endIdx {
        WindowIsRun(counts, ordered, i, i + 1, span);
        FilledStep(counts, ordered, before, i, span, counts[t]);
        AllFilled(counts, ordered, windowed, span);
        return Some(windowed);
      }
      var j;
      windowed, j := GrowWindow(counts, ordered, i, span, windowed);
      WindowIsRun(counts, ordered, i, j, span);
      Overwrite(before, t, counts[t], RunTotal(counts, ordered, i, j));
      FilledStep(counts, ordered, before, i, span, RunTotal(counts, ordered, i, j));
    }
    return None;
  }
}
