/**
 * The `Guardian` class of process_log.py (identical in both copies of the
 * script): it remembers the last three failed logins of every host, blocks a
 * host whose last three failures fall within 20 seconds, lifts the block once
 * 300 seconds have passed, and keeps every request line of a blocked host.
 */
module Guardians {
  import opened Instants

  /** How many failed logins are remembered per host. */
  const KeptAttempts: nat := 3
  /** Three failures at most this many seconds apart block the host. */
  const AttemptWindow: int := 20
  /** A block is lifted by a login request this many seconds after it began. */
  const BlockSeconds: int := 300

  /** The remembered failures of every host, and when each blocked host was blocked. */
  datatype Guard = Guard(attempts: map<string, seq<Instant>>, blocked: map<string, Instant>)

  /** The last `KeptAttempts` elements of `s` (all of them when there are fewer). */
  function LastThree(s: seq<Instant>): (r: seq<Instant>)
    ensures |r| == if |s| <= KeptAttempts then |s| else KeptAttempts
  {
    if |s| <= KeptAttempts then s else s[|s| - KeptAttempts..]
  }

  /** The remembered failures after one more at `t`: appended, the oldest dropped past three. */
  function Recent(times: seq<Instant>, t: Instant): seq<Instant>
  {
    var s := times + [t];
    if |s| > KeptAttempts then s[1..] else s
  }

  /** Remembering one more failure keeps the last three of all failures so far. */
  lemma RecentIsLastThree(times: seq<Instant>, t: Instant)
    requires |times| <= KeptAttempts
    ensures Recent(times, t) == LastThree(times + [t])
  {
  }

  /** Three remembered failures within `AttemptWindow` seconds of each other. */
  predicate Offending(times: seq<Instant>)
  {
    |times| == KeptAttempts && DeltaTime(times[0], times[2]) <= AttemptWindow
  }

  /** The failures remembered for `host`, none when it has not failed yet. */
  function AttemptsOf(g: Guard, host: string): seq<Instant>
  {
    if host in g.attempts then g.attempts[host] else []
  }

  /**
   * `update_attempts`: a failed login of `host` at `t` is remembered, and
   * blocks the host from `t` (starting or renewing the block) when the last
   * three failures are within `AttemptWindow` seconds.
   */
  function RecordFailure(g: Guard, host: string, t: Instant): (r: Guard)
    ensures r.attempts.Keys == g.attempts.Keys + {host}
    ensures forall h :: h in g.attempts && h != host ==> r.attempts[h] == g.attempts[h]
    ensures |AttemptsOf(g, host)| <= KeptAttempts ==> r.attempts[host] == LastThree(AttemptsOf(g, host) + [t])
    ensures host in r.blocked <==> host in g.blocked || Offending(r.attempts[host])
    ensures Offending(r.attempts[host]) ==> r.blocked[host] == t
    ensures !Offending(r.attempts[host]) ==> r.blocked == g.blocked
    ensures forall h :: h != host ==> (h in r.blocked <==> h in g.blocked)
    ensures forall h :: h != host && h in g.blocked ==> r.blocked[h] == g.blocked[h]
  {
    var times := Recent(AttemptsOf(g, host), t);
    var attempts := g.attempts[host := times];
    if Offending(times) then Guard(attempts, g.blocked[host := t]) else Guard(attempts, g.blocked)
  }

  /**
   * `update_block`: a blocked host's block is lifted when at least
   * `BlockSeconds` seconds have passed since it began; nothing else changes.
   */
  function ExpireBlock(g: Guard, host: string, t: Instant): (r: Guard)
    ensures r.attempts == g.attempts
    ensures host in r.blocked <==> host in g.blocked && DeltaTime(g.blocked[host], t) < BlockSeconds
    ensures host in r.blocked ==> r.blocked[host] == g.blocked[host]
    ensures forall h :: h != host ==> (h in r.blocked <==> h in g.blocked)
    ensures forall h :: h != host && h in g.blocked ==> r.blocked[h] == g.blocked[h]
  {
    if host !in g.blocked then g
    else if DeltaTime(g.blocked[host], t) >= BlockSeconds then Guard(g.attempts, g.blocked - {host})
    else g
  }

  /**
   * What a guardian always satisfies: every host it remembers has between
   * one and three failures, and only a host that has failed can be blocked.
   */
  predicate Valid(g: Guard)
  {
    (forall h :: h in g.attempts ==> 1 <= |g.attempts[h]| <= KeptAttempts) &&
    g.blocked.Keys <= g.attempts.Keys
  }

  /** A new guardian remembers nothing and blocks nobody. */
  function Fresh(): (g: Guard)
    ensures Valid(g)
    ensures g.attempts == map[] && g.blocked == map[]
  {
    Guard(map[], map[])
  }

  lemma RecordFailureValid(g: Guard, host: string, t: Instant)
    requires Valid(g)
    ensures Valid(RecordFailure(g, host, t))
  {
  }

  lemma ExpireBlockValid(g: Guard, host: string, t: Instant)
    requires Valid(g)
    ensures Valid(ExpireBlock(g, host, t))
  {
  }

  /** The guardian after the failed logins `times` of `host`, in order. */
  function Failures(g: Guard, host: string, times: seq<Instant>): Guard
    decreases |times|
  {
    if times == [] then g
    else RecordFailure(Failures(g, host, times[..|times| - 1]), host, times[|times| - 1])
  }

  /** Keeping the last three of the last three and one more is keeping the last three. */
  lemma LastThreeAppend(s: seq<Instant>, t: Instant)
    ensures LastThree(LastThree(s) + [t]) == LastThree(s + [t])
  {
  }

  /** Failed logins keep a guardian valid. */
  lemma {:induction false} FailuresValid(g: Guard, host: string, times: seq<Instant>)
    requires Valid(g)
    ensures Valid(Failures(g, host, times))
    decreases |times|
  {
    if times != [] {
      var init := times[..|times| - 1];
      FailuresValid(g, host, init);
      RecordFailureValid(Failures(g, host, init), host, times[|times| - 1]);
    }
  }

  /** One more failure, on top of the last three of `s`, leaves the last three of `s` and it. */
  lemma RecordFailureLastThree(g: Guard, host: string, t: Instant, s: seq<Instant>)
    requires AttemptsOf(g, host) == LastThree(s)
    ensures RecordFailure(g, host, t).attempts[host] == LastThree(s + [t])
  {
    LastThreeAppend(s, t);
  }

  /** Appending a nonempty sequence is appending all of it but its last element, then that. */
  lemma AppendLast(s: seq<Instant>, times: seq<Instant>)
    requires times != []
    ensures s + times == s + times[..|times| - 1] + [times[|times| - 1]]
  {
    assert times == times[..|times| - 1] + [times[|times| - 1]];
  }

  /**
   * However many failures a host has, the guardian remembers the last three
   * of them, counting those it remembered before.
   */
  lemma {:induction false} FailuresKeepLastThree(g: Guard, host: string, times: seq<Instant>)
    requires Valid(g)
    requires times != []
    ensures Failures(g, host, times).attempts[host] == LastThree(AttemptsOf(g, host) + times)
    decreases |times|
  {
    var init, t := times[..|times| - 1], times[|times| - 1];
    var earlier := AttemptsOf(g, host);
    var before := Failures(g, host, init);
    assert Failures(g, host, times) == RecordFailure(before, host, t);
    if init == [] {
      assert AttemptsOf(before, host) == LastThree(earlier + init) by {
        assert before == g && earlier + init == earlier;
      }
    } else {
      FailuresKeepLastThree(g, host, init);
    }
    RecordFailureLastThree(before, host, t, earlier + init);
    AppendLast(earlier, times);
  }

  /**
   * A host that fails to log in three times within `AttemptWindow` seconds is
   * blocked from its third failure, whatever it did before.
   */
  lemma ThreeQuickFailuresBlock(g: Guard, host: string, t1: Instant, t2: Instant, t3: Instant)
    requires Valid(g)
    requires DeltaTime(t1, t3) <= AttemptWindow
    ensures host in Failures(g, host, [t1, t2, t3]).blocked
    ensures Failures(g, host, [t1, t2, t3]).blocked[host] == t3
  {
    FailuresKeepLastThree(g, host, [t1, t2, t3]);
    assert [t1, t2, t3][..2] == [t1, t2];
    assert Failures(g, host, [t1, t2, t3]).attempts[host] == [t1, t2, t3];
  }

  /** `Guardian`: the guardian's state, updated in place, and the request lines it kept. */
  class Guardian {
    var attempts: map<string, seq<Instant>>
    var blocked: map<string, Instant>
    var log: seq<string>

    function State(): Guard
      reads this
    {
      Guard(attempts, blocked)
    }

    constructor()
      ensures State() == Fresh() && log == []
    {
      attempts := map[];
      blocked := map[];
      log := [];
    }

    /** `update_attempts(host, timeobj)`. */
    method UpdateAttempts(host: string, t: Instant)
      modifies this
      ensures State() == RecordFailure(old(State()), host, t)
      ensures log == old(log)
    {
      ghost var times := Recent(AttemptsOf(State(), host), t);
      if host in attempts {
        attempts := attempts[host := attempts[host] + [t]];
      } else {
        assert [] + [t] == [t];
        attempts := attempts[host := [t]];
      }
      if |attempts[host]| > KeptAttempts {
        attempts := attempts[host := attempts[host][1..]];
      }
      assert attempts == old(attempts)[host := times];
      if |attempts[host]| == KeptAttempts {
        var delta := DeltaTime(attempts[host][0], attempts[host][2]);
        if delta <= AttemptWindow {
          blocked := blocked[host := t];
        }
      }
    }

    /** `update_block(host, timeobj)`. */
    method UpdateBlock(host: string, t: Instant)
      modifies this
      ensures State() == ExpireBlock(old(State()), host, t)
      ensures log == old(log)
    {
      if host !in blocked {
        return;
      }
      var delta := DeltaTime(blocked[host], t);
      if delta >= BlockSeconds {
        blocked := blocked - {host};
      }
    }

    /** `logger(host, line)`: the line is kept exactly when the host is blocked. */
    method Logger(host: string, line: string)
      modifies this
      ensures State() == old(State())
      ensures log == old(log) + (if host in blocked then [line] else [])
    {
      if host !in blocked {
        return;
      }
      log := log + [line];
    }
  }
}
