/**
 * Instants of the access log. The script compares timezone-aware datetimes
 * only through their difference in seconds, so an instant is modelled as a
 * whole number of seconds on one time line.
 */
module Instants {

  /** An instant: whole seconds since the Unix epoch. */
  type Instant = nat

  /**
   * `calc_delta_time(t1, t2)`: the seconds elapsed from `t1` to `t2`, negative
   * when `t2` is earlier. With whole-second instants, `days * 86400 + seconds`
   * of the difference is the difference itself.
   */
  function DeltaTime(t1: Instant, t2: Instant): (d: int)
    ensures t1 + d == t2
  {
    t2 - t1
  }

  /** Strictly increasing: each instant once, in chronological order. */
  predicate Increasing(ts: seq<Instant>)
  {
    forall i, j :: 0 <= i < j < |ts| ==> ts[i] < ts[j]
  }

  /** `m` is the earliest of `keys`. */
  predicate IsEarliest(m: Instant, keys: set<Instant>)
  {
    m in keys && forall k :: k in keys ==> m <= k
  }

  /** Some element of a non-empty set. */
  lemma Pick<T>(s: set<T>) returns (x: T)
    requires s != {}
    ensures x in s
  {
    x :| x in s;
  }

  /** A non-empty set of instants has an earliest one. */
  lemma {:induction false} EarliestExists(keys: set<Instant>)
    requires keys != {}
    ensures exists m :: IsEarliest(m, keys)
    decreases |keys|
  {
    var x := Pick(keys);
    if keys == {x} {
      assert IsEarliest(x, keys);
    } else {
      var rest := keys - {x};
      EarliestExists(rest);
      var m :| IsEarliest(m, rest);
      var least := if x < m then x else m;
      assert forall k :: k in keys ==> least <= k by {
        forall k | k in keys ensures least <= k {
          if k != x {
            assert k in rest;
          }
        }
      }
      assert IsEarliest(least, keys);
    }
  }

  /** No instant of an increasing list comes before its first or after its last. */
  lemma WithinEnds(ts: seq<Instant>, p: nat)
    requires Increasing(ts) && p < |ts|
    ensures ts[0] <= ts[p] <= ts[|ts| - 1]
  {
    if 0 < p {
      assert ts[0] < ts[p];
    }
    if p < |ts| - 1 {
      assert ts[p] < ts[|ts| - 1];
    }
  }

  /** A dictionary with an entry has a key. */
  lemma SomeKey<V>(m: map<Instant, V>)
    requires m != map[]
    ensures |m.Keys| > 0
  {
    var k :| k in m;
  }

  /** An instant before every instant of an increasing list can go in front of it. */
  lemma Prepend(m: Instant, rest: seq<Instant>)
    requires Increasing(rest)
    requires forall k :: k in rest ==> m < k
    ensures Increasing([m] + rest)
  {
    var ts := [m] + rest;
    forall i, j | 0 <= i < j < |ts| ensures ts[i] < ts[j] {
      assert ts[j] == rest[j - 1] && rest[j - 1] in rest;
      if i > 0 {
        assert ts[i] == rest[i - 1];
      }
    }
  }

  /**
   * The instants of `keys` in chronological order, as sorting the list of a
   * dictionary's keys gives them.
   */
  function Ascending(keys: set<Instant>): seq<Instant>
    decreases |keys|
  {
    if keys == {} then []
    else
      EarliestExists(keys);
      var m :| IsEarliest(m, keys);
      [m] + Ascending(keys - {m})
  }

  /** The chronological listing starts with the earliest instant. */
  lemma AscendingFirst(keys: set<Instant>, m: Instant)
    requires IsEarliest(m, keys)
    ensures Ascending(keys) == [m] + Ascending(keys - {m})
  {
  }

  /** The chronological listing holds every instant once, and in order. */
  lemma {:induction false} AscendingListing(keys: set<Instant>)
    ensures Increasing(Ascending(keys))
    ensures |Ascending(keys)| == |keys|
    ensures forall k :: k in keys <==> k in Ascending(keys)
    decreases |keys|
  {
    if keys != {} {
      EarliestExists(keys);
      var m :| IsEarliest(m, keys);
      AscendingFirst(keys, m);
      var rest := Ascending(keys - {m});
      AscendingListing(keys - {m});
      assert forall k :: k in rest ==> m < k;
      Prepend(m, rest);
    }
  }

  /** The earliest instant of a chronological listing is its first. */
  lemma FirstIsEarliest(keys: set<Instant>, ts: seq<Instant>)
    requires Increasing(ts) && ts != []
    requires forall k :: k in keys <==> k in ts
    ensures IsEarliest(ts[0], keys)
  {
    forall k | k in keys ensures ts[0] <= k {
      var p :| 0 <= p < |ts| && ts[p] == k;
      assert p == 0 || ts[0] < ts[p];
    }
  }

  /** The rest of a chronological listing lists the rest of the instants. */
  lemma RestListsRest(keys: set<Instant>, ts: seq<Instant>)
    requires Increasing(ts) && ts != []
    requires forall k :: k in keys <==> k in ts
    ensures Increasing(ts[1..])
    ensures forall k :: k in keys - {ts[0]} <==> k in ts[1..]
  {
    forall k ensures k in keys - {ts[0]} <==> k in ts[1..] {
      if k in ts && k != ts[0] {
        var p :| 0 <= p < |ts| && ts[p] == k;
        assert ts[1..][p - 1] == k;
      }
      if k in ts[1..] {
        var p :| 0 <= p < |ts[1..]| && ts[1..][p] == k;
        assert ts[0] < ts[p + 1];
      }
    }
  }

  /** A set without instants has the empty listing. */
  lemma AscendingEmpty(keys: set<Instant>)
    requires forall k :: k !in keys
    ensures Ascending(keys) == []
  {
    assert keys == {};
  }

  lemma HeadTail(ts: seq<Instant>)
    requires ts != []
    ensures ts == [ts[0]] + ts[1..]
  {
  }

  /** Only one chronological listing of a set of instants exists. */
  lemma {:induction false} AscendingUnique(keys: set<Instant>, ts: seq<Instant>)
    requires Increasing(ts)
    requires forall k :: k in keys <==> k in ts
    ensures ts == Ascending(keys)
    decreases |keys|
  {
    if ts == [] {
      AscendingEmpty(keys);
    } else {
      var m := ts[0];
      assert IsEarliest(m, keys) by {
        FirstIsEarliest(keys, ts);
      }
      assert ts[1..] == Ascending(keys - {m}) by {
        RestListsRest(keys, ts);
        AscendingUnique(keys - {m}, ts[1..]);
      }
      AscendingFirst(keys, m);
      HeadTail(ts);
    }
  }
}
