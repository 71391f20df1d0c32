/**
 * The `Counter` class of process_log.py (identical in both copies of the
 * script): a dictionary from keys (hosts, resources, instants) to running
 * totals, and a report of the keys with the largest totals.
 */
module Counters {

  /** How many lines a report asks for: a number, or `float('inf')`. */
  datatype Limit = AtMost(n: int) | Unlimited

  /** One report line: `key,total`, or the key alone. */
  datatype Line<K> = KeyValue(key: K, total: int) | KeyOnly(key: K)

  /** `counts[key] += n`, where a key seen for the first time starts from `n`. */
  function AddTo<K(==)>(counts: map<K, int>, key: K, n: int): (r: map<K, int>)
    ensures r.Keys == counts.Keys + {key}
    ensures r[key] == n + (if key in counts then counts[key] else 0)
    ensures forall k :: k in counts && k != key ==> r[k] == counts[k]
  {
    if key in counts then counts[key := counts[key] + n] else counts[key := n]
  }

  /** The counts after a series of updates, starting from an empty dictionary. */
  function Tally<K(==)>(updates: seq<(K, int)>): map<K, int>
  {
    if updates == [] then map[]
    else
      var last := updates[|updates| - 1];
      AddTo(Tally(updates[..|updates| - 1]), last.0, last.1)
  }

  /** The sum of the amounts that `updates` gives to `key`. */
  function KeyTotal<K(==)>(updates: seq<(K, int)>, key: K): int
  {
    if updates == [] then 0
    else
      var last := updates[|updates| - 1];
      KeyTotal(updates[..|updates| - 1], key) + (if last.0 == key then last.1 else 0)
  }

  /**
   * A counter holds exactly the keys that were updated, each with the sum of
   * its amounts: the order of the updates does not matter.
   */
  lemma {:induction false} TallyIsKeyTotal<K>(updates: seq<(K, int)>, key: K)
    ensures key in Tally(updates) <==> exists i :: 0 <= i < |updates| && updates[i].0 == key
    ensures key in Tally(updates) ==> Tally(updates)[key] == KeyTotal(updates, key)
    ensures key !in Tally(updates) ==> KeyTotal(updates, key) == 0
    decreases |updates|
  {
    if updates != [] {
      var init := updates[..|updates| - 1];
      TallyIsKeyTotal(init, key);
      if key in Tally(init) {
        var i :| 0 <= i < |init| && init[i].0 == key;
        assert updates[i] == init[i];
      }
      if exists i :: 0 <= i < |updates| && updates[i].0 == key {
        var i :| 0 <= i < |updates| && updates[i].0 == key;
        if i < |init| {
          assert init[i] == updates[i];
        }
      }
    }
  }

  /** The amounts given to `key` by two runs of updates, one after the other, add up. */
  lemma {:induction false} KeyTotalAppend<K>(a: seq<(K, int)>, b: seq<(K, int)>, key: K)
    ensures KeyTotal(a + b, key) == KeyTotal(a, key) + KeyTotal(b, key)
    decreases |b|
  {
    if b == [] {
      assert a + b == a;
    } else {
      KeyTotalAppend(a, b[..|b| - 1], key);
      assert (a + b)[..|a + b| - 1] == a + b[..|b| - 1];
    }
  }

  /** Removing the element at `p` removes one occurrence of it from the multiset. */
  lemma MultisetWithout<T>(v: seq<T>, p: nat)
    requires p < |v|
    ensures multiset(v[..p] + v[p + 1..]) == multiset(v) - multiset{v[p]}
  {
    assert v == v[..p] + [v[p]] + v[p + 1..];
    calc {
      multiset(v[..p] + v[p + 1..]);
      (multiset(v[..p] + v[p + 1..]) + multiset{v[p]}) - multiset{v[p]};
      multiset(v) - multiset{v[p]};
    }
  }

  /** Taking out the update at `p` takes its amount off the key's total. */
  lemma KeyTotalRemove<K>(v: seq<(K, int)>, p: nat, key: K)
    requires p < |v|
    ensures KeyTotal(v, key) == KeyTotal(v[..p] + v[p + 1..], key) + (if v[p].0 == key then v[p].1 else 0)
  {
    assert v == v[..p] + v[p..];
    assert v[p..] == [v[p]] + v[p + 1..];
    KeyTotalAppend(v[..p], v[p..], key);
    KeyTotalAppend([v[p]], v[p + 1..], key);
    KeyTotalAppend(v[..p], v[p + 1..], key);
    assert [v[p]][..0] == [];
  }

  /** Reordering the updates does not change what they give to a key. */
  lemma {:induction false} KeyTotalPermutation<K>(u: seq<(K, int)>, v: seq<(K, int)>, key: K)
    requires multiset(u) == multiset(v)
    ensures KeyTotal(u, key) == KeyTotal(v, key)
    decreases |u|
  {
    if u == [] {
      assert |v| == |multiset(v)| == 0;
    } else {
      var last := |u| - 1;
      var init, x := u[..last], u[last];
      assert x in multiset(v);
      var p :| 0 <= p < |v| && v[p] == x;
      var rest := v[..p] + v[p + 1..];
      MultisetWithout(u, last);
      assert u[..last] + u[last + 1..] == init;
      MultisetWithout(v, p);
      KeyTotalPermutation(init, rest, key);
      KeyTotalRemove(v, p, key);
      assert KeyTotal(u, key) == KeyTotal(init, key) + (if x.0 == key then x.1 else 0);
    }
  }

  /** Two orders of the same updates agree on one key. */
  lemma TallyKeyAgree<K>(u: seq<(K, int)>, v: seq<(K, int)>, key: K)
    requires multiset(u) == multiset(v)
    ensures key in Tally(u) <==> key in Tally(v)
    ensures key in Tally(u) ==> Tally(u)[key] == Tally(v)[key]
  {
    TallyIsKeyTotal(u, key);
    TallyIsKeyTotal(v, key);
    KeyTotalPermutation(u, v, key);
    if exists i :: 0 <= i < |u| && u[i].0 == key {
      var i :| 0 <= i < |u| && u[i].0 == key;
      assert u[i] in multiset(v);
    }
    if exists i :: 0 <= i < |v| && v[i].0 == key {
      var i :| 0 <= i < |v| && v[i].0 == key;
      assert v[i] in multiset(u);
    }
  }

  /** The counts after a series of updates do not depend on their order. */
  lemma TallyPermutation<K>(u: seq<(K, int)>, v: seq<(K, int)>)
    requires multiset(u) == multiset(v)
    ensures Tally(u) == Tally(v)
  {
    forall key | key in Tally(u) ensures key in Tally(v) && Tally(u)[key] == Tally(v)[key] {
      TallyKeyAgree(u, v, key);
    }
    forall key | key in Tally(v) ensures key in Tally(u) {
      TallyKeyAgree(u, v, key);
    }
    assert Tally(u).Keys == Tally(v).Keys;
  }

  /**
   * The number of lines a report of `size` entries writes: a request for more
   * than `size` lines is cut to `size`, and a request for none or fewer is
   * raised to one; slicing then never yields more than `size`.
   */
  function Shown(n: Limit, size: nat): (r: nat)
    ensures size == 0 ==> r == 0
    ensures size > 0 ==> 1 <= r <= size
    ensures size > 0 && n.AtMost? && 1 <= n.n <= size ==> r == n.n
    ensures size > 0 && n.AtMost? && n.n <= 0 ==> r == 1
    ensures size > 0 && (n.Unlimited? || n.n >= size) ==> r == size
  {
    var capped := if n.Unlimited? || n.n > size then size else n.n;
    var raised := if capped <= 0 then 1 else capped;
    if raised > size then size else raised
  }

  /** Entries in order of non-increasing total. */
  predicate Descending<K(==)>(items: seq<(K, int)>)
  {
    forall i, j :: 0 <= i < j < |items| ==> items[i].1 >= items[j].1
  }

  /** Puts `x` in front of the first entry whose total is not larger. */
  function Insert<K(==)>(x: (K, int), items: seq<(K, int)>): seq<(K, int)>
  {
    if items == [] || x.1 >= items[0].1 then [x] + items
    else [items[0]] + Insert(x, items[1..])
  }

  /** `sorted(items, key=itemgetter(1), reverse=True)`, up to the order of equal totals. */
  function SortDesc<K(==)>(items: seq<(K, int)>): seq<(K, int)>
  {
    if items == [] then [] else Insert(items[0], SortDesc(items[1..]))
  }

  /** Inserting keeps every entry and adds `x`. */
  lemma {:induction false} InsertPermutes<K>(x: (K, int), items: seq<(K, int)>)
    ensures multiset(Insert(x, items)) == multiset(items) + multiset{x}
    decreases |items|
  {
    if items != [] && x.1 < items[0].1 {
      InsertPermutes(x, items[1..]);
      assert items == [items[0]] + items[1..];
      assert Insert(x, items) == [items[0]] + Insert(x, items[1..]);
    }
  }

  /** Inserting into a descending list keeps it descending. */
  lemma {:induction false} InsertDescending<K>(x: (K, int), items: seq<(K, int)>)
    requires Descending(items)
    ensures Descending(Insert(x, items))
    decreases |items|
  {
    if items != [] && x.1 < items[0].1 {
      var rest := Insert(x, items[1..]);
      InsertDescending(x, items[1..]);
      InsertPermutes(x, items[1..]);
      forall j | 0 <= j < |rest| ensures items[0].1 >= rest[j].1 {
        assert rest[j] in multiset(items[1..]) + multiset{x} by {
          assert rest[j] in multiset(rest);
        }
        if rest[j] != x {
          var p :| 0 <= p < |items[1..]| && items[1..][p] == rest[j];
          assert items[p + 1] == rest[j];
        }
      }
      assert Insert(x, items) == [items[0]] + rest;
    }
  }

  /** Sorting gives a permutation in non-increasing order. */
  lemma {:induction false} SortDescKeeps<K>(items: seq<(K, int)>)
    ensures Descending(SortDesc(items))
    ensures multiset(SortDesc(items)) == multiset(items)
    decreases |items|
  {
    if items != [] {
      SortDescKeeps(items[1..]);
      InsertPermutes(items[0], SortDesc(items[1..]));
      InsertDescending(items[0], SortDesc(items[1..]));
      assert items == [items[0]] + items[1..];
    }
  }

  /** No key occurs twice. */
  predicate DistinctKeys<K(==)>(items: seq<(K, int)>)
  {
    forall i, j :: 0 <= i < j < |items| ==> items[i].0 != items[j].0
  }

  /** Every entry is a key of `counts` with its total. */
  predicate EntriesOf<K(==)>(items: seq<(K, int)>, counts: map<K, int>)
  {
    forall i :: 0 <= i < |items| ==> items[i].0 in counts && items[i].1 == counts[items[i].0]
  }

  /** The element at `i` counts once, and once more when it reappears at `j`. */
  lemma TwoPositions<T>(s: seq<T>, i: nat, j: nat)
    requires i < j < |s|
    ensures multiset(s)[s[i]] >= 1 + (if s[j] == s[i] then 1 else 0)
  {
    assert s == s[..j] + [s[j]] + s[j + 1..];
    assert s[..j][i] == s[i];
  }

  /** Entries with distinct keys occur once each. */
  lemma {:induction false} OnceEach<K>(items: seq<(K, int)>)
    requires DistinctKeys(items)
    ensures forall x :: multiset(items)[x] <= 1
    decreases |items|
  {
    if items != [] {
      var init, last := items[..|items| - 1], items[|items| - 1];
      assert DistinctKeys(init);
      OnceEach(init);
      assert items == init + [last];
      assert last !in multiset(init) by {
        forall p | 0 <= p < |init| ensures init[p] != last {
          assert init[p] == items[p];
        }
      }
    }
  }

  /** A permutation of the entries of a dictionary still has each key once. */
  lemma PermutedEntries<K>(items: seq<(K, int)>, other: seq<(K, int)>, counts: map<K, int>)
    requires EntriesOf(items, counts) && DistinctKeys(items)
    requires multiset(other) == multiset(items)
    ensures EntriesOf(other, counts) && DistinctKeys(other)
  {
    forall i | 0 <= i < |other| ensures other[i].0 in counts && other[i].1 == counts[other[i].0] {
      assert other[i] in multiset(items);
    }
    OnceEach(items);
    forall i, j | 0 <= i < j < |other| ensures other[i].0 != other[j].0 {
      TwoPositions(other, i, j);
      assert other[i] in multiset(items);
    }
  }

  /** The entries of `counts`, each once, in no particular order (`dict.items()`). */
  method Items<K(==)>(counts: map<K, int>) returns (items: seq<(K, int)>)
    ensures |items| == |counts|
    ensures EntriesOf(items, counts) && DistinctKeys(items)
    ensures forall k :: k in counts ==> k in ItemKeys(items)
  {
    items := [];
    var rest := counts.Keys;
    while rest != {}
      invariant rest <= counts.Keys
      invariant |items| + |rest| == |counts|
      invariant EntriesOf(items, counts) && DistinctKeys(items)
      invariant forall i :: 0 <= i < |items| ==> items[i].0 !in rest
      invariant forall k :: k in counts ==> k in rest || k in ItemKeys(items)
      decreases |rest|
    {
      var k :| k in rest;
      assert ItemKeys(items + [(k, counts[k])]) == ItemKeys(items) + [k];
      items := items + [(k, counts[k])];
      rest := rest - {k};
    }
  }

  /** The keys of a report, in the order written. */
  function Keys<K(==)>(lines: seq<Line<K>>): seq<K>
  {
    seq(|lines|, i requires 0 <= i < |lines| => lines[i].key)
  }

  /** The keys of a list of entries, in order. */
  function ItemKeys<K(==)>(items: seq<(K, int)>): seq<K>
  {
    seq(|items|, i requires 0 <= i < |items| => items[i].0)
  }

  /**
   * Cutting a descending arrangement of all the entries after `shown` leaves
   * out no entry larger than one kept.
   */
  lemma LeftOutNoLarger<K>(items: seq<(K, int)>, sorted: seq<(K, int)>, counts: map<K, int>, shown: nat)
    requires forall k :: k in counts ==> k in ItemKeys(items)
    requires multiset(sorted) == multiset(items)
    requires EntriesOf(sorted, counts) && Descending(sorted)
    requires shown <= |sorted|
    ensures forall k :: k in counts && k !in ItemKeys(sorted[..shown]) ==>
              forall i :: 0 <= i < shown ==> counts[k] <= counts[sorted[i].0]
  {
    forall k | k in counts && k !in ItemKeys(sorted[..shown])
      ensures forall i :: 0 <= i < shown ==> counts[k] <= counts[sorted[i].0]
    {
      var p :| 0 <= p < |items| && ItemKeys(items)[p] == k;
      assert items[p] in multiset(sorted);
      var q :| 0 <= q < |sorted| && sorted[q] == items[p];
      assert forall j :: 0 <= j < shown ==> ItemKeys(sorted[..shown])[j] == sorted[j].0;
      assert shown <= q;
    }
  }

  /** The head of a descending arrangement of entries is one too, with distinct keys of the dictionary. */
  lemma PrefixKeeps<K>(sorted: seq<(K, int)>, counts: map<K, int>, shown: nat)
    requires EntriesOf(sorted, counts) && DistinctKeys(sorted) && Descending(sorted)
    requires shown <= |sorted|
    ensures EntriesOf(sorted[..shown], counts) && DistinctKeys(sorted[..shown]) && Descending(sorted[..shown])
  {
    var outputs := sorted[..shown];
    assert forall i :: 0 <= i < shown ==> outputs[i] == sorted[i];
  }

  /**
   * Lines written for a descending head of the entries, with distinct keys,
   * make a report that lists each key once, largest total first, and leaves
   * out no larger key.
   */
  lemma LinesReport<K>(counts: map<K, int>, outputs: seq<(K, int)>, writeVals: bool, lines: seq<Line<K>>)
    requires EntriesOf(outputs, counts) && DistinctKeys(outputs) && Descending(outputs)
    requires forall k :: k in counts && k !in ItemKeys(outputs) ==>
               forall i :: 0 <= i < |outputs| ==> counts[k] <= counts[outputs[i].0]
    requires |lines| == |outputs|
    requires forall p :: 0 <= p < |lines| ==> lines[p].key == outputs[p].0
    requires forall p :: 0 <= p < |lines| && lines[p].KeyValue? ==> lines[p].total == outputs[p].1
    ensures forall i :: 0 <= i < |lines| ==> lines[i].key in counts
    ensures forall i :: 0 <= i < |lines| && lines[i].KeyValue? ==> lines[i].total == counts[lines[i].key]
    ensures forall i, j :: 0 <= i < j < |lines| ==> lines[i].key != lines[j].key
    ensures forall i, j :: 0 <= i < j < |lines| ==> counts[lines[i].key] >= counts[lines[j].key]
    ensures forall k :: k in counts && k !in Keys(lines) ==>
              forall i :: 0 <= i < |lines| ==> counts[k] <= counts[lines[i].key]
  {
    assert Keys(lines) == ItemKeys(outputs);
  }

  /**
   * What a report of `counts` asked for `n` lines says: `Shown(n, |counts|)`
   * lines, each a key of `counts` written once, with its total exactly when
   * `writeVals`; totals never grow down the report, and no key left out has
   * a larger total than a key written.
   */
  predicate TopReport<K(==)>(lines: seq<Line<K>>, counts: map<K, int>, n: Limit, writeVals: bool)
  {
    && |lines| == Shown(n, |counts|)
    && (forall i :: 0 <= i < |lines| ==> lines[i].key in counts)
    && (forall i :: 0 <= i < |lines| ==> (lines[i].KeyValue? <==> writeVals))
    && (forall i :: 0 <= i < |lines| && lines[i].KeyValue? ==> lines[i].total == counts[lines[i].key])
    && (forall i, j :: 0 <= i < j < |lines| ==> lines[i].key != lines[j].key)
    && (forall i, j :: 0 <= i < j < |lines| ==> counts[lines[i].key] >= counts[lines[j].key])
    && (forall k :: k in counts && k !in Keys(lines) ==>
          forall i :: 0 <= i < |lines| ==> counts[k] <= counts[lines[i].key])
  }

  /** A counter: a dictionary of totals that `Update` adds to and `Logger` reports. */
  class Counter<K(==)> {
    var counts: map<K, int>

    constructor()
      ensures counts == map[]
    {
      counts := map[];
    }

    method Update(key: K, n: int)
      modifies this
      ensures counts == AddTo(old(counts), key, n)
    {
      if key in counts {
        counts := counts[key := counts[key] + n];
      } else {
        counts := counts[key := n];
      }
    }

    /**
     * The entries a report writes: the `n` largest totals (clamped as `Shown`
     * says), largest first, each key once; no entry left out is larger than
     * one kept.
     */
    method TopEntries(n: Limit) returns (outputs: seq<(K, int)>)
      ensures |outputs| == Shown(n, |counts|)
      ensures EntriesOf(outputs, counts) && DistinctKeys(outputs) && Descending(outputs)
      ensures forall k :: k in counts && k !in ItemKeys(outputs) ==>
                forall i :: 0 <= i < |outputs| ==> counts[k] <= counts[outputs[i].0]
    {
      var items := Items(counts);
      var sorted := SortDesc(items);
      SortDescKeeps(items);
      PermutedEntries(items, sorted, counts);
      assert |sorted| == |multiset(sorted)| == |multiset(items)| == |items|;
      var shown := Shown(n, |counts|);
      outputs := sorted[..shown];
      LeftOutNoLarger(items, sorted, counts, shown);
      PrefixKeeps(sorted, counts, shown);
    }

    /**
     * The report: the `n` keys with the largest totals (clamped as `Shown`
     * says), largest first, each key once, with its total when `writeVals`.
     * Every key left out has a total no larger than any key written.
     */
    method Logger(n: Limit, writeVals: bool) returns (lines: seq<Line<K>>)
      ensures TopReport(lines, counts, n, writeVals)
    {
      var outputs := TopEntries(n);
      lines := [];
      for i := 0 to |outputs|
        invariant |lines| == i
        invariant forall p :: 0 <= p < i ==> lines[p].key == outputs[p].0
        invariant forall p :: 0 <= p < i ==> (lines[p].KeyValue? <==> writeVals)
        invariant forall p :: 0 <= p < i && lines[p].KeyValue? ==> lines[p].total == outputs[p].1
      {
        var line := if writeVals then KeyValue(outputs[i].0, outputs[i].1) else KeyOnly(outputs[i].0);
        lines := lines + [line];
      }
      LinesReport(counts, outputs, writeVals, lines);
    }
  }
}
