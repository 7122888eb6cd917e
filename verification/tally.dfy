/**
 * Count tables and the operations the charts apply to them: counting rows
 * per key, thresholds, ranking by count, the N largest totals, and the
 * regrouping of detail rows by their group's total.
 */
module Tally {
  import opened Seqs
  import opened Text

  /** A row of a one-key count table. */
  datatype Tally = Tally(key: string, count: nat)

  /** A row of a two-key count table: group (first key), sub-key and count. */
  datatype Bar<S> = Bar(group: string, sub: S, quantidade: nat)

  function KeySet(ts: seq<Tally>): set<string> {
    set t | t in ts :: t.key
  }

  predicate DistinctKeys(ts: seq<Tally>) {
    forall i, j :: 0 <= i < j < |ts| ==> ts[i].key != ts[j].key
  }

  predicate AscendingKeys(ts: seq<Tally>) {
    forall i, j :: 0 <= i < j < |ts| ==> StrLt(ts[i].key, ts[j].key)
  }

  lemma AscendingKeysDistinct(ts: seq<Tally>)
    requires AscendingKeys(ts)
    ensures DistinctKeys(ts)
  {
    forall i, j | 0 <= i < j < |ts|
      ensures ts[i].key != ts[j].key
    {
      StrLtIrreflexive(ts[i].key);
    }
  }

  /** Pairs each key of the ascending list `ks` with a count. */
  function Tabulate(ks: seq<string>, count: string -> nat): (r: seq<Tally>)
    requires Ascending(ks)
    ensures |r| == |ks|
    ensures AscendingKeys(r) && DistinctKeys(r)
    ensures forall k :: k in KeySet(r) <==> k in ks
    ensures forall t :: t in r ==> t.count == count(t.key)
  {
    var r := seq(|ks|, i requires 0 <= i < |ks| => Tally(ks[i], count(ks[i])));
    forall k
      ensures k in KeySet(r) <==> k in ks
    {
      if k in ks {
        var i :| 0 <= i < |ks| && ks[i] == k;
        assert r[i] in r;
      }
    }
    AscendingKeysDistinct(r);
    r
  }

  /**
   * `groupby(key).size()`: every distinct key once, in ascending order, with
   * the number of rows that carry it.
   */
  function CountKeys(keys: seq<string>): (r: seq<Tally>)
    ensures AscendingKeys(r) && DistinctKeys(r)
    ensures forall k :: k in KeySet(r) <==> k in keys
    ensures forall t :: t in r ==> t.count == multiset(keys)[t.key] && t.count > 0
  {
    var r := Tabulate(SortedDistinct(keys), (k: string) => multiset(keys)[k]);
    forall t | t in r
      ensures t.count > 0
    {
      assert t.key in KeySet(r);
    }
    r
  }

  // ---------------------------------------------------------------- ranking

  /** `a` comes before `b` in a ranking: a larger count, or an equal count and a smaller key. */
  predicate Outranks(a: Tally, b: Tally) {
    a.count > b.count || (a.count == b.count && StrLt(a.key, b.key))
  }

  lemma OutranksIrreflexive(a: Tally)
    ensures !Outranks(a, a)
  {
    StrLtIrreflexive(a.key);
  }

  lemma OutranksTransitive(a: Tally, b: Tally, c: Tally)
    requires Outranks(a, b) && Outranks(b, c)
    ensures Outranks(a, c)
  {
    if a.count == b.count == c.count {
      StrLtTransitive(a.key, b.key, c.key);
    }
  }

  lemma OutranksTotal(a: Tally, b: Tally)
    requires a.key != b.key
    ensures Outranks(a, b) || Outranks(b, a)
  {
    StrLtTotal(a.key, b.key);
  }

  /** Sorted by count, largest first, ties by ascending key. */
  predicate Ranked(s: seq<Tally>) {
    forall i, j :: 0 <= i < j < |s| ==> !Outranks(s[j], s[i])
  }

  /** With distinct keys, a ranked list is strictly ordered by `Outranks`. */
  lemma RankedStrict(s: seq<Tally>, i: nat, j: nat)
    requires Ranked(s) && DistinctKeys(s) && i < j < |s|
    ensures Outranks(s[i], s[j])
  {
    OutranksTotal(s[i], s[j]);
  }

  function InsertRanked(x: Tally, s: seq<Tally>): (r: seq<Tally>)
    requires Ranked(s)
    ensures Ranked(r)
    ensures multiset(r) == multiset(s) + multiset{x}
  {
    if |s| == 0 then [x]
    else if Outranks(x, s[0]) then
      forall j | 0 <= j < |s|
        ensures !Outranks(s[j], x)
      {
        if Outranks(s[j], x) {
          OutranksTransitive(s[j], x, s[0]);
          OutranksIrreflexive(s[0]);
        }
      }
      [x] + s
    else
      var rest := InsertRanked(x, s[1..]);
      assert s == [s[0]] + s[1..];
      forall y | y in rest
        ensures !Outranks(y, s[0])
      {
        assert y in multiset(rest);
      }
      [s[0]] + rest
  }

  /** `sort_values(ascending=False)` with ties broken by ascending key. */
  function SortByTotal(ts: seq<Tally>): (r: seq<Tally>)
    ensures Ranked(r)
    ensures multiset(r) == multiset(ts)
  {
    if |ts| == 0 then []
    else
      assert ts == [ts[0]] + ts[1..];
      InsertRanked(ts[0], SortByTotal(ts[1..]))
  }

  lemma DistinctKeysDistinct(ts: seq<Tally>)
    requires DistinctKeys(ts)
    ensures Distinct(ts)
  {
  }

  /** Rearranging a table never makes two of its keys equal. */
  lemma DistinctKeysPermutation(a: seq<Tally>, b: seq<Tally>)
    requires DistinctKeys(a) && multiset(a) == multiset(b)
    ensures DistinctKeys(b)
  {
    DistinctPermutation(a, b);
    forall i, j | 0 <= i < j < |b|
      ensures b[i].key != b[j].key
    {
      assert b[i] in multiset(a) && b[j] in multiset(a);
      var p :| 0 <= p < |a| && a[p] == b[i];
      var q :| 0 <= q < |a| && a[q] == b[j];
      assert p == q || a[p].key != a[q].key;
    }
  }

  /** Keeps, in order, the rows whose count exceeds `m`. */
  function AboveThreshold(ts: seq<Tally>, m: nat): (r: seq<Tally>)
    ensures forall t :: t in r <==> t in ts && t.count > m
    ensures IsSubseq(r, ts)
    ensures Ranked(ts) ==> Ranked(r)
    ensures DistinctKeys(ts) ==> DistinctKeys(r)
  {
    if |ts| == 0 then []
    else
      var rest := AboveThreshold(ts[1..], m);
      assert forall t :: t in ts <==> t == ts[0] || t in ts[1..];
      if ts[0].count > m then
        var r := [ts[0]] + rest;
        ThresholdHead(ts, rest);
        r
      else
        SubseqOfSuffix(rest, ts, 1);
        rest
  }

  /** Putting back the head of a table in front of a selection of its tail keeps order and key distinctness. */
  lemma ThresholdHead(ts: seq<Tally>, rest: seq<Tally>)
    requires |ts| > 0 && forall t :: t in rest ==> t in ts[1..]
    requires Ranked(ts[1..]) ==> Ranked(rest)
    requires DistinctKeys(ts[1..]) ==> DistinctKeys(rest)
    ensures Ranked(ts) ==> Ranked([ts[0]] + rest)
    ensures DistinctKeys(ts) ==> DistinctKeys([ts[0]] + rest)
  {
    var r := [ts[0]] + rest;
    if Ranked(ts) {
      forall i, j | 0 <= i < j < |r|
        ensures !Outranks(r[j], r[i])
      {
        assert r[j] == rest[j - 1] && r[j] in ts[1..];
        if i > 0 {
          assert r[i] == rest[i - 1];
        }
      }
    }
    if DistinctKeys(ts) {
      forall i, j | 0 <= i < j < |r|
        ensures r[i].key != r[j].key
      {
        assert r[j] == rest[j - 1] && r[j] in ts[1..];
        if i > 0 {
          assert r[i] == rest[i - 1];
        }
      }
    }
  }

  // ---------------------------------------------------------------- top N

  /** How many rows of `ts` rank above `t`. */
  function Beaters(ts: seq<Tally>, t: Tally): nat {
    |set u | u in ts && Outranks(u, t)|
  }

  /** In a ranked list with distinct keys, exactly the rows before position `i` rank above it. */
  lemma RankedBeaters(s: seq<Tally>, i: nat)
    requires Ranked(s) && DistinctKeys(s) && i < |s|
    ensures Beaters(s, s[i]) == i
  {
    var above := set u | u in s && Outranks(u, s[i]);
    forall u | u in s && Outranks(u, s[i])
      ensures u in s[..i]
    {
      var j :| 0 <= j < |s| && s[j] == u;
      OutranksIrreflexive(s[i]);
      assert j < i;
      assert s[..i][j] == u;
    }
    forall j | 0 <= j < i
      ensures s[j] in above
    {
      RankedStrict(s, j, i);
    }
    assert above == set u | u in s[..i];
    DistinctKeysDistinct(s);
    assert Distinct(s[..i]);
    DistinctCard(s[..i]);
  }

  /**
   * `nlargest(n)` over totals listed in ascending key order, keeping the first
   * of equal values: the keys of the `min(n, |totals|)` best ranked rows.
   * A key is chosen exactly when fewer than `n` rows rank above it, and every
   * chosen key ranks above every key left out, so a tie at the boundary goes
   * to the smaller key.
   */
  function TopN(totals: seq<Tally>, n: nat): (r: seq<string>)
    requires DistinctKeys(totals)
    ensures |r| == Min(n, |totals|) && Distinct(r)
    ensures forall k :: k in r ==> k in KeySet(totals)
    ensures forall t :: t in totals ==> (t.key in r <==> Beaters(totals, t) < n)
    ensures forall a, b :: a in totals && b in totals && a.key in r && b.key !in r ==> Outranks(a, b)
  {
    var ranked := SortByTotal(totals);
    assert |ranked| == |multiset(ranked)| == |multiset(totals)| == |totals|;
    DistinctKeysPermutation(totals, ranked);
    var m := Min(n, |ranked|);
    var r := seq(m, i requires 0 <= i < m => ranked[i].key);
    SameElements(totals, ranked);
    TopNKeys(totals, ranked, r);
    forall t | t in totals
      ensures t.key in r <==> Beaters(totals, t) < n
    {
      TopNChoice(totals, ranked, n, r, t);
    }
    forall a, b | a in totals && b in totals && a.key in r && b.key !in r
      ensures Outranks(a, b)
    {
      TopNSeparates(ranked, r, a, b);
    }
    r
  }

  lemma SameElements(a: seq<Tally>, b: seq<Tally>)
    requires multiset(a) == multiset(b)
    ensures forall u :: u in a <==> u in b
  {
    forall u
      ensures u in a <==> u in b
    {
      assert u in a <==> u in multiset(a);
      assert u in b <==> u in multiset(b);
    }
  }

  lemma TopNKeys(totals: seq<Tally>, ranked: seq<Tally>, r: seq<string>)
    requires forall u :: u in totals <==> u in ranked
    requires DistinctKeys(ranked) && |r| <= |ranked|
    requires forall i :: 0 <= i < |r| ==> r[i] == ranked[i].key
    ensures Distinct(r)
    ensures forall k :: k in r ==> k in KeySet(totals)
  {
    forall k | k in r
      ensures k in KeySet(totals)
    {
      var i :| 0 <= i < |r| && r[i] == k;
      assert ranked[i] in ranked;
    }
  }

  lemma TopNChoice(totals: seq<Tally>, ranked: seq<Tally>, n: nat, r: seq<string>, t: Tally)
    requires forall u :: u in totals <==> u in ranked
    requires Ranked(ranked) && DistinctKeys(ranked)
    requires |r| == Min(n, |ranked|)
    requires forall i :: 0 <= i < |r| ==> r[i] == ranked[i].key
    requires t in totals
    ensures t.key in r <==> Beaters(totals, t) < n
  {
    var p :| 0 <= p < |ranked| && ranked[p] == t;
    assert (set u | u in totals && Outranks(u, t)) == (set u | u in ranked && Outranks(u, t));
    RankedBeaters(ranked, p);
    if p < |r| {
      assert r[p] == t.key;
    }
    if t.key in r {
      var i :| 0 <= i < |r| && r[i] == t.key;
      assert i == p;
    }
  }

  lemma TopNSeparates(ranked: seq<Tally>, r: seq<string>, a: Tally, b: Tally)
    requires Ranked(ranked) && DistinctKeys(ranked) && |r| <= |ranked|
    requires forall i :: 0 <= i < |r| ==> r[i] == ranked[i].key
    requires a in ranked && b in ranked && a.key in r && b.key !in r
    ensures Outranks(a, b)
  {
    var p :| 0 <= p < |ranked| && ranked[p] == a;
    var q :| 0 <= q < |ranked| && ranked[q] == b;
    var i :| 0 <= i < |r| && r[i] == a.key;
    assert i == p;
    assert q >= |r|;
    RankedStrict(ranked, p, q);
  }

  // ---------------------------------------------------------------- groups

  /** The groups that have at least one row. */
  function GroupSet<S(==,!new)>(bars: seq<Bar<S>>): set<string> {
    set b | b in bars :: b.group
  }

  /** The sum of the counts of the rows of group `g`. */
  function GroupSum<S(==,!new)>(bars: seq<Bar<S>>, g: string): nat {
    if |bars| == 0 then 0
    else (if bars[0].group == g then bars[0].quantidade else 0) + GroupSum(bars[1..], g)
  }

  function GroupsOf<S(==,!new)>(bars: seq<Bar<S>>): (r: seq<string>)
    ensures forall g :: g in r <==> g in GroupSet(bars)
  {
    var r := seq(|bars|, i requires 0 <= i < |bars| => bars[i].group);
    assert forall i :: 0 <= i < |bars| ==> bars[i] in bars && r[i] in r;
    r
  }

  /** `groupby(group)[quantidade].sum()`: every group once, ascending, with its summed count. */
  function Totals<S(==,!new)>(bars: seq<Bar<S>>): (r: seq<Tally>)
    ensures AscendingKeys(r) && DistinctKeys(r)
    ensures forall g :: g in KeySet(r) <==> g in GroupSet(bars)
    ensures forall t :: t in r ==> t.count == GroupSum(bars, t.key)
  {
    Tabulate(SortedDistinct(GroupsOf(bars)), (g: string) => GroupSum(bars, g))
  }

  /** `bars[bars[group].isin(keys)]`: the rows of the chosen groups, in order. */
  function KeepGroups<S(==,!new)>(bars: seq<Bar<S>>, keys: set<string>): (r: seq<Bar<S>>)
    ensures forall b :: b in r ==> b.group in keys
    ensures forall b :: multiset(r)[b] == if b.group in keys then multiset(bars)[b] else 0
    ensures IsSubseq(r, bars)
  {
    Filter(bars, (b: Bar<S>) => b.group in keys)
  }

  function InGroup<S>(g: string): Bar<S> -> bool {
    (b: Bar<S>) => b.group == g
  }

  /** The rows of group `g`, in order. */
  function OfGroup<S(==,!new)>(bars: seq<Bar<S>>, g: string): (r: seq<Bar<S>>)
    ensures forall b :: b in r ==> b.group == g
    ensures forall b :: multiset(r)[b] == if b.group == g then multiset(bars)[b] else 0
    ensures IsSubseq(r, bars)
  {
    Filter(bars, InGroup(g))
  }

  lemma OfGroupConcat<S(!new)>(a: seq<Bar<S>>, b: seq<Bar<S>>, g: string)
    ensures OfGroup(a + b, g) == OfGroup(a, g) + OfGroup(b, g)
  {
    FilterConcat(a, b, InGroup(g));
  }

  lemma OfGroupAll<S(!new)>(bars: seq<Bar<S>>, g: string)
    requires forall b :: b in bars ==> b.group == g
    ensures OfGroup(bars, g) == bars
  {
    FilterKeepsAll(bars, InGroup(g));
  }

  lemma OfGroupNone<S(!new)>(bars: seq<Bar<S>>, g: string)
    requires forall b :: b in bars ==> b.group != g
    ensures OfGroup(bars, g) == []
  {
    FilterKeepsNone(bars, InGroup(g));
  }

  /** Position of the first row with key `g`. */
  function KeyIndex(order: seq<Tally>, g: string): (i: nat)
    ensures g in KeySet(order) ==> i < |order| && order[i].key == g
  {
    if |order| == 0 then 0
    else if order[0].key == g then 0
    else
      assert g in KeySet(order) ==> g in KeySet(order[1..]) by {
        if g in KeySet(order) {
          var t :| t in order && t.key == g;
        }
      }
      1 + KeyIndex(order[1..], g)
  }

  /**
   * `set_index(group).loc[order keys]`: for each key of `order` in turn, all
   * rows of that group in their original order. When the keys of `order`
   * are distinct and cover every group, the result is a permutation.
   */
  function Reorder<S(==,!new)>(bars: seq<Bar<S>>, order: seq<Tally>): (r: seq<Bar<S>>)
    requires DistinctKeys(order)
    ensures forall b :: b in r ==> b.group in KeySet(order)
    ensures forall b :: multiset(r)[b] == if b.group in KeySet(order) then multiset(bars)[b] else 0
  {
    if |order| == 0 then []
    else
      var first := OfGroup(bars, order[0].key);
      var rest := Reorder(bars, order[1..]);
      assert forall t :: t in order <==> t == order[0] || t in order[1..];
      assert order[0].key !in KeySet(order[1..]);
      first + rest
  }

  /** The groups of `r` appear in the order their keys have in `order`. */
  predicate GroupedBy<S>(r: seq<Bar<S>>, order: seq<Tally>) {
    forall i, j :: 0 <= i < j < |r| ==> KeyIndex(order, r[i].group) <= KeyIndex(order, r[j].group)
  }

  lemma GroupedConcat<S>(first: seq<Bar<S>>, rest: seq<Bar<S>>, order: seq<Tally>)
    requires |order| > 0
    requires forall b :: b in first ==> b.group == order[0].key
    requires forall b :: b in rest ==> b.group in KeySet(order[1..]) && b.group != order[0].key
    requires GroupedBy(rest, order[1..])
    ensures GroupedBy(first + rest, order)
  {
    var r := first + rest;
    forall i, j | 0 <= i < j < |r|
      ensures KeyIndex(order, r[i].group) <= KeyIndex(order, r[j].group)
    {
      if i < |first| {
        assert r[i] in first;
      } else {
        var x, y := rest[i - |first|], rest[j - |first|];
        assert r[i] == x && r[j] == y;
        assert x in rest && y in rest;
        assert KeyIndex(order[1..], x.group) <= KeyIndex(order[1..], y.group);
      }
    }
  }

  /** After regrouping, the groups come in the order of `order`. */
  lemma {:induction false} ReorderGrouped<S(!new)>(bars: seq<Bar<S>>, order: seq<Tally>)
    requires DistinctKeys(order)
    ensures GroupedBy(Reorder(bars, order), order)
  {
    if |order| > 0 {
      var first := OfGroup(bars, order[0].key);
      var rest := Reorder(bars, order[1..]);
      ReorderGrouped(bars, order[1..]);
      assert order[0].key !in KeySet(order[1..]);
      GroupedConcat(first, rest, order);
    }
  }

  /** Regrouping keeps the rows of each listed group in their original relative order. */
  lemma {:induction false} ReorderKeepsGroups<S(!new)>(bars: seq<Bar<S>>, order: seq<Tally>, g: string)
    requires DistinctKeys(order) && g in KeySet(order)
    ensures OfGroup(Reorder(bars, order), g) == OfGroup(bars, g)
  {
    var first := OfGroup(bars, order[0].key);
    var rest := Reorder(bars, order[1..]);
    OfGroupConcat(first, rest, g);
    if g == order[0].key {
      OfGroupAll(first, g);
      assert g !in KeySet(order[1..]);
      OfGroupNone(rest, g);
      assert first + [] == first;
    } else {
      OfGroupNone(first, g);
      assert g in KeySet(order[1..]) by {
        var t :| t in order && t.key == g;
        assert t != order[0];
      }
      ReorderKeepsGroups(bars, order[1..], g);
    }
  }

  /** `groupby(group).quantidade.sum().sort_values(ascending=False)`, ties by ascending key. */
  function RankedTotals<S(==,!new)>(bars: seq<Bar<S>>): (r: seq<Tally>)
    ensures Ranked(r) && DistinctKeys(r)
    ensures KeySet(r) == GroupSet(bars)
    ensures forall t :: t in r ==> t.count == GroupSum(bars, t.key)
  {
    var totals := Totals(bars);
    var r := SortByTotal(totals);
    SameElements(totals, r);
    DistinctKeysPermutation(totals, r);
    assert KeySet(r) == KeySet(totals);
    r
  }

  /**
   * `set_index(group).loc[totals.index].reset_index()` with the ranked totals:
   * the same rows, regrouped so that group totals never increase along the
   * table, each group keeping its rows in their original order.
   */
  function RegroupByTotal<S(==,!new)>(bars: seq<Bar<S>>): (r: seq<Bar<S>>)
    ensures multiset(r) == multiset(bars)
    ensures forall g :: OfGroup(r, g) == OfGroup(bars, g)
    ensures GroupedBy(r, RankedTotals(bars))
    ensures forall i, j :: 0 <= i < j < |r| ==> GroupSum(bars, r[i].group) >= GroupSum(bars, r[j].group)
  {
    var order := RankedTotals(bars);
    var r := Reorder(bars, order);
    ReorderGrouped(bars, order);
    RegroupPermutes(bars, order);
    RegroupDescending(bars, order, r);
    r
  }

  lemma RegroupPermutes<S(!new)>(bars: seq<Bar<S>>, order: seq<Tally>)
    requires DistinctKeys(order) && KeySet(order) == GroupSet(bars)
    ensures multiset(Reorder(bars, order)) == multiset(bars)
    ensures forall g :: OfGroup(Reorder(bars, order), g) == OfGroup(bars, g)
  {
    var r := Reorder(bars, order);
    forall b
      ensures multiset(r)[b] == multiset(bars)[b]
    {
      if multiset(bars)[b] > 0 {
        assert b.group in GroupSet(bars);
      }
    }
    assert multiset(r) == multiset(bars);
    forall g
      ensures OfGroup(r, g) == OfGroup(bars, g)
    {
      if g in KeySet(order) {
        ReorderKeepsGroups(bars, order, g);
      } else {
        OfGroupNone(r, g);
        forall b | b in bars
          ensures b.group != g
        {
          assert b.group in GroupSet(bars);
        }
        OfGroupNone(bars, g);
      }
    }
  }

  lemma RegroupDescending<S(!new)>(bars: seq<Bar<S>>, order: seq<Tally>, r: seq<Bar<S>>)
    requires Ranked(order) && DistinctKeys(order) && KeySet(order) == GroupSet(bars)
    requires forall t :: t in order ==> t.count == GroupSum(bars, t.key)
    requires multiset(r) == multiset(bars) && GroupedBy(r, order)
    ensures forall i, j :: 0 <= i < j < |r| ==> GroupSum(bars, r[i].group) >= GroupSum(bars, r[j].group)
  {
    forall i, j | 0 <= i < j < |r|
      ensures GroupSum(bars, r[i].group) >= GroupSum(bars, r[j].group)
    {
      assert r[i] in multiset(bars) && r[j] in multiset(bars);
      assert r[i].group in GroupSet(bars) && r[j].group in GroupSet(bars);
      var p := KeyIndex(order, r[i].group);
      var q := KeyIndex(order, r[j].group);
      assert p <= q;
      assert order[p] in order && order[q] in order;
      if p < q {
        assert !Outranks(order[q], order[p]);
      }
    }
  }

  /** Regrouping keeps every group and its total. */
  lemma RegroupTotals<S(!new)>(bars: seq<Bar<S>>, g: string)
    ensures GroupSum(RegroupByTotal(bars), g) == GroupSum(bars, g)
    ensures GroupSet(RegroupByTotal(bars)) == GroupSet(bars)
  {
    var r := RegroupByTotal(bars);
    assert OfGroup(r, g) == OfGroup(bars, g);
    GroupSumOfGroup(r, g);
    GroupSumOfGroup(bars, g);
    forall b
      ensures b in r <==> b in bars
    {
      assert multiset(r)[b] == multiset(bars)[b];
    }
  }

  // ---------------------------------------------------------------- cross tables

  /**
   * The row order of a two-key `groupby`: groups ascending, and within a group
   * the sub-keys in the order of `subs`.
   */
  predicate CellOrder<S(==)>(r: seq<Bar<S>>, subs: seq<S>) {
    forall i, j :: 0 <= i < j < |r| ==>
      StrLt(r[i].group, r[j].group) || (r[i].group == r[j].group && Before(subs, r[i].sub, r[j].sub))
  }

  /** The cells of one group: a row per sub-key of `subs`, in that order, that occurs with the group. */
  function GroupRow<S(==,!new)>(pairs: seq<(string, S)>, g: string, subs: seq<S>): (r: seq<Bar<S>>)
    ensures forall b :: b in r ==>
              b.group == g && b.sub in subs && b.quantidade == multiset(pairs)[(g, b.sub)] && b.quantidade > 0
    ensures forall s :: s in subs && (g, s) in pairs ==> Bar(g, s, multiset(pairs)[(g, s)]) in r
    ensures Distinct(subs) ==> forall i, j :: 0 <= i < j < |r| ==> r[i].sub != r[j].sub
    ensures forall i, j :: 0 <= i < j < |r| ==> Before(subs, r[i].sub, r[j].sub)
  {
    if |subs| == 0 then []
    else
      var c := multiset(pairs)[(g, subs[0])];
      var head := if c > 0 then [Bar(g, subs[0], c)] else [];
      var rest := GroupRow(pairs, g, subs[1..]);
      assert forall s :: s in subs <==> s == subs[0] || s in subs[1..];
      assert Distinct(subs) ==> subs[0] !in subs[1..];
      GroupRowOrder(head, rest, subs);
      head + rest
  }

  lemma GroupRowOrder<S>(head: seq<Bar<S>>, rest: seq<Bar<S>>, subs: seq<S>)
    requires |subs| > 0
    requires forall b :: b in head ==> b.sub == subs[0]
    requires |head| <= 1
    requires forall b :: b in rest ==> b.sub in subs[1..]
    requires forall i, j :: 0 <= i < j < |rest| ==> Before(subs[1..], rest[i].sub, rest[j].sub)
    ensures var r := head + rest;
            forall i, j :: 0 <= i < j < |r| ==> Before(subs, r[i].sub, r[j].sub)
  {
    var r := head + rest;
    forall i, j | 0 <= i < j < |r|
      ensures Before(subs, r[i].sub, r[j].sub)
    {
      if i < |head| {
        assert r[i] in head && r[j] == rest[j - |head|] && r[j] in rest;
        BeforeHead(subs, r[j].sub);
      } else {
        assert r[i] == rest[i - |head|] && r[j] == rest[j - |head|];
        BeforeCons(subs, r[i].sub, r[j].sub);
      }
    }
  }

  function CrossRows<S(==,!new)>(pairs: seq<(string, S)>, groups: seq<string>, subs: seq<S>): (r: seq<Bar<S>>)
    ensures forall b :: b in r ==>
              b.group in groups && b.sub in subs && b.quantidade == multiset(pairs)[(b.group, b.sub)] && b.quantidade > 0
    ensures forall g, s :: g in groups && s in subs && (g, s) in pairs ==> Bar(g, s, multiset(pairs)[(g, s)]) in r
    ensures Distinct(groups) && Distinct(subs) ==>
              forall i, j :: 0 <= i < j < |r| ==> r[i].group != r[j].group || r[i].sub != r[j].sub
    ensures Ascending(groups) ==> CellOrder(r, subs)
  {
    if |groups| == 0 then []
    else
      var row := GroupRow(pairs, groups[0], subs);
      var rest := CrossRows(pairs, groups[1..], subs);
      assert forall g :: g in groups <==> g == groups[0] || g in groups[1..];
      assert Distinct(groups) ==> groups[0] !in groups[1..];
      CrossRowsDistinct(row, rest, groups, subs);
      CrossRowsOrder(row, rest, groups, subs);
      row + rest
  }

  lemma CrossRowsOrder<S>(row: seq<Bar<S>>, rest: seq<Bar<S>>, groups: seq<string>, subs: seq<S>)
    requires |groups| > 0
    requires forall b :: b in row ==> b.group == groups[0]
    requires forall i, j :: 0 <= i < j < |row| ==> Before(subs, row[i].sub, row[j].sub)
    requires forall b :: b in rest ==> b.group in groups[1..]
    requires Ascending(groups[1..]) ==> CellOrder(rest, subs)
    ensures Ascending(groups) ==> CellOrder(row + rest, subs)
  {
    if Ascending(groups) {
      assert Ascending(groups[1..]) by {
        forall i, j | 0 <= i < j < |groups[1..]|
          ensures StrLt(groups[1..][i], groups[1..][j])
        {
          assert groups[1..][i] == groups[i + 1] && groups[1..][j] == groups[j + 1];
        }
      }
      var r := row + rest;
      forall i, j | 0 <= i < j < |r|
        ensures StrLt(r[i].group, r[j].group) || (r[i].group == r[j].group && Before(subs, r[i].sub, r[j].sub))
      {
        if j < |row| {
          assert r[i] == row[i] && r[j] == row[j];
        } else if i < |row| {
          assert r[i] in row;
          assert r[j] == rest[j - |row|] && r[j] in rest;
          var k :| 0 <= k < |groups[1..]| && groups[1..][k] == r[j].group;
          assert groups[k + 1] == r[j].group;
        } else {
          assert r[i] == rest[i - |row|] && r[j] == rest[j - |row|];
        }
      }
    }
  }

  lemma CrossRowsDistinct<S(!new)>(row: seq<Bar<S>>, rest: seq<Bar<S>>, groups: seq<string>, subs: seq<S>)
    requires |groups| > 0
    requires forall b :: b in row ==> b.group == groups[0]
    requires Distinct(subs) ==> forall i, j :: 0 <= i < j < |row| ==> row[i].sub != row[j].sub
    requires forall b :: b in rest ==> b.group in groups[1..]
    requires Distinct(groups[1..]) && Distinct(subs) ==>
               forall i, j :: 0 <= i < j < |rest| ==> rest[i].group != rest[j].group || rest[i].sub != rest[j].sub
    ensures Distinct(groups) && Distinct(subs) ==>
              var r := row + rest;
              forall i, j :: 0 <= i < j < |r| ==> r[i].group != r[j].group || r[i].sub != r[j].sub
  {
    if Distinct(groups) && Distinct(subs) {
      var r := row + rest;
      assert groups[0] !in groups[1..];
      forall i, j | 0 <= i < j < |r|
        ensures r[i].group != r[j].group || r[i].sub != r[j].sub
      {
        if j < |row| {
        } else if i < |row| {
          assert r[i] in row;
          assert r[j] == rest[j - |row|] && r[j] in rest;
        } else {
          assert r[i] == rest[i - |row|] && r[j] == rest[j - |row|];
        }
      }
    }
  }

  function Primaries<S>(pairs: seq<(string, S)>): (r: seq<string>)
    ensures forall p :: p in pairs ==> p.0 in r
  {
    var r := seq(|pairs|, i requires 0 <= i < |pairs| => pairs[i].0);
    forall p | p in pairs
      ensures p.0 in r
    {
      var i :| 0 <= i < |pairs| && pairs[i] == p;
      assert r[i] == p.0;
    }
    r
  }

  lemma PrimariesConcat<S>(a: seq<(string, S)>, b: seq<(string, S)>)
    ensures Primaries(a + b) == Primaries(a) + Primaries(b)
  {
  }

  /**
   * `groupby([first, second]).size()` over pairs of key values, keeping only the
   * second keys listed in `subs`: one cell per combination that occurs, with its
   * number of rows, groups ascending and sub-keys in the order of `subs`.
   */
  function CrossTally<S(==,!new)>(pairs: seq<(string, S)>, subs: seq<S>): (r: seq<Bar<S>>)
    requires Distinct(subs)
    ensures forall b :: b in r ==> b.sub in subs && b.quantidade == multiset(pairs)[(b.group, b.sub)] && b.quantidade > 0
    ensures forall p :: p in pairs && p.1 in subs ==> Bar(p.0, p.1, multiset(pairs)[p]) in r
    ensures forall i, j :: 0 <= i < j < |r| ==> r[i].group != r[j].group || r[i].sub != r[j].sub
    ensures CellOrder(r, subs)
  {
    var groups := SortedDistinct(Primaries(pairs));
    AscendingIsDistinct(groups);
    var r := CrossRows(pairs, groups, subs);
    forall p | p in pairs && p.1 in subs
      ensures Bar(p.0, p.1, multiset(pairs)[p]) in r
    {
      assert p == (p.0, p.1);
    }
    r
  }

  // ---------------------------------------------------------------- group totals

  lemma GroupSumConcat<S(!new)>(a: seq<Bar<S>>, b: seq<Bar<S>>, g: string)
    ensures GroupSum(a + b, g) == GroupSum(a, g) + GroupSum(b, g)
  {
    if |a| > 0 {
      assert (a + b)[1..] == a[1..] + b;
      GroupSumConcat(a[1..], b, g);
    } else {
      assert a + b == b;
    }
  }

  lemma GroupSumOther<S(!new)>(bars: seq<Bar<S>>, g: string)
    requires forall b :: b in bars ==> b.group != g
    ensures GroupSum(bars, g) == 0
  {
    if |bars| > 0 {
      assert bars[0] in bars;
      GroupSumOther(bars[1..], g);
    }
  }

  /** A group's total depends only on the rows of that group. */
  lemma {:induction false} GroupSumOfGroup<S(!new)>(bars: seq<Bar<S>>, g: string)
    ensures GroupSum(OfGroup(bars, g), g) == GroupSum(bars, g)
  {
    if |bars| > 0 {
      GroupSumOfGroup(bars[1..], g);
      var rest := OfGroup(bars[1..], g);
      if bars[0].group == g {
        assert OfGroup(bars, g) == [bars[0]] + rest;
        GroupSumConcat([bars[0]], rest, g);
      } else {
        assert OfGroup(bars, g) == rest;
      }
    }
  }

  /** Regrouping leaves the total of every listed group unchanged. */
  lemma GroupSumReorder<S(!new)>(bars: seq<Bar<S>>, order: seq<Tally>, g: string)
    requires DistinctKeys(order) && g in KeySet(order)
    ensures GroupSum(Reorder(bars, order), g) == GroupSum(bars, g)
  {
    ReorderKeepsGroups(bars, order, g);
    GroupSumOfGroup(bars, g);
    GroupSumOfGroup(Reorder(bars, order), g);
  }

  /** The number of pairs `(g, s)` summed over the sub-keys `s` of `subs`. */
  function SubSum<S(==,!new)>(pairs: seq<(string, S)>, g: string, subs: seq<S>): nat
    decreases |subs|
  {
    if |subs| == 0 then 0 else multiset(pairs)[(g, subs[0])] + SubSum(pairs, g, subs[1..])
  }

  /** How many entries of `subs` make `p` a pair of group `g`. */
  function Hits<S(==,!new)>(p: (string, S), g: string, subs: seq<S>): nat
    decreases |subs|
  {
    if |subs| == 0 then 0 else (if p == (g, subs[0]) then 1 else 0) + Hits(p, g, subs[1..])
  }

  lemma HitsDistinct<S(!new)>(p: (string, S), g: string, subs: seq<S>)
    requires Distinct(subs)
    ensures Hits(p, g, subs) == if p.0 == g && p.1 in subs then 1 else 0
  {
    if |subs| > 0 {
      assert Distinct(subs[1..]);
      assert forall s :: s in subs <==> s == subs[0] || s in subs[1..];
      assert subs[0] !in subs[1..];
      HitsDistinct(p, g, subs[1..]);
    }
  }

  lemma SubSumSplit<S(!new)>(pairs: seq<(string, S)>, g: string, subs: seq<S>)
    requires |pairs| > 0
    ensures SubSum(pairs, g, subs) == SubSum(pairs[1..], g, subs) + Hits(pairs[0], g, subs)
  {
    if |subs| > 0 {
      assert pairs == [pairs[0]] + pairs[1..];
      SubSumSplit(pairs, g, subs[1..]);
    }
  }

  lemma SubSumEmpty<S(!new)>(g: string, subs: seq<S>)
    ensures SubSum([], g, subs) == 0
  {
    if |subs| > 0 {
      SubSumEmpty(g, subs[1..]);
    }
  }

  /** When `subs` lists every sub-key once, summing over it counts the pairs of the group. */
  lemma {:induction false} SubSumCount<S(!new)>(pairs: seq<(string, S)>, g: string, subs: seq<S>)
    requires Distinct(subs) && forall p :: p in pairs ==> p.1 in subs
    ensures SubSum(pairs, g, subs) == multiset(Primaries(pairs))[g]
  {
    if |pairs| == 0 {
      SubSumEmpty(g, subs);
      assert Primaries(pairs) == [];
    } else {
      SubSumSplit(pairs, g, subs);
      assert pairs[0] in pairs;
      HitsDistinct(pairs[0], g, subs);
      assert forall p :: p in pairs[1..] ==> p in pairs;
      SubSumCount(pairs[1..], g, subs);
      assert Primaries(pairs) == [pairs[0].0] + Primaries(pairs[1..]);
    }
  }

  lemma GroupRowSum<S(!new)>(pairs: seq<(string, S)>, g: string, subs: seq<S>)
    ensures GroupSum(GroupRow(pairs, g, subs), g) == SubSum(pairs, g, subs)
  {
    if |subs| > 0 {
      var c := multiset(pairs)[(g, subs[0])];
      var head := if c > 0 then [Bar(g, subs[0], c)] else [];
      var rest := GroupRow(pairs, g, subs[1..]);
      GroupRowSum(pairs, g, subs[1..]);
      GroupSumConcat(head, rest, g);
    }
  }

  lemma CrossRowsSum<S(!new)>(pairs: seq<(string, S)>, groups: seq<string>, subs: seq<S>, g: string)
    requires Distinct(groups)
    ensures GroupSum(CrossRows(pairs, groups, subs), g) == if g in groups then SubSum(pairs, g, subs) else 0
  {
    if |groups| > 0 {
      var row := GroupRow(pairs, groups[0], subs);
      var rest := CrossRows(pairs, groups[1..], subs);
      GroupSumConcat(row, rest, g);
      assert Distinct(groups[1..]);
      assert forall h :: h in groups <==> h == groups[0] || h in groups[1..];
      CrossRowsSum(pairs, groups[1..], subs, g);
      if g == groups[0] {
        GroupRowSum(pairs, g, subs);
        assert g !in groups[1..];
      } else {
        GroupSumOther(row, g);
      }
    }
  }

  /**
   * Summing the cells of a cross table over a group gives back the number of
   * pairs of that group, provided no pair's sub-key was left out.
   */
  lemma CrossTallyGroupSum<S(!new)>(pairs: seq<(string, S)>, subs: seq<S>, g: string)
    requires Distinct(subs) && forall p :: p in pairs ==> p.1 in subs
    ensures GroupSum(CrossTally(pairs, subs), g) == multiset(Primaries(pairs))[g]
  {
    var groups := SortedDistinct(Primaries(pairs));
    AscendingIsDistinct(groups);
    CrossRowsSum(pairs, groups, subs, g);
    SubSumCount(pairs, g, subs);
  }

  // ---------------------------------------------------------------- top N groups


  lemma KeySetCard(ts: seq<Tally>)
    requires DistinctKeys(ts)
    ensures |KeySet(ts)| == |ts|
  {
    if |ts| > 0 {
      KeySetCard(ts[1..]);
      assert KeySet(ts) == {ts[0].key} + KeySet(ts[1..]) by {
        assert forall t :: t in ts <==> t == ts[0] || t in ts[1..];
      }
      assert ts[0].key !in KeySet(ts[1..]);
    }
  }

  /**
   * `bars[bars.group.isin(totals[totals > m].index)]`: the rows of the groups
   * whose total exceeds `m`, all of them, in order.
   */
  function LargeGroups<S(==,!new)>(bars: seq<Bar<S>>, m: nat): (r: seq<Bar<S>>)
    ensures forall b :: b in r <==> b in bars && GroupSum(bars, b.group) > m
    ensures IsSubseq(r, bars)
  {
    var totals := Totals(bars);
    var valid := set t | t in totals && t.count > m :: t.key;
    var r := KeepGroups(bars, valid);
    forall b
      ensures b in r <==> b in bars && GroupSum(bars, b.group) > m
    {
      assert b in r <==> multiset(r)[b] > 0;
      if b in bars {
        assert b.group in GroupSet(bars);
        var t :| t in totals && t.key == b.group;
      }
    }
    r
  }

  /** Group `g` ranks above group `h`: a larger total, or an equal total and a smaller key. */
  predicate Beats<S(==,!new)>(bars: seq<Bar<S>>, g: string, h: string) {
    GroupSum(bars, g) > GroupSum(bars, h) ||
    (GroupSum(bars, g) == GroupSum(bars, h) && StrLt(g, h))
  }

  /** Every group of `chosen` ranks above every group of `bars` left out of it. */
  predicate Separates<S(==,!new)>(bars: seq<Bar<S>>, chosen: set<string>) {
    forall g, h :: g in chosen && h in GroupSet(bars) && h !in chosen ==> Beats(bars, g, h)
  }

  lemma SeparatesTransfer<S(!new)>(a: seq<Bar<S>>, b: seq<Bar<S>>, chosen: set<string>)
    requires GroupSet(a) == GroupSet(b)
    requires forall g :: GroupSum(a, g) == GroupSum(b, g)
    requires Separates(a, chosen)
    ensures Separates(b, chosen)
  {
    forall g, h | g in chosen && h in GroupSet(b) && h !in chosen
      ensures Beats(b, g, h)
    {
      assert Beats(a, g, h);
    }
  }

  /**
   * `bars[bars.group.isin(bars.groupby(group).quantidade.sum().nlargest(n).index)]`:
   * the rows of the `min(n, #groups)` groups with the largest totals, every
   * row of a chosen group and none of any other group. A chosen group's total
   * is larger than a dropped group's, or equal with a smaller key.
   */
  function KeepTopN<S(==,!new)>(bars: seq<Bar<S>>, n: nat): (r: seq<Bar<S>>)
    ensures GroupSet(r) <= GroupSet(bars)
    ensures |GroupSet(r)| == Min(n, |GroupSet(bars)|)
    ensures forall b :: multiset(r)[b] == if b.group in GroupSet(r) then multiset(bars)[b] else 0
    ensures IsSubseq(r, bars)
    ensures Separates(bars, GroupSet(r))
  {
    var totals := Totals(bars);
    var top := TopN(totals, n);
    var chosen := set k | k in top;
    var r := KeepGroups(bars, chosen);
    KeepTopNGroups(bars, totals, chosen, r);
    KeepTopNCount(bars, totals, n, top, chosen);
    KeepTopNRanks(bars, totals, top, chosen);
    r
  }

  /**
   * The regrouped table cut down to its `n` largest groups: the rows of
   * `min(n, #groups)` groups, all of them, in regrouped order; no group left
   * out has a larger total than one kept.
   */
  function TopGroups<S(==,!new)>(bars: seq<Bar<S>>, n: nat): (r: seq<Bar<S>>)
    ensures GroupSet(r) <= GroupSet(bars)
    ensures |GroupSet(r)| == Min(n, |GroupSet(bars)|)
    ensures forall b :: multiset(r)[b] == if b.group in GroupSet(r) then multiset(bars)[b] else 0
    ensures IsSubseq(r, RegroupByTotal(bars))
    ensures Separates(bars, GroupSet(r))
  {
    var regrouped := RegroupByTotal(bars);
    var r := KeepTopN(regrouped, n);
    RegroupTotals(bars, "");
    forall g
      ensures GroupSum(regrouped, g) == GroupSum(bars, g)
    {
      RegroupTotals(bars, g);
    }
    SeparatesTransfer(regrouped, bars, GroupSet(r));
    forall b
      ensures multiset(r)[b] == if b.group in GroupSet(r) then multiset(bars)[b] else 0
    {
      assert multiset(regrouped)[b] == multiset(bars)[b];
    }
    r
  }

  lemma KeepTopNCount<S(!new)>(bars: seq<Bar<S>>, totals: seq<Tally>, n: nat, top: seq<string>, chosen: set<string>)
    requires DistinctKeys(totals) && KeySet(totals) == GroupSet(bars)
    requires Distinct(top) && |top| == Min(n, |totals|)
    requires chosen == set k | k in top
    ensures |chosen| == Min(n, |GroupSet(bars)|)
  {
    DistinctCard(top);
    KeySetCard(totals);
  }

  lemma KeepTopNRanks<S(!new)>(bars: seq<Bar<S>>, totals: seq<Tally>, top: seq<string>, chosen: set<string>)
    requires KeySet(totals) == GroupSet(bars)
    requires forall t :: t in totals ==> t.count == GroupSum(bars, t.key)
    requires forall a, b :: a in totals && b in totals && a.key in top && b.key !in top ==> Outranks(a, b)
    requires chosen == set k | k in top
    requires chosen <= GroupSet(bars)
    ensures Separates(bars, chosen)
  {
    forall g, h | g in chosen && h in GroupSet(bars) && h !in chosen
      ensures Beats(bars, g, h)
    {
      var tg :| tg in totals && tg.key == g;
      var th :| th in totals && th.key == h;
      assert Outranks(tg, th);
    }
  }

  lemma KeepTopNGroups<S(!new)>(bars: seq<Bar<S>>, totals: seq<Tally>, chosen: set<string>, r: seq<Bar<S>>)
    requires forall g :: g in KeySet(totals) <==> g in GroupSet(bars)
    requires chosen <= KeySet(totals)
    requires forall b :: multiset(r)[b] == if b.group in chosen then multiset(bars)[b] else 0
    ensures GroupSet(r) == chosen
    ensures KeySet(totals) == GroupSet(bars)
  {
    forall k | k in chosen
      ensures k in GroupSet(r)
    {
      var b :| b in bars && b.group == k;
      assert multiset(r)[b] == multiset(bars)[b] > 0;
    }
    forall k | k in GroupSet(r)
      ensures k in chosen
    {
      var b :| b in r && b.group == k;
      assert multiset(r)[b] > 0;
    }
    forall k | k in GroupSet(bars)
      ensures k in KeySet(totals)
    {
      var b :| b in bars && b.group == k;
      assert k in GroupSet(bars);
    }
  }
}
