/** The ranking rule for generated armour sets (`loadout-builder/generated-sets/utils.ts`):
    the tier sums `calculateTotalTier` and `sumEnabledStats`, the comparator list built by
    `getComparatorsForMatchedSetSorting`, and `sortGeneratedSets`, which sorts a copy of the
    candidate sets by that comparator chain.

    Two module-level names the ranking code reads are defined elsewhere and are parameters
    here: `tier` stands for `statTier` and `hashToType` for the `statHashToType` table. */
module GeneratedSets {
  import opened ArmorTypes

  // ---------------------------------------------------------------------------
  // Tier sums
  // ---------------------------------------------------------------------------

  /** `_.sum(values.map(statTier))`: the tiers of a list of stat values, added up. */
  function SumOfTiers(values: seq<int>, tier: int -> int): int
  {
    if values == [] then 0 else tier(values[0]) + SumOfTiers(values[1..], tier)
  }

  /** `Object.values(stats)`, listed in `statKeys` order. */
  function StatValues(stats: Stats): seq<int>
  {
    seq(|StatKeys|, i requires 0 <= i < |StatKeys| => stats.Get(StatKeys[i]))
  }

  /** `calculateTotalTier`: the tier of every stat of a set, added up. */
  function CalculateTotalTier(stats: Stats, tier: int -> int): int
  {
    SumOfTiers(StatValues(stats), tier)
  }

  /** The `_.sumBy` of `sumEnabledStats`, over any list of stat keys: the tier of each
      enabled key's stat, and 0 for each key that is not enabled. */
  function SumEnabledOver(keys: seq<StatType>, stats: Stats, enabled: set<StatType>, tier: int -> int): int
  {
    if keys == [] then 0
    else (if keys[0] in enabled then tier(stats.Get(keys[0])) else 0) + SumEnabledOver(keys[1..], stats, enabled, tier)
  }

  /** `sumEnabledStats`: the tiers of the enabled stats, added up over `statKeys`. */
  function SumEnabledStats(stats: Stats, enabled: set<StatType>, tier: int -> int): int
  {
    SumEnabledOver(StatKeys, stats, enabled, tier)
  }

  /** With no stat enabled, the enabled-stat sum over any key list is 0. */
  lemma {:induction false} SumEnabledOverNoneEnabled(keys: seq<StatType>, stats: Stats, tier: int -> int)
    ensures SumEnabledOver(keys, stats, {}, tier) == 0
  {
    if keys != [] {
      SumEnabledOverNoneEnabled(keys[1..], stats, tier);
    }
  }

  /** With no stat enabled, every set's `sumEnabledStats` is 0. */
  lemma SumEnabledStatsNoneEnabled(stats: Stats, tier: int -> int)
    ensures SumEnabledStats(stats, {}, tier) == 0
  {
    SumEnabledOverNoneEnabled(StatKeys, stats, tier);
  }

  /** The enabled-stat sum reads only the enabled stats: two stat records that agree on
      every enabled stat have the same sum, whatever their disabled stats hold. */
  lemma {:induction false} SumEnabledOverAgrees(keys: seq<StatType>, s1: Stats, s2: Stats, enabled: set<StatType>, tier: int -> int)
    requires forall t :: t in enabled ==> s1.Get(t) == s2.Get(t)
    ensures SumEnabledOver(keys, s1, enabled, tier) == SumEnabledOver(keys, s2, enabled, tier)
  {
    if keys != [] {
      SumEnabledOverAgrees(keys[1..], s1, s2, enabled, tier);
    }
  }

  /** When every key of the list is enabled, the enabled-stat sum is the plain tier sum
      of the listed stats' values. */
  lemma {:induction false} SumEnabledOverAllEnabled(keys: seq<StatType>, stats: Stats, enabled: set<StatType>, tier: int -> int)
    requires forall i :: 0 <= i < |keys| ==> keys[i] in enabled
    ensures SumEnabledOver(keys, stats, enabled, tier)
         == SumOfTiers(seq(|keys|, i requires 0 <= i < |keys| => stats.Get(keys[i])), tier)
  {
    if keys != [] {
      SumEnabledOverAllEnabled(keys[1..], stats, enabled, tier);
      var values := seq(|keys|, i requires 0 <= i < |keys| => stats.Get(keys[i]));
      assert values[1..] == seq(|keys[1..]|, i requires 0 <= i < |keys[1..]| => stats.Get(keys[1..][i]));
    }
  }

  /** With every stat enabled, `sumEnabledStats` equals `calculateTotalTier`. */
  lemma SumEnabledStatsAllIsTotal(stats: Stats, enabled: set<StatType>, tier: int -> int)
    requires forall t: StatType :: t in enabled
    ensures SumEnabledStats(stats, enabled, tier) == CalculateTotalTier(stats, tier)
  {
    SumEnabledOverAllEnabled(StatKeys, stats, enabled, tier);
  }

  /** The tier sum of a concatenation is the sum of the parts' tier sums. */
  lemma {:induction false} SumOfTiersAppend(u: seq<int>, v: seq<int>, tier: int -> int)
    ensures SumOfTiers(u + v, tier) == SumOfTiers(u, tier) + SumOfTiers(v, tier)
  {
    if u == [] {
      assert u + v == v;
    } else {
      assert (u + v)[1..] == u[1..] + v;
      SumOfTiersAppend(u[1..], v, tier);
    }
  }

  /** The tier sum does not depend on the order of the values. */
  lemma {:induction false} SumOfTiersPermutation(xs: seq<int>, ys: seq<int>, tier: int -> int)
    requires multiset(xs) == multiset(ys)
    ensures SumOfTiers(xs, tier) == SumOfTiers(ys, tier)
    decreases |xs|
  {
    if xs == [] {
      assert |ys| == |multiset(ys)| == 0;
    } else {
      var x := xs[0];
      assert x in multiset(ys);
      var i :| 0 <= i < |ys| && ys[i] == x;
      var rest := ys[..i] + ys[i + 1..];
      assert ys == ys[..i] + [x] + ys[i + 1..];
      assert xs == [x] + xs[1..];
      assert multiset(ys) == multiset(ys[..i]) + multiset{x} + multiset(ys[i + 1..]);
      assert multiset(xs) == multiset{x} + multiset(xs[1..]);
      assert multiset(rest) == multiset(ys[..i]) + multiset(ys[i + 1..]);
      assert multiset(xs[1..]) == multiset(xs) - multiset{x};
      assert multiset(xs[1..]) == multiset(rest);
      SumOfTiersPermutation(xs[1..], rest, tier);
      SumOfTiersAppend(ys[..i] + [x], ys[i + 1..], tier);
      SumOfTiersAppend(ys[..i], [x], tier);
      SumOfTiersAppend(ys[..i], ys[i + 1..], tier);
    }
  }

  /** `calculateTotalTier` is the same whatever order `Object.values` lists the stats in. */
  lemma CalculateTotalTierAnyOrder(stats: Stats, values: seq<int>, tier: int -> int)
    requires multiset(values) == multiset(StatValues(stats))
    ensures SumOfTiers(values, tier) == CalculateTotalTier(stats, tier)
  {
    SumOfTiersPermutation(values, StatValues(stats), tier);
  }

  // ---------------------------------------------------------------------------
  // Comparators
  // ---------------------------------------------------------------------------

  /** One entry of the comparator list; each stands for a `compareBy` closure. */
  datatype Comparator =
    | ByEnabledTotal           // compareBy(s => -sumEnabledStats(s.stats, enabledStats))
    | ByStatTier(stat: StatType)  // compareBy(s => -statTier(s.stats[stat]))

  /** The key a comparator's `compareBy` computes for a set. */
  function SortKey(c: Comparator, s: ArmorSet, enabled: set<StatType>, tier: int -> int): int
  {
    match c
    case ByEnabledTotal => -SumEnabledStats(s.stats, enabled, tier)
    case ByStatTier(t) => -tier(s.stats.Get(t))
  }

  /** `compareBy`: negative, zero or positive as the first key is below, equal to or above the second. */
  function CompareBy(x: int, y: int): (r: int)
    ensures r < 0 <==> x < y
    ensures r > 0 <==> x > y
  {
    if x < y then -1 else if x > y then 1 else 0
  }

  /** `chainComparator`: the first non-zero comparison of the list, or 0 when all tie. */
  function ChainCompare(cs: seq<Comparator>, a: ArmorSet, b: ArmorSet, enabled: set<StatType>, tier: int -> int): int
  {
    if cs == [] then 0
    else
      var r := CompareBy(SortKey(cs[0], a, enabled, tier), SortKey(cs[0], b, enabled, tier));
      if r != 0 then r else ChainCompare(cs[1..], a, b, enabled, tier)
  }

  /** `enabledStats.has(statHashToType[statHash])`: false for a hash with no stat type. */
  predicate IsEnabledHash(statHash: int, hashToType: map<int, StatType>, enabled: set<StatType>)
  {
    statHash in hashToType && hashToType[statHash] in enabled
  }

  /** The stat types of the enabled entries of `statOrder`, in `statOrder` order. */
  function EnabledOrder(statOrder: seq<int>, hashToType: map<int, StatType>, enabled: set<StatType>): seq<StatType>
  {
    if statOrder == [] then []
    else
      var n := |statOrder| - 1;
      EnabledOrder(statOrder[..n], hashToType, enabled)
        + (if IsEnabledHash(statOrder[n], hashToType, enabled) then [hashToType[statOrder[n]]] else [])
  }

  /** One tier comparator per listed stat type. */
  function StatComparators(stats: seq<StatType>): seq<Comparator>
  {
    seq(|stats|, i requires 0 <= i < |stats| => ByStatTier(stats[i]))
  }

  /** The comparator list `getComparatorsForMatchedSetSorting` builds. */
  function ComparatorsFor(statOrder: seq<int>, hashToType: map<int, StatType>, enabled: set<StatType>): seq<Comparator>
  {
    [ByEnabledTotal] + StatComparators(EnabledOrder(statOrder, hashToType, enabled))
  }

  /** `getComparatorsForMatchedSetSorting`: the enabled-total comparator, then one tier
      comparator per entry of `statOrder` whose stat type is enabled. */
  method GetComparatorsForMatchedSetSorting(statOrder: seq<int>, enabledStats: set<StatType>, hashToType: map<int, StatType>)
    returns (comparators: seq<Comparator>)
    ensures comparators == ComparatorsFor(statOrder, hashToType, enabledStats)
  {
    comparators := [ByEnabledTotal];
    for i := 0 to |statOrder|
      invariant comparators == ComparatorsFor(statOrder[..i], hashToType, enabledStats)
    {
      var statHash := statOrder[i];
      assert statOrder[..i + 1][..i] == statOrder[..i];
      ghost var before := EnabledOrder(statOrder[..i], hashToType, enabledStats);
      if IsEnabledHash(statHash, hashToType, enabledStats) {
        comparators := comparators + [ByStatTier(hashToType[statHash])];
        assert StatComparators(before + [hashToType[statHash]]) == StatComparators(before) + [ByStatTier(hashToType[statHash])];
      } else {
        assert before + [] == before;
      }
    }
    assert statOrder[..|statOrder|] == statOrder;
  }

  /** The enabled stat types of a concatenation of stat orders. */
  lemma {:induction false} EnabledOrderAppend(u: seq<int>, v: seq<int>, hashToType: map<int, StatType>, enabled: set<StatType>)
    ensures EnabledOrder(u + v, hashToType, enabled) == EnabledOrder(u, hashToType, enabled) + EnabledOrder(v, hashToType, enabled)
    decreases |v|
  {
    if v == [] {
      assert u + v == u;
    } else {
      var n := |v| - 1;
      assert (u + v)[..|u + v| - 1] == u + v[..n];
      EnabledOrderAppend(u, v[..n], hashToType, enabled);
    }
  }

  /** A hash with no stat type, or whose stat type is disabled, adds no comparator
      wherever it stands in `statOrder`. */
  lemma IgnoredHashAddsNothing(pre: seq<int>, statHash: int, post: seq<int>, hashToType: map<int, StatType>, enabled: set<StatType>)
    requires !IsEnabledHash(statHash, hashToType, enabled)
    ensures ComparatorsFor(pre + [statHash] + post, hashToType, enabled) == ComparatorsFor(pre + post, hashToType, enabled)
  {
    EnabledOrderAppend(pre + [statHash], post, hashToType, enabled);
    EnabledOrderAppend(pre, [statHash], hashToType, enabled);
    EnabledOrderAppend(pre, post, hashToType, enabled);
    assert [statHash][..0] == [];
  }

  /** The positions of `statOrder` whose hash maps to an enabled stat type. */
  function EnabledHashIndices(statOrder: seq<int>, hashToType: map<int, StatType>, enabled: set<StatType>): set<int>
  {
    set i | 0 <= i < |statOrder| && IsEnabledHash(statOrder[i], hashToType, enabled)
  }

  /** The enabled order has one entry per enabled position of `statOrder`. */
  lemma {:induction false} EnabledOrderLength(statOrder: seq<int>, hashToType: map<int, StatType>, enabled: set<StatType>)
    ensures |EnabledOrder(statOrder, hashToType, enabled)| == |EnabledHashIndices(statOrder, hashToType, enabled)|
  {
    if statOrder != [] {
      var n := |statOrder| - 1;
      EnabledOrderLength(statOrder[..n], hashToType, enabled);
      var before := EnabledHashIndices(statOrder[..n], hashToType, enabled);
      assert n !in before;
      if IsEnabledHash(statOrder[n], hashToType, enabled) {
        assert EnabledHashIndices(statOrder, hashToType, enabled) == before + {n};
      } else {
        assert EnabledHashIndices(statOrder, hashToType, enabled) == before;
      }
    }
  }

  /** The comparator list has one entry for the enabled total and one per entry of
      `statOrder` whose stat type is enabled; other hashes add nothing. */
  lemma ComparatorCount(statOrder: seq<int>, hashToType: map<int, StatType>, enabled: set<StatType>)
    ensures |ComparatorsFor(statOrder, hashToType, enabled)| == 1 + |EnabledHashIndices(statOrder, hashToType, enabled)|
    ensures ComparatorsFor(statOrder, hashToType, enabled)[0] == ByEnabledTotal
  {
    EnabledOrderLength(statOrder, hashToType, enabled);
  }

  /** A stat type is in the enabled order exactly when some entry of `statOrder` maps to
      it and it is enabled. */
  lemma {:induction false} EnabledOrderMembers(statOrder: seq<int>, hashToType: map<int, StatType>, enabled: set<StatType>, t: StatType)
    ensures t in EnabledOrder(statOrder, hashToType, enabled) <==>
      exists i :: 0 <= i < |statOrder| && IsEnabledHash(statOrder[i], hashToType, enabled) && hashToType[statOrder[i]] == t
  {
    if statOrder != [] {
      var n := |statOrder| - 1;
      var prefix := statOrder[..n];
      EnabledOrderMembers(prefix, hashToType, enabled, t);
      if t in EnabledOrder(prefix, hashToType, enabled) {
        var i :| 0 <= i < |prefix| && IsEnabledHash(prefix[i], hashToType, enabled) && hashToType[prefix[i]] == t;
        assert statOrder[i] == prefix[i];
      }
      if exists i :: 0 <= i < |statOrder| && IsEnabledHash(statOrder[i], hashToType, enabled) && hashToType[statOrder[i]] == t {
        var i :| 0 <= i < |statOrder| && IsEnabledHash(statOrder[i], hashToType, enabled) && hashToType[statOrder[i]] == t;
        if i < n {
          assert prefix[i] == statOrder[i];
        }
      }
    }
  }

  // ---------------------------------------------------------------------------
  // The order the comparator chain defines
  // ---------------------------------------------------------------------------

  /** `u` is lexicographically at least `v` (both of the same length). */
  predicate LexGeq(u: seq<int>, v: seq<int>)
  {
    |u| == |v| && (u == v || exists k :: 0 <= k < |u| && u[..k] == v[..k] && u[k] > v[k])
  }

  /** The tiers of the listed stats of a set, in list order. */
  function TierVector(stats: seq<StatType>, s: ArmorSet, tier: int -> int): seq<int>
  {
    seq(|stats|, i requires 0 <= i < |stats| => tier(s.stats.Get(stats[i])))
  }

  /** The ranking the sort is meant to produce: `a` ranks at least as high as `b` when its
      enabled-stat tier sum is larger, or equal and its tiers of the stats in `order` are
      lexicographically at least as large. */
  predicate RanksAtLeast(a: ArmorSet, b: ArmorSet, order: seq<StatType>, enabled: set<StatType>, tier: int -> int)
  {
    var sa, sb := SumEnabledStats(a.stats, enabled, tier), SumEnabledStats(b.stats, enabled, tier);
    sa > sb || (sa == sb && LexGeq(TierVector(order, a, tier), TierVector(order, b, tier)))
  }

  /** Prepending one position to two vectors of equal length: the longer vectors are
      lexicographically ordered when their heads are, or their heads tie and their tails are. */
  lemma LexGeqCons(x: int, u: seq<int>, y: int, v: seq<int>)
    requires |u| == |v|
    ensures LexGeq([x] + u, [y] + v) <==> x > y || (x == y && LexGeq(u, v))
  {
    if LexGeq([x] + u, [y] + v) {
      LexGeqConsTail(x, u, y, v);
    }
    if x > y || (x == y && LexGeq(u, v)) {
      LexGeqConsHead(x, u, y, v);
    }
  }

  /** The "only if" half of `LexGeqCons`. */
  lemma LexGeqConsTail(x: int, u: seq<int>, y: int, v: seq<int>)
    requires |u| == |v| && LexGeq([x] + u, [y] + v)
    ensures x > y || (x == y && LexGeq(u, v))
  {
    var xu, yv := [x] + u, [y] + v;
    if xu == yv {
      assert x == xu[0] && y == yv[0];
      assert u == xu[1..] && v == yv[1..];
    } else {
      var k :| 0 <= k < |xu| && xu[..k] == yv[..k] && xu[k] > yv[k];
      if k > 0 {
        assert xu[..k][0] == x && yv[..k][0] == y;
        forall m | 0 <= m < k - 1
          ensures u[m] == v[m]
        {
          assert xu[..k][m + 1] == u[m] && yv[..k][m + 1] == v[m];
        }
        assert u[..k - 1] == v[..k - 1];
        assert u[k - 1] == xu[k] && v[k - 1] == yv[k];
      }
    }
  }

  /** The "if" half of `LexGeqCons`. */
  lemma LexGeqConsHead(x: int, u: seq<int>, y: int, v: seq<int>)
    requires |u| == |v| && (x > y || (x == y && LexGeq(u, v)))
    ensures LexGeq([x] + u, [y] + v)
  {
    var xu, yv := [x] + u, [y] + v;
    if x > y {
      assert xu[..0] == yv[..0];
    } else if u != v {
      var k :| 0 <= k < |u| && u[..k] == v[..k] && u[k] > v[k];
      assert xu[..k + 1] == [x] + u[..k];
      assert yv[..k + 1] == [y] + v[..k];
      assert xu[k + 1] == u[k] && yv[k + 1] == v[k];
    }
  }

  /** A chain of tier comparators orders sets lexicographically by their tier vectors,
      largest first, and ties exactly when the vectors are equal. */
  lemma {:induction false} StatChainIsLex(stats: seq<StatType>, a: ArmorSet, b: ArmorSet, enabled: set<StatType>, tier: int -> int)
    ensures ChainCompare(StatComparators(stats), a, b, enabled, tier) <= 0
        <==> LexGeq(TierVector(stats, a, tier), TierVector(stats, b, tier))
    ensures ChainCompare(StatComparators(stats), a, b, enabled, tier) == 0
        <==> TierVector(stats, a, tier) == TierVector(stats, b, tier)
  {
    if stats != [] {
      StatChainIsLex(stats[1..], a, b, enabled, tier);
      assert StatComparators(stats)[1..] == StatComparators(stats[1..]);
      var ua, ub := TierVector(stats, a, tier), TierVector(stats, b, tier);
      var ra, rb := TierVector(stats[1..], a, tier), TierVector(stats[1..], b, tier);
      assert ua == [ua[0]] + ra;
      assert ub == [ub[0]] + rb;
      LexGeqCons(ua[0], ra, ub[0], rb);
      assert ra == ua[1..] && rb == ub[1..];
    }
  }

  /** The comparator chain of `sortGeneratedSets` puts `a` no later than `b` exactly when
      `a` ranks at least as high as `b`, and ties them exactly when their enabled-stat sums
      and their tiers of the enabled stats in `statOrder` are all equal. */
  lemma RankingOrder(statOrder: seq<int>, hashToType: map<int, StatType>, enabled: set<StatType>, tier: int -> int, a: ArmorSet, b: ArmorSet)
    ensures ChainCompare(ComparatorsFor(statOrder, hashToType, enabled), a, b, enabled, tier) <= 0
        <==> RanksAtLeast(a, b, EnabledOrder(statOrder, hashToType, enabled), enabled, tier)
    ensures ChainCompare(ComparatorsFor(statOrder, hashToType, enabled), a, b, enabled, tier) == 0
        <==> (SumEnabledStats(a.stats, enabled, tier) == SumEnabledStats(b.stats, enabled, tier)
              && TierVector(EnabledOrder(statOrder, hashToType, enabled), a, tier)
              == TierVector(EnabledOrder(statOrder, hashToType, enabled), b, tier))
  {
    var order := EnabledOrder(statOrder, hashToType, enabled);
    assert ComparatorsFor(statOrder, hashToType, enabled)[1..] == StatComparators(order);
    StatChainIsLex(order, a, b, enabled, tier);
  }

  /** Swapping the arguments of the chain negates its result. */
  lemma {:induction false} ChainCompareAntisymmetric(cs: seq<Comparator>, a: ArmorSet, b: ArmorSet, enabled: set<StatType>, tier: int -> int)
    ensures ChainCompare(cs, a, b, enabled, tier) == -ChainCompare(cs, b, a, enabled, tier)
  {
    if cs != [] {
      ChainCompareAntisymmetric(cs[1..], a, b, enabled, tier);
    }
  }

  /** "No later than" under the chain is transitive. */
  lemma {:induction false} ChainCompareTransitive(cs: seq<Comparator>, a: ArmorSet, b: ArmorSet, c: ArmorSet, enabled: set<StatType>, tier: int -> int)
    requires ChainCompare(cs, a, b, enabled, tier) <= 0
    requires ChainCompare(cs, b, c, enabled, tier) <= 0
    ensures ChainCompare(cs, a, c, enabled, tier) <= 0
  {
    if cs != [] {
      var ka, kb, kc := SortKey(cs[0], a, enabled, tier), SortKey(cs[0], b, enabled, tier), SortKey(cs[0], c, enabled, tier);
      if ka == kb && kb == kc {
        ChainCompareTransitive(cs[1..], a, b, c, enabled, tier);
      }
    }
  }

  /** The chain reads only enabled stats when each of its tier comparators is for an
      enabled stat: changing a set's disabled stats changes no comparison. */
  lemma {:induction false} ChainCompareIgnoresDisabled(cs: seq<Comparator>, a: ArmorSet, a': ArmorSet, b: ArmorSet, enabled: set<StatType>, tier: int -> int)
    requires forall i :: 0 <= i < |cs| && cs[i].ByStatTier? ==> cs[i].stat in enabled
    requires forall t :: t in enabled ==> a.stats.Get(t) == a'.stats.Get(t)
    ensures ChainCompare(cs, a, b, enabled, tier) == ChainCompare(cs, a', b, enabled, tier)
    ensures ChainCompare(cs, b, a, enabled, tier) == ChainCompare(cs, b, a', enabled, tier)
  {
    if cs != [] {
      SumEnabledOverAgrees(StatKeys, a.stats, a'.stats, enabled, tier);
      ChainCompareIgnoresDisabled(cs[1..], a, a', b, enabled, tier);
    }
  }

  /** Stats outside `enabledStats` never affect the ranking: two sets that agree on every
      enabled stat compare the same against any third set. */
  lemma DisabledStatsDoNotAffectRanking(statOrder: seq<int>, hashToType: map<int, StatType>, enabled: set<StatType>, tier: int -> int,
                                        a: ArmorSet, a': ArmorSet, b: ArmorSet)
    requires forall t :: t in enabled ==> a.stats.Get(t) == a'.stats.Get(t)
    ensures ChainCompare(ComparatorsFor(statOrder, hashToType, enabled), a, b, enabled, tier)
         == ChainCompare(ComparatorsFor(statOrder, hashToType, enabled), a', b, enabled, tier)
    ensures ChainCompare(ComparatorsFor(statOrder, hashToType, enabled), b, a, enabled, tier)
         == ChainCompare(ComparatorsFor(statOrder, hashToType, enabled), b, a', enabled, tier)
  {
    var cs := ComparatorsFor(statOrder, hashToType, enabled);
    var order := EnabledOrder(statOrder, hashToType, enabled);
    forall i | 0 <= i < |cs| && cs[i].ByStatTier?
      ensures cs[i].stat in enabled
    {
      assert cs[i].stat == order[i - 1];
      EnabledOrderMembers(statOrder, hashToType, enabled, order[i - 1]);
    }
    ChainCompareIgnoresDisabled(cs, a, a', b, enabled, tier);
  }

  // ---------------------------------------------------------------------------
  // Sorting
  // ---------------------------------------------------------------------------

  /** `chainComparator(...comparators)`: the comparator function handed to `.sort`. */
  function ChainComparator(cs: seq<Comparator>, enabled: set<StatType>, tier: int -> int): (ArmorSet, ArmorSet) -> int
  {
    (a, b) => ChainCompare(cs, a, b, enabled, tier)
  }

  /** Each set of `s` comes no later than the next under `cmp`. */
  predicate SortedBy(cmp: (ArmorSet, ArmorSet) -> int, s: seq<ArmorSet>)
  {
    forall i, j {:trigger cmp(s[i], s[j])} :: 0 <= i < |s| && 0 <= j < |s| && j == i + 1 ==> cmp(s[i], s[j]) <= 0
  }

  /** Swapping the arguments of `cmp` negates its result, as a `.sort` comparator must. */
  ghost predicate Antisymmetric(cmp: (ArmorSet, ArmorSet) -> int)
  {
    forall x, y :: cmp(x, y) == -cmp(y, x)
  }

  /** The chained comparator is a consistent `.sort` comparator. */
  lemma ChainComparatorAntisymmetric(cs: seq<Comparator>, enabled: set<StatType>, tier: int -> int)
    ensures Antisymmetric(ChainComparator(cs, enabled, tier))
  {
    forall x, y ensures ChainCompare(cs, x, y, enabled, tier) == -ChainCompare(cs, y, x, enabled, tier) {
      ChainCompareAntisymmetric(cs, x, y, enabled, tier);
    }
  }

  /** In a sorted sequence, `s[i]` comes no later than any later `s[j]`. */
  lemma {:induction false} SortedRange(cs: seq<Comparator>, s: seq<ArmorSet>, enabled: set<StatType>, tier: int -> int, i: int, j: int)
    requires SortedBy(ChainComparator(cs, enabled, tier), s)
    requires 0 <= i < j < |s|
    ensures ChainCompare(cs, s[i], s[j], enabled, tier) <= 0
    decreases j - i
  {
    assert ChainCompare(cs, s[i], s[i + 1], enabled, tier) <= 0 by {
      assert ChainComparator(cs, enabled, tier)(s[i], s[i + 1]) <= 0;
    }
    if i + 1 < j {
      SortedRange(cs, s, enabled, tier, i + 1, j);
      ChainCompareTransitive(cs, s[i], s[i + 1], s[j], enabled, tier);
    }
  }

  /** A sequence sorted by the chained comparator has every set no later than every set after it. */
  lemma SortedPairwise(cs: seq<Comparator>, s: seq<ArmorSet>, enabled: set<StatType>, tier: int -> int)
    requires SortedBy(ChainComparator(cs, enabled, tier), s)
    ensures forall i, j :: 0 <= i < j < |s| ==> ChainCompare(cs, s[i], s[j], enabled, tier) <= 0
  {
    forall i, j | 0 <= i < j < |s|
      ensures ChainCompare(cs, s[i], s[j], enabled, tier) <= 0
    {
      SortedRange(cs, s, enabled, tier, i, j);
    }
  }

  /** In a sequence sorted by the chain of `sortGeneratedSets`, the enabled-stat sum never
      increases, and among sets with equal sums the tiers of the enabled stats, taken in
      `statOrder` order, never increase lexicographically. */
  lemma RankedSetsDescend(statOrder: seq<int>, hashToType: map<int, StatType>, enabled: set<StatType>, tier: int -> int, s: seq<ArmorSet>)
    requires SortedBy(ChainComparator(ComparatorsFor(statOrder, hashToType, enabled), enabled, tier), s)
    ensures forall i, j :: 0 <= i < j < |s| ==>
      SumEnabledStats(s[i].stats, enabled, tier) >= SumEnabledStats(s[j].stats, enabled, tier)
    ensures forall i, j :: 0 <= i < j < |s| ==>
      RanksAtLeast(s[i], s[j], EnabledOrder(statOrder, hashToType, enabled), enabled, tier)
  {
    var cs := ComparatorsFor(statOrder, hashToType, enabled);
    SortedPairwise(cs, s, enabled, tier);
    forall i, j | 0 <= i < j < |s|
      ensures RanksAtLeast(s[i], s[j], EnabledOrder(statOrder, hashToType, enabled), enabled, tier)
    {
      RankingOrder(statOrder, hashToType, enabled, tier, s[i], s[j]);
    }
  }

  /** A sorted prefix, a sorted rest and an ordered seam make a sorted whole. */
  lemma SortedJoin(cmp: (ArmorSet, ArmorSet) -> int, s: seq<ArmorSet>, j: nat, n: nat)
    requires j < n <= |s|
    requires SortedBy(cmp, s[..j]) && SortedBy(cmp, s[j..n])
    requires 0 < j ==> cmp(s[j - 1], s[j]) <= 0
    ensures SortedBy(cmp, s[..n])
  {
  }

  /** One swap of the insertion pass keeps its invariant: the moving set `s[j]` trades
      places with the set before it, which must come after it. */
  lemma SwapStep(cmp: (ArmorSet, ArmorSet) -> int, s: seq<ArmorSet>, j: nat, n: nat)
    requires Antisymmetric(cmp)
    requires 0 < j < n <= |s|
    requires SortedBy(cmp, s[..j]) && SortedBy(cmp, s[j..n])
    requires j + 1 < n ==> cmp(s[j - 1], s[j + 1]) <= 0
    requires cmp(s[j - 1], s[j]) > 0
    ensures var t := s[j - 1 := s[j]][j := s[j - 1]];
      && SortedBy(cmp, t[..j - 1])
      && SortedBy(cmp, t[j - 1..n])
      && (1 < j ==> cmp(t[j - 2], t[j]) <= 0)
  {
  }

  /** Exchanges two neighbouring sets of `a`. */
  method Swap(a: array<ArmorSet>, k: nat)
    requires k + 1 < a.Length
    modifies a
    ensures a[..] == old(a[..])[k := old(a[k + 1])][k + 1 := old(a[k])]
    ensures multiset(a[..]) == multiset(old(a[..]))
  {
    a[k], a[k + 1] := a[k + 1], a[k];
  }

  /** One pass of the sort: moves `a[i]` down past every set that must come after it,
      so that `a[..i + 1]` is sorted; the sets after `a[i]` stay where they were. */
  method InsertAt(a: array<ArmorSet>, i: nat, cmp: (ArmorSet, ArmorSet) -> int)
    requires Antisymmetric(cmp)
    requires i < a.Length
    requires SortedBy(cmp, a[..i])
    modifies a
    ensures SortedBy(cmp, a[..i + 1])
    ensures multiset(a[..]) == multiset(old(a[..]))
    ensures a[i + 1..] == old(a[i + 1..])
  {
    var j := i;
    while 0 < j && cmp(a[j - 1], a[j]) > 0
      invariant 0 <= j <= i
      invariant multiset(a[..]) == multiset(old(a[..]))
      invariant a[i + 1..] == old(a[i + 1..])
      invariant SortedBy(cmp, a[..j])
      invariant SortedBy(cmp, a[j..i + 1])
      invariant 0 < j < i ==> cmp(a[j - 1], a[j + 1]) <= 0
    {
      ghost var s := a[..];
      ghost var t := s[j - 1 := s[j]][j := s[j - 1]];
      SwapStep(cmp, s, j, i + 1);
      Swap(a, j - 1);
      assert a[..j - 1] == t[..j - 1] && a[j - 1..i + 1] == t[j - 1..i + 1];
      j := j - 1;
    }
    SortedJoin(cmp, a[..], j, i + 1);
  }

  /** `.sort(cmp)` on an array: sorts `a` in place by `cmp`. */
  method InsertionSort(a: array<ArmorSet>, cmp: (ArmorSet, ArmorSet) -> int)
    requires Antisymmetric(cmp)
    modifies a
    ensures SortedBy(cmp, a[..])
    ensures multiset(a[..]) == multiset(old(a[..]))
  {
    for i := 0 to a.Length
      invariant SortedBy(cmp, a[..i])
      invariant multiset(a[..]) == multiset(old(a[..]))
    {
      InsertAt(a, i, cmp);
    }
    assert a[..a.Length] == a[..];
  }

  /** `sortGeneratedSets`: nothing when there are no sets; otherwise a new array holding
      the same sets, sorted by the chain of `getComparatorsForMatchedSetSorting`. The
      input array is left as it was. */
  method SortGeneratedSets(statOrder: seq<int>, enabledStats: set<StatType>, sets: array?<ArmorSet>,
                           hashToType: map<int, StatType>, tier: int -> int)
    returns (sorted: array?<ArmorSet>)
    ensures sorted == null <==> sets == null
    ensures sets != null ==> sets[..] == old(sets[..])
    ensures sorted != null ==>
              && sets != null && fresh(sorted)
              && multiset(sorted[..]) == multiset(sets[..])
              && SortedBy(ChainComparator(ComparatorsFor(statOrder, hashToType, enabledStats), enabledStats, tier), sorted[..])
  {
    if sets == null {
      return null;
    }
    sorted := new ArmorSet[sets.Length](i reads sets requires 0 <= i < sets.Length => sets[i]);
    assert sorted[..] == sets[..];
    var comparators := GetComparatorsForMatchedSetSorting(statOrder, enabledStats, hashToType);
    ChainComparatorAntisymmetric(comparators, enabledStats, tier);
    InsertionSort(sorted, ChainComparator(comparators, enabledStats, tier));
  }
}
