/** Sums over finite sets of text keys, independent of the order of summation. */
module Sums {
  import Text

  function Sum(weights: map<string, nat>, keys: set<string>): nat
    requires keys <= weights.Keys
  {
    if keys == {} then 0 else
      var k := Text.LeastOf(keys);
      weights[k] + Sum(weights, keys - {k})
  }

  lemma {:induction false} SumTakesAny(weights: map<string, nat>, keys: set<string>, k: string)
    requires keys <= weights.Keys && k in keys
    ensures Sum(weights, keys) == weights[k] + Sum(weights, keys - {k})
    decreases keys
  {
    var least := Text.LeastOf(keys);
    if least != k {
      SumTakesAny(weights, keys - {least}, k);
      assert keys - {least} - {k} == keys - {k} - {least};
      LeastStaysLeast(keys, k);
    }
  }

  lemma LeastStaysLeast(keys: set<string>, k: string)
    requires k in keys && Text.LeastOf(keys) != k
    ensures keys - {k} != {} && Text.LeastOf(keys - {k}) == Text.LeastOf(keys)
  {
    assert Text.LeastOf(keys) in keys - {k};
    Text.AtMostIsAntisymmetric(Text.LeastOf(keys), Text.LeastOf(keys - {k}));
  }

  lemma SubsetIsNoLarger<T>(a: set<T>, b: set<T>)
    requires a <= b
    ensures |a| <= |b|
  {
    assert b == a + (b - a);
  }

  lemma EqualSizeIsEqual<T>(a: set<T>, b: set<T>)
    requires a <= b && |a| == |b|
    ensures a == b
  {
    assert b == a + (b - a);
  }

  /** Disjoint groups add up. */
  lemma {:induction false} SumIsAdditive(weights: map<string, nat>, a: set<string>, b: set<string>)
    requires a + b <= weights.Keys && a !! b
    ensures Sum(weights, a + b) == Sum(weights, a) + Sum(weights, b)
    decreases a
  {
    if a == {} {
      assert a + b == b;
    } else {
      var k := Text.LeastOf(a);
      SumTakesAny(weights, a + b, k);
      assert a + b - {k} == (a - {k}) + b;
      SumIsAdditive(weights, a - {k}, b);
    }
  }

  /** The sum depends only on the summed entries. */
  lemma {:induction false} SumIsLocal(v: map<string, nat>, w: map<string, nat>, keys: set<string>)
    requires keys <= v.Keys && keys <= w.Keys && forall k :: k in keys ==> v[k] == w[k]
    ensures Sum(v, keys) == Sum(w, keys)
  {
    if keys != {} {
      SumIsLocal(v, w, keys - {Text.LeastOf(keys)});
    }
  }

  /** The totals of all groups of a set, summed as one weighted sum. */
  lemma {:induction false} GroupsAsSum(
    weights: map<string, nat>, groups: map<string, string>, items: set<string>, over: set<string>, totals: map<string, nat>)
    requires items <= weights.Keys && items <= groups.Keys && over <= totals.Keys
    requires forall g :: g in over ==> totals[g] == Sum(weights, Group(groups, items, g))
    ensures SumOfGroups(weights, groups, items, over) == Sum(totals, over)
    decreases over
  {
    if over != {} {
      GroupsAsSum(weights, groups, items, over - {Text.LeastOf(over)}, totals);
    }
  }

  /** Items of one group. */
  function Group(groups: map<string, string>, items: set<string>, g: string): set<string>
    requires items <= groups.Keys
  {
    set k | k in items && groups[k] == g
  }

  lemma GroupGains(groups: map<string, string>, item: string, group: string, g: string)
    requires item !in groups
    ensures var h := groups[item := group];
            Group(h, h.Keys, g) == Group(groups, groups.Keys, g) + if group == g then {item} else {}
    ensures Group(groups, groups.Keys, g) <= groups.Keys
  {}

  /** One more item adds one and its weight to its own group, and nothing to the others. */
  lemma {:induction false} NewItemJoins(
    weights: map<string, nat>, groups: map<string, string>, item: string, weight: nat, group: string, g: string)
    requires weights.Keys == groups.Keys && item !in groups
    ensures var w, h := weights[item := weight], groups[item := group];
            var before, now := Group(groups, groups.Keys, g), Group(h, h.Keys, g);
            && |now| == |before| + (if group == g then 1 else 0)
            && Sum(w, now) == Sum(weights, before) + (if group == g then weight else 0)
  {
    var w, h := weights[item := weight], groups[item := group];
    var before, now := Group(groups, groups.Keys, g), Group(h, h.Keys, g);
    GroupGains(groups, item, group, g);
    hide Group, Sum;
    SumIsLocal(weights, w, before);
    if group == g {
      SumTakesAny(w, now, item);
      assert now - {item} == before;
    }
  }

  /** The sum of every group's total over a set of groups. */
  ghost function SumOfGroups(weights: map<string, nat>, groups: map<string, string>, items: set<string>, over: set<string>): nat
    requires items <= weights.Keys && items <= groups.Keys
  {
    if over == {} then 0 else
      var g := Text.LeastOf(over);
      Sum(weights, Group(groups, items, g)) + SumOfGroups(weights, groups, items, over - {g})
  }

  /** Grouping conserves the total, whatever the grouping is. */
  lemma {:induction false} GroupingConserves(weights: map<string, nat>, groups: map<string, string>, items: set<string>, over: set<string>)
    requires items <= weights.Keys && items <= groups.Keys
    requires forall k :: k in items ==> groups[k] in over
    ensures SumOfGroups(weights, groups, items, over) == Sum(weights, items)
    decreases over
  {
    if over == {} {
      assert forall k :: k !in items;
    } else {
      var g := Text.LeastOf(over);
      var ours := Group(groups, items, g);
      var rest := items - ours;
      GroupingConserves(weights, groups, rest, over - {g});
      RestGroups(weights, groups, items, rest, g, over - {g});
      assert items == ours + rest;
      SumIsAdditive(weights, ours, rest);
    }
  }

  lemma {:induction false} RestGroups(
    weights: map<string, nat>, groups: map<string, string>, items: set<string>, rest: set<string>, g: string, over: set<string>)
    requires items <= weights.Keys && items <= groups.Keys && g !in over
    requires rest == items - Group(groups, items, g)
    ensures SumOfGroups(weights, groups, items, over) == SumOfGroups(weights, groups, rest, over)
    decreases over
  {
    if over != {} {
      var h := Text.LeastOf(over);
      assert Group(groups, items, h) == Group(groups, rest, h);
      RestGroups(weights, groups, items, rest, g, over - {h});
    }
  }
}
