/** The greedy knapsack packer: filter, sort by utility per token, take what fits. */
module Packer {
  import opened Common

  datatype Item = Item(id: string, content: Bytes, tokens: int, utility: real)

  predicate IsEligible(it: Item, minUtility: real) {
    it.utility >= minUtility && it.tokens > 0
  }

  function Eligible(items: seq<Item>, minUtility: real): seq<Item> {
    if items == [] then []
    else
      var rest := Eligible(items[..|items| - 1], minUtility);
      if IsEligible(items[|items| - 1], minUtility) then rest + [items[|items| - 1]] else rest
  }

  /** Exactly the items at or above the floor that have tokens are eligible, each as often as
      it is given. */
  lemma {:induction false} EligibleIsFilter(items: seq<Item>, minUtility: real, it: Item)
    ensures multiset(Eligible(items, minUtility))[it] ==
      if it.utility >= minUtility && it.tokens > 0 then multiset(items)[it] else 0
  {
    if items != [] {
      var init := items[..|items| - 1];
      EligibleIsFilter(init, minUtility, it);
      assert items == init + [items[|items| - 1]];
    }
  }

  function Ratio(it: Item): real
    requires it.tokens > 0
  {
    it.utility / it.tokens as real
  }

  ghost predicate AllPositive(s: seq<Item>) {
    forall i :: 0 <= i < |s| ==> s[i].tokens > 0
  }

  ghost predicate SortedByRatio(s: seq<Item>)
    requires AllPositive(s)
  {
    forall i, j :: 0 <= i < j < |s| ==> Ratio(s[i]) >= Ratio(s[j])
  }

  function Tokens(s: seq<Item>): int {
    if s == [] then 0 else Tokens(s[..|s| - 1]) + s[|s| - 1].tokens
  }

  function Utility(s: seq<Item>): real {
    if s == [] then 0.0 else Utility(s[..|s| - 1]) + s[|s| - 1].utility
  }

  function Chars(s: seq<Item>): int {
    if s == [] then 0 else Chars(s[..|s| - 1]) + |s[|s| - 1].content|
  }

  /** The utility of the first rejected item, if any. */
  function FirstLost(rejected: seq<Item>): real {
    if rejected == [] then 0.0 else rejected[0].utility
  }

  // ------------------------------------------------------------------ the greedy split

  datatype Split = Split(taken: seq<Item>, rejected: seq<Item>)

  /** Taken and rejected items after the greedy pass over a sorted list. */
  function Greedy(s: seq<Item>, budget: int): Split {
    if s == [] then Split([], [])
    else
      var before, it := Greedy(s[..|s| - 1], budget), s[|s| - 1];
      if Tokens(before.taken) + it.tokens <= budget then before.(taken := before.taken + [it])
      else before.(rejected := before.rejected + [it])
  }

  lemma {:induction false} GreedyPartitions(s: seq<Item>, budget: int)
    ensures var g := Greedy(s, budget);
      multiset(g.taken) + multiset(g.rejected) == multiset(s)
  {
    hide Tokens;
    if s != [] {
      GreedyPartitions(s[..|s| - 1], budget);
      assert s == s[..|s| - 1] + [s[|s| - 1]];
    }
  }

  lemma TokensPush(s: seq<Item>, it: Item)
    ensures Tokens(s + [it]) == Tokens(s) + it.tokens
  {
    assert (s + [it])[..|s|] == s;
  }

  /** The packed items fit, and none of the rejected ones would still fit at the end. */
  lemma {:induction false} GreedyFits(s: seq<Item>, budget: int)
    requires AllPositive(s)
    ensures Greedy(s, budget).taken == [] || Tokens(Greedy(s, budget).taken) <= budget
    ensures Tokens(Greedy(s, budget).taken) >= 0
    ensures forall it :: it in Greedy(s, budget).rejected ==> Tokens(Greedy(s, budget).taken) + it.tokens > budget
  {
    if s != [] {
      GreedyFits(s[..|s| - 1], budget);
      TokensPush(Greedy(s[..|s| - 1], budget).taken, s[|s| - 1]);
    }
  }

  /** Everything before index k was taken, and k is the first rejection if there is one. */
  ghost predicate FirstRejectedAt(s: seq<Item>, budget: int, g: Split, k: nat) {
    if g.rejected == [] then k == |s| && g.taken == s
    else k < |s| && g.rejected[0] == s[k] && Tokens(s[..k]) + s[k].tokens > budget && s[..k] <= g.taken
  }

  lemma {:induction false} FirstRejection(s: seq<Item>, budget: int) returns (k: nat)
    requires AllPositive(s)
    ensures FirstRejectedAt(s, budget, Greedy(s, budget), k)
  {
    if s == [] {
      k := 0;
    } else {
      var init, it := s[..|s| - 1], s[|s| - 1];
      k := FirstRejection(init, budget);
      var before := Greedy(init, budget);
      var after := Greedy(s, budget);
      assert s == init + [it];
      if before.rejected != [] {
        assert init[..k] == s[..k];
      } else if after.rejected == [] {
        k := |s|;
      } else {
        assert s[..k] == init;
      }
    }
  }

  // ------------------------------------------------------------------ comparing with any rival

  /** The price of some tokens at a given rate. */
  function Cost(rate: real, tokens: int): real {
    rate * tokens as real
  }

  /** What an item is worth above paying `rate` per token. */
  function Surplus(it: Item, rate: real): real {
    it.utility - Cost(rate, it.tokens)
  }

  function Gain(it: Item, rate: real): real {
    if Surplus(it, rate) > 0.0 then Surplus(it, rate) else 0.0
  }

  function Gains(s: seq<Item>, rate: real): real {
    if s == [] then 0.0 else Gains(s[..|s| - 1], rate) + Gain(s[|s| - 1], rate)
  }

  lemma {:induction false} GainsRemove(s: seq<Item>, p: nat, rate: real)
    requires p < |s|
    ensures Gains(s, rate) == Gains(s[..p] + s[p + 1..], rate) + Gain(s[p], rate)
    decreases |s|
  {
    hide Gain;
    var t := s[..p] + s[p + 1..];
    if p == |s| - 1 {
      assert t == s[..|s| - 1];
    } else {
      var s' := s[..|s| - 1];
      GainsRemove(s', p, rate);
      assert t[..|t| - 1] == s'[..p] + s'[p + 1..];
      assert t[|t| - 1] == s[|s| - 1];
    }
  }

  /** A sub-collection cannot gain more than the whole. */
  lemma {:induction false} SubGains(rival: seq<Item>, all: seq<Item>, rate: real)
    requires multiset(rival) <= multiset(all)
    ensures Gains(rival, rate) <= Gains(all, rate)
    decreases |rival|
  {
    hide Gain;
    if rival == [] {
      GainsNonNegative(all, rate);
    } else {
      var it, rest := rival[|rival| - 1], rival[..|rival| - 1];
      assert rival == rest + [it];
      assert it in multiset(rival) && it in multiset(all);
      var p :| 0 <= p < |all| && all[p] == it;
      var others := all[..p] + all[p + 1..];
      assert all == all[..p] + [all[p]] + all[p + 1..];
      assert multiset(others) == multiset(all) - multiset{it};
      SubGains(rest, others, rate);
      GainsRemove(all, p, rate);
    }
  }

  lemma {:induction false} GainsNonNegative(s: seq<Item>, rate: real)
    ensures Gains(s, rate) >= 0.0
  {
    if s != [] { GainsNonNegative(s[..|s| - 1], rate); }
  }

  lemma CostAdds(rate: real, a: int, b: int)
    ensures Cost(rate, a + b) == Cost(rate, a) + Cost(rate, b)
  {
    assert rate * (a as real + b as real) == rate * a as real + rate * b as real;
  }

  lemma {:induction false} UtilityBound(s: seq<Item>, rate: real)
    ensures Utility(s) <= Cost(rate, Tokens(s)) + Gains(s, rate)
  {
    if s != [] {
      UtilityBound(s[..|s| - 1], rate);
      CostAdds(rate, Tokens(s[..|s| - 1]), s[|s| - 1].tokens);
      hide Cost;
    }
  }

  /** On a list whose items all beat the rate, the bound is exact. */
  lemma {:induction false} UtilityExact(s: seq<Item>, rate: real)
    requires forall i :: 0 <= i < |s| ==> Surplus(s[i], rate) >= 0.0
    ensures Utility(s) == Cost(rate, Tokens(s)) + Gains(s, rate)
  {
    if s != [] {
      UtilityExact(s[..|s| - 1], rate);
      CostAdds(rate, Tokens(s[..|s| - 1]), s[|s| - 1].tokens);
      hide Cost;
    }
  }

  lemma {:induction false} GainsOfPrefix(s: seq<Item>, k: nat, rate: real)
    requires k <= |s| && forall i :: k <= i < |s| ==> Surplus(s[i], rate) <= 0.0
    ensures Gains(s, rate) == Gains(s[..k], rate)
    decreases |s|
  {
    if k < |s| {
      GainsOfPrefix(s[..|s| - 1], k, rate);
      assert s[..|s| - 1][..k] == s[..k];
    } else {
      assert s[..k] == s;
    }
  }

  lemma {:induction false} UtilityOfPrefix(whole: seq<Item>, prefix: seq<Item>)
    requires prefix <= whole && forall i :: 0 <= i < |whole| ==> whole[i].utility >= 0.0
    ensures Utility(prefix) <= Utility(whole)
    decreases |whole|
  {
    if |prefix| < |whole| {
      assert prefix <= whole[..|whole| - 1];
      UtilityOfPrefix(whole[..|whole| - 1], prefix);
    } else {
      assert prefix == whole;
    }
  }

  lemma RatioAgainstRate(a: Item, b: Item)
    requires a.tokens > 0 && b.tokens > 0
    ensures Ratio(a) >= Ratio(b) ==> Surplus(a, Ratio(b)) >= 0.0
    ensures Ratio(a) <= Ratio(b) ==> Surplus(a, Ratio(b)) <= 0.0
  {
    var w := a.tokens as real;
    assert Ratio(a) * w == a.utility;
    assert Surplus(a, Ratio(b)) == (Ratio(a) - Ratio(b)) * w;
  }

  /** The sorted prefix up to and including any item that overflows the budget is worth at
      least as much as every rival that fits. */
  lemma OverflowingPrefixWins(s: seq<Item>, k: nat, budget: int, rival: seq<Item>)
    requires AllPositive(s) && SortedByRatio(s) && k < |s| && s[k].utility >= 0.0
    requires Tokens(s[..k]) + s[k].tokens > budget
    requires multiset(rival) <= multiset(s) && Tokens(rival) <= budget
    ensures Utility(rival) <= Utility(s[..k]) + s[k].utility
  {
    var rate := Ratio(s[k]);
    var prefix := s[..k + 1];
    PrefixSums(s, k);
    SurplusSigns(s, k);
    hide Ratio, Surplus, Utility, Tokens, Gains, Cost;
    UtilityBound(rival, rate);
    SubGains(rival, s, rate);
    GainsOfPrefix(s, k + 1, rate);
    UtilityExact(prefix, rate);
    RateTimesTokens(rate, Tokens(rival), Tokens(prefix), s[k]);
  }

  lemma PrefixSums(s: seq<Item>, k: nat)
    requires k < |s|
    ensures Utility(s[..k + 1]) == Utility(s[..k]) + s[k].utility
    ensures Tokens(s[..k + 1]) == Tokens(s[..k]) + s[k].tokens
  {
    assert s[..k + 1][..k] == s[..k];
  }

  lemma SurplusSigns(s: seq<Item>, k: nat)
    requires AllPositive(s) && SortedByRatio(s) && k < |s|
    ensures forall i :: 0 <= i <= k ==> Surplus(s[i], Ratio(s[k])) >= 0.0
    ensures forall i :: k <= i < |s| ==> Surplus(s[i], Ratio(s[k])) <= 0.0
  {
    hide Ratio, Surplus;
    forall i | 0 <= i < |s|
      ensures i <= k ==> Surplus(s[i], Ratio(s[k])) >= 0.0
      ensures i >= k ==> Surplus(s[i], Ratio(s[k])) <= 0.0
    {
      RatioAgainstRate(s[i], s[k]);
    }
  }

  lemma RateTimesTokens(rate: real, few: int, many: int, it: Item)
    requires it.tokens > 0 && it.utility >= 0.0 && rate == Ratio(it) && few <= many
    ensures Cost(rate, few) <= Cost(rate, many)
  {
    assert rate >= 0.0;
    assert rate * (many - few) as real >= 0.0;
  }

  lemma {:induction false} AllOfIt(s: seq<Item>, rival: seq<Item>)
    requires multiset(rival) <= multiset(s) && forall i :: 0 <= i < |s| ==> s[i].utility >= 0.0
    ensures Utility(rival) <= Utility(s)
  {
    UtilityBound(rival, 0.0);
    SubGains(rival, s, 0.0);
    UtilityExact(s, 0.0);
  }

  /** The packed utility plus that of the first rejected item is at least the utility of any
      collection of eligible items that fits the budget. */
  lemma GreedyGuarantee(s: seq<Item>, budget: int, rival: seq<Item>)
    requires AllPositive(s) && SortedByRatio(s) && forall i :: 0 <= i < |s| ==> s[i].utility >= 0.0
    requires multiset(rival) <= multiset(s) && Tokens(rival) <= budget
    ensures var g := Greedy(s, budget);
      Utility(rival) <= Utility(g.taken) + FirstLost(g.rejected)
  {
    var g := Greedy(s, budget);
    var k := FirstRejection(s, budget);
    if g.rejected == [] {
      AllOfIt(s, rival);
    } else {
      OverflowingPrefixWins(s, k, budget, rival);
      GreedyPartitions(s, budget);
      forall i | 0 <= i < |g.taken| ensures g.taken[i].utility >= 0.0 {
        assert g.taken[i] in multiset(g.taken);
        assert g.taken[i] in multiset(s);
      }
      UtilityOfPrefix(g.taken, s[..k]);
    }
  }

  /** A sorted list of eligible items. */
  ghost predicate Ordered(s: seq<Item>, minUtility: real) {
    AllPositive(s) && SortedByRatio(s) && forall it :: it in multiset(s) ==> IsEligible(it, minUtility)
  }

  /** Packed utility plus that of the first rejected item is at least that of every rival that fits. */
  ghost predicate Guaranteed(s: seq<Item>, budget: int) {
    forall rival: seq<Item> :: multiset(rival) <= multiset(s) && Tokens(rival) <= budget ==>
      Utility(rival) <= Utility(Greedy(s, budget).taken) + FirstLost(Greedy(s, budget).rejected)
  }

  /** A floor of at least 0 gives the guarantee for every input. */
  lemma FloorGuarantees(s: seq<Item>, minUtility: real, budget: int)
    requires minUtility >= 0.0 && Ordered(s, minUtility)
    ensures Guaranteed(s, budget)
  {
    hide Utility, Tokens, Ratio, Greedy;
    forall i | 0 <= i < |s| ensures s[i].utility >= 0.0 {
      assert s[i] in multiset(s);
    }
    forall rival: seq<Item> | multiset(rival) <= multiset(s) && Tokens(rival) <= budget
      ensures Utility(rival) <= Utility(Greedy(s, budget).taken) + FirstLost(Greedy(s, budget).rejected)
    {
      GreedyGuarantee(s, budget, rival);
    }
  }

  /** A negative floor admits an item that lowers the packed utility below that of packing nothing. */
  lemma NegativeFloorBreaksGuarantee(minUtility: real) returns (s: seq<Item>)
    requires minUtility < 0.0
    ensures Ordered(s, minUtility) && !Guaranteed(s, 1)
  {
    var it := Item("a", [], 1, minUtility);
    s := [it];
    assert s[..0] == [];
    assert Greedy(s, 1) == Split(s, []);
    var none: seq<Item> := [];
    assert multiset(none) <= multiset(s) && Tokens(none) <= 1;
    assert Utility(none) > Utility(s) + FirstLost([]);
  }

  /** The guarantee holds for every input exactly when the utility floor is not negative. */
  lemma GuaranteeIffFloor(minUtility: real)
    ensures (forall s, budget :: Ordered(s, minUtility) ==> Guaranteed(s, budget)) <==> minUtility >= 0.0
  {
    hide Ordered, Guaranteed;
    if minUtility >= 0.0 {
      forall s, budget | Ordered(s, minUtility) ensures Guaranteed(s, budget) {
        FloorGuarantees(s, minUtility, budget);
      }
    } else {
      var s := NegativeFloorBreaksGuarantee(minUtility);
    }
  }

  /** Taken and rejected items keep the order of the list. */
  lemma {:induction false} GreedyKeepsOrder(s: seq<Item>, budget: int)
    requires AllPositive(s) && SortedByRatio(s)
    ensures var g := Greedy(s, budget);
      && (forall it :: it in g.taken || it in g.rejected ==> it in s)
      && AllPositive(g.taken) && SortedByRatio(g.taken) && AllPositive(g.rejected) && SortedByRatio(g.rejected)
  {
    hide Ratio, Tokens;
    if s != [] {
      var init := s[..|s| - 1];
      GreedyKeepsOrder(init, budget);
      assert forall it :: it in init ==> it in s;
      LastIsLeast(s);
    }
  }

  lemma LastIsLeast(s: seq<Item>)
    requires AllPositive(s) && SortedByRatio(s) && s != []
    ensures forall it :: it in s[..|s| - 1] ==> it.tokens > 0 && Ratio(it) >= Ratio(s[|s| - 1])
  {
    hide Ratio;
  }

  // ------------------------------------------------------------------ the procedure

  lemma {:induction false} EligibleItems(items: seq<Item>, minUtility: real)
    ensures forall it :: it in Eligible(items, minUtility) ==> IsEligible(it, minUtility)
    ensures AllPositive(Eligible(items, minUtility))
  {
    if items != [] { EligibleItems(items[..|items| - 1], minUtility); }
  }

  /** Any sort by descending ratio will do; ties may come out in any order. */
  method SortByRatio(items: seq<Item>) returns (s: seq<Item>)
    requires AllPositive(items)
    ensures multiset(s) == multiset(items)
    ensures AllPositive(s) && SortedByRatio(s)
  {
    s := [];
    for i := 0 to |items|
      invariant multiset(s) == multiset(items[..i])
      invariant AllPositive(s) && SortedByRatio(s)
    {
      assert items[..i + 1] == items[..i] + [items[i]];
      s := InsertByRatio(s, items[i]);
    }
    assert items[..|items|] == items;
  }

  method InsertByRatio(s: seq<Item>, it: Item) returns (r: seq<Item>)
    requires AllPositive(s) && SortedByRatio(s) && it.tokens > 0
    ensures multiset(r) == multiset(s) + multiset{it}
    ensures AllPositive(r) && SortedByRatio(r)
  {
    hide Ratio, SortedByRatio;
    var k := |s|;
    while k > 0 && Ratio(it) > Ratio(s[k - 1])
      invariant 0 <= k <= |s|
      invariant forall i :: k <= i < |s| ==> Ratio(it) >= Ratio(s[i])
    {
      k := k - 1;
    }
    r := s[..k] + [it] + s[k..];
    InsertedIsSorted(s, it, k);
    InsertedItems(s, it, k);
  }

  lemma InsertedItems(s: seq<Item>, it: Item, k: nat)
    requires k <= |s|
    ensures multiset(s[..k] + [it] + s[k..]) == multiset(s) + multiset{it}
  {
    assert s == s[..k] + s[k..];
  }

  lemma InsertedIsSorted(s: seq<Item>, it: Item, k: nat)
    requires AllPositive(s) && SortedByRatio(s) && it.tokens > 0 && k <= |s|
    requires k > 0 ==> Ratio(s[k - 1]) >= Ratio(it)
    requires forall i :: k <= i < |s| ==> Ratio(it) >= Ratio(s[i])
    ensures AllPositive(s[..k] + [it] + s[k..]) && SortedByRatio(s[..k] + [it] + s[k..])
  {
    hide Ratio;
    var r := s[..k] + [it] + s[k..];
    forall i, j | 0 <= i < j < |r| ensures Ratio(r[i]) >= Ratio(r[j]) {
      if i < k == j {
        assert i == k - 1 || Ratio(s[i]) >= Ratio(s[k - 1]);
      }
    }
  }

  /** Every item at or above the floor that has tokens is either selected or rejected, as often
      as it is given, and nothing else is. */
  ghost predicate Accounts(items: seq<Item>, minUtility: real, selected: seq<Item>, rejected: seq<Item>) {
    forall it ::
      multiset(selected)[it] + multiset(rejected)[it] ==
        (if it.utility >= minUtility && it.tokens > 0 then multiset(items)[it] else 0)
  }

  /** No collection of such items that fits is worth more than the selection and the first
      rejected item together. */
  ghost predicate Rivals(items: seq<Item>, minUtility: real, budget: int, worth: real) {
    forall rival: seq<Item> ::
      && multiset(rival) <= multiset(items) && Tokens(rival) <= budget
      && (forall it :: it in rival ==> it.utility >= minUtility && it.tokens > 0) ==>
        Utility(rival) <= worth
  }

  method Pack(items: seq<Item>, minUtility: real, budget: int)
    returns (selected: seq<Item>, excludedChars: int, ghost rejected: seq<Item>)
    ensures Accounts(items, minUtility, selected, rejected)
    ensures excludedChars == |Concat(Contents(rejected))|
    ensures selected == [] || Tokens(selected) <= budget
    ensures forall it :: it in rejected ==> Tokens(selected) + it.tokens > budget
    ensures AllPositive(selected) && SortedByRatio(selected)
    ensures AllPositive(rejected) && SortedByRatio(rejected)
    ensures minUtility >= 0.0 ==> Rivals(items, minUtility, budget, Utility(selected) + FirstLost(rejected))
  {
    hide Utility, Tokens, Ratio, Eligible, Greedy, Accounts, Rivals, Guaranteed;
    var eligible := FilterLoop(items, minUtility);
    EligibleItems(items, minUtility);
    var s := SortByRatio(eligible);
    selected, excludedChars, rejected := TakeWhatFits(s, budget);
    GreedyPartitions(s, budget);
    GreedyFits(s, budget);
    GreedyKeepsOrder(s, budget);
    CharsAreBytes(rejected);
    SelectionCounts(items, minUtility, selected, rejected);
    if minUtility >= 0.0 {
      FloorGuarantees(s, minUtility, budget);
      RivalsAreEligible(items, minUtility, s, budget);
    }
  }

  method FilterLoop(items: seq<Item>, minUtility: real) returns (eligible: seq<Item>)
    ensures eligible == Eligible(items, minUtility)
  {
    eligible := [];
    for i := 0 to |items|
      invariant eligible == Eligible(items[..i], minUtility)
    {
      assert items[..i + 1][..i] == items[..i];
      if items[i].utility >= minUtility && items[i].tokens > 0 {
        eligible := eligible + [items[i]];
      }
    }
    assert items[..|items|] == items;
  }

  lemma SelectionCounts(items: seq<Item>, minUtility: real, selected: seq<Item>, rejected: seq<Item>)
    requires multiset(selected) + multiset(rejected) == multiset(Eligible(items, minUtility))
    ensures Accounts(items, minUtility, selected, rejected)
  {
    hide Eligible;
    forall it
      ensures multiset(selected)[it] + multiset(rejected)[it] ==
        (if it.utility >= minUtility && it.tokens > 0 then multiset(items)[it] else 0)
    {
      EligibleIsFilter(items, minUtility, it);
      assert (multiset(selected) + multiset(rejected))[it] == multiset(selected)[it] + multiset(rejected)[it];
    }
  }

  /** A rival made of eligible items is one drawn from the eligible list. */
  lemma RivalsAreEligible(items: seq<Item>, minUtility: real, s: seq<Item>, budget: int)
    requires multiset(s) == multiset(Eligible(items, minUtility)) && Guaranteed(s, budget)
    ensures var g := Greedy(s, budget);
      Rivals(items, minUtility, budget, Utility(g.taken) + FirstLost(g.rejected))
  {
    hide Eligible, Utility, Tokens, Greedy;
    forall rival: seq<Item> |
      multiset(rival) <= multiset(items) && forall it :: it in rival ==> it.utility >= minUtility && it.tokens > 0
      ensures multiset(rival) <= multiset(s)
    {
      forall it ensures multiset(rival)[it] <= multiset(s)[it] {
        EligibleIsFilter(items, minUtility, it);
        assert it in multiset(rival) ==> it in rival;
      }
    }
  }

  function Contents(s: seq<Item>): seq<Bytes> {
    seq(|s|, i requires 0 <= i < |s| => s[i].content)
  }

  lemma {:induction false} CharsAreBytes(s: seq<Item>)
    ensures Chars(s) == |Concat(Contents(s))|
  {
    if s != [] {
      CharsAreBytes(s[..|s| - 1]);
      ConcatLast(Contents(s));
      assert Contents(s)[..|s| - 1] == Contents(s[..|s| - 1]);
    }
  }

  method TakeWhatFits(s: seq<Item>, budget: int)
    returns (selected: seq<Item>, excludedChars: int, ghost rejected: seq<Item>)
    ensures Greedy(s, budget) == Split(selected, rejected) && excludedChars == Chars(rejected)
  {
    hide Greedy, Tokens, Chars;
    selected, excludedChars, rejected := [], 0, [];
    var used := 0;
    EmptySums(budget);
    for i := 0 to |s|
      invariant Greedy(s[..i], budget) == Split(selected, rejected)
      invariant used == Tokens(selected) && excludedChars == Chars(rejected)
    {
      assert s[..i + 1] == s[..i] + [s[i]];
      GreedyPush(s[..i], s[i], budget);
      if used + s[i].tokens <= budget {
        TokensPush(selected, s[i]);
        selected := selected + [s[i]];
        used := used + s[i].tokens;
      } else {
        CharsPush(rejected, s[i]);
        excludedChars := excludedChars + |s[i].content|;
        rejected := rejected + [s[i]];
      }
    }
    assert s[..|s|] == s;
  }

  lemma EmptySums(budget: int)
    ensures Greedy([], budget) == Split([], []) && Tokens([]) == 0 && Chars([]) == 0
  {
  }

  lemma GreedyPush(s: seq<Item>, it: Item, budget: int)
    ensures var g := Greedy(s, budget);
      Greedy(s + [it], budget) ==
        if Tokens(g.taken) + it.tokens <= budget then Split(g.taken + [it], g.rejected)
        else Split(g.taken, g.rejected + [it])
  {
    hide Tokens;
    assert (s + [it])[..|s|] == s;
  }

  lemma CharsPush(s: seq<Item>, it: Item)
    ensures Chars(s + [it]) == Chars(s) + |it.content|
  {
    assert (s + [it])[..|s|] == s;
  }
}
