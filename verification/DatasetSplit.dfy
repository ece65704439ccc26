/** The leakage-free split: groups of one physical object go to one part, stratified by class. */
module DatasetSplit {
  import opened Options

  datatype Item = Item(path: string, cls: string, key: string)

  type Group = seq<Item>

  const CLASSES: seq<string> := ["plastic", "metal", "paper", "other"]

  datatype Ratios = Ratios(train: real, val: real, test: real)

  const DEFAULT_RATIOS := Ratios(0.70, 0.15, 0.15)

  // ---- groups -------------------------------------------------------------------------------

  function Flat(gs: seq<Group>): seq<Item> {
    if gs == [] then [] else Flat(gs[..|gs| - 1]) + gs[|gs| - 1]
  }

  /** No group is empty, a group has one key, and no two groups share theirs. */
  ghost predicate Keyed(gs: seq<Group>) {
    && (forall i :: 0 <= i < |gs| ==> gs[i] != [])
    && (forall i, j :: 0 <= i < |gs| && 0 <= j < |gs[i]| ==> gs[i][j].key == gs[i][0].key)
    && (forall i, j :: 0 <= i < j < |gs| ==> gs[i][0].key != gs[j][0].key)
  }

  lemma FlatSnoc(gs: seq<Group>, g: Group)
    ensures Flat(gs + [g]) == Flat(gs) + g
  {
    assert (gs + [g])[..|gs|] == gs;
  }

  /** One more item in one group is one more item overall. */
  lemma {:induction false} FlatGrow(gs: seq<Group>, i: nat, x: Item)
    requires i < |gs|
    ensures multiset(Flat(gs[i := gs[i] + [x]])) == multiset(Flat(gs)) + multiset{x}
    decreases |gs|
  {
    var n := |gs| - 1;
    var grown := gs[i := gs[i] + [x]];
    assert Flat(gs) == Flat(gs[..n]) + gs[n] && Flat(grown) == Flat(grown[..n]) + grown[n];
    hide Flat;
    if i == n {
      assert grown[..n] == gs[..n];
    } else {
      FlatGrow(gs[..n], i, x);
      assert grown[..n] == gs[..n][i := gs[i] + [x]];
    }
  }

  lemma KeyedGrow(gs: seq<Group>, i: nat, x: Item)
    requires Keyed(gs) && i < |gs| && gs[i][0].key == x.key
    ensures Keyed(gs[i := gs[i] + [x]])
  {
  }

  lemma KeyedNew(gs: seq<Group>, x: Item)
    requires Keyed(gs) && forall j :: 0 <= j < |gs| ==> gs[j][0].key != x.key
    ensures Keyed(gs + [[x]])
  {
  }

  /** The place of the group with this key, or the end. */
  method FindKey(gs: seq<Group>, key: string) returns (i: nat)
    requires Keyed(gs)
    ensures i <= |gs| && (i < |gs| ==> gs[i][0].key == key)
    ensures i == |gs| ==> forall j :: 0 <= j < |gs| ==> gs[j][0].key != key
  {
    i := 0;
    while i < |gs| && gs[i][0].key != key
      invariant 0 <= i <= |gs|
      invariant forall j :: 0 <= j < i ==> gs[j][0].key != key
    {
      i := i + 1;
    }
  }

  /** The keys in the order of their first item. */
  function Keys(items: seq<Item>): seq<string> {
    if items == [] then []
    else
      var before := Keys(items[..|items| - 1]);
      var key := items[|items| - 1].key;
      if key in before then before else before + [key]
  }

  /** The items with this key, in order. */
  function WithKey(items: seq<Item>, key: string): Group {
    if items == [] then []
    else
      WithKey(items[..|items| - 1], key)
        + (if items[|items| - 1].key == key then [items[|items| - 1]] else [])
  }

  /** One group per key, keys in the order of their first item, the items of a group in order. */
  ghost predicate GroupedInOrder(groups: seq<Group>, items: seq<Item>) {
    |groups| == |Keys(items)| && forall i :: 0 <= i < |groups| ==> groups[i] == WithKey(items, Keys(items)[i])
  }

  lemma {:induction false} KeyOfItem(items: seq<Item>, key: string)
    ensures key in Keys(items) <==> WithKey(items, key) != []
    ensures WithKey(items, key) != [] ==> WithKey(items, key)[0].key == key
    decreases |items|
  {
    if items != [] {
      KeyOfItem(items[..|items| - 1], key);
    }
  }

  lemma {:induction false} KeysDistinct(items: seq<Item>)
    ensures DistinctNames(Keys(items))
    decreases |items|
  {
    if items != [] {
      KeysDistinct(items[..|items| - 1]);
    }
  }

  /** The next item, filed under its key, keeps the groups in order. */
  lemma GroupNext(groups: seq<Group>, items: seq<Item>, x: Item, i: nat)
    requires GroupedInOrder(groups, items) && Keyed(groups) && i <= |groups|
    requires i < |groups| ==> groups[i][0].key == x.key
    requires i == |groups| ==> forall j :: 0 <= j < |groups| ==> groups[j][0].key != x.key
    ensures GroupedInOrder(Filed(groups, x, i), items + [x])
  {
    assert (items + [x])[..|items|] == items;
    forall j | 0 <= j < |groups| ensures groups[j][0].key == Keys(items)[j] {
      KeyOfItem(items, Keys(items)[j]);
    }
    KeysDistinct(items);
    KeyOfItem(items, x.key);
  }

  /** The group list after the next item, whose group is number `i` or yet to come. */
  function Filed(groups: seq<Group>, x: Item, i: nat): seq<Group> {
    if i < |groups| then groups[i := groups[i] + [x]] else groups + [[x]]
  }

  lemma FiledKeepsItems(groups: seq<Group>, items: seq<Item>, x: Item, i: nat)
    requires multiset(Flat(groups)) == multiset(items)
    ensures multiset(Flat(Filed(groups, x, i))) == multiset(items + [x])
  {
    if i < |groups| {
      FlatGrow(groups, i, x);
    } else {
      FlatSnoc(groups, [x]);
    }
  }

  lemma FiledKeyed(groups: seq<Group>, x: Item, i: nat)
    requires Keyed(groups) && i <= |groups|
    requires i < |groups| ==> groups[i][0].key == x.key
    requires i == |groups| ==> forall j :: 0 <= j < |groups| ==> groups[j][0].key != x.key
    ensures Keyed(Filed(groups, x, i))
  {
    if i < |groups| {
      KeyedGrow(groups, i, x);
    } else {
      KeyedNew(groups, x);
    }
  }

  /** The groups of these items: all of them, one group per key, everything in order. */
  ghost predicate Grouping(groups: seq<Group>, items: seq<Item>) {
    Keyed(groups) && multiset(Flat(groups)) == multiset(items) && GroupedInOrder(groups, items)
  }

  lemma FiledGrouping(groups: seq<Group>, items: seq<Item>, n: nat, i: nat)
    requires n < |items| && Grouping(groups, items[..n]) && i <= |groups|
    requires i < |groups| ==> groups[i][0].key == items[n].key
    requires i == |groups| ==> forall j :: 0 <= j < |groups| ==> groups[j][0].key != items[n].key
    ensures Grouping(Filed(groups, items[n], i), items[..n + 1])
  {
    assert items[..n + 1] == items[..n] + [items[n]];
    GroupNext(groups, items[..n], items[n], i);
    FiledKeyed(groups, items[n], i);
    FiledKeepsItems(groups, items[..n], items[n], i);
  }

  lemma NoGroups(items: seq<Item>)
    ensures Grouping([], items[..0])
  {
  }

  lemma GroupingKeyed(groups: seq<Group>, items: seq<Item>)
    requires Grouping(groups, items)
    ensures Keyed(groups)
  {
  }

  /** Groups the items by key. */
  method GroupBySession(items: seq<Item>) returns (groups: seq<Group>)
    ensures Grouping(groups, items)
  {
    hide Grouping;
    groups := [];
    NoGroups(items);
    var n := 0;
    while n < |items|
      invariant 0 <= n <= |items| && Grouping(groups, items[..n])
    {
      GroupingKeyed(groups, items[..n]);
      var i := FindKey(groups, items[n].key);
      FiledGrouping(groups, items, n, i);
      if i < |groups| {
        groups := groups[i := groups[i] + [items[n]]];
      } else {
        groups := groups + [[items[n]]];
      }
      n := n + 1;
    }
    assert items[..n] == items;
  }

  // ---- counting groups of a class ---------------------------------------------------------------

  predicate OfClass(g: Group, c: string) { g != [] && g[0].cls == c }

  function Count(gs: seq<Group>, c: string): nat {
    if gs == [] then 0 else Count(gs[..|gs| - 1], c) + (if OfClass(gs[|gs| - 1], c) then 1 else 0)
  }

  lemma {:induction false} CountConcat(a: seq<Group>, b: seq<Group>, c: string)
    ensures Count(a + b, c) == Count(a, c) + Count(b, c)
    decreases |b|
  {
    if b == [] {
      assert a + b == a;
    } else {
      assert (a + b)[..|a + b| - 1] == a + b[..|b| - 1];
      CountConcat(a, b[..|b| - 1], c);
    }
  }

  lemma {:induction false} CountIfAll(gs: seq<Group>, d: string, c: string)
    requires forall i :: 0 <= i < |gs| ==> OfClass(gs[i], d)
    ensures Count(gs, c) == if c == d then |gs| else 0
    decreases |gs|
  {
    if gs != [] {
      CountIfAll(gs[..|gs| - 1], d, c);
    }
  }

  /** A class is counted exactly when some group has it. */
  lemma {:induction false} CountPositive(gs: seq<Group>, c: string)
    ensures Count(gs, c) > 0 <==> exists i :: 0 <= i < |gs| && OfClass(gs[i], c)
    decreases |gs|
  {
    if gs != [] {
      var front := gs[..|gs| - 1];
      CountPositive(front, c);
      if Count(front, c) > 0 {
        var i :| 0 <= i < |front| && OfClass(front[i], c);
        assert OfClass(gs[i], c);
      }
      forall i | 0 <= i < |gs| && OfClass(gs[i], c) ensures Count(gs, c) > 0 {
        if i < |front| {
          assert OfClass(front[i], c);
        }
      }
    }
  }

  function Without(gs: seq<Group>, i: nat): seq<Group>
    requires i < |gs|
  {
    gs[..i] + gs[i + 1..]
  }

  lemma CountWithout(gs: seq<Group>, i: nat, c: string)
    requires i < |gs|
    ensures Count(Without(gs, i), c) == Count(gs, c) - (if OfClass(gs[i], c) then 1 else 0)
    ensures multiset(gs) == multiset(Without(gs, i)) + multiset{gs[i]}
  {
    assert gs == gs[..i] + [gs[i]] + gs[i + 1..];
    CountConcat(gs[..i] + [gs[i]], gs[i + 1..], c);
    CountConcat(gs[..i], [gs[i]], c);
    CountConcat(gs[..i], gs[i + 1..], c);
    CountOne(gs[i], c);
  }

  /** The count is the number of places that hold a group of the class. */
  lemma {:induction false} CountIsNumber(gs: seq<Group>, c: string)
    ensures Count(gs, c) == |set i | 0 <= i < |gs| && gs[i] != [] && gs[i][0].cls == c|
    decreases |gs|
  {
    var places := set i | 0 <= i < |gs| && gs[i] != [] && gs[i][0].cls == c;
    if gs == [] {
      assert places == {};
    } else {
      var n := |gs| - 1;
      var front := gs[..n];
      CountIsNumber(front, c);
      CountConcat(front, [gs[n]], c);
      CountOne(gs[n], c);
      assert gs == front + [gs[n]];
      var before := set i | 0 <= i < |front| && front[i] != [] && front[i][0].cls == c;
      assert places == before + (if OfClass(gs[n], c) then {n} else {});
    }
  }

  lemma CountOne(g: Group, c: string)
    ensures Count([g], c) == if OfClass(g, c) then 1 else 0
  {
    assert [g][..0] == [];
  }

  // ---- the shuffle ----------------------------------------------------------------------------

  function Swap(s: seq<Group>, i: nat, j: nat): seq<Group>
    requires i < |s| && j < |s|
  {
    s[i := s[j]][j := s[i]]
  }

  /** The places up to `i`, from the back, each swapped with a drawn place not behind it. */
  function Shuffled(s: seq<Group>, i: nat, draws: nat -> nat, from: nat): seq<Group>
    requires i < |s|
    decreases i
  {
    if i == 0 then s
    else
      assert 0 <= draws(from) % (i + 1) <= i;
      Shuffled(Swap(s, i, draws(from) % (i + 1)), i - 1, draws, from + 1)
  }

  /** The library shuffle, for arbitrary draws. */
  method Shuffle(s: seq<Group>, draws: nat -> nat, from: nat) returns (p: seq<Group>, next: nat)
    ensures multiset(p) == multiset(s)
    ensures p == if s == [] then [] else Shuffled(s, |s| - 1, draws, from)
  {
    p, next := s, from;
    var i := |s| - 1;
    while i > 0
      invariant -1 <= i < |p| && |p| == |s| && multiset(p) == multiset(s)
      invariant s != [] ==> i >= 0 && Shuffled(p, i, draws, next) == Shuffled(s, |s| - 1, draws, from)
      decreases i
    {
      var j := draws(next) % (i + 1);
      next := next + 1;
      p := p[i := p[j]][j := p[i]];
      i := i - 1;
    }
  }

  /** The draws from number `from` on begin with these. */
  ghost predicate BeginsWith(draws: nat -> nat, from: nat, js: seq<nat>) {
    forall k :: 0 <= k < |js| ==> draws(from + k) == js[k]
  }

  lemma SameFront(a: seq<Group>, b: seq<Group>, tail: seq<Group>)
    requires multiset(a + tail) == multiset(b + tail)
    ensures multiset(a) == multiset(b)
  {
    assert multiset(a + tail) == multiset(a) + multiset(tail) && multiset(b + tail) == multiset(b) + multiset(tail);
    forall g ensures multiset(a)[g] == multiset(b)[g] {
      assert multiset(a + tail)[g] == multiset(a)[g] + multiset(tail)[g];
      assert multiset(b + tail)[g] == multiset(b)[g] + multiset(tail)[g];
    }
  }

  lemma FindInFront(s: seq<Group>, p: seq<Group>, i: nat) returns (j: nat)
    requires i < |s| == |p| && multiset(s) == multiset(p) && s[i + 1..] == p[i + 1..]
    ensures j <= i && s[j] == p[i]
  {
    var a, b := s[..i + 1], p[..i + 1];
    assert s == a + s[i + 1..] && p == b + s[i + 1..];
    SameFront(a, b, s[i + 1..]);
    assert b[i] in multiset(b);
    assert b[i] in a;
    j :| 0 <= j < i + 1 && a[j] == b[i];
  }

  lemma SwapAgrees(s: seq<Group>, p: seq<Group>, i: nat, j: nat)
    requires j <= i < |s| == |p| && multiset(s) == multiset(p) && s[i + 1..] == p[i + 1..] && s[j] == p[i]
    ensures |Swap(s, i, j)| == |s| && multiset(Swap(s, i, j)) == multiset(p) && Swap(s, i, j)[i..] == p[i..]
  {
    assert Swap(s, i, j)[i] == p[i];
    forall k | i < k < |s| ensures Swap(s, i, j)[k] == p[k] {
      assert s[k] == s[i + 1..][k - i - 1] && p[k] == p[i + 1..][k - i - 1];
    }
  }

  lemma DrawsFollow(draws: nat -> nat, from: nat, j: nat, rest: seq<nat>)
    requires BeginsWith(draws, from, [j] + rest)
    ensures draws(from) == j && BeginsWith(draws, from + 1, rest)
  {
    assert draws(from + 0) == ([j] + rest)[0];
    forall k | 0 <= k < |rest| ensures draws(from + 1 + k) == rest[k] {
      assert draws(from + (k + 1)) == ([j] + rest)[k + 1];
    }
  }

  lemma ShuffledFirst(s: seq<Group>, i: nat, j: nat, draws: nat -> nat, from: nat)
    requires 0 < i < |s| && j <= i && draws(from) == j
    ensures Shuffled(s, i, draws, from) == Shuffled(Swap(s, i, j), i - 1, draws, from + 1)
  {
    assert j % (i + 1) == j;
  }

  lemma OneLeft(s: seq<Group>, p: seq<Group>)
    requires |s| == |p| > 0 && multiset(s) == multiset(p) && s[1..] == p[1..]
    ensures s == p
  {
    var j := FindInFront(s, p, 0);
    assert s == [s[0]] + s[1..] && p == [p[0]] + p[1..];
  }

  /** Every order can come out: for each permutation there are draws that give it. */
  lemma {:induction false} EveryOrderComesOut(s: seq<Group>, p: seq<Group>, i: nat) returns (js: seq<nat>)
    requires i < |s| == |p| && multiset(s) == multiset(p) && s[i + 1..] == p[i + 1..]
    ensures forall draws: nat -> nat, from: nat :: BeginsWith(draws, from, js) ==> Shuffled(s, i, draws, from) == p
    decreases i
  {
    if i == 0 {
      OneLeft(s, p);
      js := [];
    } else {
      var j := FindInFront(s, p, i);
      SwapAgrees(s, p, i, j);
      hide Swap, Shuffled, BeginsWith;
      var rest := EveryOrderComesOut(Swap(s, i, j), p, i - 1);
      js := [j] + rest;
      forall draws: nat -> nat, from: nat | BeginsWith(draws, from, js) ensures Shuffled(s, i, draws, from) == p {
        DrawsFollow(draws, from, j, rest);
        ShuffledFirst(s, i, j, draws, from);
      }
    }
  }

  // ---- how many groups each part gets -----------------------------------------------------------

  /** Nearest integer, ties to the even one. */
  function Round(x: real): int {
    var low := x.Floor;
    var rest := x - low as real;
    if rest < 0.5 || (rest == 0.5 && low % 2 == 0) then low else low + 1
  }

  function Share(n: nat, ratio: real): nat {
    if n < 3 then 0 else if Round(n as real * ratio) > 1 then Round(n as real * ratio) else 1
  }

  function Least(a: nat, b: nat): nat { if a < b then a else b }

  function ValCount(n: nat, r: Ratios): nat { Least(Share(n, r.val), n) }

  function TestCount(n: nat, r: Ratios): nat { Least(Share(n, r.test), n - ValCount(n, r)) }

  function TrainCount(n: nat, r: Ratios): nat { n - ValCount(n, r) - TestCount(n, r) }

  /** `k` is the integer nearest to `n * ratio`, the even one of two, and at least 1. */
  predicate Fair(k: int, n: nat, ratio: real) {
    var exact := n as real * ratio;
    if exact < 1.0 then k == 1
    else
      && exact - 0.5 <= k as real <= exact + 0.5
      && (k as real == exact - 0.5 || k as real == exact + 0.5 ==> k % 2 == 0)
  }

  lemma ShareIsFair(n: nat, ratio: real)
    requires n >= 3
    ensures Fair(Share(n, ratio), n, ratio)
  {
    var exact := n as real * ratio;
    RoundNear(exact);
  }

  /** Fair shares for validation and test never take all groups of a class that has three. */
  ghost predicate LeavesTraining(r: Ratios) {
    forall n: nat, v: int, t: int :: n >= 3 && Fair(v, n, r.val) && Fair(t, n, r.test) ==> v + t <= n - 1
  }

  lemma RoundNear(x: real)
    ensures x - 0.5 <= Round(x) as real <= x + 0.5
    ensures Round(x) as real == x - 0.5 || Round(x) as real == x + 0.5 ==> Round(x) % 2 == 0
  {
  }

  /** Despite the rounding 70/15/15 always leaves a group for training. */
  lemma DefaultLeavesTraining()
    ensures LeavesTraining(Ratios(0.70, 0.15, 0.15)) && DEFAULT_RATIOS == Ratios(0.70, 0.15, 0.15)
  {
    forall n: nat, v: int, t: int | n >= 3 && Fair(v, n, 0.15) && Fair(t, n, 0.15) ensures v + t <= n - 1 {
      assert v as real <= n as real * 0.15 + 0.5 || v == 1;
      assert t as real <= n as real * 0.15 + 0.5 || t == 1;
      assert 2.0 * (n as real * 0.15 + 0.5) < n as real;
    }
  }

  lemma CountsWhenLeft(n: nat, r: Ratios)
    requires LeavesTraining(r)
    ensures if n >= 3 then ValCount(n, r) >= 1 && TestCount(n, r) >= 1 && TrainCount(n, r) >= 1
            else ValCount(n, r) == 0 && TestCount(n, r) == 0 && TrainCount(n, r) == n
    ensures n >= 3 ==> Fair(ValCount(n, r), n, r.val) && Fair(TestCount(n, r), n, r.test)
  {
    if n >= 3 {
      ShareIsFair(n, r.val);
      ShareIsFair(n, r.test);
      assert Share(n, r.val) + Share(n, r.test) <= n - 1;
    }
  }

  // ---- the groups by class ----------------------------------------------------------------------

  ghost predicate DistinctNames(order: seq<string>) {
    forall i, j :: 0 <= i < j < |order| ==> order[i] != order[j]
  }

  /** The groups of the listed classes, one class after the other. */
  ghost function AllOf(order: seq<string>, byClass: map<string, seq<Group>>): seq<Group>
    requires forall c :: c in order ==> c in byClass
  {
    if order == [] then []
    else AllOf(order[..|order| - 1], byClass) + byClass[order[|order| - 1]]
  }

  /** The names list the keys once each, the known classes among them. */
  ghost predicate Listed(order: seq<string>, byClass: map<string, seq<Group>>) {
    && DistinctNames(order) && (forall c :: c in order <==> c in byClass)
    && (forall c :: c in CLASSES ==> c in order)
  }

  /** Every class of a group has an entry, and an entry holds that class's groups. */
  ghost predicate Filled(groups: seq<Group>, byClass: map<string, seq<Group>>) {
    && (forall c :: c in byClass ==> |byClass[c]| == Count(groups, c))
    && (forall c, i :: c in byClass && 0 <= i < |byClass[c]| ==> OfClass(byClass[c][i], c))
    && (forall c :: Count(groups, c) > 0 ==> c in byClass)
  }

  /** `byClass` sorts all groups by the class of their first item. */
  ghost predicate Sorted(groups: seq<Group>, order: seq<string>, byClass: map<string, seq<Group>>) {
    Listed(order, byClass) && Filled(groups, byClass) && multiset(AllOf(order, byClass)) == multiset(groups)
  }

  lemma {:induction false} AllOfSame(order: seq<string>, a: map<string, seq<Group>>, b: map<string, seq<Group>>)
    requires forall c :: c in order ==> c in a && c in b && a[c] == b[c]
    ensures AllOf(order, a) == AllOf(order, b)
    decreases |order|
  {
    if order != [] {
      AllOfSame(order[..|order| - 1], a, b);
    }
  }

  lemma {:induction false} AllOfGrow(order: seq<string>, byClass: map<string, seq<Group>>, c: string, g: Group)
    requires DistinctNames(order) && c in order && forall d :: d in order ==> d in byClass
    ensures multiset(AllOf(order, byClass[c := byClass[c] + [g]])) == multiset(AllOf(order, byClass)) + multiset{g}
    decreases |order|
  {
    var n := |order| - 1;
    var grown := byClass[c := byClass[c] + [g]];
    if order[n] == c {
      assert forall i :: 0 <= i < n ==> order[i] != c;
      AllOfSame(order[..n], byClass, grown);
    } else {
      assert c in order[..n];
      AllOfGrow(order[..n], byClass, c, g);
    }
  }

  lemma {:induction false} AllOfEmpty(order: seq<string>, byClass: map<string, seq<Group>>)
    requires forall c :: c in order ==> c in byClass && byClass[c] == []
    ensures AllOf(order, byClass) == []
    decreases |order|
  {
    if order != [] {
      AllOfEmpty(order[..|order| - 1], byClass);
    }
  }

  lemma AllOfNew(order: seq<string>, byClass: map<string, seq<Group>>, c: string, g: Group)
    requires c !in order && c !in byClass && forall d :: d in order ==> d in byClass
    ensures multiset(AllOf(order + [c], byClass[c := [g]])) == multiset(AllOf(order, byClass)) + multiset{g}
  {
    assert (order + [c])[..|order|] == order;
    AllOfSame(order, byClass, byClass[c := [g]]);
  }

  lemma FilledSnoc(groups: seq<Group>, byClass: map<string, seq<Group>>, g: Group)
    requires Filled(groups, byClass) && g != []
    ensures var c := g[0].cls;
      Filled(groups + [g], byClass[c := (if c in byClass then byClass[c] else []) + [g]])
  {
    var c := g[0].cls;
    forall d ensures Count(groups + [g], d) == Count(groups, d) + (if d == c then 1 else 0) {
      CountConcat(groups, [g], d);
      CountOne(g, d);
    }
  }

  lemma ListedSnoc(order: seq<string>, byClass: map<string, seq<Group>>, c: string, gs: seq<Group>)
    requires Listed(order, byClass) && c !in byClass
    ensures Listed(order + [c], byClass[c := gs])
  {
    DistinctSnoc(order, c);
    forall d ensures d in order + [c] <==> d in byClass[c := gs] {
      assert d in order + [c] <==> d in order || d == c;
    }
  }

  lemma SortedGrow(groups: seq<Group>, order: seq<string>, byClass: map<string, seq<Group>>, g: Group)
    requires Sorted(groups, order, byClass) && g != [] && g[0].cls in byClass
    ensures Sorted(groups + [g], order, byClass[g[0].cls := byClass[g[0].cls] + [g]])
  {
    AllOfGrow(order, byClass, g[0].cls, g);
    FilledSnoc(groups, byClass, g);
  }

  lemma SortedNew(groups: seq<Group>, order: seq<string>, byClass: map<string, seq<Group>>, g: Group)
    requires Sorted(groups, order, byClass) && g != [] && g[0].cls !in byClass
    ensures Sorted(groups + [g], order + [g[0].cls], byClass[g[0].cls := [g]])
  {
    AllOfNew(order, byClass, g[0].cls, g);
    assert [] + [g] == [g];
    FilledSnoc(groups, byClass, g);
    ListedSnoc(order, byClass, g[0].cls, [g]);
  }

  lemma DistinctSnoc(order: seq<string>, c: string)
    requires DistinctNames(order) && c !in order
    ensures DistinctNames(order + [c])
  {
  }

  /** Sorts the groups by class: the known classes first, others as they appear. */
  method ByClass(groups: seq<Group>) returns (order: seq<string>, byClass: map<string, seq<Group>>)
    requires forall i :: 0 <= i < |groups| ==> groups[i] != []
    ensures Sorted(groups, order, byClass)
  {
    order := CLASSES;
    byClass := map c | c in CLASSES :: [];
    AllOfEmpty(order, byClass);
    var n := 0;
    while n < |groups|
      invariant 0 <= n <= |groups|
      invariant Sorted(groups[..n], order, byClass)
    {
      var g := groups[n];
      var c := g[0].cls;
      assert groups[..n + 1] == groups[..n] + [g];
      if c in byClass {
        SortedGrow(groups[..n], order, byClass, g);
        byClass := byClass[c := byClass[c] + [g]];
      } else {
        SortedNew(groups[..n], order, byClass, g);
        order := order + [c];
        byClass := byClass[c := [g]];
      }
      n := n + 1;
    }
    assert groups[..n] == groups;
  }

  // ---- the first assignment -----------------------------------------------------------------------

  datatype Parts = Parts(train: seq<Group>, val: seq<Group>, test: seq<Group>)

  /** The parts in the order they are rebalanced. */
  datatype Name = Train | Val | Test

  function Part(parts: Parts, k: Name): seq<Group> {
    match k case Train => parts.train case Val => parts.val case Test => parts.test
  }

  function WithPart(parts: Parts, k: Name, gs: seq<Group>): Parts {
    match k case Train => parts.(train := gs) case Val => parts.(val := gs) case Test => parts.(test := gs)
  }

  ghost function All(parts: Parts): multiset<Group> {
    multiset(parts.train) + multiset(parts.val) + multiset(parts.test)
  }

  /** Class `c` has these numbers of groups in the three parts. */
  ghost predicate Holds(parts: Parts, c: string, train: nat, val: nat, test: nat) {
    Count(parts.train, c) == train && Count(parts.val, c) == val && Count(parts.test, c) == test
  }

  lemma AppendCounts(part: seq<Group>, more: seq<Group>, d: string, c: string)
    requires forall i :: 0 <= i < |more| ==> OfClass(more[i], d)
    ensures Count(part + more, c) == Count(part, c) + (if c == d then |more| else 0)
  {
    CountConcat(part, more, c);
    CountIfAll(more, d, c);
  }

  lemma PermutationOfClass(s: seq<Group>, p: seq<Group>, c: string)
    requires multiset(s) == multiset(p) && forall i :: 0 <= i < |s| ==> OfClass(s[i], c)
    ensures |p| == |s| && forall i :: 0 <= i < |p| ==> OfClass(p[i], c)
  {
    assert |multiset(s)| == |multiset(p)|;
    forall i | 0 <= i < |p| ensures OfClass(p[i], c) {
      assert p[i] in multiset(s);
      var j :| 0 <= j < |s| && s[j] == p[i];
    }
  }

  /** Slices one shuffled class into the parts. */
  method Slice(parts: Parts, shuffled: seq<Group>, r: Ratios, ghost c: string) returns (later: Parts)
    requires forall i :: 0 <= i < |shuffled| ==> OfClass(shuffled[i], c)
    ensures All(later) == All(parts) + multiset(shuffled)
    ensures forall d :: d != c ==> Holds(later, d, Count(parts.train, d), Count(parts.val, d), Count(parts.test, d))
    ensures Holds(later, c, Count(parts.train, c) + TrainCount(|shuffled|, r),
                  Count(parts.val, c) + ValCount(|shuffled|, r),
                  Count(parts.test, c) + TestCount(|shuffled|, r))
  {
    var n := |shuffled|;
    var a := ValCount(n, r);
    var b := a + TestCount(n, r);
    var val, test, train := shuffled[..a], shuffled[a..b], shuffled[b..];
    assert shuffled == val + test + train;
    later := Parts(parts.train + train, parts.val + val, parts.test + test);
    forall d ensures Count(later.train, d) == Count(parts.train, d) + (if d == c then |train| else 0)
      && Count(later.val, d) == Count(parts.val, d) + (if d == c then |val| else 0)
      && Count(later.test, d) == Count(parts.test, d) + (if d == c then |test| else 0)
    {
      AppendCounts(parts.train, train, c, d);
      AppendCounts(parts.val, val, c, d);
      AppendCounts(parts.test, test, c, d);
    }
  }

  /** What the first assignment gives class `c`. */
  ghost predicate Assigned(parts: Parts, c: string, n: nat, r: Ratios) {
    Holds(parts, c, TrainCount(n, r), ValCount(n, r), TestCount(n, r))
  }

  /** The listed classes are assigned and no other class has a group yet. */
  ghost predicate AssignedSoFar(parts: Parts, done: seq<string>, byClass: map<string, seq<Group>>, r: Ratios)
    requires forall c :: c in done ==> c in byClass
  {
    && (forall c :: c in done ==> Assigned(parts, c, |byClass[c]|, r))
    && (forall c :: c !in done ==> Holds(parts, c, 0, 0, 0))
  }

  lemma AssignedSnoc(parts: Parts, later: Parts, done: seq<string>, byClass: map<string, seq<Group>>, r: Ratios,
                     c: string)
    requires forall d :: d in done + [c] ==> d in byClass
    requires (forall d :: d in done ==> d in byClass) && AssignedSoFar(parts, done, byClass, r) && c !in done
    requires forall d :: d != c ==> Holds(later, d, Count(parts.train, d), Count(parts.val, d), Count(parts.test, d))
    requires c in byClass && Assigned(later, c, |byClass[c]|, r)
    ensures AssignedSoFar(later, done + [c], byClass, r)
  {
    forall d ensures d in done + [c] <==> d in done || d == c {
    }
  }

  lemma PrefixSnoc(order: seq<string>, k: nat, byClass: map<string, seq<Group>>)
    requires DistinctNames(order) && k < |order| && forall c :: c in order ==> c in byClass
    ensures order[..k + 1] == order[..k] + [order[k]] && order[k] !in order[..k]
    ensures AllOf(order[..k + 1], byClass) == AllOf(order[..k], byClass) + byClass[order[k]]
  {
    assert order[..k + 1][..k] == order[..k];
  }

  method Assign(order: seq<string>, byClass: map<string, seq<Group>>, r: Ratios, draws: nat -> nat)
    returns (parts: Parts)
    requires DistinctNames(order) && forall c :: c in order ==> c in byClass
    requires forall c, i :: c in byClass && 0 <= i < |byClass[c]| ==> OfClass(byClass[c][i], c)
    ensures All(parts) == multiset(AllOf(order, byClass)) && AssignedSoFar(parts, order, byClass, r)
  {
    assert AllOf([], byClass) == [];
    hide AllOf, Assigned;
    parts := Parts([], [], []);
    var k, used := 0, 0;
    while k < |order|
      invariant 0 <= k <= |order|
      invariant All(parts) == multiset(AllOf(order[..k], byClass)) && AssignedSoFar(parts, order[..k], byClass, r)
    {
      var c := order[k];
      ghost var before := parts;
      var shuffled: seq<Group>;
      shuffled, used := Shuffle(byClass[c], draws, used);
      PermutationOfClass(byClass[c], shuffled, c);
      PrefixSnoc(order, k, byClass);
      assert Holds(before, c, 0, 0, 0);
      parts := Slice(parts, shuffled, r, c);
      AssignedSnoc(before, parts, order[..k], byClass, r, c);
      k := k + 1;
    }
    assert order[..k] == order;
  }

  // ---- rebalancing --------------------------------------------------------------------------------

  datatype Triple = Triple(train: nat, val: nat, test: nat)

  function Counts(parts: Parts, c: string): Triple {
    Triple(Count(parts.train, c), Count(parts.val, c), Count(parts.test, c))
  }

  function At(x: Triple, k: Name): nat {
    match k case Train => x.train case Val => x.val case Test => x.test
  }

  function Give(x: Triple, k: Name): Triple {
    match k
    case Train => x.(train := x.train + 1)
    case Val => x.(val := x.val + 1)
    case Test => x.(test := x.test + 1)
  }

  /** The numbers of one known class after part `k` inherited a group, if it had none. */
  function Inherit(x: Triple, k: Name): Triple {
    if At(x, k) > 0 then x
    else if x.train > 0 then Give(x.(train := x.train - 1), k)
    else if x.test > 0 then Give(x.(test := x.test - 1), k)
    else x
  }

  /** Group `i` is the first of the smallest groups of class `m`. */
  ghost predicate FirstSmallest(part: seq<Group>, m: string, i: nat) {
    && i < |part| && part[i] != [] && part[i][0].cls == m
    && forall j :: 0 <= j < |part| && part[j] != [] && part[j][0].cls == m ==>
         |part[i]| < |part[j]| || (|part[i]| == |part[j]| && i <= j)
  }

  method FindDonor(part: seq<Group>, m: string) returns (donor: Option<nat>)
    ensures donor.Some? <==> Count(part, m) > 0
    ensures donor.Some? ==> FirstSmallest(part, m, donor.value)
  {
    donor := None;
    var i := 0;
    while i < |part|
      invariant 0 <= i <= |part|
      invariant donor.Some? ==> donor.value < i && OfClass(part[donor.value], m)
      invariant donor.Some? ==> forall j :: 0 <= j < i && OfClass(part[j], m) ==>
        |part[donor.value]| <= |part[j]| && (|part[donor.value]| == |part[j]| ==> donor.value <= j)
      invariant donor.None? ==> forall j :: 0 <= j < i ==> !OfClass(part[j], m)
    {
      if OfClass(part[i], m) && (donor.None? || |part[i]| < |part[donor.value]|) {
        donor := Some(i);
      }
      i := i + 1;
    }
    CountPositive(part, m);
  }

  function Moved(parts: Parts, giver: Name, i: nat, taker: Name): Parts
    requires i < |Part(parts, giver)|
  {
    var g := Part(parts, giver)[i];
    WithPart(WithPart(parts, giver, Without(Part(parts, giver), i)), taker, Part(parts, taker) + [g])
  }

  lemma MovedAll(parts: Parts, giver: Name, i: nat, taker: Name)
    requires giver != taker && i < |Part(parts, giver)|
    ensures All(Moved(parts, giver, i, taker)) == All(parts)
  {
    CountWithout(Part(parts, giver), i, "");
  }

  lemma MovedCounts(parts: Parts, giver: Name, i: nat, taker: Name, d: string)
    requires giver != taker && i < |Part(parts, giver)|
    ensures var later := Moved(parts, giver, i, taker);
      var one := if OfClass(Part(parts, giver)[i], d) then 1 else 0;
      forall k :: Count(Part(later, k), d)
        == Count(Part(parts, k), d) + (if k == taker then one else 0) - (if k == giver then one else 0)
  {
    hide Count, OfClass, Without;
    var g := Part(parts, giver)[i];
    CountWithout(Part(parts, giver), i, d);
    CountConcat(Part(parts, taker), [g], d);
    CountOne(g, d);
  }

  /** Handing on one group of class `m` is what inheriting means for its numbers. */
  lemma MovedInherits(parts: Parts, giver: Name, i: nat, taker: Name, m: string)
    requires i < |Part(parts, giver)| && OfClass(Part(parts, giver)[i], m)
    requires Count(Part(parts, taker), m) == 0
    requires giver == Train || (giver == Test && Count(parts.train, m) == 0)
    ensures All(Moved(parts, giver, i, taker)) == All(parts)
    ensures forall d :: d != m ==> Counts(Moved(parts, giver, i, taker), d) == Counts(parts, d)
    ensures Counts(Moved(parts, giver, i, taker), m) == Inherit(Counts(parts, m), taker)
  {
    CountPositive(Part(parts, giver), m);
    MovedAll(parts, giver, i, taker);
    forall d | d != m ensures Counts(Moved(parts, giver, i, taker), d) == Counts(parts, d) {
      MovedCounts(parts, giver, i, taker, d);
      SameCounts(Moved(parts, giver, i, taker), parts, d);
    }
    MovedCounts(parts, giver, i, taker, m);
    InheritedCounts(parts, giver, Moved(parts, giver, i, taker), taker, m);
  }

  lemma SameCounts(a: Parts, b: Parts, d: string)
    requires forall k :: Count(Part(a, k), d) == Count(Part(b, k), d)
    ensures Counts(a, d) == Counts(b, d)
  {
    assert Part(a, Train) == a.train && Part(a, Val) == a.val && Part(a, Test) == a.test;
  }

  lemma InheritedCounts(parts: Parts, giver: Name, later: Parts, taker: Name, m: string)
    requires giver != taker && (giver == Train || (giver == Test && Count(parts.train, m) == 0))
    requires Count(Part(parts, taker), m) == 0 && Count(Part(parts, giver), m) > 0
    requires forall k :: Count(Part(later, k), m)
               == Count(Part(parts, k), m) + (if k == taker then 1 else 0) - (if k == giver then 1 else 0)
    ensures Counts(later, m) == Inherit(Counts(parts, m), taker)
  {
    assert Part(later, Train) == later.train && Part(later, Val) == later.val && Part(later, Test) == later.test;
  }

  /** Every known class that part `k` misses inherits the smallest train group, or else the
      smallest test group, in whatever order the missing classes are taken. */
  method RebalancePart(parts: Parts, k: Name) returns (later: Parts)
    ensures All(later) == All(parts)
    ensures forall c :: c in CLASSES ==> Counts(later, c) == Inherit(Counts(parts, c), k)
    ensures forall c :: c !in CLASSES ==> Counts(later, c) == Counts(parts, c)
  {
    later := parts;
    var missing := set c | c in CLASSES && Count(Part(parts, k), c) == 0;
    while missing != {}
      invariant forall c :: c in missing ==> c in CLASSES && Count(Part(parts, k), c) == 0
      invariant All(later) == All(parts)
      invariant forall c :: c in CLASSES && c !in missing ==> Counts(later, c) == Inherit(Counts(parts, c), k)
      invariant forall c :: c in missing || c !in CLASSES ==> Counts(later, c) == Counts(parts, c)
      decreases |missing|
    {
      var m :| m in missing;
      later := InheritOne(later, k, m);
      missing := missing - {m};
    }
  }

  /** One class that part `k` misses. */
  method InheritOne(parts: Parts, k: Name, m: string) returns (later: Parts)
    requires At(Counts(parts, m), k) == 0
    ensures All(later) == All(parts)
    ensures forall d :: d != m ==> Counts(later, d) == Counts(parts, d)
    ensures Counts(later, m) == Inherit(Counts(parts, m), k)
    ensures if Count(parts.train, m) > 0 then
              exists i: nat :: FirstSmallest(parts.train, m, i) && later == Moved(parts, Train, i, k)
            else if Count(parts.test, m) > 0 then
              exists i: nat :: FirstSmallest(parts.test, m, i) && later == Moved(parts, Test, i, k)
            else later == parts
  {
    later := parts;
    var donor := FindDonor(parts.train, m);
    if donor.Some? {
      MovedInherits(parts, Train, donor.value, k, m);
      later := Moved(parts, Train, donor.value, k);
    } else {
      donor := FindDonor(parts.test, m);
      if donor.Some? {
        MovedInherits(parts, Test, donor.value, k, m);
        later := Moved(parts, Test, donor.value, k);
      }
    }
  }

  /** The numbers of a known class with `n` groups when the split is done. */
  function Final(n: nat, r: Ratios): Triple {
    Inherit(Inherit(Inherit(Triple(TrainCount(n, r), ValCount(n, r), TestCount(n, r)), Train), Val), Test)
  }

  /** From three groups on, what is shared out fairly stays where it is. */
  lemma FinalIsFair(n: nat, r: Ratios)
    requires LeavesTraining(r) && n >= 3
    ensures var x := Final(n, r);
      Fair(x.val, n, r.val) && Fair(x.test, n, r.test) && x.train == n - x.val - x.test
  {
    CountsWhenLeft(n, r);
  }

  /** A known class ends in all three parts if and only if it has at least three groups; a class
      with two misses training, and a class with one is in validation alone. */
  lemma FinalCoverage(n: nat, r: Ratios)
    requires LeavesTraining(r)
    ensures var x := Final(n, r);
      && (x.train > 0 <==> n >= 3) && (x.val > 0 <==> n >= 1) && (x.test > 0 <==> n >= 2)
      && x.train + x.val + x.test == n
  {
    CountsWhenLeft(n, r);
  }

  // ---- no leakage -----------------------------------------------------------------------------------

  lemma {:induction false} FlatConcat(a: seq<Group>, b: seq<Group>)
    ensures Flat(a + b) == Flat(a) + Flat(b)
    decreases |b|
  {
    if b == [] {
      assert a + b == a;
    } else {
      FlatConcat(a, b[..|b| - 1]);
      assert (a + b)[..|a + b| - 1] == a + b[..|b| - 1];
    }
  }

  lemma FlatAround(a: seq<Group>, g: Group, b: seq<Group>)
    ensures multiset(Flat(a + [g] + b)) == multiset(Flat(a + b)) + multiset(g)
  {
    FlatConcat(a + [g], b);
    FlatSnoc(a, g);
    FlatConcat(a, b);
  }

  lemma FlatWithout(gs: seq<Group>, i: nat)
    requires i < |gs|
    ensures multiset(Flat(gs)) == multiset(Flat(Without(gs, i))) + multiset(gs[i])
  {
    hide Flat;
    FlatAround(gs[..i], gs[i], gs[i + 1..]);
    assert gs == gs[..i] + [gs[i]] + gs[i + 1..];
  }

  lemma {:induction false} FlatPermutation(a: seq<Group>, b: seq<Group>)
    requires multiset(a) == multiset(b)
    ensures multiset(Flat(a)) == multiset(Flat(b))
    decreases |a|
  {
    if a == [] {
      assert |multiset(b)| == 0;
    } else {
      var n := |a| - 1;
      var front := a[..n];
      assert a == front + [a[n]];
      assert a[n] in multiset(b);
      var i :| 0 <= i < |b| && b[i] == a[n];
      CountWithout(b, i, "");
      assert multiset(front) == multiset(a) - multiset{a[n]};
      assert multiset(Without(b, i)) == multiset(b) - multiset{a[n]};
      FlatPermutation(front, Without(b, i));
      FlatWithout(b, i);
    }
  }

  lemma {:induction false} InFlat(gs: seq<Group>, x: Item) returns (i: nat)
    requires x in Flat(gs)
    ensures i < |gs| && x in gs[i]
    decreases |gs|
  {
    var n := |gs| - 1;
    if x in gs[n] {
      i := n;
    } else {
      i := InFlat(gs[..n], x);
    }
  }

  /** Groups with distinct keys occur once. */
  lemma KeyedOnce(gs: seq<Group>, i: nat)
    requires Keyed(gs) && i < |gs|
    ensures multiset(gs)[gs[i]] == 1
  {
    var front, back := gs[..i], gs[i + 1..];
    assert gs == front + [gs[i]] + back;
    assert gs[i] !in front;
    assert gs[i] !in back;
  }

  /** No key occurs in both. */
  ghost predicate KeysApart(a: seq<Item>, b: seq<Item>) {
    forall x, y :: x in a && y in b ==> x.key != y.key
  }

  /** Two parts of one grouping share no key. */
  lemma PartsApart(groups: seq<Group>, a: seq<Group>, b: seq<Group>)
    requires Keyed(groups) && multiset(a) + multiset(b) <= multiset(groups)
    ensures KeysApart(Flat(a), Flat(b))
  {
    forall x, y | x in Flat(a) && y in Flat(b) ensures x.key != y.key {
      var i := InFlat(a, x);
      var j := InFlat(b, y);
      assert a[i] in multiset(groups) && b[j] in multiset(groups);
      var p :| 0 <= p < |groups| && groups[p] == a[i];
      var q :| 0 <= q < |groups| && groups[q] == b[j];
      KeyedOnce(groups, p);
      assert multiset(a)[a[i]] >= 1 && multiset(b)[b[j]] >= 1;
    }
  }

  lemma PartsKeepItems(groups: seq<Group>, parts: Parts)
    requires All(parts) == multiset(groups)
    ensures multiset(Flat(parts.train) + Flat(parts.val) + Flat(parts.test)) == multiset(Flat(groups))
  {
    FlatPermutation(parts.train + parts.val + parts.test, groups);
    FlatConcat(parts.train + parts.val, parts.test);
    FlatConcat(parts.train, parts.val);
  }

  // ---- the split ------------------------------------------------------------------------------------

  /** Assigns and rebalances all groups. */
  method SplitGroups(groups: seq<Group>, r: Ratios, draws: nat -> nat) returns (parts: Parts)
    requires forall i :: 0 <= i < |groups| ==> groups[i] != []
    ensures All(parts) == multiset(groups)
    ensures forall c :: c in CLASSES ==> Counts(parts, c) == Final(Count(groups, c), r)
    ensures forall c :: c !in CLASSES ==> Assigned(parts, c, Count(groups, c), r)
  {
    var order, byClass := ByClass(groups);
    parts := Assign(order, byClass, r, draws);
    ghost var first := parts;
    assert forall c :: c !in byClass ==> Count(groups, c) == 0;
    assert forall c :: Assigned(first, c, Count(groups, c), r);
    parts := RebalancePart(parts, Train);
    parts := RebalancePart(parts, Val);
    parts := RebalancePart(parts, Test);
  }

  /** The split: for every input, ratios and shuffle the parts hold exactly the items, and no key
      is in two parts. If the ratios leave a group for training, each class of at least three groups
      has its fair share of them in validation and in test, and the rest in training; a known class
      of fewer has one in validation and then one in test, and any other class of fewer stays in
      training. */
  method SessionAwareSplit(items: seq<Item>, r: Ratios, draws: nat -> nat)
    returns (train: seq<Item>, val: seq<Item>, test: seq<Item>, ghost groups: seq<Group>, ghost parts: Parts)
    ensures multiset(train + val + test) == multiset(items)
    ensures KeysApart(train, val) && KeysApart(train, test) && KeysApart(val, test)
    ensures Keyed(groups) && multiset(Flat(groups)) == multiset(items) && All(parts) == multiset(groups)
    ensures train == Flat(parts.train) && val == Flat(parts.val) && test == Flat(parts.test)
    ensures LeavesTraining(r) ==> forall c :: c in CLASSES ==>
      && (Count(parts.train, c) > 0 <==> Count(groups, c) >= 3)
      && (Count(parts.val, c) > 0 <==> Count(groups, c) >= 1)
      && (Count(parts.test, c) > 0 <==> Count(groups, c) >= 2)
    ensures LeavesTraining(r) ==> forall c :: Count(groups, c) >= 3 ==>
      && Fair(Count(parts.val, c), Count(groups, c), r.val) && Fair(Count(parts.test, c), Count(groups, c), r.test)
      && Count(parts.train, c) == Count(groups, c) - Count(parts.val, c) - Count(parts.test, c) > 0
    ensures forall c :: c !in CLASSES && Count(groups, c) < 3 ==> Count(parts.train, c) == Count(groups, c)
  {
    var gs := GroupBySession(items);
    var ps := SplitGroups(gs, r, draws);
    groups, parts := gs, ps;
    train, val, test := Flat(ps.train), Flat(ps.val), Flat(ps.test);
    PartsKeepItems(gs, ps);
    PartsApart(gs, ps.train, ps.val);
    PartsApart(gs, ps.train, ps.test);
    PartsApart(gs, ps.val, ps.test);
    if LeavesTraining(r) {
      forall c | c in CLASSES
        ensures Count(ps.train, c) > 0 <==> Count(gs, c) >= 3
        ensures Count(ps.val, c) > 0 <==> Count(gs, c) >= 1
        ensures Count(ps.test, c) > 0 <==> Count(gs, c) >= 2
      {
        FinalCoverage(Count(gs, c), r);
      }
      forall c | Count(gs, c) >= 3
        ensures Fair(Count(ps.val, c), Count(gs, c), r.val) && Fair(Count(ps.test, c), Count(gs, c), r.test)
        ensures Count(ps.train, c) == Count(gs, c) - Count(ps.val, c) - Count(ps.test, c) > 0
      {
        CountsWhenLeft(Count(gs, c), r);
        if c in CLASSES {
          FinalIsFair(Count(gs, c), r);
        }
      }
    }
  }
}
