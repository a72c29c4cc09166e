/**
 * The explore page's selection state (BikesGroupedClient): a map from
 * selection key to quantity, built from the groups on display, merged with
 * what localStorage held, reconciled with the groups whenever they change,
 * changed one key at a time within [0, 5], and totalled.
 */
module Explore {
  import opened Wrappers
  import opened Numbers
  import opened Catalog
  import opened SelectionKeys
  import opened Browser

  /** `m[k] ?? 0`: the quantity of a present key, 0 for a missing one. */
  function Lookup(m: map<string, int>, k: string): (q: int)
    ensures k in m ==> q == m[k]
    ensures k !in m ==> q == 0
  {
    if k in m then m[k] else 0
  }

  /** The all-zero map of the valid keys. */
  function InitialMap(groups: seq<Group>): (m: map<string, int>)
    ensures m.Keys == ValidKeys(groups)
  {
    map k | k in ValidKeys(groups) :: 0
  }

  /** The map reconcile produces: exactly the valid keys, each carrying its
      previous value or 0. */
  function Reconciled(groups: seq<Group>, prev: map<string, int>): (next: map<string, int>)
    ensures next.Keys == ValidKeys(groups)
  {
    map k | k in ValidKeys(groups) :: Lookup(prev, k)
  }

  /** The state initialiser: the initial map overwritten by the stored map
      (`{...initial, ...parsed}`), or the initial map when nothing usable
      is stored. */
  function StartupMerge(initial: map<string, int>, stored: Option<map<string, int>>): (m: map<string, int>)
    ensures stored.None? ==> m == initial
    ensures stored.Some? ==> m.Keys == initial.Keys + stored.value.Keys
    ensures stored.Some? ==> forall k :: k in stored.value ==> m[k] == stored.value[k]
    ensures stored.Some? ==> forall k :: k in initial && k !in stored.value ==> m[k] == initial[k]
  {
    match stored
    case None => initial
    case Some(parsed) => initial + parsed
  }

  /** The `initial` builder: one zero entry per colour of each bike, or
      one for its base key. */
  method InitialQuantities(groups: seq<Group>) returns (m: map<string, int>)
    ensures m.Keys == ValidKeys(groups)
    ensures forall k :: k in m ==> m[k] == 0
  {
    m := map[];
    var g := 0;
    while g < |groups|
      invariant 0 <= g <= |groups|
      invariant m.Keys == ValidKeys(groups[..g])
      invariant forall k :: k in m ==> m[k] == 0
    {
      var variant, items := groups[g].variant, groups[g].items;
      var idx := 0;
      while idx < |items|
        invariant 0 <= idx <= |items|
        invariant m.Keys == ValidKeys(groups[..g]) + ItemKeys(variant, items[..idx])
        invariant forall k :: k in m ==> m[k] == 0
      {
        m := ZeroBike(m, variant, items[idx], idx);
        assert items[..idx + 1][..idx] == items[..idx];
        idx := idx + 1;
      }
      assert items[..idx] == items;
      assert groups[..g + 1][..g] == groups[..g];
      g := g + 1;
    }
    assert groups[..g] == groups;
  }

  /** The body of the `initial` builder for one bike: a zero entry per
      colour, or one for the base key. */
  method ZeroBike(m: map<string, int>, variant: string, bike: Bike, idx: nat) returns (m': map<string, int>)
    requires forall k :: k in m ==> m[k] == 0
    ensures m'.Keys == m.Keys + BikeKeys(variant, bike, idx)
    ensures forall k :: k in m' ==> m'[k] == 0
  {
    m' := m;
    if |bike.colors| > 0 {
      var c := 0;
      while c < |bike.colors|
        invariant 0 <= c <= |bike.colors|
        invariant m'.Keys == m.Keys + ColorKeys(variant, bike, idx, bike.colors[..c])
        invariant forall k :: k in m' ==> m'[k] == 0
      {
        assert bike.colors[..c + 1] == bike.colors[..c] + [bike.colors[c]];
        m' := m'[ColorKey(variant, bike, idx, bike.colors[c]) := 0];
        c := c + 1;
      }
      assert bike.colors[..c] == bike.colors;
    } else {
      m' := m'[BaseKey(variant, bike, idx) := 0];
    }
  }

  /** The reconcile effect's updater: every valid key, with its previous
      value when it had one and 0 otherwise; nothing else. */
  method ReconcileQuantities(groups: seq<Group>, prev: map<string, int>) returns (next: map<string, int>)
    ensures next.Keys == ValidKeys(groups)
    ensures forall k :: k in next ==> next[k] == Lookup(prev, k)
  {
    next := map[];
    var g := 0;
    while g < |groups|
      invariant 0 <= g <= |groups|
      invariant next.Keys == ValidKeys(groups[..g])
      invariant forall k :: k in next ==> next[k] == Lookup(prev, k)
    {
      var variant, items := groups[g].variant, groups[g].items;
      var idx := 0;
      while idx < |items|
        invariant 0 <= idx <= |items|
        invariant next.Keys == ValidKeys(groups[..g]) + ItemKeys(variant, items[..idx])
        invariant forall k :: k in next ==> next[k] == Lookup(prev, k)
      {
        next := ReconcileBike(next, prev, variant, items[idx], idx);
        assert items[..idx + 1][..idx] == items[..idx];
        idx := idx + 1;
      }
      assert items[..idx] == items;
      assert groups[..g + 1][..g] == groups[..g];
      g := g + 1;
    }
    assert groups[..g] == groups;
  }

  /** The body of the reconcile updater for one bike: each of its keys
      carries `prev[key] ?? 0`. */
  method ReconcileBike(next: map<string, int>, prev: map<string, int>, variant: string, bike: Bike, idx: nat)
    returns (next': map<string, int>)
    requires forall k :: k in next ==> next[k] == Lookup(prev, k)
    ensures next'.Keys == next.Keys + BikeKeys(variant, bike, idx)
    ensures forall k :: k in next' ==> next'[k] == Lookup(prev, k)
  {
    next' := next;
    if |bike.colors| > 0 {
      var c := 0;
      while c < |bike.colors|
        invariant 0 <= c <= |bike.colors|
        invariant next'.Keys == next.Keys + ColorKeys(variant, bike, idx, bike.colors[..c])
        invariant forall k :: k in next' ==> next'[k] == Lookup(prev, k)
      {
        assert bike.colors[..c + 1] == bike.colors[..c] + [bike.colors[c]];
        var colorKey := ColorKey(variant, bike, idx, bike.colors[c]);
        next' := next'[colorKey := if colorKey in prev then prev[colorKey] else 0];
        c := c + 1;
      }
      assert bike.colors[..c] == bike.colors;
    } else {
      var baseKey := BaseKey(variant, bike, idx);
      next' := next'[baseKey := if baseKey in prev then prev[baseKey] else 0];
    }
  }

  /** Reconciling twice with the same groups changes nothing more. */
  lemma ReconcileIdempotent(groups: seq<Group>, prev: map<string, int>)
    ensures Reconciled(groups, Reconciled(groups, prev)) == Reconciled(groups, prev)
  {
  }

  /** The initial map is what reconciling an empty map gives. */
  lemma InitialIsReconciledEmpty(groups: seq<Group>)
    ensures InitialMap(groups) == Reconciled(groups, map[])
  {
  }

  /** Merging the stored map into the initial one and then reconciling is
      the same as reconciling the stored map: the merge's extra keys are
      dropped and its zeros are what reconcile would give anyway. */
  lemma MergeThenReconcile(groups: seq<Group>, stored: Option<map<string, int>>)
    ensures Reconciled(groups, StartupMerge(InitialMap(groups), stored))
            == Reconciled(groups, stored.GetOr(map[]))
  {
    var merged := StartupMerge(InitialMap(groups), stored);
    forall k | k in ValidKeys(groups)
      ensures Lookup(merged, k) == Lookup(stored.GetOr(map[]), k)
    {
    }
  }

  // ---------------------------------------------------------------------
  // Changing one quantity

  /** `Math.min(5, Math.max(0, x))` */
  function Clamp(x: int): (r: int)
    ensures 0 <= r <= 5
    ensures 0 <= x <= 5 ==> r == x
  {
    if x > 5 then 5 else if x < 0 then 0 else x
  }

  /** `changeQty`'s updater: the key's quantity becomes the clamped sum,
      a missing key counting as 0; when that is the current value the map
      is returned as it was. */
  function ChangeQuantity(prev: map<string, int>, key: string, delta: int): (next: map<string, int>)
    ensures Lookup(next, key) == Clamp(Lookup(prev, key) + delta)
    ensures key in next ==> 0 <= next[key] <= 5
    ensures Clamp(Lookup(prev, key) + delta) == Lookup(prev, key) ==> next == prev
    ensures key !in prev ==> (key in next <==> delta > 0)
    ensures next.Keys - {key} == prev.Keys - {key}
    ensures forall k :: k in prev && k != key ==> k in next && next[k] == prev[k]
  {
    var cur := Lookup(prev, key);
    var n := Clamp(cur + delta);
    if n == cur then prev else prev[key := n]
  }

  /** A step up followed by a step down restores a quantity below 5. */
  lemma IncrementThenDecrement(m: map<string, int>, key: string)
    requires key in m && 0 <= m[key] < 5
    ensures ChangeQuantity(ChangeQuantity(m, key, 1), key, -1) == m
  {
    var up := ChangeQuantity(m, key, 1);
    assert up == m[key := m[key] + 1];
  }

  // ---------------------------------------------------------------------
  // Totals

  /** Some key of a non-empty map (the order of the sum does not matter). */
  ghost function Pick(m: map<string, int>): (k: string)
    requires |m| > 0
    ensures k in m
  {
    var k :| k in m; k
  }

  /** The sum of the values of a map: never negative when no value is, and
      0 when every value is. */
  ghost function MapSum(m: map<string, int>): (sum: int)
    ensures (forall k :: k in m ==> m[k] >= 0) ==> sum >= 0
    ensures (forall k :: k in m ==> m[k] == 0) ==> sum == 0
    decreases |m|
  {
    if |m| == 0 then 0
    else
      var k := Pick(m);
      assert (m - {k}).Keys == m.Keys - {k};
      m[k] + MapSum(m - {k})
  }

  /** Any key may be taken out first. */
  lemma {:induction false} MapSumPick(m: map<string, int>, k: string)
    requires k in m
    ensures MapSum(m) == m[k] + MapSum(m - {k})
    decreases |m|
  {
    var j := Pick(m);
    assert (m - {j}).Keys == m.Keys - {j};
    if j != k {
      assert (m - {k}).Keys == m.Keys - {k};
      MapSumPick(m - {j}, k);
      MapSumPick(m - {k}, j);
      assert m - {j} - {k} == m - {k} - {j};
    }
  }

  /** `totalSelected`: the sum of all quantities, whatever their keys. */
  ghost function TotalSelected(m: map<string, int>): (total: int)
    ensures NonNegative(m) ==> total >= 0
  {
    MapSum(m)
  }

  /** Setting one key moves the total by the difference. */
  lemma TotalSelectedAfterUpdate(m: map<string, int>, key: string, v: int)
    ensures TotalSelected(m[key := v]) == TotalSelected(m) - Lookup(m, key) + v
  {
    var m' := m[key := v];
    MapSumPick(m', key);
    assert m' - {key} == m - {key};
    if key in m {
      MapSumPick(m, key);
    } else {
      assert m - {key} == m;
    }
  }

  /** One `changeQty` moves the total by exactly the clamped step: the new
      quantity of the key minus its old one. */
  lemma TotalSelectedAfterChange(m: map<string, int>, key: string, delta: int)
    requires 0 <= Lookup(m, key) <= 5
    ensures TotalSelected(ChangeQuantity(m, key, delta)) - TotalSelected(m)
            == Clamp(Lookup(m, key) + delta) - Lookup(m, key)
  {
    var next := ChangeQuantity(m, key, delta);
    if next != m {
      assert next == m[key := Clamp(Lookup(m, key) + delta)];
      TotalSelectedAfterUpdate(m, key, Clamp(Lookup(m, key) + delta));
    }
  }

  predicate NonNegative(m: map<string, int>) {
    forall k :: k in m ==> m[k] >= 0
  }

  /** With no negative quantity, the total is 0 exactly when nothing is
      selected. */
  lemma {:induction false} TotalSelectedZero(m: map<string, int>)
    requires NonNegative(m)
    ensures TotalSelected(m) >= 0
    ensures TotalSelected(m) == 0 <==> forall k :: k in m ==> m[k] == 0
    decreases |m|
  {
    if |m| > 0 {
      var k := Pick(m);
      assert (m - {k}).Keys == m.Keys - {k};
      TotalSelectedZero(m - {k});
      if TotalSelected(m) == 0 {
        forall j | j in m ensures m[j] == 0 {
          if j != k {
            assert j in m - {k};
          }
        }
      }
    }
  }

  /** `handlePlaceOrder`'s guard: navigation to the confirmation page
      happens only when something is selected. */
  ghost predicate PlaceOrderAllowed(m: map<string, int>) {
    TotalSelected(m) != 0
  }

  /** With no negative quantity, an order can be placed exactly when some
      key has a positive quantity. */
  lemma PlaceOrderAllowedIff(m: map<string, int>)
    requires NonNegative(m)
    ensures PlaceOrderAllowed(m) <==> exists k :: k in m && m[k] > 0
  {
    TotalSelectedZero(m);
  }

  /** The unit price the explore page uses: `parseFloat` of a string price,
      `undefined || 0` otherwise. */
  function ExplorePrice(bike: Bike): (price: Num)
    ensures bike.onRoadPrice.None? ==> price == Some(0)
    ensures bike.onRoadPrice == Some("") ==> price == NaN
  {
    match bike.onRoadPrice
    case None => Some(0)
    case Some(s) => ParseFloat(s)
  }

  /** The inner colour fold of `totalPurchaseAmount`: quantity times price
      over the given colours. */
  function ColorsAmount(variant: string, bike: Bike, idx: nat, colors: seq<string>, price: Num,
                        m: map<string, int>): (amount: Num)
    ensures colors != [] ==> (amount.Some? <==> price.Some?)
    ensures price == Some(0) ==> amount == Some(0)
    decreases |colors|
  {
    if colors == [] then Some(0)
    else
      var last := colors[|colors| - 1];
      Add(ColorsAmount(variant, bike, idx, colors[..|colors| - 1], price, m),
          Mul(Some(Lookup(m, ColorKey(variant, bike, idx, last))), price))
  }

  /** What one bike adds to `totalPurchaseAmount`: a number exactly when
      its price parses. */
  function BikeAmount(variant: string, bike: Bike, idx: nat, m: map<string, int>): (amount: Num)
    ensures amount.Some? <==> ExplorePrice(bike).Some?
  {
    var price := ExplorePrice(bike);
    if |bike.colors| > 0 then ColorsAmount(variant, bike, idx, bike.colors, price, m)
    else Mul(Some(Lookup(m, BaseKey(variant, bike, idx))), price)
  }

  /** The fold over one group's bikes. */
  function GroupAmount(variant: string, items: seq<Bike>, m: map<string, int>): Num
    decreases |items|
  {
    if items == [] then Some(0)
    else
      var n := |items| - 1;
      Add(GroupAmount(variant, items[..n], m), BikeAmount(variant, items[n], n, m))
  }

  /** `totalPurchaseAmount`: the fold over the groups. */
  function TotalPurchaseAmount(groups: seq<Group>, m: map<string, int>): Num
    decreases |groups|
  {
    if groups == [] then Some(0)
    else
      var n := |groups| - 1;
      Add(TotalPurchaseAmount(groups[..n], m), GroupAmount(groups[n].variant, groups[n].items, m))
  }

  /** The colour quantities of a bike, summed. */
  function ColorsTotal(variant: string, bike: Bike, idx: nat, colors: seq<string>, m: map<string, int>): int
    decreases |colors|
  {
    if colors == [] then 0
    else ColorsTotal(variant, bike, idx, colors[..|colors| - 1], m)
         + Lookup(m, ColorKey(variant, bike, idx, colors[|colors| - 1]))
  }

  /** `bikeTotal`: a bike's quantity over all its colours, or its base-key
      quantity when it has none. */
  function BikeTotal(variant: string, bike: Bike, idx: nat, m: map<string, int>): int {
    if |bike.colors| > 0 then ColorsTotal(variant, bike, idx, bike.colors, m)
    else Lookup(m, BaseKey(variant, bike, idx))
  }

  /** Quantities that `changeQty` keeps in 0..5. */
  predicate InRange(m: map<string, int>) {
    forall k :: k in m ==> 0 <= m[k] <= 5
  }

  /** With every quantity in 0..5, the colours of a bike total at most
      five per colour. */
  lemma {:induction false} ColorsTotalBounded(variant: string, bike: Bike, idx: nat, colors: seq<string>,
                                              m: map<string, int>)
    requires InRange(m)
    ensures 0 <= ColorsTotal(variant, bike, idx, colors, m) <= 5 * |colors|
    decreases |colors|
  {
    if colors != [] {
      ColorsTotalBounded(variant, bike, idx, colors[..|colors| - 1], m);
    }
  }

  /** With every quantity in 0..5, `bikeTotal` is at most five per colour,
      or five for a bike without colours. */
  lemma BikeTotalBounded(variant: string, bike: Bike, idx: nat, m: map<string, int>)
    requires InRange(m)
    ensures 0 <= BikeTotal(variant, bike, idx, m) <= 5 * (if |bike.colors| > 0 then |bike.colors| else 1)
  {
    if |bike.colors| > 0 {
      ColorsTotalBounded(variant, bike, idx, bike.colors, m);
    }
  }

  lemma {:induction false} ColorsAmountIsPriceTimesTotal(variant: string, bike: Bike, idx: nat,
                                                         colors: seq<string>, price: Num, m: map<string, int>)
    requires colors != []
    ensures ColorsAmount(variant, bike, idx, colors, price, m)
            == Mul(Some(ColorsTotal(variant, bike, idx, colors, m)), price)
    decreases |colors|
  {
    var init := colors[..|colors| - 1];
    if init != [] {
      ColorsAmountIsPriceTimesTotal(variant, bike, idx, init, price, m);
    }
    if price.Some? {
      var q := Lookup(m, ColorKey(variant, bike, idx, colors[|colors| - 1]));
      assert (ColorsTotal(variant, bike, idx, init, m) + q) * price.value
             == ColorsTotal(variant, bike, idx, init, m) * price.value + q * price.value;
    }
  }

  /** What a bike adds to the grand total is its price times its
      `bikeTotal`. */
  lemma BikeAmountIsPriceTimesTotal(variant: string, bike: Bike, idx: nat, m: map<string, int>)
    ensures BikeAmount(variant, bike, idx, m) == Mul(Some(BikeTotal(variant, bike, idx, m)), ExplorePrice(bike))
  {
    if |bike.colors| > 0 {
      ColorsAmountIsPriceTimesTotal(variant, bike, idx, bike.colors, ExplorePrice(bike), m);
    }
  }

  /** The sum over a group's bikes of price times `bikeTotal`. */
  function GroupAmountByBikes(variant: string, items: seq<Bike>, m: map<string, int>): Num
    decreases |items|
  {
    if items == [] then Some(0)
    else
      var idx := |items| - 1;
      Add(GroupAmountByBikes(variant, items[..idx], m),
          Mul(Some(BikeTotal(variant, items[idx], idx, m)), ExplorePrice(items[idx])))
  }

  /** A group's share of `totalPurchaseAmount` is the sum over its bikes of
      price times `bikeTotal`. */
  lemma {:induction false} GroupAmountAgrees(variant: string, items: seq<Bike>, m: map<string, int>)
    ensures GroupAmount(variant, items, m) == GroupAmountByBikes(variant, items, m)
    decreases |items|
  {
    if items != [] {
      var idx := |items| - 1;
      GroupAmountAgrees(variant, items[..idx], m);
      BikeAmountIsPriceTimesTotal(variant, items[idx], idx, m);
    }
  }

  /** The grand total as the sum over the groups of their
      price-times-`bikeTotal` sums. */
  function TotalByBikes(groups: seq<Group>, m: map<string, int>): Num
    decreases |groups|
  {
    if groups == [] then Some(0)
    else
      var n := |groups| - 1;
      Add(TotalByBikes(groups[..n], m), GroupAmountByBikes(groups[n].variant, groups[n].items, m))
  }

  /** `totalPurchaseAmount` is the sum over every bike of its price times
      its `bikeTotal`. */
  lemma {:induction false} TotalPurchaseAmountAgrees(groups: seq<Group>, m: map<string, int>)
    ensures TotalPurchaseAmount(groups, m) == TotalByBikes(groups, m)
    decreases |groups|
  {
    if groups != [] {
      var n := |groups| - 1;
      TotalPurchaseAmountAgrees(groups[..n], m);
      GroupAmountAgrees(groups[n].variant, groups[n].items, m);
    }
  }

  /** One bike whose price does not parse makes the grand total NaN, even
      when nothing at all is selected. */
  lemma {:induction false} NaNPricePoisonsTotal(groups: seq<Group>, m: map<string, int>, g: nat, j: nat)
    requires g < |groups| && j < |groups[g].items|
    requires ExplorePrice(groups[g].items[j]) == NaN
    ensures TotalPurchaseAmount(groups, m) == NaN
    decreases |groups|
  {
    var n := |groups| - 1;
    var rest, last := TotalPurchaseAmount(groups[..n], m), GroupAmount(groups[n].variant, groups[n].items, m);
    assert rest == NaN || last == NaN by {
      if g < n {
        assert groups[..n][g] == groups[g];
        NaNPricePoisonsTotal(groups[..n], m, g, j);
      } else {
        NaNBikePoisonsGroup(groups[n].variant, groups[n].items, m, j);
      }
    }
    assert TotalPurchaseAmount(groups, m) == Add(rest, last);
  }

  /** One bike whose price does not parse makes its group's amount NaN. */
  lemma {:induction false} NaNBikePoisonsGroup(variant: string, items: seq<Bike>, m: map<string, int>, j: nat)
    requires j < |items| && ExplorePrice(items[j]) == NaN
    ensures GroupAmount(variant, items, m) == NaN
    decreases |items|
  {
    var n := |items| - 1;
    var rest, last := GroupAmount(variant, items[..n], m), BikeAmount(variant, items[n], n, m);
    assert GroupAmount(variant, items, m) == Add(rest, last);
    if j < n {
      assert items[..n][j] == items[j];
      NaNBikePoisonsGroup(variant, items[..n], m, j);
    } else {
      assert j == n;
      assert ExplorePrice(items[n]).None?;
      assert last.None?;
    }
  }

  /** Two distinct keys holding `q1` and `q2` select `q1 + q2` units. */
  lemma TwoKeysSelected(k1: string, k2: string, q1: int, q2: int)
    requires k1 != k2
    ensures TotalSelected(map[k1 := q1, k2 := q2]) == q1 + q2
  {
    var m := map[k1 := q1, k2 := q2];
    MapSumPick(m, k1);
    assert m - {k1} == map[k2 := q2];
    MapSumPick(map[k2 := q2], k2);
    assert map[k2 := q2] - {k2} == map[];
  }

  /** A group holding one bike offered in two colours has exactly the two
      colour keys. */
  lemma TwoColourKeys(variant: string, bike: Bike, c1: string, c2: string)
    requires bike.colors == [c1, c2]
    ensures ValidKeys([Group(variant, [bike])]) == {ColorKey(variant, bike, 0, c1), ColorKey(variant, bike, 0, c2)}
  {
    var groups := [Group(variant, [bike])];
    assert ValidKeys(groups) == ItemKeys(variant, [bike]) by {
      assert groups[..0] == [];
    }
    assert ItemKeys(variant, [bike]) == BikeKeys(variant, bike, 0) by {
      assert [bike][..0] == [];
    }
    assert BikeKeys(variant, bike, 0) == ColorKeys(variant, bike, 0, [c1, c2]);
    assert ColorKeys(variant, bike, 0, [c1, c2]) == {ColorKey(variant, bike, 0, c1), ColorKey(variant, bike, 0, c2)} by {
      assert c1 in [c1, c2] && c2 in [c1, c2];
    }
  }

  /** For that bike, the purchase amount is its price times the sum of the
      two colour quantities. */
  lemma TwoColourAmount(variant: string, bike: Bike, c1: string, c2: string, m: map<string, int>)
    requires bike.colors == [c1, c2]
    ensures TotalPurchaseAmount([Group(variant, [bike])], m)
            == Mul(Some(Lookup(m, ColorKey(variant, bike, 0, c1)) + Lookup(m, ColorKey(variant, bike, 0, c2))),
                   ExplorePrice(bike))
  {
    var t1, t2 := Lookup(m, ColorKey(variant, bike, 0, c1)), Lookup(m, ColorKey(variant, bike, 0, c2));
    assert BikeTotal(variant, bike, 0, m) == t1 + t2 by {
      assert [c1][..0] == [] && bike.colors[..1] == [c1];
      assert ColorsTotal(variant, bike, 0, [c1], m) == t1;
    }
    BikeAmountIsPriceTimesTotal(variant, bike, 0, m);
    SingleBikeAmount(variant, bike, m);
  }

  /** A grouping of one bike totals what that bike adds. */
  lemma SingleBikeAmount(variant: string, bike: Bike, m: map<string, int>)
    ensures TotalPurchaseAmount([Group(variant, [bike])], m) == BikeAmount(variant, bike, 0, m)
  {
    var amount := BikeAmount(variant, bike, 0, m);
    assert Add(Some(0), amount) == amount by {
      if amount.Some? {
        assert Add(Some(0), amount).value == amount.value;
      }
    }
    var group := GroupAmount(variant, [bike], m);
    assert group == amount by {
      assert [bike][..0] == [] && [bike][0] == bike;
      assert group == Add(GroupAmount(variant, [bike][..0], m), BikeAmount(variant, [bike][0], 0, m));
    }
    assert [Group(variant, [bike])][..0] == [];
  }

  // ---------------------------------------------------------------------
  // The component's state

  /** One mounted explore page: the groups it shows, its quantity state and
      the localStorage it persists that state to. */
  class BikesGroupedClient {
    const storage: LocalStorage
    var groupedBikes: seq<Group>
    var quantities: map<string, int>

    /** After every commit the state has exactly the valid keys and the
        persist effect has written it to storage. */
    ghost predicate Valid()
      reads this, storage
    {
      && quantities.Keys == ValidKeys(groupedBikes)
      && storage.bikeQuantities == Some(quantities)
    }

    /** Mounting: the state initialiser merges storage over the initial map,
        then the reconcile effect and the persist effect run. */
    constructor (groups: seq<Group>, storage: LocalStorage)
      modifies storage
      ensures Valid() && this.storage == storage && groupedBikes == groups
      ensures quantities == Reconciled(groups, StartupMerge(InitialMap(groups), old(storage.bikeQuantities)))
    {
      this.storage := storage;
      groupedBikes := groups;
      var initial := InitialQuantities(groups);
      quantities := StartupMerge(initial, storage.bikeQuantities);
      new;
      assert initial == InitialMap(groups);
      SyncWithGroups();
    }

    /** The reconcile effect followed by the persist effect. */
    method SyncWithGroups()
      modifies this`quantities, storage
      ensures Valid() && groupedBikes == old(groupedBikes)
      ensures quantities == Reconciled(groupedBikes, old(quantities))
    {
      var next := ReconcileQuantities(groupedBikes, quantities);
      quantities := next;
      storage.bikeQuantities := Some(quantities);
    }

    /** New groups arrive as props: the reconcile effect runs again. */
    method SetGroups(groups: seq<Group>)
      modifies this, storage
      ensures Valid() && groupedBikes == groups
      ensures quantities == Reconciled(groups, old(quantities))
    {
      groupedBikes := groups;
      SyncWithGroups();
    }

    /** A + or - button: `changeQty(key, delta)` on a key the page shows;
        the persist effect runs only when the state object changed. */
    method ChangeQty(key: string, delta: int)
      requires Valid() && key in ValidKeys(groupedBikes)
      modifies this`quantities, storage
      ensures Valid()
      ensures quantities == ChangeQuantity(old(quantities), key, delta)
      ensures 0 <= quantities[key] <= 5
    {
      var next := ChangeQuantity(quantities, key, delta);
      if next != quantities {
        quantities := next;
        storage.bikeQuantities := Some(quantities);
      }
    }
  }
}
