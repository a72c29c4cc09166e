/**
 * The order confirmation page: it reads the stored selection map, turns
 * every entry with a positive quantity into an order item by splitting its
 * key at the last "-", prices each item against the bikes `/api/bikes`
 * returns (0 when none matches), totals the subtotals, and on confirmation
 * removes the stored selection.
 */
module Confirmation {
  import opened Wrappers
  import opened Text
  import opened Numbers
  import opened Catalog
  import opened Browser
  import opened SelectionKeys
  import Explore

  datatype OrderItem = OrderItem(
    bikeKey: string,
    vehicleName: string,
    color: string,
    price: Num,
    quantity: int,
    subtotal: Num)

  const UnknownBike: string := "Unknown Bike"

  /** `key.split("-")`: the last part is the colour, the other parts joined
      by "-" again are the bike key part. */
  function SplitAtLastDash(key: string): (r: (string, string))
    ensures '-' in key ==> r.0 + "-" + r.1 == key && '-' !in r.1
    ensures '-' !in key ==> r.0 == "" && r.1 == key
  {
    match LastIndexOf(key, '-')
    case None => ("", key)
    case Some(i) =>
      assert key == key[..i] + "-" + key[i + 1..];
      (key[..i], key[i + 1..])
  }

  /** The unpriced item for one stored entry: the bike key part names the
      bike, or "Unknown Bike" when it is empty. */
  function PendingItem(key: string, qty: int): (item: OrderItem)
    ensures item.quantity == qty && item.price == Some(0) && item.subtotal == Some(0)
    ensures '-' in key ==> item.bikeKey + "-" + item.color == key
    ensures item.vehicleName == if item.bikeKey == "" then UnknownBike else item.bikeKey
  {
    var (part, color) := SplitAtLastDash(key);
    OrderItem(part, if part == "" then UnknownBike else part, color, Some(0), qty, Some(0))
  }

  /** The items the `forEach` pushes: one per entry with a positive
      quantity, in entry order. */
  function PendingItems(entries: seq<(string, int)>): (items: seq<OrderItem>)
    ensures |items| <= |entries|
    ensures forall i :: 0 <= i < |items| ==> items[i].quantity > 0
    decreases |entries|
  {
    if entries == [] then []
    else
      var last := entries[|entries| - 1];
      PendingItems(entries[..|entries| - 1])
      + (if last.1 > 0 then [PendingItem(last.0, last.1)] else [])
  }

  /** The positions of the entries with a positive quantity, in order. */
  function PositiveIndices(entries: seq<(string, int)>): (ix: seq<nat>)
    ensures forall i :: 0 <= i < |ix| ==> ix[i] < |entries| && entries[ix[i]].1 > 0
    ensures forall i, j :: 0 <= i < j < |ix| ==> ix[i] < ix[j]
    ensures forall p :: 0 <= p < |entries| && entries[p].1 > 0 ==> p in ix
    decreases |entries|
  {
    if entries == [] then []
    else
      var n := |entries| - 1;
      var init := PositiveIndices(entries[..n]);
      assert forall p :: 0 <= p < n ==> entries[..n][p] == entries[p];
      init + (if entries[n].1 > 0 then [n] else [])
  }

  /** Item i comes from the i-th entry with a positive quantity: an item
      exists exactly for those entries, in their order. */
  lemma {:induction false} PendingItemsFollowEntries(entries: seq<(string, int)>)
    ensures |PendingItems(entries)| == |PositiveIndices(entries)|
    ensures forall i :: 0 <= i < |PendingItems(entries)| ==>
              var e := entries[PositiveIndices(entries)[i]];
              PendingItems(entries)[i] == PendingItem(e.0, e.1)
    decreases |entries|
  {
    if entries != [] {
      var n := |entries| - 1;
      var init := entries[..n];
      PendingItemsFollowEntries(init);
      var items, ix := PendingItems(init), PositiveIndices(init);
      var all, allIx := PendingItems(entries), PositiveIndices(entries);
      assert all == items + (if entries[n].1 > 0 then [PendingItem(entries[n].0, entries[n].1)] else []);
      assert allIx == ix + (if entries[n].1 > 0 then [n] else []);
      forall i | 0 <= i < |items|
        ensures all[i] == PendingItem(entries[allIx[i]].0, entries[allIx[i]].1)
      {
        assert all[i] == items[i] && allIx[i] == ix[i];
        assert init[ix[i]] == entries[ix[i]];
      }
      if entries[n].1 > 0 {
        assert all[|items|] == PendingItem(entries[allIx[|items|]].0, entries[allIx[|items|]].1);
      }
    }
  }

  /** No item at all exactly when no entry has a positive quantity. */
  lemma PendingItemsEmpty(entries: seq<(string, int)>)
    ensures PendingItems(entries) == [] <==> forall p :: 0 <= p < |entries| ==> entries[p].1 <= 0
  {
    PendingItemsFollowEntries(entries);
    var ix := PositiveIndices(entries);
    if exists p :: 0 <= p < |entries| && entries[p].1 > 0 {
      var p :| 0 <= p < |entries| && entries[p].1 > 0;
      assert p in ix;
      assert |PendingItems(entries)| > 0;
    }
  }

  /** The items-building loop of the mount effect. */
  method CollectItems(entries: seq<(string, int)>) returns (items: seq<OrderItem>)
    ensures items == PendingItems(entries)
  {
    items := [];
    var i := 0;
    while i < |entries|
      invariant 0 <= i <= |entries|
      invariant items == PendingItems(entries[..i])
    {
      var (key, qty) := entries[i];
      if qty > 0 {
        items := items + [PendingItem(key, qty)];
      }
      assert entries[..i + 1][..i] == entries[..i];
      i := i + 1;
    }
    assert entries[..i] == entries;
  }

  // ---------------------------------------------------------------------
  // Stored entries

  /** `order` lists the keys of a map, each once. */
  predicate IsEnumeration(order: seq<string>, keys: set<string>) {
    && (forall i, j :: 0 <= i < j < |order| ==> order[i] != order[j])
    && (forall k :: k in order ==> k in keys)
    && (forall k :: k in keys ==> k in order)
  }

  /** `Object.entries` of the stored map, in the given key order; no entries
      when nothing usable is stored. */
  function StoredEntries(stored: Option<map<string, int>>, order: seq<string>): (entries: seq<(string, int)>)
    requires stored.Some? ==> IsEnumeration(order, stored.value.Keys)
    ensures stored.None? ==> entries == []
    ensures stored.Some? ==> |entries| == |order|
    ensures stored.Some? ==> forall i :: 0 <= i < |entries| ==>
              entries[i].0 == order[i] && entries[i].1 == stored.value[order[i]]
  {
    match stored
    case None => []
    case Some(m) => seq(|order|, i requires 0 <= i < |order| => (order[i], m[order[i]]))
  }

  /** The page shows "No Items Selected" exactly when no stored quantity is
      positive. */
  lemma NoItemsIff(stored: Option<map<string, int>>, order: seq<string>)
    requires stored.Some? ==> IsEnumeration(order, stored.value.Keys)
    ensures PendingItems(StoredEntries(stored, order)) == [] <==>
              (stored.Some? ==> forall k :: k in stored.value ==> stored.value[k] <= 0)
  {
    var entries := StoredEntries(stored, order);
    PendingItemsEmpty(entries);
    if stored.Some? {
      var m := stored.value;
      if exists k :: k in m && m[k] > 0 {
        var k :| k in m && m[k] > 0;
        var i :| 0 <= i < |order| && order[i] == k;
        assert entries[i].1 > 0;
      }
    }
  }

  // ---------------------------------------------------------------------
  // Matching and pricing

  /** `a || b`, for a string that may be undefined. */
  function OrElse(a: Option<string>, b: string): (r: string)
    ensures r == b || (a.Some? && r == a.value)
    ensures b != "" ==> r != ""
  {
    if a.Some? && a.value != "" then a.value else b
  }

  /** The key the page synthesises for a fetched bike: `BikeId-0` when the
      id is not blank, otherwise `variant-VehicleName-ExShowroomPrice-0`
      with the variant trimmed and defaulting to the name, then "Other". */
  function SynthesizedKey(bike: Bike): (key: string)
    ensures |key| >= 2 && key[|key| - 2..] == "-0"
  {
    var variant := Trim(OrElse(bike.variant, OrElse(bike.vehicleName, "Other")));
    if bike.bikeId.Some? && !IsBlank(bike.bikeId.value) then bike.bikeId.value + "-0"
    else variant + "-" + Interpolate(bike.vehicleName) + "-" + Interpolate(bike.exShowroomPrice) + "-0"
  }

  /** The `find` predicate. */
  predicate Matches(bike: Bike, item: OrderItem)
    ensures item.bikeKey == "" ==> (Matches(bike, item) <==> bike.vehicleName == Some(item.vehicleName))
  {
    SynthesizedKey(bike) == item.bikeKey || bike.vehicleName == Some(item.vehicleName)
  }

  /** `Array.prototype.findIndex`: the position of the first element
      satisfying `p`. */
  function FindFirst<T>(xs: seq<T>, p: T -> bool): (r: Option<nat>)
    ensures r.None? <==> forall i :: 0 <= i < |xs| ==> !p(xs[i])
    ensures r.Some? ==> r.value < |xs| && p(xs[r.value])
    ensures r.Some? ==> forall j :: 0 <= j < r.value ==> !p(xs[j])
    decreases |xs|
  {
    if xs == [] then None
    else if p(xs[0]) then Some(0)
    else
      assert forall j :: 1 <= j < |xs| ==> xs[j] == xs[1..][j - 1];
      match FindFirst(xs[1..], p)
      case None => None
      case Some(i) => Some(i + 1)
  }

  /** `bikes.find(...)`: the first matching bike in fetch order. */
  function FindBike(bikes: seq<Bike>, item: OrderItem): (found: Option<Bike>)
    ensures found.None? <==> forall i :: 0 <= i < |bikes| ==> !Matches(bikes[i], item)
    ensures found.Some? ==> exists i :: 0 <= i < |bikes| && bikes[i] == found.value
                                        && Matches(bikes[i], item)
                                        && forall j :: 0 <= j < i ==> !Matches(bikes[j], item)
  {
    match FindFirst(bikes, b => Matches(b, item))
    case None => None
    case Some(i) => Some(bikes[i])
  }

  /** The unit price of a matched bike: `parseFloat(OnRoadPrice || 0)`. */
  function ConfirmationPrice(bike: Bike): (price: Num)
    ensures bike.onRoadPrice.None? || bike.onRoadPrice == Some("") ==> price == Some(0)
  {
    if bike.onRoadPrice.Some? && bike.onRoadPrice.value != "" then ParseFloat(bike.onRoadPrice.value)
    else Some(0)
  }

  /** The two pages read a price the same way except for an empty string:
      `parseFloat("")` is NaN on the explore page, while `"" || 0` is 0 here. */
  lemma PricesAgree(bike: Bike)
    ensures ConfirmationPrice(bike) == if bike.onRoadPrice == Some("") then Some(0) else Explore.ExplorePrice(bike)
    ensures bike.onRoadPrice == Some("") ==> Explore.ExplorePrice(bike) == NaN
  {
  }

  /** One item priced against the fetched bikes. */
  function PriceItem(item: OrderItem, bikes: seq<Bike>): (priced: OrderItem)
    ensures priced.bikeKey == item.bikeKey && priced.color == item.color
    ensures priced.quantity == item.quantity
    ensures priced.subtotal == Mul(priced.price, Some(item.quantity))
    ensures FindBike(bikes, item).None? ==>
              priced.price == Some(0) && priced.subtotal == Some(0) && priced.vehicleName == item.vehicleName
    ensures FindBike(bikes, item).Some? ==>
              priced.price == ConfirmationPrice(FindBike(bikes, item).value)
              && priced.vehicleName == OrElse(FindBike(bikes, item).value.vehicleName, item.vehicleName)
  {
    var bike := FindBike(bikes, item);
    var price := if bike.Some? then ConfirmationPrice(bike.value) else Some(0);
    var name := if bike.Some? then OrElse(bike.value.vehicleName, item.vehicleName) else item.vehicleName;
    item.(vehicleName := name, price := price, subtotal := Mul(price, Some(item.quantity)))
  }

  function PricedItems(items: seq<OrderItem>, bikes: seq<Bike>): (priced: seq<OrderItem>)
    ensures |priced| == |items|
    ensures forall i :: 0 <= i < |items| ==> priced[i] == PriceItem(items[i], bikes)
  {
    seq(|items|, i requires 0 <= i < |items| => PriceItem(items[i], bikes))
  }

  /** The sum of the subtotals, in item order. */
  function SumSubtotals(items: seq<OrderItem>): (total: Num)
    ensures total.Some? <==> forall i :: 0 <= i < |items| ==> items[i].subtotal.Some?
    decreases |items|
  {
    if items == [] then Some(0)
    else
      var n := |items| - 1;
      assert forall i :: 0 <= i < n ==> items[..n][i] == items[i];
      Add(SumSubtotals(items[..n]), items[n].subtotal)
  }

  /** The `items.map` with its running `total += subtotal`. */
  method PriceItems(items: seq<OrderItem>, bikes: seq<Bike>) returns (priced: seq<OrderItem>, total: Num)
    ensures priced == PricedItems(items, bikes)
    ensures total == SumSubtotals(priced)
  {
    priced := [];
    total := Some(0);
    var i := 0;
    while i < |items|
      invariant 0 <= i <= |items|
      invariant priced == PricedItems(items[..i], bikes)
      invariant total == SumSubtotals(priced)
    {
      var item := PriceItem(items[i], bikes);
      total := Add(total, item.subtotal);
      assert PricedItems(items[..i + 1], bikes) == priced + [item];
      priced := priced + [item];
      assert priced[..|priced| - 1] == PricedItems(items[..i], bikes);
      i := i + 1;
    }
    assert items[..i] == items;
  }

  /** Items whose subtotals are all 0 total 0. */
  lemma {:induction false} ZeroPricedAddNothing(items: seq<OrderItem>)
    requires forall i :: 0 <= i < |items| ==> items[i].subtotal == Some(0)
    ensures SumSubtotals(items) == Some(0)
    decreases |items|
  {
    if items != [] {
      ZeroPricedAddNothing(items[..|items| - 1]);
    }
  }

  // ---------------------------------------------------------------------
  // Explore keys meet the confirmation page

  /** An explore key has no "-" when none of its parts has one. */
  lemma ExploreKeyHasNoDash(k: KeyParts)
    requires '-' !in k.variant && '-' !in k.vehicleName && '-' !in k.price
    requires k.color.Some? ==> '-' !in k.color.value
    ensures '-' !in KeyString(k)
  {
    var d := Decimal(k.index);
    assert '-' !in d by {
      forall i | 0 <= i < |d| ensures d[i] != '-' {
        assert IsDigit(d[i]);
      }
    }
  }

  /** An item from a key without "-" is named "Unknown Bike" and has an
      empty bike key; so it matches exactly the bikes named "Unknown Bike". */
  lemma UndashedKeyMatches(key: string, qty: int, bike: Bike)
    requires '-' !in key
    ensures PendingItem(key, qty).bikeKey == "" && PendingItem(key, qty).vehicleName == UnknownBike
    ensures PendingItem(key, qty).color == key
    ensures Matches(bike, PendingItem(key, qty)) <==> bike.vehicleName == Some(UnknownBike)
  {
  }

  /** The explore page lets an order through exactly when the confirmation
      page then has something to show: with no negative quantity stored,
      "Place Order" is allowed if and only if some entry is pending. */
  lemma PlacedOrderShowsItems(m: map<string, int>, order: seq<string>)
    requires IsEnumeration(order, m.Keys)
    requires Explore.NonNegative(m)
    ensures Explore.PlaceOrderAllowed(m) <==> PendingItems(StoredEntries(Some(m), order)) != []
  {
    Explore.PlaceOrderAllowedIff(m);
    NoItemsIff(Some(m), order);
  }

  /** A selection made on the explore page, whose keys contain no "-", is
      priced at 0 throughout unless some bike is literally named
      "Unknown Bike": every item keeps its quantity, and the total is 0. */
  lemma ExploreSelectionPricedAtZero(m: map<string, int>, order: seq<string>, bikes: seq<Bike>)
    requires IsEnumeration(order, m.Keys)
    requires forall k :: k in m ==> '-' !in k
    requires forall i :: 0 <= i < |bikes| ==> bikes[i].vehicleName != Some(UnknownBike)
    ensures var priced := PricedItems(PendingItems(StoredEntries(Some(m), order)), bikes);
            && (forall i :: 0 <= i < |priced| ==> priced[i].price == Some(0) && priced[i].vehicleName == UnknownBike)
            && SumSubtotals(priced) == Some(0)
  {
    var entries := StoredEntries(Some(m), order);
    var items := PendingItems(entries);
    var priced := PricedItems(items, bikes);
    PendingItemsFollowEntries(entries);
    forall i | 0 <= i < |priced|
      ensures priced[i].price == Some(0) && priced[i].subtotal == Some(0)
      ensures priced[i].vehicleName == UnknownBike
    {
      var e := entries[PositiveIndices(entries)[i]];
      assert e.0 in order;
      forall b | 0 <= b < |bikes| ensures !Matches(bikes[b], items[i]) {
        UndashedKeyMatches(e.0, e.1, bikes[b]);
      }
    }
    ZeroPricedAddNothing(priced);
  }

  // ---------------------------------------------------------------------
  // The page

  class ConfirmationPage {
    const storage: LocalStorage
    var orderItems: seq<OrderItem>
    var totalAmount: Num
    var loading: bool

    constructor (storage: LocalStorage)
      ensures this.storage == storage
      ensures orderItems == [] && totalAmount == Some(0) && loading
    {
      this.storage := storage;
      orderItems := [];
      totalAmount := Some(0);
      loading := true;
    }

    /** No order item to show once loading has finished. */
    predicate ShowsNoItems()
      reads this
    {
      !loading && orderItems == []
    }

    /** The mount effect. `order` is the order in which `Object.entries`
        lists the stored keys; `fetched` is the bike list `/api/bikes`
        returned, None when the request or its JSON failed. */
    method Load(order: seq<string>, fetched: Option<seq<Bike>>)
      requires loading && orderItems == [] && totalAmount == Some(0)
      requires storage.bikeQuantities.Some? ==> IsEnumeration(order, storage.bikeQuantities.value.Keys)
      modifies this
      ensures !loading
      ensures var items := PendingItems(StoredEntries(storage.bikeQuantities, order));
              && (fetched.Some? ==> orderItems == PricedItems(items, fetched.value)
                                    && totalAmount == SumSubtotals(orderItems))
              && (fetched.None? ==> orderItems == items && totalAmount == Some(0))
      ensures ShowsNoItems() <==>
                (storage.bikeQuantities.Some? ==>
                   forall k :: k in storage.bikeQuantities.value ==> storage.bikeQuantities.value[k] <= 0)
    {
      var entries := StoredEntries(storage.bikeQuantities, order);
      var items := CollectItems(entries);
      if fetched.Some? {
        var priced, total := PriceItems(items, fetched.value);
        orderItems := priced;
        totalAmount := total;
      } else {
        orderItems := items;
      }
      loading := false;
      NoItemsIff(storage.bikeQuantities, order);
    }

    /** "Confirm Order": the stored selection is removed in one step. */
    method ConfirmOrder()
      modifies storage
      ensures storage.bikeQuantities == None
    {
      storage.bikeQuantities := None;
    }
  }

  /** Confirming an order and going back to the explore page: the cleared
      storage contributes nothing, so every quantity starts at zero again and
      the zero map is what gets stored. */
  method ConfirmThenExplore(page: ConfirmationPage, groups: seq<Group>) returns (client: Explore.BikesGroupedClient)
    modifies page.storage
    ensures client.quantities == Explore.InitialMap(groups)
    ensures forall k :: k in client.quantities ==> client.quantities[k] == 0
    ensures page.storage.bikeQuantities == Some(client.quantities)
  {
    page.ConfirmOrder();
    client := new Explore.BikesGroupedClient(groups, page.storage);
    Explore.InitialIsReconciledEmpty(groups);
    Explore.ReconcileIdempotent(groups, map[]);
  }
}
