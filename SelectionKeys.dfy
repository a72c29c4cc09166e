/**
 * The identity of a selectable unit on the explore page: `getUniqueKey`
 * joins a bike's group variant, name, on-road price and position in its
 * group (and its colour, when there is one) with "__". A catalogue yields
 * one key per colour of each bike, or the bare key of a bike without
 * colours.
 */
module SelectionKeys {
  import opened Wrappers
  import opened Text
  import opened Numbers
  import opened Catalog

  /** A group of the explore page: the bikes sharing one variant, in order. */
  datatype Group = Group(variant: string, items: seq<Bike>)

  /** What a key is made of, each part already interpolated to text. */
  datatype KeyParts = KeyParts(variant: string, vehicleName: string, price: string, index: nat, color: Option<string>)

  /** The colour takes part in the key only when it is a non-empty string
      (`color ? ... : ...`). */
  predicate HasColor(k: KeyParts) {
    k.color.Some? && k.color.value != ""
  }

  /** The key text: `variant__vehicleName__price__index`, followed by
      `__color` when there is a colour. */
  function KeyString(k: KeyParts): string {
    var base := k.variant + "__" + k.vehicleName + "__" + k.price + "__" + Decimal(k.index);
    if HasColor(k) then base + "__" + k.color.value else base
  }

  /** `getUniqueKey(variant, vehicleName, price, index, color)`; an
      `undefined` name or price is written "undefined". */
  function UniqueKey(variant: string, vehicleName: Option<string>, price: Option<string>,
                     index: nat, color: Option<string>): string
  {
    KeyString(KeyParts(variant, Interpolate(vehicleName), Interpolate(price), index, color))
  }

  /** A key made by `getUniqueKey` from separable parts reads back as those
      parts. */
  lemma UniqueKeyReadsBack(variant: string, vehicleName: Option<string>, price: Option<string>,
                           index: nat, color: Option<string>)
    requires Separable(KeyParts(variant, Interpolate(vehicleName), Interpolate(price), index, color))
    ensures ParseKey(UniqueKey(variant, vehicleName, price, index, color))
            == Some(KeyParts(variant, Interpolate(vehicleName), Interpolate(price), index, color))
  {
    KeyRoundTrip(KeyParts(variant, Interpolate(vehicleName), Interpolate(price), index, color));
  }

  /** The key of bike number `idx` of a group, without colour. */
  function BaseKey(variant: string, bike: Bike, idx: nat): string {
    UniqueKey(variant, bike.vehicleName, bike.onRoadPrice, idx, None)
  }

  /** The key of one colour of bike number `idx` of a group. */
  function ColorKey(variant: string, bike: Bike, idx: nat, color: string): string {
    UniqueKey(variant, bike.vehicleName, bike.onRoadPrice, idx, Some(color))
  }

  /** A colour key is the base key extended by "__" and the colour; the
      empty colour, which JavaScript treats as false, gives the base key
      itself. */
  lemma ColorKeyExtendsBase(variant: string, bike: Bike, idx: nat, color: string)
    ensures color != "" ==> ColorKey(variant, bike, idx, color) == BaseKey(variant, bike, idx) + "__" + color
    ensures color == "" ==> ColorKey(variant, bike, idx, color) == BaseKey(variant, bike, idx)
  {
  }

  // ---------------------------------------------------------------------
  // Reading a key back

  /** The reader the round-trip lemmas below use; the ordering tool never
      reads a key back. It returns the pieces of `s` between occurrences of
      "__", reading left to right; a single "_" is not a separator and ends
      the splitting. */
  function SplitKey(s: string): (parts: seq<string>)
    ensures |parts| > 0
    decreases |s|
  {
    match IndexOf(s, '_')
    case None => [s]
    case Some(i) =>
      if i + 1 < |s| && s[i + 1] == '_' then [s[..i]] + SplitKey(s[i + 2..]) else [s]
  }

  /** The parts of a key text, when it has the shape `KeyString` writes. */
  function ParseKey(s: string): Option<KeyParts> {
    var parts := SplitKey(s);
    if (|parts| == 4 || |parts| == 5) && parts[3] != [] && AllDigits(parts[3])
       && (|parts| == 5 ==> parts[4] != [])
    then
      Some(KeyParts(parts[0], parts[1], parts[2], DigitsValue(parts[3]),
                    if |parts| == 5 then Some(parts[4]) else None))
    else None
  }

  predicate NoUnderscore(s: string) {
    '_' !in s
  }

  /** Parts that can be told apart once joined: none of them contains "_",
      and a colour, when given, is not empty. */
  predicate Separable(k: KeyParts) {
    && NoUnderscore(k.variant) && NoUnderscore(k.vehicleName) && NoUnderscore(k.price)
    && (k.color.Some? ==> k.color.value != "" && NoUnderscore(k.color.value))
  }

  lemma SplitKeyLast(a: string)
    requires NoUnderscore(a)
    ensures SplitKey(a) == [a]
  {
  }

  lemma SplitKeyFirst(a: string, rest: string)
    requires NoUnderscore(a)
    ensures SplitKey(a + "__" + rest) == [a] + SplitKey(rest)
  {
    var s := a + "__" + rest;
    assert s[|a|] == '_';
    assert forall j :: 0 <= j < |a| ==> s[j] == a[j];
    var i := IndexOf(s, '_').value;
    assert i == |a|;
    assert s[..i] == a;
    assert s[i + 2..] == rest;
  }

  /** The pieces a separable key splits into: the three text parts, the
      index numeral and, when there is one, the colour. */
  lemma KeySplits(k: KeyParts)
    requires Separable(k)
    ensures SplitKey(KeyString(k)) ==
              [k.variant, k.vehicleName, k.price, Decimal(k.index)]
              + (if HasColor(k) then [k.color.value] else [])
  {
    var d := Decimal(k.index);
    assert NoUnderscore(d) by {
      forall i | 0 <= i < |d| ensures d[i] != '_' {
        assert IsDigit(d[i]);
      }
    }
    var tail := if HasColor(k) then d + "__" + k.color.value else d;
    var tailParts := [d] + (if HasColor(k) then [k.color.value] else []);
    assert SplitKey(tail) == tailParts by {
      if HasColor(k) {
        SplitKeyFirst(d, k.color.value);
        SplitKeyLast(k.color.value);
      } else {
        SplitKeyLast(d);
      }
    }
    SplitThree(k.variant, k.vehicleName, k.price, tail, tailParts);
    KeyStringShape(k);
  }

  lemma SplitThree(a: string, b: string, c: string, tail: string, tailParts: seq<string>)
    requires NoUnderscore(a) && NoUnderscore(b) && NoUnderscore(c)
    requires SplitKey(tail) == tailParts
    ensures SplitKey(a + "__" + (b + "__" + (c + "__" + tail))) == [a, b, c] + tailParts
  {
    var t3 := c + "__" + tail;
    var t2 := b + "__" + t3;
    SplitKeyFirst(c, tail);
    var p3 := SplitKey(t3);
    assert p3 == [c] + tailParts;
    SplitKeyFirst(b, t3);
    var p2 := SplitKey(t2);
    assert p2 == [b] + p3;
    SplitKeyFirst(a, t2);
    assert SplitKey(a + "__" + t2) == [a] + p2;
    ConsThree(a, b, c, tailParts);
  }

  lemma ConsThree<T>(a: T, b: T, c: T, rest: seq<T>)
    ensures [a] + ([b] + ([c] + rest)) == [a, b, c] + rest
  {
  }

  /** `KeyString` with its concatenations grouped from the right. */
  lemma KeyStringShape(k: KeyParts)
    ensures var d := Decimal(k.index);
            var tail := if HasColor(k) then d + "__" + k.color.value else d;
            KeyString(k) == k.variant + "__" + (k.vehicleName + "__" + (k.price + "__" + tail))
  {
    var d := Decimal(k.index);
    var sep := "__";
    var base := k.variant + sep + k.vehicleName + sep + k.price + sep + d;
    assert base == k.variant + sep + (k.vehicleName + sep + (k.price + sep + d));
    if HasColor(k) {
      var c := k.color.value;
      assert base + sep + c == k.variant + sep + (k.vehicleName + sep + (k.price + sep + (d + sep + c)));
    }
  }

  /** Reading back the text of separable parts gives the parts. */
  lemma KeyRoundTrip(k: KeyParts)
    requires Separable(k)
    ensures ParseKey(KeyString(k)) == Some(k)
  {
    KeySplits(k);
    DecimalRoundTrip(k.index);
  }

  /** Separable parts never share a key text. */
  lemma KeyStringInjective(k1: KeyParts, k2: KeyParts)
    requires Separable(k1) && Separable(k2)
    requires KeyString(k1) == KeyString(k2)
    ensures k1 == k2
  {
    KeyRoundTrip(k1);
    KeyRoundTrip(k2);
  }

  /** Without separability two different bikes can share a key: a "_" at
      the end of the variant moves to the front of the name. */
  lemma KeyCollision()
    ensures var k1 := KeyParts("Activa_", "6G", "80000", 0, None);
            var k2 := KeyParts("Activa", "_6G", "80000", 0, None);
            k1 != k2 && KeyString(k1) == KeyString(k2)
  {
  }

  /** Two colours of the same bike get different keys when the key parts
      are separable. */
  lemma ColorKeysDistinct(variant: string, bike: Bike, idx: nat, c1: string, c2: string)
    requires Separable(KeyParts(variant, Interpolate(bike.vehicleName), Interpolate(bike.onRoadPrice), idx, Some(c1)))
    requires Separable(KeyParts(variant, Interpolate(bike.vehicleName), Interpolate(bike.onRoadPrice), idx, Some(c2)))
    requires c1 != c2
    ensures ColorKey(variant, bike, idx, c1) != ColorKey(variant, bike, idx, c2)
  {
    if ColorKey(variant, bike, idx, c1) == ColorKey(variant, bike, idx, c2) {
      KeyStringInjective(
        KeyParts(variant, Interpolate(bike.vehicleName), Interpolate(bike.onRoadPrice), idx, Some(c1)),
        KeyParts(variant, Interpolate(bike.vehicleName), Interpolate(bike.onRoadPrice), idx, Some(c2)));
    }
  }

  // ---------------------------------------------------------------------
  // The keys a catalogue yields

  /** The keys of the given colours of one bike. */
  function ColorKeys(variant: string, bike: Bike, idx: nat, colors: seq<string>): set<string> {
    set c | c in colors :: ColorKey(variant, bike, idx, c)
  }

  /** The keys of one bike: one per colour, or the base key when it has no
      colours. */
  function BikeKeys(variant: string, bike: Bike, idx: nat): (keys: set<string>)
    ensures keys != {}
  {
    if |bike.colors| > 0 then
      assert ColorKey(variant, bike, idx, bike.colors[0]) in ColorKeys(variant, bike, idx, bike.colors);
      ColorKeys(variant, bike, idx, bike.colors)
    else {BaseKey(variant, bike, idx)}
  }

  /** The keys of the bikes of one group; a bike's index is its position. */
  function ItemKeys(variant: string, items: seq<Bike>): set<string>
    decreases |items|
  {
    if items == [] then {}
    else
      var n := |items| - 1;
      ItemKeys(variant, items[..n]) + BikeKeys(variant, items[n], n)
  }

  /** The valid-key set of a sequence of groups. */
  function ValidKeys(groups: seq<Group>): set<string>
    decreases |groups|
  {
    if groups == [] then {}
    else
      var n := |groups| - 1;
      ValidKeys(groups[..n]) + ItemKeys(groups[n].variant, groups[n].items)
  }

  /** A key of a group's bikes is a key of one of them. */
  lemma {:induction false} ItemKeysMembers(variant: string, items: seq<Bike>, k: string)
    ensures k in ItemKeys(variant, items) <==>
              exists j :: 0 <= j < |items| && k in BikeKeys(variant, items[j], j)
    decreases |items|
  {
    if items != [] {
      var n := |items| - 1;
      ItemKeysMembers(variant, items[..n], k);
      if k in ItemKeys(variant, items) && k !in BikeKeys(variant, items[n], n) {
        var j :| 0 <= j < n && k in BikeKeys(variant, items[..n][j], j);
        assert items[..n][j] == items[j];
      }
      if exists j :: 0 <= j < |items| && k in BikeKeys(variant, items[j], j) {
        var j :| 0 <= j < |items| && k in BikeKeys(variant, items[j], j);
        if j < n {
          assert items[..n][j] == items[j];
        }
      }
    }
  }

  /** A valid key is exactly a key of some bike of some group: one of its
      colour keys, or its base key when it has no colours. */
  lemma {:induction false} ValidKeysMembers(groups: seq<Group>, k: string)
    ensures k in ValidKeys(groups) <==>
              exists g, j :: 0 <= g < |groups| && 0 <= j < |groups[g].items|
                             && k in BikeKeys(groups[g].variant, groups[g].items[j], j)
    decreases |groups|
  {
    if groups != [] {
      var n := |groups| - 1;
      var init, last := groups[..n], groups[n];
      assert ValidKeys(groups) == ValidKeys(init) + ItemKeys(last.variant, last.items);
      ValidKeysMembers(init, k);
      ItemKeysMembers(last.variant, last.items, k);
      if k in ValidKeys(init) {
        var g, j :| 0 <= g < n && 0 <= j < |init[g].items| && k in BikeKeys(init[g].variant, init[g].items[j], j);
        assert init[g] == groups[g];
        assert 0 <= g < |groups| && 0 <= j < |groups[g].items| && k in BikeKeys(groups[g].variant, groups[g].items[j], j);
      } else if k in ItemKeys(last.variant, last.items) {
        var j :| 0 <= j < |last.items| && k in BikeKeys(last.variant, last.items[j], j);
        assert 0 <= n < |groups| && 0 <= j < |groups[n].items| && k in BikeKeys(groups[n].variant, groups[n].items[j], j);
      } else {
        forall g, j | 0 <= g < |groups| && 0 <= j < |groups[g].items|
          ensures k !in BikeKeys(groups[g].variant, groups[g].items[j], j)
        {
          if g < n {
            assert init[g] == groups[g];
          }
        }
      }
    }
  }
}
