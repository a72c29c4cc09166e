# Bike ordering: selection, pricing and confirmation

This project models, in Dafny, the core of a small bike-dealership ordering
tool. The tool has three parts that this model covers:

- **The catalogue.** Bikes are read from a Google Sheets "Catalog" tab. Every row
  after the header becomes one bike record: eight positional fields (id,
  name, variant, ex-showroom price, tax, insurance, extended warranty,
  on-road price), then up to seven non-blank colours from columns I–O. The
  private key taken from the environment loses one pair of surrounding
  double quotes.
- **The explore page.** The page shows the bikes in groups, one group per
  variant. It keeps a quantity per bike and colour, stored under a key of the
  form `variant__name__price__index[__colour]`. Keys are created at zero,
  merged with what the browser's local storage holds, and reconciled
  whenever the groups change; the map is persisted after every change.
  Quantities move in steps and are clamped to 0..5. The page shows a total
  of units and a purchase amount, and blocks "Place Order" while nothing is
  selected.
- **The confirmation page.** The page reads the stored map back. Every
  entry with a positive quantity becomes an order line: the key is split at
  its last `-` into a bike key and a colour. Each line is matched against
  the fetched catalogue, priced and totalled. Confirming removes the stored
  map.

Modules:

| module | models |
|---|---|
| `Wrappers` | `Option` |
| `Text` | JavaScript `trim` and its white-space set, `${x}` of a possibly undefined string, the position of the last `-` from which `split`/`slice`/`join` cut a key (the first-occurrence search serves only the model's key reader) |
| `Numbers` | numbers that may be NaN (`Option<int>`, NaN absorbing), `${index}`, `parseFloat` on integer prices |
| `Catalog` | `lib/googlesheets.js`: row mapping, colour filtering, private-key unquoting, `getBikes` |
| `Browser` | the `bike-quantities` entry of local storage (absent or unreadable = `None`) |
| `SelectionKeys` | `getUniqueKey`, reading a key back, the set of valid keys of a grouping |
| `Explore` | `app/explore/BikesGroupedClient.tsx`: initial map, startup merge, reconcile, `changeQty`, totals, the order guard, and the component as a class |
| `Confirmation` | `app/confirmation/page.tsx`: order lines from the stored map, bike matching, pricing, totals, the page as a class, confirming |

The two pages use different key formats. The explore page joins the key
with `__`, while the confirmation page splits at `-`. As a result, a key the
explore page writes (containing no `-`) becomes a line with an empty bike
key, the name "Unknown Bike" and the whole key as its colour. Such a line
matches no catalogue bike and is priced at 0. The model states this as
`Confirmation.ExploreSelectionPricedAtZero`. It is not corrected, because the
source gives no single intended format to correct it to.

## Model

| member | source | states |
|---|---|---|
| Text.TrimStartSpec | lib/googlesheets.js:33 | the result is a suffix of the input, every removed character is JavaScript white space, and the result does not start with white space |
| Text.TrimEnd | lib/googlesheets.js:33 | the result is a prefix of the input, every removed character is white space, and the result does not end with white space |
| Text.BlankIffAllSpace | lib/googlesheets.js:33 | `c.trim()` is empty exactly when every character of `c` is white space |
| Text.LastIndexOf | app/confirmation/page.tsx:34-36 | returns the last position holding the character, or none when the character does not occur |
| Numbers.Add | app/explore/BikesGroupedClient.tsx:130 | a sum is a number exactly when both operands are numbers (NaN absorbs), and then it is their sum |
| Numbers.Mul | app/explore/BikesGroupedClient.tsx:130 | a product is a number exactly when both operands are numbers (0 * NaN is NaN), and then it is their product |
| Numbers.Decimal | app/explore/BikesGroupedClient.tsx:26 | the numeral of an index is non-empty and made of digits only |
| Numbers.DecimalRoundTrip | app/explore/BikesGroupedClient.tsx:26 | reading the digits of `${index}` gives the index back |
| Numbers.DecimalInjective | app/explore/BikesGroupedClient.tsx:26 | different indexes have different numerals, so bikes at different positions get different keys |
| Numbers.ParseFloat | app/explore/BikesGroupedClient.tsx:121 | `parseFloat` yields a number only when the string contains a digit; a string without digits (empty, blank, text) is NaN, never 0 |
| Numbers.ParseDecimal | app/explore/BikesGroupedClient.tsx:121 | `parseFloat` of the decimal numeral of n is n |
| Catalog.ColorCells | lib/googlesheets.js:33 | `row.slice(8, 15)`: at most seven cells, the i-th one is cell 8+i of the row, and it stops where the row ends |
| Catalog.NonBlank | lib/googlesheets.js:33 | keeps exactly the cells that are not blank after trimming, never more cells than given |
| Catalog.NonBlankAppend | lib/googlesheets.js:33 | filtering a concatenation is concatenating the filtered parts, so colours keep column order |
| Catalog.NonBlankKeepsAll | lib/googlesheets.js:33 | cells that are all non-blank are kept unchanged |
| Catalog.MapRow | lib/googlesheets.js:35-45 | fields 0..7 are cells 0..7 (`undefined` past the end of the row); at most seven colours, each non-blank and taken from columns I–O |
| Catalog.MapRows | lib/googlesheets.js:31 | the header row is skipped and each later row gives the record at the same position |
| Catalog.MapRowOfRowOf | lib/googlesheets.js:31-46 | writing a complete record with at most seven non-blank colours as a row and mapping it back gives the record |
| Catalog.PrivateKey | lib/googlesheets.js:5-8 | a missing key stays missing; otherwise the result is never longer than the key |
| Catalog.PrivateKeyUnquotes | lib/googlesheets.js:6-7 | a key wrapped in one pair of double quotes comes out unwrapped |
| Catalog.PrivateKeyUnquotedUnchanged | lib/googlesheets.js:6-8 | a key that does not both start and end with a double quote is left unchanged |
| Catalog.PrivateKeyStripsOneLayer | lib/googlesheets.js:6-7 | for every key k, `""k""` becomes `"k"`: exactly one pair of quotes is removed |
| Catalog.PrivateKeySingleQuote | lib/googlesheets.js:6-7 | a key that is a single `"` both starts and ends with a quote, so it becomes the empty string |
| Catalog.GetBikes | lib/googlesheets.js:17-53 | the result is empty when the key is missing, the API call fails or there are no values; otherwise it is the mapped rows |
| SelectionKeys.KeyRoundTrip | app/explore/BikesGroupedClient.tsx:24-27 | when no part contains `_` (and a colour is non-empty), reading the key text back (`ParseKey`) gives variant, name, price, index and colour |
| SelectionKeys.UniqueKeyReadsBack | app/explore/BikesGroupedClient.tsx:24-27 | a `getUniqueKey` key of separable parts (an undefined name or price written "undefined") reads back as exactly those parts |
| SelectionKeys.ColorKeyExtendsBase | app/explore/BikesGroupedClient.tsx:26-27 | a colour key is the base key followed by `__` and the colour; an empty colour, being falsy, gives the base key |
| SelectionKeys.BikeKeys | app/explore/BikesGroupedClient.tsx:36-45 | every bike contributes at least one key: one per colour, or its base key |
| SelectionKeys.KeyStringInjective | app/explore/BikesGroupedClient.tsx:24-27 | under the same condition, different key parts give different keys |
| SelectionKeys.KeyCollision | app/explore/BikesGroupedClient.tsx:24-27 | without that condition two different bikes ("Activa_"/"6G" and "Activa"/"_6G") share a key |
| SelectionKeys.ColorKeysDistinct | app/explore/BikesGroupedClient.tsx:38-42 | two different colours of one bike get different keys when the parts are separable |
| SelectionKeys.ItemKeysMembers | app/explore/BikesGroupedClient.tsx:35-46 | a key of a group is exactly a key of one of its bikes at its position |
| SelectionKeys.ValidKeysMembers | app/explore/BikesGroupedClient.tsx:34-47 | a valid key is exactly a key of some bike of some group |
| Explore.Lookup | app/explore/BikesGroupedClient.tsx:103 | `prev[key] ?? 0`: the stored quantity of a present key, 0 for a missing one |
| Explore.InitialMap | app/explore/BikesGroupedClient.tsx:32-49 | the initial map has exactly the valid keys |
| Explore.InitialQuantities | app/explore/BikesGroupedClient.tsx:32-49 | the nested loops produce exactly the valid keys, each with quantity 0 |
| Explore.ZeroBike | app/explore/BikesGroupedClient.tsx:36-45 | one bike adds exactly its keys (one per colour, or the base key), each with quantity 0 |
| Explore.StartupMerge | app/explore/BikesGroupedClient.tsx:51-60 | with nothing stored (or unreadable) the result is the initial map; otherwise its keys are the union, stored values win, and other initial keys keep 0 |
| Explore.Reconciled | app/explore/BikesGroupedClient.tsx:63-85 | the reconciled map has exactly the valid keys of the current groups |
| Explore.ReconcileQuantities | app/explore/BikesGroupedClient.tsx:63-85 | the nested loops produce exactly the valid keys, each carrying its previous quantity or 0 |
| Explore.ReconcileBike | app/explore/BikesGroupedClient.tsx:70-78 | one bike adds exactly its keys, each carrying its previous quantity or 0 |
| Explore.ReconcileIdempotent | app/explore/BikesGroupedClient.tsx:63-85 | reconciling twice is reconciling once |
| Explore.InitialIsReconciledEmpty | app/explore/BikesGroupedClient.tsx:32-85 | the initial map is the reconciliation of an empty map |
| Explore.MergeThenReconcile | app/explore/BikesGroupedClient.tsx:51-85 | merging the stored map into the initial one and then reconciling equals reconciling the stored map alone |
| Explore.Clamp | app/explore/BikesGroupedClient.tsx:104 | the result lies in 0..5, and a value already in 0..5 is unchanged |
| Explore.ChangeQuantity | app/explore/BikesGroupedClient.tsx:101-108 | the key's quantity becomes the clamped sum; an unchanged value returns the same map; a new key is added only for a positive step; every other key keeps its value |
| Explore.IncrementThenDecrement | app/explore/BikesGroupedClient.tsx:101-108 | below the cap, a +1 followed by a -1 restores the map |
| Explore.MapSum | app/explore/BikesGroupedClient.tsx:111-114 | the sum of the values is at least 0 when none is negative, and 0 when all are 0 |
| Explore.TotalSelected | app/explore/BikesGroupedClient.tsx:111-114 | `totalSelected` is never negative when no quantity is negative |
| Explore.MapSumPick | app/explore/BikesGroupedClient.tsx:111-114 | the total over the entries does not depend on the order in which they are taken |
| Explore.TotalSelectedAfterUpdate | app/explore/BikesGroupedClient.tsx:111-114 | setting one key moves the total by the difference of its old and new value |
| Explore.TotalSelectedAfterChange | app/explore/BikesGroupedClient.tsx:101-114 | one `changeQty` moves the total by exactly the clamped step `Clamp(cur + delta) - cur`, which lies between 0 and delta |
| Explore.TotalSelectedZero | app/explore/BikesGroupedClient.tsx:111-114 | with no negative quantity the total is at least 0, and it is 0 exactly when every quantity is 0 |
| Explore.PlaceOrderAllowedIff | app/explore/BikesGroupedClient.tsx:141-147 | with no negative quantity, "Place Order" proceeds exactly when some key has a positive quantity |
| Explore.ExplorePrice | app/explore/BikesGroupedClient.tsx:121 | an undefined price counts as 0, while an empty price string parses to NaN |
| Explore.ColorsAmount | app/explore/BikesGroupedClient.tsx:127-131 | the colour fold is a number exactly when the price is, and 0 when the price is 0 |
| Explore.BikeAmount | app/explore/BikesGroupedClient.tsx:119-136 | what a bike adds is a number exactly when its price parses |
| Explore.ColorsTotalBounded | app/explore/BikesGroupedClient.tsx:180-184 | with every quantity in 0..5, the colours of a bike total between 0 and five per colour |
| Explore.BikeTotalBounded | app/explore/BikesGroupedClient.tsx:180-185 | with every quantity in 0..5, `bikeTotal` lies between 0 and five per colour (five for a bike without colours) |
| Explore.ColorsAmountIsPriceTimesTotal | app/explore/BikesGroupedClient.tsx:127-131 | the colour fold of the amount equals the price times the sum of the colour quantities |
| Explore.BikeAmountIsPriceTimesTotal | app/explore/BikesGroupedClient.tsx:119-136 | what a bike adds to the amount is its price times its `bikeTotal` (lines 180-185) |
| Explore.GroupAmountAgrees | app/explore/BikesGroupedClient.tsx:116-139 | a group's share of the amount is the sum over its bikes of price times `bikeTotal` |
| Explore.TotalPurchaseAmountAgrees | app/explore/BikesGroupedClient.tsx:116-139 | `totalPurchaseAmount` equals the sum over the groups of their price-times-`bikeTotal` sums |
| Explore.NaNPricePoisonsTotal | app/explore/BikesGroupedClient.tsx:121-139 | one bike whose price parses to NaN makes the whole purchase amount NaN, whatever the quantities |
| Explore.NaNBikePoisonsGroup | app/explore/BikesGroupedClient.tsx:119-137 | one NaN price makes its group's share of the amount NaN |
| Explore.TwoKeysSelected | app/explore/BikesGroupedClient.tsx:111-114 | two distinct keys holding q1 and q2 total q1 + q2 |
| Explore.TwoColourKeys | app/explore/BikesGroupedClient.tsx:32-49 | a single bike in two colours has exactly its two colour keys |
| Explore.TwoColourAmount | app/explore/BikesGroupedClient.tsx:116-139 | for that bike the purchase amount is the price times the sum of the two colour quantities |
| Explore.BikesGroupedClient.constructor | app/explore/BikesGroupedClient.tsx:51-85 | on mount the quantities are the startup merge of the initial and stored maps, reconciled, and they are persisted |
| Explore.BikesGroupedClient.SyncWithGroups | app/explore/BikesGroupedClient.tsx:63-91 | the reconcile effect replaces the quantities by their reconciliation, keeps the groups and persists the result |
| Explore.BikesGroupedClient.SetGroups | app/explore/BikesGroupedClient.tsx:63-91 | new groups: the quantities are reconciled against them and persisted |
| Explore.BikesGroupedClient.ChangeQty | app/explore/BikesGroupedClient.tsx:87-108 | the quantities become `ChangeQuantity` of the old ones, the key's value lies in 0..5, and the map is persisted |
| Confirmation.SplitAtLastDash | app/confirmation/page.tsx:34-36 | with a `-` in the key, bike key + "-" + colour is the key and the colour holds no `-`; without one, the bike key is empty and the colour is the whole key |
| Confirmation.PendingItem | app/confirmation/page.tsx:31-55 | a line has the stored quantity, price and subtotal 0, the key split at its last `-`, and the name "Unknown Bike" for an empty bike key |
| Confirmation.PendingItems | app/confirmation/page.tsx:30-56 | never more lines than entries, and every line has a positive quantity |
| Confirmation.PositiveIndices | app/confirmation/page.tsx:30-31 | lists, in increasing order, exactly the positions whose quantity is positive |
| Confirmation.PendingItemsFollowEntries | app/confirmation/page.tsx:30-56 | the i-th line is built from the i-th entry with a positive quantity, and there is one line per such entry |
| Confirmation.PendingItemsEmpty | app/confirmation/page.tsx:30-56 | there are no lines exactly when no entry has a positive quantity |
| Confirmation.CollectItems | app/confirmation/page.tsx:27-56 | the `forEach` loop builds exactly the pending lines |
| Confirmation.StoredEntries | app/confirmation/page.tsx:23-24 | nothing stored gives no entries; otherwise one entry per key, in the given order, with its stored quantity |
| Confirmation.NoItemsIff | app/confirmation/page.tsx:104-119 | "No Items Selected" is reached exactly when nothing is stored or no stored quantity is positive |
| Confirmation.SynthesizedKey | app/confirmation/page.tsx:66-68 | the key synthesized for a catalogue bike always ends in "-0" |
| Confirmation.OrElse | app/confirmation/page.tsx:78 | `a \|\| b` (also line 65) is b or the value of a, and it is never empty when b is not |
| Confirmation.Matches | app/confirmation/page.tsx:64-69 | a line with an empty bike key matches exactly the bikes named as the line is, because a synthesised key is never empty |
| Confirmation.FindFirst | app/confirmation/page.tsx:64-70 | `find` returns the first position satisfying the predicate, or none when no element does |
| Confirmation.FindBike | app/confirmation/page.tsx:64-70 | no bike is found exactly when none matches; otherwise the found bike is the first matching one in catalogue order |
| Confirmation.ConfirmationPrice | app/confirmation/page.tsx:72 | a missing or empty price counts as 0 |
| Confirmation.PricesAgree | app/confirmation/page.tsx:72 | the confirmation price equals the explore page's price (BikesGroupedClient.tsx:121) except for an empty string, which is 0 here and NaN there |
| Confirmation.PriceItem | app/confirmation/page.tsx:72-81 | key, colour and quantity are kept; subtotal is price times quantity; unmatched lines keep their name and cost 0; matched lines take the bike's `parseFloat(OnRoadPrice \|\| 0)` and its name when it has one |
| Confirmation.PricedItems | app/confirmation/page.tsx:62-82 | every line is priced independently, in order |
| Confirmation.PriceItems | app/confirmation/page.tsx:62-85 | the loop yields the priced lines and the running total of their subtotals |
| Confirmation.SumSubtotals | app/confirmation/page.tsx:74 | the running total is a number exactly when every subtotal is |
| Confirmation.ZeroPricedAddNothing | app/confirmation/page.tsx:73-74 | lines whose subtotals are all 0 total 0 |
| Confirmation.ExploreKeyHasNoDash | app/explore/BikesGroupedClient.tsx:24-27 | a key built from parts without `-` contains no `-` |
| Confirmation.UndashedKeyMatches | app/confirmation/page.tsx:34-70 | a key without `-` gives an empty bike key, the name "Unknown Bike" and the whole key as colour, and matches only a bike literally named "Unknown Bike" |
| Confirmation.ExploreSelectionPricedAtZero | app/confirmation/page.tsx:30-85 | the lines built from an explore-page map (no `-` in its keys) are all priced 0 under "Unknown Bike", and the total is 0 |
| Confirmation.PlacedOrderShowsItems | app/explore/BikesGroupedClient.tsx:141-147 | with no negative quantity, "Place Order" proceeds exactly when the confirmation page then has lines to show |
| Browser.LocalStorage.constructor | app/confirmation/page.tsx:23-24 | the storage holds the given `bike-quantities` map, or `None` when it is absent or unreadable |
| Confirmation.ConfirmationPage.constructor | app/confirmation/page.tsx:17-19 | the page starts with no lines, total 0 and loading |
| Confirmation.ConfirmationPage.Load | app/confirmation/page.tsx:21-98 | loading ends; with a catalogue the lines are the priced pending lines with their total, on a fetch failure the unpriced lines with total 0; the page shows no items exactly when no stored quantity is positive |
| Confirmation.ConfirmationPage.ConfirmOrder | app/confirmation/page.tsx:163-167 | confirming removes the stored quantities |
| Confirmation.ConfirmThenExplore | app/confirmation/page.tsx:163-167 | after confirming, a freshly mounted explore page starts from the all-zero map of the valid keys and persists it |

## Left out

- Numbers.ParseFloat: models `parseFloat` for integer prices only. Fractions, exponents, `Infinity` and float rounding are not modelled, because prices in the catalogue are whole rupee amounts.
- Floating-point arithmetic in totals: numbers are unbounded integers, with NaN as `None`. Rounding and overflow to `Infinity` are not modelled.
- Values in local storage that are not an object of integer quantities are not modelled. An absent entry and one that `JSON.parse` rejects are both `None`; these are exactly the two cases in which the source falls back to the initial map.
- Explore.TotalSelected: `qty || 0` is the identity on integers, so the NaN case it guards against is not represented.
- React scheduling is not modelled: state updates, effect ordering, `useMemo` and re-renders. Each effect is a method that runs to completion, and persisting is part of every method that changes the quantities (lines 87-91).
- `alert`, `router.push`, console logging and the page markup beyond the "No Items Selected" branch are not modelled, because they have no state the model needs.
- The Google Sheets call, JWT authentication and `fetch("/api/bikes")` are inputs: a `SheetsReply` and an optional catalogue (`None` = the fetch failed).
- The order of `Object.entries` is a parameter (`order`), required to list each stored key once.
- The grouping of bikes into variants is an input; app/explore/page.tsx is not part of this model.
- Explore.BikesGroupedClient.ChangeQty: requires the key to be a currently valid key, as the page only renders buttons for those. `ChangeQuantity` itself handles any key.
- Confirmation.ConfirmationPage.Load: the outer `catch` (lines 94-97) is covered only for an unreadable storage entry, which is modelled as `None`.
- The key mismatch between the two pages is stated (`Confirmation.ExploreSelectionPricedAtZero`), not repaired.
