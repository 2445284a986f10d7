# Perfume catalog screen, modelled in Dafny

This project models the logic of the product listing screen of a React Native
storefront (`components/Products.js`). It leaves out the JSX. The screen loads
a catalog of perfumes and the user's stored favorites. The user can search by
name and mark or unmark favorites with the heart on each product card. Each
card shows one gold star next to the product's average rating.

The component also defines handlers that the rendered screen never uses:
`handleFilter`, `handleCompanyClick`, `handlePricePress`, `setAllPerfumes`,
`filterByCompany` and `filterByPrice`. The JSX (lines 237-260) wires only the
search box and the product list. The state these handlers set (the modal
flag, the two dropdown flags, the title) is never read when the screen is
drawn. The same holds for `renderRatingStars` (lines 31-46), which `Item`
defines but never calls. The model covers all of them as the screen's
view-model: what each would do to the state if it were called.

The Dafny follows the shape of the source:

- `Catalog` (`catalog.dfy`) holds the product records and the pure operations
  the handlers are built from. These are order-keeping filtering (generic
  `Filter`), the company, price and name predicates at lines 185, 197 and 214,
  the test whether an id is among the favorites, removal of favorites by id,
  and the list of distinct companies.
- `Rating` (`rating.dfy`) is the rating part of the `Item` presenter. It
  computes the average of the feedback ratings as an exact fraction `Ratio`.
  It computes `Math.round` on that fraction with integers only, as
  `(2*num + den) div (2*den)`, which is `floor(x + 1/2)`.
  `RenderRatingStars` is a method with the source's `for` loop; it pushes
  five icons.
- `Screen` (`perfumes.dfy`) holds the `Perfumes` component as a class. It has
  one field per `useState` slot and one method per handler. The
  `"favorites"` key of AsyncStorage is a `FavoriteStore` object, passed to
  the constructor. Each method's contract states the whole new state
  through `State()`, the tuple of all slots. The object invariant `Valid()`
  says that the display list is an order-preserving subsequence of the full
  list. The company dropdown is tied to the full list by `Load`'s contract.
- `Decimal` (`decimal.dfy`) holds the decimal rendering of an integer inside
  a string (`"$" + min`), with a parser that proves it reads back.

Four walkthrough methods in `Screen` use the handlers, reasoning only from
the handlers' contracts:
- `Screen.Walkthrough` loads a two-product catalog, then filters by company
  and by price.
- `Screen.PanelWalkthrough` opens and closes the two dropdowns.
- `Screen.FavoriteWalkthrough` toggles one product's favorite mark on and off.
- `Screen.SearchWalkthrough` runs a case-insensitive search on a
  two-product catalog.

`Rating.RatingWalkthrough` computes a concrete average from the function
bodies: 4.5 rounds to five filled stars.

The model follows the code in these details:

- `handlePricePress` (lines 174-176) opens the price list but does not close
  the company list. So both lists can be open at once;
  `Screen.PanelWalkthrough` reaches that state. Only `handleCompanyClick`
  closes the other list.
- `handleSearch` (lines 212-218) leaves the title unchanged. `setAllPerfumes`
  (lines 178-182) leaves the search text unchanged.
- `saveToFavorites` (lines 140-151) builds the new list from the list in
  storage, not from the in-memory `favorites`. `removeFromFavorites` (lines
  153-163) filters the in-memory list. The contracts say which list each one
  uses.

## Model

| member | source | states |
|---|---|---|
| `Rating.AverageRating` | components/Products.js:26-28 | no feedback gives average 0; otherwise the average equals sum/count as a rational number |
| `Rating.AverageWithinRatings` | components/Products.js:26-28 | the average of a non-empty feedback list lies between its lowest and highest rating |
| `Rating.SumBounds` | components/Products.js:27 | the reduced sum lies between count·min and count·max |
| `Rating.Round` | components/Products.js:33 | `Math.round`: the result r satisfies r − 1/2 ≤ x < r + 1/2, so halves round up |
| `Rating.RoundWithin` | components/Products.js:33 | rounding a value that lies between two integers gives a result between them |
| `Rating.NearestWithin` | components/Products.js:33 | an integer within one half of n/d lies between any integer bounds of n/d |
| `Rating.StarIcon` | components/Products.js:36-42 | star i has key i, and it is the filled "star" exactly when i ≤ the rounded rating |
| `Rating.FilledCountIsClamped` | components/Products.js:34-44 | a row of stars with keys 1..n has the rounded rating, clamped to [0, n], filled |
| `Rating.RenderRatingStars` | components/Products.js:31-46 | exactly five icons; icon k+1 is filled iff k+1 ≤ round(avg); filled count = round(avg) clamped to [0,5] |
| `Rating.FilledStarsOfItem` | components/Products.js:26-44 | for ratings in 1..5 the filled count is round(average), which lies in 0..5; with no feedback, zero stars |
| `Catalog.Filter` | components/Products.js:185-187 | `filter` keeps exactly the elements that satisfy the predicate and returns no more than it was given |
| `Catalog.FilterIsSubsequence` | components/Products.js:185-187 | `filter`'s result is an order-preserving subsequence of its input |
| `Catalog.FilterCounts` | components/Products.js:185-187 | each element that passes keeps its multiplicity; each element that fails has none |
| `Catalog.FilterKeepsAll` | components/Products.js:214-216 | a predicate that holds everywhere returns the whole list |
| `Catalog.ByCompany` | components/Products.js:185-187 | exactly the products whose company equals the chosen one |
| `Catalog.ByPriceRange` | components/Products.js:195-200 | exactly the products with min ≤ price ≤ max, both ends inclusive |
| `Catalog.PriceBoundsInclusive` | components/Products.js:199 | a product priced exactly at min or at max is shown |
| `Catalog.LowerHasNoCapitals` | components/Products.js:215 | lower-casing keeps the length, leaves no ASCII capital, and changes a character only where it was a capital |
| `Catalog.IncludesIffOccurs` | components/Products.js:215 | `includes` holds exactly when the text occurs as a contiguous block at some position of the name |
| `Catalog.TooShortExcludes` | components/Products.js:215 | `includes` is false when the text is longer than the name |
| `Catalog.BySearch` | components/Products.js:214-216 | exactly the products whose lower-cased name contains the lower-cased text |
| `Catalog.ByCompanyIsSubsequence` | components/Products.js:185-187 | the company filter returns an order-preserving subsequence, keeping every occurrence of each product of that company and none of the others |
| `Catalog.ByPriceRangeIsSubsequence` | components/Products.js:195-200 | the price filter returns an order-preserving subsequence, keeping every occurrence of each product in range and none of the others |
| `Catalog.BySearchIsSubsequence` | components/Products.js:214-216 | the search filter returns an order-preserving subsequence, keeping every occurrence of each matching product and none of the others |
| `Catalog.SearchEmptyKeepsAll` | components/Products.js:214-216 | an empty search text returns the full list unchanged |
| `Catalog.LowerIdempotent` | components/Products.js:215 | lower-casing twice equals lower-casing once |
| `Catalog.SearchIgnoresCase` | components/Products.js:214-216 | lower-casing the search text first does not change the result |
| `Catalog.IsFavoriteIffSome` | components/Products.js:126-128 | the `renderItem` membership test holds exactly when some favorite has the item's id |
| `Catalog.WithoutId` | components/Products.js:154 | removal keeps exactly the entries whose id differs |
| `Catalog.RemovedIsNotFavorite` | components/Products.js:153-155 | after removal no entry has the id; every other entry keeps its multiplicity and its order |
| `Catalog.RemoveAbsentIsIdentity` | components/Products.js:154 | removing an id that no favorite has leaves the list unchanged |
| `Catalog.AppendedIsFavorite` | components/Products.js:142-145 | appending makes the item a favorite and adds one occurrence, with no deduplication |
| `Catalog.Distinct` | components/Products.js:233 | `[...new Set(s)]`: the same values as s, with no repeats, an order-preserving subsequence |
| `Catalog.CompaniesListed` | components/Products.js:233 | a company is listed iff some product has it; nothing is listed twice |
| `Catalog.CompanyFiltersPartition` | components/Products.js:184-187 | each product is under its own listed company; the company views' sizes add up to the catalog size |
| `Decimal.NatToString` | components/Products.js:205 | a non-empty numeral of digits only, with no leading zero |
| `Decimal.Show` | components/Products.js:205 | number to string: a leading '-' exactly for negatives, and only digits after it |
| `Decimal.NatRoundTrip` | components/Products.js:205 | parsing the numeral of n gives back n |
| `Decimal.ShowRoundTrip` | components/Products.js:205 | parsing the string of x gives back x |
| `Decimal.ShowInjective` | components/Products.js:205 | distinct numbers give distinct strings |
| `Screen.PriceTitleShowsRange` | components/Products.js:202-206 | when min ≠ 200 the title is "Perfumes in price $" + min + " and $" + max, and both bounds read back |
| `Screen.PriceTitle` | components/Products.js:202-206 | the title is "Perfumes over $200" exactly when min is 200; otherwise it starts "Perfumes in price $" |
| `Screen.CompanyTitleNamesCompany` | components/Products.js:189 | the title "Perfumes of " + c reads back c, so distinct companies get distinct titles |
| `Screen.FavoriteStore.constructor` | components/Products.js:117-118 | nothing is stored under "favorites" at first |
| `Screen.FavoriteStore.GetItem` | components/Products.js:117 | returns exactly the stored entry |
| `Screen.FavoriteStore.SetItem` | components/Products.js:145 | overwrites the whole entry with the given list |
| `Screen.Perfumes.constructor` | components/Products.js:101-109 | the initial `useState` values: empty lists, closed panels, "All Perfumes", empty search |
| `Screen.Perfumes.GetFavorites` | components/Products.js:115-124 | a stored list replaces the favorites; with nothing stored, everything is unchanged |
| `Screen.Perfumes.UpdateCompanies` | components/Products.js:232-235 | the company dropdown becomes the distinct companies of the full list; nothing else changes |
| `Screen.Perfumes.Load` | components/Products.js:220-235 | favorites reloaded; on success, full list = display = data, title "All Perfumes", and the dropdown holds the data's distinct companies; on failure the catalog is unchanged |
| `Screen.Perfumes.HandleFilter` | components/Products.js:165-167 | flips the modal flag; nothing else changes |
| `Screen.Perfumes.HandleCompanyClick` | components/Products.js:169-172 | flips the company list and closes the price list; afterwards the two are never both open |
| `Screen.Perfumes.HandlePricePress` | components/Products.js:174-176 | opens the price list; nothing else changes, the company list included |
| `Screen.Perfumes.SetAllPerfumes` | components/Products.js:178-182 | display = full list, modal closed, title "All Perfumes"; nothing else changes |
| `Screen.Perfumes.FilterByCompany` | components/Products.js:184-192 | display = the full list's products of c, in order, whatever was shown before; title "Perfumes of " + c; company list and modal closed |
| `Screen.Perfumes.FilterByPrice` | components/Products.js:194-210 | display = the full list's products with min ≤ price ≤ max; title "Perfumes over $200" iff min = 200, else the range title; price list and modal closed |
| `Screen.Perfumes.HandleSearch` | components/Products.js:212-218 | search text recorded; display = the full list's case-insensitive name matches; filters dropped; an empty text shows all; title unchanged |
| `Screen.Perfumes.SaveToFavorites` | components/Products.js:140-151 | storage and favorites become the previously stored list plus the item; the length grows by one and the item's id is a favorite |
| `Screen.Perfumes.RemoveFromFavorites` | components/Products.js:153-163 | storage and favorites become the in-memory favorites without the id, order kept; the id is no longer a favorite |
| `Screen.Perfumes.PressFavorite` | components/Products.js:75-77 | the heart removes the id when `renderItem` showed a favorite (`IsFavorite`, lines 126-128), and saves the item otherwise; afterwards membership is flipped |

## Left out

- Rendering, styles, `Dimensions`/`itemWidth` and `toFixed(1)` (lines 20-21, 48-98, 237-260) are layout only. The card's single star and its one-decimal rating text are not modelled. Star icons keep only their key, name and colour, not their size or margin.
- The network request `axios.get(baseURL + "/product")` (lines 111-113) is not modelled. `Load` takes its outcome as a parameter: `Some(data)` on success, `None` for a rejected promise, which the source does not handle.
- AsyncStorage failures, `JSON.parse`/`JSON.stringify`, `Alert.alert` and `console.error` (lines 115-124, 140-163) are I/O. Storage holds a typed list that never fails. For the same reason the catch at line 161, which names an undefined `e`, is not modelled.
- The asynchronous interleaving of `getFavorites`, saves and reloads is left out. The model runs each handler to completion, one at a time.
- Prices and the arguments of `filterByPrice` are whole numbers. `Number()` coercion of strings is not modelled. So neither is the string case where `"200" === 200` is false and the range title is shown instead.
- Lower-casing is ASCII only. Full Unicode `toLowerCase` is not modelled.
- Ratings, prices, ids and price bounds are unbounded whole numbers. JavaScript numbers are floating point: fractional ratings, rounding of large values and integers above 2^53 are not modelled.
- `Decimal.Show`: it writes every digit of an unbounded integer. JavaScript switches to exponent form ("1e+21") from 10^21 in magnitude, and that form is not modelled.
- `Screen.Perfumes.UpdateCompanies`: the model assumes that the nested `setCompany(companies)` at line 234 is the update React applies last. The outer call's updater returns `undefined`, and which of the two queued updates wins depends on React's queue order. The `undefined` result is not modelled.
- Navigation to "Detail" (line 50) is a call into the navigation library.
- `Catalog.Distinct`: its contract does not state that each company appears at the position of its first occurrence. It states set equality, no repeats and subsequence order.
