# RQ mobile mock backend — a Dafny model of its stateful core

The backend is a FastAPI app (`app/main.py`) that serves the RQ mobile
application from an in-memory store. The store has two parts: users keyed by
email, and a list of 50 synthetic property listings that is generated at
start-up. This project models that store and the handlers that have logic:

- the catalog generator;
- registration and login over the user map;
- property search, with its case-insensitive substring filter, its Python
  slicing and its `totalPages` arithmetic;
- lookup of a listing by id for the detail and save handlers;
- the saved-properties and notifications lists.

Modules, one per component:

- `Types` (types.dfy): users, listings, saved entries, page metadata and the
  error answers. An error is `HttpError(status, slug, message)` or the
  uncaught `ZeroDivisionError`.
- `Text` (text.dfy): `str.lower()` on ASCII, the substring test `q in s`, and
  `str(n)` / `int(s)` on naturals.
- `PyOps` (pyops.dfy): Python's `min`, floor division `//` and list slicing
  `xs[a:b]`, including negative bounds and out-of-range bounds that clip.
- `Effects` (effects.dfy): `random.randint`, `random.choice`, `random.sample`
  and the `utcnow()` timestamps. Each is a nondeterministic choice (`:|`)
  within the range the Python call promises.
- `Catalog` (catalog.dfy): the vocabularies, one loop iteration of the
  generator (`DrawProperty`), and what every generated listing satisfies.
- `Lookup` (lookup.dfy): the first-match scan by id, `get_property` and
  `save_property`.
- `Search` (search.dfy): `search_properties`.
- `Auth` (auth.dfy): registration and login as functions of the user map.
- `Store` (store.dfy): class `MockStore`. Its fields `users: map<string, User>`
  and `properties: seq<Property>` stand for `MOCK_USERS` and `MOCK_PROPERTIES`.
  Its methods do what the source does in place: the generation loop, the
  check-then-insert of `register`, and the append loop of `get_saved_properties`.
  They are proved against the `Auth` and `Catalog` functions.
- `Notifications` (notifications.dfy): the append loop of `get_notifications`.

The handlers that only read the catalog (search, detail, save) are functions
that take the catalog as an argument. The uuid parts of user ids and tokens,
and the registration timestamp, are arguments of `Register` and `Login`.

Search reproduces the source exactly, including its odd cases:

- `totalPages = len // size + 1` over-counts by one page whenever the match
  count is a multiple of the page size. That last page is then empty.
- Pages `<= 0` slice with negative indices. Page -1 of 20 over 50 listings
  returns listings 10..29, and page 0 is always empty.
- A negative `pageSize` passes the `min` clamp unchanged. Page 1 with
  `pageSize=-10` returns the first 40 listings and `totalPages = -4`.
  So "a page holds at most `pageSize` items" is proved only for positive
  page sizes.
- `pageSize=0` raises `ZeroDivisionError` in the `totalPages` expression.

Three details of the code and how the model treats them:

- The score labels are the three Hebrew strings of `app/main.py:78`, drawn
  independently of the score.
- `pricePerSqm` uses Python's `//`, which floors. For the positive prices and
  sizes of the catalog, flooring is the same as truncating.
- The detail forecast is `int(price * 1.05)`, which truncates. This figure is
  a float computation and is left out below.

## Model

| member | source | states |
|---|---|---|
| `Text.Lower` | app/main.py:212-216 | `str.lower()` keeps the length, leaves no ASCII capital, turns each capital into its small letter and keeps every other character |
| `Text.Contains` | app/main.py:216 | `q in s` holds only when `q` is no longer than `s`, and always for the empty `q`; `Text.ContainsIffOccurs` gives its exact meaning |
| `Text.LowerIdempotent` | app/main.py:212 | lowering the query twice gives the same string as lowering it once |
| `Text.ContainsIffOccurs` | app/main.py:216 | the scan behind `q in s` holds exactly when some window of `s` equals `q` |
| `Text.NatToString` | app/main.py:60 | `str(n)` is non-empty, all decimal digits, one digit exactly when `n < 10`, and has no leading zero |
| `Text.DecimalRoundTrip` | app/main.py:60 | `int(str(n)) == n` |
| `Text.NatToStringInjective` | app/main.py:60 | different numbers print as different strings |
| `Text.PrefixedNatInjective` | app/main.py:60 | `prefix + str(m) == prefix + str(n)` only when `m == n` |
| `PyOps.Min` | app/main.py:208 | `min(a, b)` is one of its arguments and at most both |
| `PyOps.FloorDiv` | app/main.py:228 | `a // b` is the quotient rounded toward minus infinity, for both signs of `b` |
| `PyOps.FloorDivNegativeDivisor` | app/main.py:228 | `7 // -2 == -4`, where Dafny's Euclidean `7 / -2` is `-3` |
| `PyOps.AdjustIndex` | app/main.py:221 | a slice bound counts from the end when negative, then clips to `[0, len]` |
| `PyOps.Slice` | app/main.py:221 | `s[a:b]` has `max(0, hi - lo)` elements, taken from `s` in order from the adjusted start |
| `PyOps.SliceLengthAtMostSpan` | app/main.py:219-221 | when `a <= b`, `s[a:b]` has at most `b - a` elements, for any signs of the bounds |
| `PyOps.SliceNatural` | app/main.py:219-221 | with `0 <= a <= b`, `s[a:b]` is `s[a + k]` for `k < max(0, min(b, len) - a)` |
| `Effects.RandomInt` | app/main.py:55-56 | `random.randint(lo, hi)` returns a value in `[lo, hi]` |
| `Effects.RandomChoice` | app/main.py:54 | `random.choice(xs)` returns an element of `xs` |
| `Effects.RandomSample` | app/main.py:81 | `random.sample(xs, k)` returns `k` elements from distinct positions of `xs` (a sub-multiset) |
| `Effects.UtcTimestamp` | app/main.py:302-303 | `utcnow().isoformat() + "Z"` (the saved list's `savedAt` here, the notifications' `createdAt` at line 371) ends in `Z` |
| `Effects.SampleOfDistinct` | app/main.py:81 | a sample of a list without repeats has no repeats and only holds the list's elements |
| `Catalog.PropertyId` | app/main.py:60 | `f"property-{i}"` is the prefix `property-` followed by at least one decimal digit and nothing else |
| `Catalog.Truncate` | app/main.py:61 | `int(x)` on a non-negative float is the whole number `n` with `n <= x < n + 1` |
| `Catalog.Title` | app/main.py:61 | the title starts with `דירה `, the whole number of rooms and a space, and ends with the city |
| `Catalog.TitleRoomCounts` | app/main.py:57-61 | every rooms choice gives 1 to 5 in the title, and 2.5 rooms is titled as 2 |
| `Catalog.PrimaryImageUrl` | app/main.py:79 | the listing's image URL is the picsum 400x300 base followed by at least one decimal digit and nothing else |
| `Catalog.DrawProperty` | app/main.py:54-82 | one loop iteration yields a listing with id `property-i` and every field within its stated range or vocabulary, `pricePerSqm == price // size` |
| `Catalog.GeneratedPrefixAppend` | app/main.py:83 | appending the `i`-th drawn listing extends a generated prefix |
| `Catalog.PropertyIdInjective` | app/main.py:60 | `property-i` and `property-j` differ when `i != j` |
| `Catalog.GeneratedIdsDistinct` | app/main.py:53-60 | the 50 generated ids are pairwise different |
| `Catalog.FeatureTagsDistinct` | app/main.py:51 | the six feature tags are different from each other |
| `Catalog.FeaturesAreDistinctTags` | app/main.py:51-81 | a listing's features are at most four tags of the vocabulary with no repeats |
| `Catalog.PricePerSqmBounds` | app/main.py:55-56 | `pricePerSqm * size <= price < (pricePerSqm + 1) * size`, and `pricePerSqm` lies between 6,666 and 120,000 |
| `Lookup.IndexOfId` | app/main.py:236 | the scan returns the first position carrying the id, or none exactly when no listing carries it |
| `Lookup.FindProperty` | app/main.py:236-238 | succeeds exactly when some listing has the id, returning the first such listing (the one at `IndexOfId`); otherwise 404 `not_found` |
| `Lookup.DetailImageUrl` | app/main.py:246-248 | a detail image URL is the picsum base, the listing id and a dash, followed only by decimal digits |
| `Lookup.DetailImageUrlInjective` | app/main.py:246-248 | two image URLs of the same listing are equal only when their numbers are |
| `Lookup.DetailImages` | app/main.py:245-249 | a listing's detail images are three pairwise different URLs; the `k`-th (from 1) is the picsum 600x400 base, the listing id and a dash, followed by digits that read as `k` |
| `Lookup.GetProperty` | app/main.py:234-290 | fails with 404 exactly when the lookup fails; otherwise wraps the first match with its three pairwise different image URLs, no videos, the description `<title>. דירה מרווחת ומוארת ב<city>.` and the two fixed reasons |
| `Lookup.SaveProperty` | app/main.py:313-328 | fails with 404 exactly when the lookup fails; otherwise id `saved-<propertyId>`, the found listing, `daysSaved == 0`, no `lastChange`, and the request's `alertsEnabled` |
| `Lookup.FindsGeneratedId` | app/main.py:53-60 | in the generated catalog, `property-i` (1..50) is found at position `i - 1` |
| `Lookup.UnknownIdNotFound` | app/main.py:236-238 | in the generated catalog, `property-n` with `n` outside 1..50 gives 404 for both detail and save |
| `Search.MatchesIffOccurs` | app/main.py:216 | a listing matches exactly when the lowered query occurs as a window of the lowered city or of the lowered title |
| `Search.Filter` | app/main.py:213-217 | the filtered list is no longer than the catalog and holds only matching catalog listings |
| `Search.MatchIndices` | app/main.py:213-217 | the matching positions are increasing, each matches, and every matching position is among them |
| `Search.FilterSelectsMatchesInOrder` | app/main.py:213-217 | the `k`-th filtered listing is the listing at the `k`-th matching position: exactly the matches, in store order |
| `Search.Filtered` | app/main.py:209-217 | no query or an empty query keeps the whole catalog; otherwise the filter runs on the lowered query |
| `Search.QueryIgnoresCase` | app/main.py:211-216 | a query and its lower-cased form select the same listings |
| `Search.EffectivePageSize` | app/main.py:208 | the page size is `min(pageSize, 50)`: at most both, and equal to one of them |
| `Search.SearchProperties` | app/main.py:206-231 | fails with `ZeroDivisionError` exactly when the clamped size is 0; otherwise the items are the Python slice `filtered[(page-1)*size : (page-1)*size + size]`, and meta echoes the page, reports the clamped size, `totalPages == len(filtered) // size + 1` (floored) and `totalItems == len(filtered)` |
| `Search.PageNeverExceedsPageSize` | app/main.py:208-221 | for a positive page size, every page (negative, zero or past the end) holds at most `min(pageSize, 50)` listings |
| `Search.PageHoldsConsecutiveMatches` | app/main.py:219-221 | page `p >= 1` holds `filtered[(p-1)*size + k]` for `k < min(size, len - start)`, and is empty past the end |
| `Search.LastPageEmptyIffExactMultiple` | app/main.py:219-228 | `totalPages == len // size + 1`, and page `totalPages` is empty exactly when `len` is a multiple of the size |
| `Search.EveryMatchOnSomePage` | app/main.py:219-228 | match `i` is entry `i % size` of page `i // size + 1`, which is not beyond `totalPages` |
| `Search.NegativePageWindowFromEnd` | app/main.py:219-221 | for any page `p <= -1` and positive size, the page is the window `[n + (p-1)*size, n + p*size)` of the matches, clipped at 0 |
| `Search.NegativePageSizeDropsFromEnd` | app/main.py:208-228 | for any negative `pageSize`, page 1 holds all matches except the last `|pageSize|`, and `totalPages <= 1` |
| `Search.PageZeroIsEmpty` | app/main.py:219-221 | page 0 is always empty |
| `Search.NegativePageCountsFromEnd` | app/main.py:219-221 | page -1 of 20 over 50 listings returns listings 10..29, with 3 pages and 50 items |
| `Search.NegativePageSizeSlicesFromEnd` | app/main.py:208-228 | page 1 with `pageSize=-10` over 50 listings returns the first 40 and `totalPages == -4` |
| `Search.FullCatalogPages` | app/main.py:208-231 | over 50 listings: page 1 of 20 gives 20 listings and 3 pages; a page size of 50, or 100 clamped to 50, gives all 50 and 2 pages |
| `Search.ZeroPageSizeFails` | app/main.py:228 | `pageSize=0` answers `ZeroDivisionError` |
| `Auth.GenerateTokens` | app/main.py:126-131 | the access token starts with `access-token-<id>-`, the refresh token with `refresh-token-<id>-`, the two never coincide, and both last 3600 seconds |
| `Auth.SeedUsers` | app/main.py:21-42 | the start-up map holds exactly the two seed emails, each bound to a user with that email |
| `Auth.Register` | app/main.py:149-168 | 409 `conflict` with the map unchanged exactly when the email is taken; otherwise the map gains exactly that email, bound to the new user built by `Auth.NewUser` (id `user-<hex>`, the request's names, email and phone, free tier, no preferred locations, the given `createdAt`), and every other entry is unchanged |
| `Auth.Login` | app/main.py:171-181 | succeeds exactly when the email is stored and the password is `password123` or `demo123`, returning the stored user; otherwise 401 `unauthorized` |
| `Auth.RegisterKeepsKeyedByEmail` | app/main.py:151-165 | after registration every user is still stored under its own email |
| `Auth.RegisterTwiceConflicts` | app/main.py:151-152 | registering the same email twice succeeds, then answers 409 with the map as the first call left it |
| `Auth.LoginAfterRegister` | app/main.py:165-181 | a newly registered email logs in with an accepted password and gets the registered user back |
| `Auth.SeedLogins` | app/main.py:176-177 | the seed account logs in with `password123`, is refused with `wrongpass`, and an unknown email is refused |
| `Store.MockStore.constructor` | app/main.py:21-86 | after module load the map holds the seed users, and the store invariant holds: users keyed by email and the list a generated catalog |
| `Store.MockStore.GenerateMockProperties` | app/main.py:47-83 | appends 50 listings `property-1`..`property-50`, each satisfying the generator's ranges, and keeps what was there |
| `Store.MockStore.Register` | app/main.py:149-168 | inserts in place as `Auth.Register` describes, keeps the store invariant, and leaves the catalog alone |
| `Store.MockStore.Login` | app/main.py:171-181 | answers as `Auth.Login` and changes nothing in the store |
| `Store.MockStore.GetSavedProperties` | app/main.py:293-310 | one entry per listing among the first five, in order: id `saved-<id>`, that listing, `daysSaved` in 1..30 and a known `lastChange`; on a valid store, exactly five entries `saved-property-1`..`saved-property-5` |
| `Store.SavedListAfterStartup` | app/main.py:86-310 | after start-up, the saved list shows `saved-property-1`..`saved-property-5` |
| `Notifications.GetNotifications` | app/main.py:361-393 | `max(pageSize, 0)` items `notif-0`.. with fields in their ranges, and meta always reports 3 pages and 25 items |

## Left out

- Transport: FastAPI routing, query parsing and pydantic validation, `HTTPException` plumbing and JSON serialisation. Errors are the `ApiError` datatype. The 500 body the framework sends for `ZeroDivisionError` is not modelled. Route order is not modelled either: `GET properties/saved` (app/main.py:293) is declared after `GET properties/{property_id}` (app/main.py:234), and the framework picks the first matching route, so over HTTP that path reaches the detail handler with id `saved` and answers 404. `Store.MockStore.GetSavedProperties` and `Store.SavedListAfterStartup` state what `get_saved_properties` itself returns, not what a client receives.
- `health_ping`, `refresh_token`, `logout`, `verify_device`, `delete_saved_property`, `get_profile`, `get_subscription`, `mark_notification_read`, `verify_receipt`: these return canned values and have no logic.
- Floating-point fields: latitude and longitude, the detail forecasts (`int(price * 1.05)` etc.), and the notification `changePercent`. The rooms count is kept as a `real`: every value on the rooms list is exact in binary, so the title's `int(rooms)` is exact.
- `Lookup.GetProperty`: the randomised amenities, neighbourhood figures and fixed ROI numbers of the detail answer are not modelled. The listing, the description, the images, the videos and the two reasons are.
- Random distributions: every `random.*` call is an arbitrary value in its range. The order of the draws does not matter to the model.
- `uuid4()` and `utcnow()`: the uuid hex parts, the registration time (`createdAt` of `Auth.Register`) and the save time (`savedAt` of `Lookup.SaveProperty`) are unconstrained arguments. The timestamps of the saved list and of the notifications are drawn by `Effects.UtcTimestamp` as arbitrary strings ending in `Z`; the day and hour offsets they carry are not modelled.
- `str.lower()` beyond ASCII: only `A`-`Z` are lowered. The catalog's Hebrew has no case, but a non-ASCII query with case would differ from Python.
- The unlocked check-then-insert in `register` under concurrent requests: the model is sequential.
- Aliasing: `save_property` and `get_saved_properties` return the stored dict objects themselves, and `login` returns a copy. The model has value semantics, so no mutation through a returned dict is captured (the source performs none).
- `Search.PageNeverExceedsPageSize`: stated for positive page sizes only, because for a negative `pageSize` the source returns more items than `|pageSize|` (`Search.NegativePageSizeSlicesFromEnd`).
