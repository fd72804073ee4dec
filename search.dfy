/** `GET properties/search?page&pageSize&query`: an optional case-insensitive
    substring filter over the catalog, then one page cut out with Python slicing. */
module Search {
  import opened Types
  import opened Text
  import opened PyOps

  const MaxPageSize: int := 50

  datatype SearchPage = SearchPage(items: seq<Property>, meta: PageMeta)

  /** `q in city.lower() or q in title.lower()`, for a query `q` that is already lowered. */
  predicate Matches(p: Property, q: string)
  {
    Contains(Lower(p.address.city), q) || Contains(Lower(p.title), q)
  }

  /** A listing matches exactly when the query is a window of its lowered city or title. */
  lemma MatchesIffOccurs(p: Property, q: string)
    ensures Matches(p, q) <==>
      (exists i :: OccursAt(Lower(p.address.city), q, i)) || (exists i :: OccursAt(Lower(p.title), q, i))
  {
    ContainsIffOccurs(Lower(p.address.city), q);
    ContainsIffOccurs(Lower(p.title), q);
  }

  /** The list comprehension: the matching listings, in catalog order. */
  function Filter(ps: seq<Property>, q: string): (r: seq<Property>)
    ensures |r| <= |ps|
    ensures forall k :: 0 <= k < |r| ==> r[k] in ps && Matches(r[k], q)
  {
    if ps == [] then []
    else
      var init := Filter(ps[..|ps| - 1], q);
      if Matches(ps[|ps| - 1], q) then init + [ps[|ps| - 1]] else init
  }

  /** The positions of the matching listings: increasing, and every match among them. */
  function MatchIndices(ps: seq<Property>, q: string): (idx: seq<nat>)
    ensures forall k :: 0 <= k < |idx| ==> idx[k] < |ps| && Matches(ps[idx[k]], q)
    ensures forall k, l :: 0 <= k < l < |idx| ==> idx[k] < idx[l]
    ensures forall i :: 0 <= i < |ps| && Matches(ps[i], q) ==> i in idx
  {
    if ps == [] then []
    else
      var init := MatchIndices(ps[..|ps| - 1], q);
      if Matches(ps[|ps| - 1], q) then init + [|ps| - 1] else init
  }

  /** The filter keeps exactly the matching listings and keeps them in catalog order:
      its `k`-th result is the listing at the `k`-th matching position. */
  lemma {:induction false} FilterSelectsMatchesInOrder(ps: seq<Property>, q: string)
    ensures |Filter(ps, q)| == |MatchIndices(ps, q)|
    ensures forall k :: 0 <= k < |Filter(ps, q)| ==> Filter(ps, q)[k] == ps[MatchIndices(ps, q)[k]]
    decreases |ps|
  {
    if ps != [] {
      var init := ps[..|ps| - 1];
      FilterSelectsMatchesInOrder(init, q);
      var f, m := Filter(init, q), MatchIndices(init, q);
      forall k | 0 <= k < |m| ensures f[k] == ps[m[k]] {
        assert f[k] == init[m[k]];
      }
      if Matches(ps[|ps| - 1], q) {
        assert Filter(ps, q) == f + [ps[|ps| - 1]];
        assert MatchIndices(ps, q) == m + [|ps| - 1];
      } else {
        assert Filter(ps, q) == f;
        assert MatchIndices(ps, q) == m;
      }
    }
  }

  /** `filtered` in the handler: the whole catalog unless the query is a non-empty string. */
  function Filtered(catalog: seq<Property>, query: Option<string>): (r: seq<Property>)
    ensures query == None || query == Some("") ==> r == catalog
    ensures query.Some? && query.value != "" ==> r == Filter(catalog, Lower(query.value))
  {
    if query.Some? && query.value != "" then Filter(catalog, Lower(query.value)) else catalog
  }

  /** A query and its lower-cased form select the same listings. */
  lemma QueryIgnoresCase(catalog: seq<Property>, q: string)
    ensures Filtered(catalog, Some(q)) == Filtered(catalog, Some(Lower(q)))
  {
    LowerIdempotent(q);
  }

  function EffectivePageSize(pageSize: int): (s: int)
    ensures s <= MaxPageSize && s <= pageSize
    ensures s == pageSize || s == MaxPageSize
  {
    Min(pageSize, MaxPageSize)
  }

  /** The handler. A page size that clamps to 0 makes `len(filtered) // page_size`
      raise, after the slice has been taken. */
  function SearchProperties(catalog: seq<Property>, page: int, pageSize: int, query: Option<string>): (r: Result<SearchPage>)
    ensures r.Err? <==> EffectivePageSize(pageSize) == 0
    ensures r.Err? ==> r.error == ZeroDivisionError
    ensures r.Ok? ==> r.value.meta.page == page
    ensures r.Ok? ==> r.value.meta.pageSize == EffectivePageSize(pageSize)
    ensures r.Ok? ==> r.value.meta.totalItems == |Filtered(catalog, query)|
    ensures r.Ok? ==> r.value.meta.totalPages == FloorDiv(|Filtered(catalog, query)|, EffectivePageSize(pageSize)) + 1
    ensures r.Ok? ==>
      var size := EffectivePageSize(pageSize);
      r.value.items == Slice(Filtered(catalog, query), (page - 1) * size, (page - 1) * size + size)
  {
    var size := EffectivePageSize(pageSize);
    var filtered := Filtered(catalog, query);
    var start := (page - 1) * size;
    var items := Slice(filtered, start, start + size);
    if size == 0 then Err(ZeroDivisionError)
    else Ok(SearchPage(items, PageMeta(page, size, FloorDiv(|filtered|, size) + 1, |filtered|)))
  }

  /** For a positive page size, any page (before the first, inside, or past the end)
      holds at most `min(pageSize, 50)` listings. */
  lemma PageNeverExceedsPageSize(catalog: seq<Property>, page: int, pageSize: int, query: Option<string>)
    requires pageSize >= 1
    ensures SearchProperties(catalog, page, pageSize, query).Ok?
    ensures |SearchProperties(catalog, page, pageSize, query).value.items| <= EffectivePageSize(pageSize)
  {
    var size := EffectivePageSize(pageSize);
    var start := (page - 1) * size;
    SliceLengthAtMostSpan(Filtered(catalog, query), start, start + size);
  }

  /** Page `page >= 1` holds the matches from position `(page - 1) * size` on: a full page,
      the remainder on the last page, nothing past the end. */
  lemma PageHoldsConsecutiveMatches(catalog: seq<Property>, page: int, pageSize: int, query: Option<string>)
    requires page >= 1 && pageSize >= 1
    ensures var r := SearchProperties(catalog, page, pageSize, query);
            var filtered := Filtered(catalog, query);
            var start := (page - 1) * EffectivePageSize(pageSize);
            && r.Ok?
            && |r.value.items| == Max(0, Min(EffectivePageSize(pageSize), |filtered| - start))
            && forall k :: 0 <= k < |r.value.items| ==> r.value.items[k] == filtered[start + k]
  {
    var size := EffectivePageSize(pageSize);
    var filtered := Filtered(catalog, query);
    var start := (page - 1) * size;
    NonNegativeProduct(page - 1, size);
    SliceNatural(filtered, start, start + size);
    assert SearchProperties(catalog, page, pageSize, query).value.items == Slice(filtered, start, start + size);
  }

  /** `totalPages` is `len // size + 1`, so it over-counts by one exactly when the
      number of matches is a multiple of the page size: page `totalPages` is then empty. */
  lemma LastPageEmptyIffExactMultiple(catalog: seq<Property>, pageSize: int, query: Option<string>)
    requires pageSize >= 1
    ensures var size := EffectivePageSize(pageSize);
            var n := |Filtered(catalog, query)|;
            var last := SearchProperties(catalog, n / size + 1, pageSize, query);
            && last.Ok?
            && last.value.meta.totalPages == n / size + 1
            && (last.value.items == [] <==> n % size == 0)
  {
    var size := EffectivePageSize(pageSize);
    var n := |Filtered(catalog, query)|;
    var page := n / size + 1;
    PageHoldsConsecutiveMatches(catalog, page, pageSize, query);
    PageStart(n, size);
    FloorDivByPositive(n, size);
  }

  /** Every match is reachable: match `i` is entry `i % size` of page `i / size + 1`,
      and that page is not beyond `totalPages`. */
  lemma EveryMatchOnSomePage(catalog: seq<Property>, pageSize: int, query: Option<string>, i: nat)
    requires pageSize >= 1
    requires i < |Filtered(catalog, query)|
    ensures var size := EffectivePageSize(pageSize);
            var r := SearchProperties(catalog, i / size + 1, pageSize, query);
            && r.Ok?
            && i / size + 1 <= r.value.meta.totalPages
            && i % size < |r.value.items|
            && r.value.items[i % size] == Filtered(catalog, query)[i]
  {
    var size := EffectivePageSize(pageSize);
    var n := |Filtered(catalog, query)|;
    var page := i / size + 1;
    PageHoldsConsecutiveMatches(catalog, page, pageSize, query);
    PageStart(i, size);
    DivMonotonic(i, n, size);
    FloorDivByPositive(n, size);
  }

  /** The page holding position `a` starts at `a - a % d`. */
  lemma PageStart(a: nat, d: int)
    requires d >= 1
    ensures (a / d + 1 - 1) * d == a - a % d
    ensures 0 <= a % d < d
  {
  }

  lemma FloorDivByPositive(a: nat, d: int)
    requires d >= 1
    ensures FloorDiv(a, d) == a / d
  {
  }

  lemma DivMonotonic(a: nat, b: nat, d: int)
    requires a <= b && d >= 1
    ensures a / d <= b / d
  {
    assert (a / d) * d <= a;
    assert b < (b / d + 1) * d;
    LessTimesCancels(a / d, b / d + 1, d);
  }

  /** Page 0 starts at `-size` and stops at `0`; the stop resolves to 0, so it is empty. */
  lemma PageZeroIsEmpty(catalog: seq<Property>, pageSize: int, query: Option<string>)
    requires pageSize >= 1
    ensures SearchProperties(catalog, 0, pageSize, query).Ok?
    ensures SearchProperties(catalog, 0, pageSize, query).value.items == []
  {
  }

  /** Negative pages count from the end of the list: page -1 of 20 over 50 listings
      is listings 10..29, not an empty page. */
  lemma NegativePageCountsFromEnd(catalog: seq<Property>)
    requires |catalog| == 50
    ensures SearchProperties(catalog, -1, 20, None) == Ok(SearchPage(catalog[10..30], PageMeta(-1, 20, 3, 50)))
  {
    var r := Slice(catalog, -40, -20);
    assert r == catalog[10..30];
  }

  /** For every page size, page `p <= -1` counts both bounds from the end of the matches:
      it is the window `[n + (p-1)*size, n + p*size)` clipped at 0, where `n` is the number of matches. */
  lemma NegativePageWindowFromEnd(catalog: seq<Property>, page: int, pageSize: int, query: Option<string>)
    requires page <= -1 && pageSize >= 1
    ensures var r := SearchProperties(catalog, page, pageSize, query);
            var size := EffectivePageSize(pageSize);
            var filtered := Filtered(catalog, query);
            var n := |filtered|;
            && r.Ok?
            && r.value.items == filtered[Max(0, n + (page - 1) * size)..Max(0, n + page * size)]
  {
    var size := EffectivePageSize(pageSize);
    var filtered := Filtered(catalog, query);
    var n := |filtered|;
    var start := (page - 1) * size;
    assert start + size == page * size;
    NonNegativeProduct(-page, size);
    assert page * size <= -size;
    var lo, hi := Max(0, n + start), Max(0, n + page * size);
    assert Slice(filtered, start, start + size) == filtered[lo..hi];
  }

  /** On page 1 a negative page size passes the clamp and slices `[0:pageSize]`: all the
      matches but the last `|pageSize|`, with `totalPages` at most 1. */
  lemma NegativePageSizeDropsFromEnd(catalog: seq<Property>, pageSize: int, query: Option<string>)
    requires pageSize < 0
    ensures var r := SearchProperties(catalog, 1, pageSize, query);
            var filtered := Filtered(catalog, query);
            && r.Ok?
            && r.value.items == filtered[..Max(0, |filtered| + pageSize)]
            && r.value.meta.totalPages <= 1
  {
    var filtered := Filtered(catalog, query);
    var n := |filtered|;
    var r := SearchProperties(catalog, 1, pageSize, query);
    assert r.value.items == Slice(filtered, 0, pageSize);
    assert Slice(filtered, 0, pageSize) == filtered[..Max(0, n + pageSize)];
    FloorDivByNegativeIsNonPositive(n, pageSize);
  }

  lemma FloorDivByNegativeIsNonPositive(n: nat, d: int)
    requires d < 0
    ensures FloorDiv(n, d) <= 0
  {
    var q := FloorDiv(n, d);
    assert q * (-d) == -(q * d);
    LessTimesCancels(q, 1, -d);
  }

  /** A negative page size passes the clamp: page 1 with `pageSize=-10` over 50
      listings slices `[0:-10]` and returns 40 listings, with `totalPages = 50 // -10 + 1 = -4`. */
  lemma NegativePageSizeSlicesFromEnd(catalog: seq<Property>)
    requires |catalog| == 50
    ensures SearchProperties(catalog, 1, -10, None) == Ok(SearchPage(catalog[..40], PageMeta(1, -10, -4, 50)))
  {
    var r := Slice(catalog, 0, -10);
    assert r == catalog[..40];
    assert FloorDiv(50, -10) == -5;
  }

  /** The start-up scenario: 50 listings, page 1 of 20 gives 20 listings and 3 pages;
      a page size of 50, or of 100 clamped to 50, gives all 50 and 2 pages. */
  lemma FullCatalogPages(catalog: seq<Property>)
    requires |catalog| == 50
    ensures SearchProperties(catalog, 1, 20, None) == Ok(SearchPage(catalog[..20], PageMeta(1, 20, 3, 50)))
    ensures SearchProperties(catalog, 1, 50, None) == Ok(SearchPage(catalog, PageMeta(1, 50, 2, 50)))
    ensures SearchProperties(catalog, 1, 100, None) == Ok(SearchPage(catalog, PageMeta(1, 50, 2, 50)))
  {
    assert Slice(catalog, 0, 20) == catalog[..20];
    assert Slice(catalog, 0, 50) == catalog;
  }

  /** `pageSize=0` divides by zero when computing `totalPages`. */
  lemma ZeroPageSizeFails(catalog: seq<Property>, page: int, query: Option<string>)
    ensures SearchProperties(catalog, page, 0, query) == Err(ZeroDivisionError)
  {
  }
}
