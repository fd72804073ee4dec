/** The synthetic catalog built at start-up: fifty listings whose fields are
    drawn from fixed vocabularies and integer ranges. */
module Catalog {
  import opened Types
  import opened Text
  import opened PyOps
  import opened Effects

  const CatalogSize: nat := 50

  const Cities: seq<string> := ["תל אביב", "ירושלים", "חיפה", "ראשון לציון", "נתניה"]
  const Streets: seq<string> := ["הרצל", "דיזנגוף", "אלנבי", "בוגרשוב", "שבזי"]
  const PropertyTypes: seq<PropertyType> := [Apartment, Penthouse, House]
  const FeatureTags: seq<string> := ["mamad", "elevator", "parking", "storage", "balcony", "renovated"]
  const RoomChoices: seq<real> := [1.5, 2.0, 2.5, 3.0, 3.5, 4.0, 5.0]
  /** The score labels; a label is drawn independently of the score it accompanies. */
  const ScoreLabels: seq<string> := ["השקעה מצוינת", "השקעה טובה", "הוגן"]

  const MinPrice: int := 1_000_000
  const MaxPrice: int := 6_000_000
  const MinSize: int := 50
  const MaxSize: int := 150
  const MaxFeatures: nat := 4
  const NeighborhoodPrefix: string := "שכונת "
  const LastUpdatedAt: string := "2025-01-15T10:30:00Z"

  const PropertyIdPrefix: string := "property-"

  /** `f"property-{i}"`: the prefix followed by decimal digits only. */
  function PropertyId(i: nat): (id: string)
    ensures IsPrefix(PropertyIdPrefix, id) && |id| > |PropertyIdPrefix|
    ensures forall k :: |PropertyIdPrefix| <= k < |id| ==> '0' <= id[k] <= '9'
  {
    PropertyIdPrefix + NatToString(i)
  }

  const PrimaryImageBase: string := "https://picsum.photos/400/300?random="

  /** `f"https://picsum.photos/400/300?random={i}"`: the base followed by decimal digits only. */
  function PrimaryImageUrl(i: nat): (url: string)
    ensures IsPrefix(PrimaryImageBase, url) && |url| > |PrimaryImageBase|
    ensures forall k :: |PrimaryImageBase| <= k < |url| ==> '0' <= url[k] <= '9'
  {
    PrimaryImageBase + NatToString(i)
  }

  /** Python's `int(x)` on a non-negative float. */
  function Truncate(x: real): (n: nat)
    requires x >= 0.0
    ensures n as real <= x < n as real + 1.0
  {
    x.Floor
  }

  const TitleHead: string := "דירה "

  /** `f"דירה {int(rooms)} חדרים ב{city}"`: starts with the head word and the whole
      number of rooms, and ends with the city. */
  function Title(rooms: real, city: string): (t: string)
    requires rooms >= 0.0
    ensures IsPrefix(TitleHead + NatToString(Truncate(rooms)) + " ", t)
    ensures |city| <= |t| && t[|t| - |city|..] == city
  {
    TitleHead + NatToString(Truncate(rooms)) + " חדרים ב" + city
  }

  /** Every rooms choice names a whole number of rooms from 1 to 5 in the title:
      `int(2.5) == 2`, so "2.5 rooms" is titled as two. */
  lemma TitleRoomCounts(r: real)
    requires r in RoomChoices
    ensures 1 <= Truncate(r) <= 5
    ensures r == 2.5 ==> Truncate(r) == 2
  {
  }

  /** `s` is `str(n)` for some `n` in `[lo, hi]`. */
  predicate IsDecimalIn(s: string, lo: nat, hi: nat)
  {
    exists n: nat :: lo <= n <= hi && s == NatToString(n)
  }

  /** What `random.sample(features, random.randint(0, 4))` can return. */
  predicate IsFeatureSample(f: seq<string>)
  {
    |f| <= MaxFeatures && multiset(f) <= multiset(FeatureTags)
  }

  /** Every value the generator can give the `i`-th listing (counting from 1). */
  predicate GeneratedEntry(p: Property, i: nat)
  {
    && p.id == PropertyId(i)
    && p.address.city in Cities
    && p.rooms in RoomChoices
    && p.rooms >= 0.0
    && p.title == Title(p.rooms, p.address.city)
    && p.address.street in Streets
    && IsDecimalIn(p.address.number, 1, 100)
    && (exists n: nat :: 1 <= n <= 10 && p.address.neighborhood == NeighborhoodPrefix + NatToString(n))
    && MinPrice <= p.price <= MaxPrice
    && MinSize <= p.sizeSqm <= MaxSize
    && p.pricePerSqm == FloorDiv(p.price, p.sizeSqm)
    && 1 <= p.floor <= 15
    && 3 <= p.totalFloors <= 20
    && 40 <= p.rqScore <= 95
    && p.rqScoreLabel in ScoreLabels
    && p.primaryImageUrl == PrimaryImageUrl(i)
    && p.lastUpdatedAt == LastUpdatedAt
    && IsFeatureSample(p.features)
  }

  /** The first `|s|` listings of a generation run. */
  predicate GeneratedPrefix(s: seq<Property>)
  {
    forall k :: 0 <= k < |s| ==> GeneratedEntry(s[k], k + 1)
  }

  /** A catalog as the start-up generation leaves it. */
  predicate GeneratedCatalog(cat: seq<Property>)
  {
    |cat| == CatalogSize && GeneratedPrefix(cat)
  }

  lemma GeneratedPrefixAppend(s: seq<Property>, p: Property)
    requires GeneratedPrefix(s) && GeneratedEntry(p, |s| + 1)
    ensures GeneratedPrefix(s + [p])
  {
  }

  /** One iteration of the generation loop: draws the `i`-th listing. */
  method DrawProperty(i: nat) returns (p: Property)
    ensures GeneratedEntry(p, i)
  {
    var city := RandomChoice(Cities);
    var price := RandomInt(MinPrice, MaxPrice);
    var size := RandomInt(MinSize, MaxSize);
    var rooms := RandomChoice(RoomChoices);
    var propertyType := RandomChoice(PropertyTypes);
    var street := RandomChoice(Streets);
    var number := RandomInt(1, 100);
    var neighborhood := RandomInt(1, 10);
    var floor := RandomInt(1, 15);
    var totalFloors := RandomInt(3, 20);
    var rqScore := RandomInt(40, 95);
    var scoreLabel := RandomChoice(ScoreLabels);
    var featureCount := RandomInt(0, MaxFeatures);
    var features := RandomSample(FeatureTags, featureCount);
    p := Property(
      PropertyId(i),
      Title(rooms, city),
      propertyType,
      Address(street, NatToString(number), city, NeighborhoodPrefix + NatToString(neighborhood)),
      price,
      FloorDiv(price, size),
      rooms,
      size,
      floor,
      totalFloors,
      rqScore,
      scoreLabel,
      PrimaryImageUrl(i),
      LastUpdatedAt,
      features);
  }

  lemma PropertyIdInjective(i: nat, j: nat)
    requires PropertyId(i) == PropertyId(j)
    ensures i == j
  {
    PrefixedNatInjective(PropertyIdPrefix, i, j);
  }

  /** The generated ids are pairwise different. */
  lemma GeneratedIdsDistinct(cat: seq<Property>)
    requires GeneratedCatalog(cat)
    ensures forall k, l :: 0 <= k < l < |cat| ==> cat[k].id != cat[l].id
  {
    forall k, l | 0 <= k < l < |cat| ensures cat[k].id != cat[l].id {
      if cat[k].id == cat[l].id {
        PropertyIdInjective(k + 1, l + 1);
      }
    }
  }

  lemma FeatureTagsDistinct()
    ensures Distinct(FeatureTags)
  {
  }

  /** The features of a listing are at most four different tags of the vocabulary. */
  lemma FeaturesAreDistinctTags(p: Property, i: nat)
    requires GeneratedEntry(p, i)
    ensures |p.features| <= MaxFeatures
    ensures Distinct(p.features)
    ensures forall f :: f in p.features ==> f in FeatureTags
  {
    FeatureTagsDistinct();
    SampleOfDistinct(FeatureTags, p.features);
  }

  /** `pricePerSqm` is `price // sizeSqm`, so it lies between 1,000,000 // 150 and 6,000,000 // 50. */
  lemma PricePerSqmBounds(p: Property, i: nat)
    requires GeneratedEntry(p, i)
    ensures p.pricePerSqm * p.sizeSqm <= p.price < (p.pricePerSqm + 1) * p.sizeSqm
    ensures MinPrice / MaxSize <= p.pricePerSqm <= MaxPrice / MinSize
  {
    var q, size := p.pricePerSqm, p.sizeSqm;
    assert q * size <= p.price < q * size + size;
    assert (q + 1) * size == q * size + size;
    LessTimesCancels(MinPrice / MaxSize, q + 1, size);
    LessTimesCancels(q, MaxPrice / MinSize + 1, size);
  }
}
