/** The detail and save handlers: a first-match scan of the catalog by id,
    answering 404 `not_found` when no listing carries the id. */
module Lookup {
  import opened Types
  import opened Text
  import Catalog

  datatype Reason = Reason(labelText: string, sentiment: string)

  /** The deterministic part of the detail answer. The randomised amenities,
      price forecasts and neighbourhood figures are not modelled. */
  datatype PropertyDetail = PropertyDetail(
    property: Property,
    description: string,
    images: seq<string>,
    videos: seq<string>,
    reasons: seq<Reason>)

  /** The body of a save request; an absent `alertsEnabled` defaults to `true`,
      an explicit `null` stays `None`. */
  datatype SaveRequest = SaveRequest(propertyId: string, alertsEnabled: Option<bool>)

  const DetailReasons: seq<Reason> := [Reason("מיקום מרכזי", "positive"), Reason("מחיר תחרותי", "positive")]

  /** The position of the first listing whose id is `id`, scanning from the front. */
  function IndexOfId(ps: seq<Property>, id: string): (r: Option<nat>)
    ensures r.Some? ==> r.value < |ps| && ps[r.value].id == id
    ensures r.Some? ==> forall j :: 0 <= j < r.value ==> ps[j].id != id
    ensures r.None? <==> forall j :: 0 <= j < |ps| ==> ps[j].id != id
  {
    if ps == [] then None
    else if ps[0].id == id then Some(0)
    else match IndexOfId(ps[1..], id)
      case None => None
      case Some(k) => Some(k + 1)
  }

  /** `next((p for p in MOCK_PROPERTIES if p["id"] == id), None)` followed by the 404 check. */
  function FindProperty(ps: seq<Property>, id: string): (r: Result<Property>)
    ensures r.Ok? <==> exists j :: 0 <= j < |ps| && ps[j].id == id
    ensures r.Err? ==> r.error == NotFound
    ensures r.Ok? ==> r.value.id == id && r.value in ps
    ensures r.Ok? ==> IndexOfId(ps, id).Some? && r.value == ps[IndexOfId(ps, id).value]
  {
    match IndexOfId(ps, id)
    case None => Err(NotFound)
    case Some(k) => Ok(ps[k])
  }

  const DetailImageBase: string := "https://picsum.photos/600/400?random="

  /** The `k`-th detail image of listing `id`: the base, the id, a dash, then `k`. */
  function DetailImageUrl(id: string, k: nat): (url: string)
    ensures IsPrefix(DetailImageBase + id + "-", url)
    ensures forall i :: |DetailImageBase + id + "-"| <= i < |url| ==> '0' <= url[i] <= '9'
  {
    DetailImageBase + id + "-" + NatToString(k)
  }

  /** The image URLs of one listing differ exactly when their numbers do. */
  lemma DetailImageUrlInjective(id: string, j: nat, k: nat)
    requires DetailImageUrl(id, j) == DetailImageUrl(id, k)
    ensures j == k
  {
    PrefixedNatInjective(DetailImageBase + id + "-", j, k);
  }

  /** The three detail images of a listing. */
  function DetailImages(id: string): (images: seq<string>)
    ensures |images| == 3
    ensures forall a, b :: 0 <= a < b < |images| ==> images[a] != images[b]
    ensures forall k :: 0 <= k < |images| ==>
      && IsPrefix(DetailImageBase + id + "-", images[k])
      && (forall i :: |DetailImageBase + id + "-"| <= i < |images[k]| ==> '0' <= images[k][i] <= '9')
      && DecimalValue(images[k][|DetailImageBase + id + "-"|..]) == k + 1
  {
    var images := [DetailImageUrl(id, 1), DetailImageUrl(id, 2), DetailImageUrl(id, 3)];
    var head := DetailImageBase + id + "-";
    assert forall k :: 0 <= k < 3 ==> DecimalValue(images[k][|head|..]) == k + 1 by {
      forall k | 0 <= k < 3 ensures DecimalValue(images[k][|head|..]) == k + 1 {
        assert images[k][|head|..] == NatToString(k + 1);
        DecimalRoundTrip(k + 1);
      }
    }
    images
  }

  /** `GET properties/{id}`: the listing merged with its detail fields. */
  function GetProperty(ps: seq<Property>, id: string): (r: Result<PropertyDetail>)
    ensures r.Err? <==> FindProperty(ps, id).Err?
    ensures r.Err? ==> r.error == NotFound
    ensures r.Ok? ==> r.value.property == FindProperty(ps, id).value
    ensures r.Ok? ==> r.value.images == DetailImages(id) && r.value.videos == []
    ensures r.Ok? ==>
      r.value.description == r.value.property.title + ". דירה מרווחת ומוארת ב" + r.value.property.address.city + "."
    ensures r.Ok? ==> r.value.reasons == DetailReasons
  {
    match FindProperty(ps, id)
    case Err(e) => Err(e)
    case Ok(p) =>
      Ok(PropertyDetail(
        p,
        p.title + ". דירה מרווחת ומוארת ב" + p.address.city + ".",
        DetailImages(id),
        [],
        DetailReasons))
  }

  /** `POST properties/saved`: a saved entry around the listing found, saved just now. */
  function SaveProperty(ps: seq<Property>, req: SaveRequest, savedAt: string): (r: Result<SavedProperty>)
    ensures r.Err? <==> FindProperty(ps, req.propertyId).Err?
    ensures r.Err? ==> r.error == NotFound
    ensures r.Ok? ==> r.value.property == FindProperty(ps, req.propertyId).value
    ensures r.Ok? ==> r.value.id == "saved-" + req.propertyId
    ensures r.Ok? ==> r.value.meta == SavedMeta(savedAt, req.alertsEnabled, None, 0)
  {
    match FindProperty(ps, req.propertyId)
    case Err(e) => Err(e)
    case Ok(p) => Ok(SavedProperty("saved-" + req.propertyId, p, SavedMeta(savedAt, req.alertsEnabled, None, 0)))
  }

  /** In the generated catalog, `property-i` is found at position `i - 1` for every `i` in 1..50. */
  lemma FindsGeneratedId(cat: seq<Property>, i: nat)
    requires Catalog.GeneratedCatalog(cat)
    requires 1 <= i <= Catalog.CatalogSize
    ensures IndexOfId(cat, Catalog.PropertyId(i)) == Some(i - 1)
    ensures FindProperty(cat, Catalog.PropertyId(i)) == Ok(cat[i - 1])
  {
    assert Catalog.GeneratedEntry(cat[i - 1], i);
    var r := IndexOfId(cat, Catalog.PropertyId(i));
    assert r.Some?;
    assert Catalog.GeneratedEntry(cat[r.value], r.value + 1);
    Catalog.PropertyIdInjective(r.value + 1, i);
  }

  /** Any `property-n` outside 1..50 is not in the generated catalog: the handlers answer 404. */
  lemma UnknownIdNotFound(cat: seq<Property>, n: nat, alertsEnabled: Option<bool>, savedAt: string)
    requires Catalog.GeneratedCatalog(cat)
    requires n == 0 || n > Catalog.CatalogSize
    ensures GetProperty(cat, Catalog.PropertyId(n)) == Err(NotFound)
    ensures SaveProperty(cat, SaveRequest(Catalog.PropertyId(n), alertsEnabled), savedAt) == Err(NotFound)
  {
    forall j | 0 <= j < |cat| ensures cat[j].id != Catalog.PropertyId(n) {
      assert Catalog.GeneratedEntry(cat[j], j + 1);
      if cat[j].id == Catalog.PropertyId(n) {
        Catalog.PropertyIdInjective(j + 1, n);
      }
    }
  }
}
