/** `GET notifications?page&pageSize`: a page of synthesised notifications whose
    metadata is fixed whatever the page size. */
module Notifications {
  import opened Types
  import opened Text
  import opened Effects
  import Catalog

  datatype NotificationKind = NewProperty | PriceDrop | RqChange

  /** The `metadata` bag; its float `changePercent` is not modelled. */
  datatype NotificationMetadata = NotificationMetadata(thumbnailUrl: string, city: string, rqScore: int, price: int)

  datatype Notification = Notification(
    id: string,
    kind: NotificationKind,
    title: string,
    body: string,
    createdAt: string,
    readAt: Option<string>,
    propertyId: string,
    savedSearchId: Option<string>,
    metadata: NotificationMetadata)

  datatype NotificationPage = NotificationPage(items: seq<Notification>, meta: PageMeta)

  const NotificationKinds: seq<NotificationKind> := [NewProperty, PriceDrop, RqChange]
  const NotificationTitle: string := "עדכון חדש"
  const NotificationBody: string := "המחיר של נכס שמור ירד ב-2%"
  const ThumbnailUrl: string := "https://picsum.photos/100/100?random=1"
  const NotificationCity: string := "תל אביב"
  /** The totals the answer reports, whatever `page` and `pageSize` are. */
  const ReportedTotalPages: int := 3
  const ReportedTotalItems: int := 25

  /** The `i`-th synthesised notification (counting from 0). */
  predicate IsSynthesised(n: Notification, i: nat)
  {
    && n.id == "notif-" + NatToString(i)
    && n.title == NotificationTitle
    && n.body == NotificationBody
    && IsUtcTimestamp(n.createdAt)
    && n.readAt == None
    && (exists k: nat :: 1 <= k <= Catalog.CatalogSize && n.propertyId == Catalog.PropertyId(k))
    && n.savedSearchId == None
    && n.metadata.thumbnailUrl == ThumbnailUrl
    && n.metadata.city == NotificationCity
    && 60 <= n.metadata.rqScore <= 90
    && 1_500_000 <= n.metadata.price <= 4_000_000
  }

  /** `range(pageSize)` yields nothing for a negative size, so the page holds
      `max(pageSize, 0)` items while `meta` always reports 3 pages of 25 items. */
  method GetNotifications(page: int, pageSize: int) returns (r: NotificationPage)
    ensures |r.items| == if pageSize < 0 then 0 else pageSize
    ensures forall i :: 0 <= i < |r.items| ==> IsSynthesised(r.items[i], i)
    ensures r.meta == PageMeta(page, pageSize, ReportedTotalPages, ReportedTotalItems)
  {
    var items: seq<Notification> := [];
    var i := 0;
    while i < pageSize
      invariant 0 <= i
      invariant |items| == i
      invariant pageSize >= 0 ==> i <= pageSize
      invariant pageSize < 0 ==> i == 0
      invariant forall j :: 0 <= j < i ==> IsSynthesised(items[j], j)
    {
      var kind := RandomChoice(NotificationKinds);
      var createdAt := UtcTimestamp();
      var propertyNumber := RandomInt(1, Catalog.CatalogSize);
      var rqScore := RandomInt(60, 90);
      var price := RandomInt(1_500_000, 4_000_000);
      var n := Notification(
        "notif-" + NatToString(i), kind, NotificationTitle, NotificationBody, createdAt, None,
        Catalog.PropertyId(propertyNumber), None,
        NotificationMetadata(ThumbnailUrl, NotificationCity, rqScore, price));
      items := items + [n];
      i := i + 1;
    }
    r := NotificationPage(items, PageMeta(page, pageSize, ReportedTotalPages, ReportedTotalItems));
  }
}
