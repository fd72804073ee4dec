/** The process-wide in-memory store: users keyed by email and the ordered
    property catalog, with the handlers that read or change them in place. */
module Store {
  import opened Types
  import opened PyOps
  import opened Effects
  import Catalog
  import Auth

  /** How many listings `GET properties/saved` wraps: `MOCK_PROPERTIES[:5]`. */
  const SavedPreviewCount: int := 5
  const LastChangeNotes: seq<Option<string>> := [None, Some("המחיר ירד ב-2%"), Some("סטטוס עודכן")]

  /** One entry of the saved list built around listing `p`, with randomised metadata. */
  predicate IsSavedPreview(entry: SavedProperty, p: Property)
  {
    && entry.id == "saved-" + p.id
    && entry.property == p
    && IsUtcTimestamp(entry.meta.savedAt)
    && entry.meta.alertsEnabled.Some?
    && entry.meta.lastChange in LastChangeNotes
    && 1 <= entry.meta.daysSaved <= 30
  }

  class MockStore {
    var users: map<string, User>
    var properties: seq<Property>

    /** What start-up establishes and every handler keeps: users stored under their
        own emails, and the catalog as the generation run left it. */
    ghost predicate Valid()
      reads this
    {
      Auth.KeyedByEmail(users) && Catalog.GeneratedCatalog(properties)
    }

    /** Module load: the two seed users, an empty list, then the generation run. */
    constructor ()
      ensures Valid()
      ensures users == Auth.SeedUsers()
    {
      users := Auth.SeedUsers();
      properties := [];
      new;
      GenerateMockProperties();
    }

    /** `generate_mock_properties`: appends listings `property-1` .. `property-50`. */
    method GenerateMockProperties()
      modifies this`properties
      ensures |properties| == |old(properties)| + Catalog.CatalogSize
      ensures properties[..|old(properties)|] == old(properties)
      ensures Catalog.GeneratedCatalog(properties[|old(properties)|..])
    {
      ghost var before := properties;
      ghost var added: seq<Property> := [];
      for i := 1 to Catalog.CatalogSize + 1
        invariant |added| == i - 1
        invariant properties == before + added
        invariant Catalog.GeneratedPrefix(added)
      {
        var p := Catalog.DrawProperty(i);
        Catalog.GeneratedPrefixAppend(added, p);
        properties := properties + [p];
        added := added + [p];
      }
      assert properties[|before|..] == added;
    }

    /** `POST auth/register`: check, then insert into the map in place. */
    method Register(req: Auth.RegisterRequest, userHex: string, createdAt: string, suffixes: Auth.TokenSuffixes)
      returns (r: Result<Auth.AuthResponse>)
      requires Valid()
      modifies this`users
      ensures Valid()
      ensures properties == old(properties)
      ensures r.Err? <==> req.email in old(users)
      ensures r.Err? ==> users == old(users)
      ensures r.Ok? ==> users == old(users)[req.email := r.value.user]
      ensures Auth.Registration(users, r) == Auth.Register(old(users), req, userHex, createdAt, suffixes)
    {
      if req.email in users {
        return Err(Conflict);
      }
      var user := Auth.NewUser(req, userHex, createdAt);
      users := users[req.email := user];
      r := Ok(Auth.AuthResponse(user, Auth.GenerateTokens(user.id, suffixes)));
    }

    /** `POST auth/login`: reads the map and changes nothing. */
    method Login(req: Auth.LoginRequest, suffixes: Auth.TokenSuffixes) returns (r: Result<Auth.AuthResponse>)
      ensures r.Ok? <==> req.email in users && req.password in Auth.AcceptedPasswords
      ensures r == Auth.Login(users, req, suffixes)
    {
      r := Auth.Login(users, req, suffixes);
    }

    /** `GET properties/saved`: one synthesised entry per listing of the first five,
        in catalog order. The day offset of `savedAt` is part of the opaque timestamp. */
    method GetSavedProperties() returns (items: seq<SavedProperty>)
      ensures |items| == Min(SavedPreviewCount, |properties|)
      ensures forall k :: 0 <= k < |items| ==> IsSavedPreview(items[k], properties[k])
      ensures Valid() ==> |items| == SavedPreviewCount
      ensures Valid() ==> forall k :: 0 <= k < |items| ==> items[k].id == "saved-" + Catalog.PropertyId(k + 1)
    {
      var preview := Slice(properties, 0, SavedPreviewCount);
      SliceNatural(properties, 0, SavedPreviewCount);
      items := [];
      for k := 0 to |preview|
        invariant |items| == k
        invariant forall j :: 0 <= j < k ==> IsSavedPreview(items[j], preview[j])
      {
        var p := preview[k];
        var savedAt := UtcTimestamp();
        var alertsEnabled := RandomChoice([true, false]);
        var lastChange := RandomChoice(LastChangeNotes);
        var daysSaved := RandomInt(1, 30);
        items := items + [SavedProperty("saved-" + p.id, p, SavedMeta(savedAt, Some(alertsEnabled), lastChange, daysSaved))];
      }
      if Valid() {
        forall k | 0 <= k < |items| ensures items[k].id == "saved-" + Catalog.PropertyId(k + 1) {
          assert Catalog.GeneratedEntry(properties[k], k + 1);
        }
      }
    }
  }

  /** Start-up followed by `GET properties/saved`: the saved list shows
      `saved-property-1` .. `saved-property-5`. */
  method SavedListAfterStartup() returns (items: seq<SavedProperty>)
    ensures |items| == SavedPreviewCount
    ensures forall k :: 0 <= k < |items| ==> items[k].id == "saved-" + Catalog.PropertyId(k + 1)
  {
    var store := new MockStore();
    items := store.GetSavedProperties();
  }
}
