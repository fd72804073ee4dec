/** Values exchanged by the handlers of the mock mobile API: users, property
    records, saved entries, page metadata and the error answers. */
module Types {

  datatype Option<+T> = None | Some(value: T)

  /** How a handler fails: an HTTP error with the `{error, message}` body that
      the handler raises itself, or an uncaught Python `ZeroDivisionError`,
      which the web framework answers with status 500. */
  datatype ApiError =
    | HttpError(status: int, slug: string, message: string)
    | ZeroDivisionError

  const Conflict: ApiError := HttpError(409, "conflict", "Email already exists")
  const Unauthorized: ApiError := HttpError(401, "unauthorized", "Invalid credentials")
  const NotFound: ApiError := HttpError(404, "not_found", "Property not found")

  datatype Result<+T> = Ok(value: T) | Err(error: ApiError)

  datatype Tier = Free | Premium

  datatype User = User(
    id: string,
    firstName: string,
    lastName: string,
    email: string,
    phone: Option<string>,
    subscriptionTier: Tier,
    preferredLocations: seq<string>,
    createdAt: string)

  datatype PropertyType = Apartment | Penthouse | House

  /** The address of a listing; latitude and longitude are floats and are not modelled. */
  datatype Address = Address(street: string, number: string, city: string, neighborhood: string)

  /** A catalog entry. `rooms` is one of the fractional room counts of the
      generator, all of which are exact binary floats, so `real` is exact. */
  datatype Property = Property(
    id: string,
    title: string,
    propertyType: PropertyType,
    address: Address,
    price: int,
    pricePerSqm: int,
    rooms: real,
    sizeSqm: int,
    floor: int,
    totalFloors: int,
    rqScore: int,
    rqScoreLabel: string,
    primaryImageUrl: string,
    lastUpdatedAt: string,
    features: seq<string>)

  datatype SavedMeta = SavedMeta(
    savedAt: string,
    alertsEnabled: Option<bool>,
    lastChange: Option<string>,
    daysSaved: int)

  datatype SavedProperty = SavedProperty(id: string, property: Property, meta: SavedMeta)

  /** The `meta` object of a paged list answer. */
  datatype PageMeta = PageMeta(page: int, pageSize: int, totalPages: int, totalItems: int)
}
