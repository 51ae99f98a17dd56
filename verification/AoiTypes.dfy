/**
 The records of the AOI map: an Area of Interest, its geometry, and the two
 argument shapes the store accepts (a new AOI without id and timestamps, and a
 partial update). Collection-level predicates shared by the store and the
 views live here as well.
 */
module AoiTypes {

  /** An optional value; `None` models JavaScript's `null` / `undefined`. */
  datatype Option<+T> = None | Some(value: T) {
    function GetOr(default: T): T {
      match this
      case Some(v) => v
      case None => default
    }
  }

  /** The tag of a geometry: `"point"` or `"polygon"`. */
  datatype GeometryType = Point | Polygon

  /** One `[lat, lng]` pair. Coordinates are only copied, never computed on,
      so JavaScript numbers are modelled as reals. */
  datatype LatLng = LatLng(lat: real, lng: real)

  datatype Geometry = Geometry(kind: GeometryType, coordinates: seq<LatLng>)

  /** An Area of Interest. The timestamps are opaque ISO-8601 strings. */
  datatype Aoi = Aoi(
    id: string,
    name: string,
    description: Option<string>,
    geometry: Geometry,
    createdAt: string,
    updatedAt: string)

  /** What a caller hands to `addAoi`: an AOI without its id and timestamps. */
  datatype NewAoi = NewAoi(name: string, description: Option<string>, geometry: Geometry)

  /** A partial AOI without `id`, as accepted by `updateAoi`. `None` means the
      key is absent. For `description`, `Some(None)` is a key explicitly set to
      `undefined`, which clears the description when spread over a record. */
  datatype AoiPatch = AoiPatch(
    name: Option<string>,
    description: Option<Option<string>>,
    geometry: Option<Geometry>,
    createdAt: Option<string>,
    updatedAt: Option<string>)

  const NoChanges: AoiPatch := AoiPatch(None, None, None, None, None)

  /** Some record of the collection carries `id`. */
  predicate HasId(aois: seq<Aoi>, id: string) {
    exists i :: 0 <= i < |aois| && aois[i].id == id
  }

  /** No two records of the collection share an id. */
  predicate UniqueIds(aois: seq<Aoi>) {
    forall i, j :: 0 <= i < j < |aois| ==> aois[i].id != aois[j].id
  }

  /** Every record has a first coordinate, which the list view reads. */
  predicate AllHaveCoordinates(aois: seq<Aoi>) {
    forall i :: 0 <= i < |aois| ==> |aois[i].geometry.coordinates| > 0
  }
}
