/** The records the analysis service returns and the GeoJSON values the
    dashboard builds from them (the `OverlapResult`, `GeoJSONFeature`,
    `GeoJSONGeometry` and `GeoJSONFeatureCollection` interfaces). JSON text is
    not modelled: a row's `geometry` string is represented by what parsing it
    yields. */
module Overlap {
  import opened Wrappers

  /** GeoJSON coordinates: a position, or an array of nested coordinates. */
  datatype Coordinates = Position(values: seq<real>) | Nested(children: seq<Coordinates>)

  datatype Geometry = Geometry(geometryType: string, coordinates: Coordinates)

  /** The `properties` object of a feature: either the three row fields the
      dashboard writes, or whatever the parsed text carried (by member name,
      with the member's serialized value). */
  datatype Properties =
    | RowProperties(featureId: int, errorType: string, overlapPercentage: real)
    | ParsedProperties(entries: map<string, string>)

  /** A `Feature`. `geometry` is `None` when the text had `null` or no geometry;
      `members` are its other top-level members (`id`, `bbox`, ...). */
  datatype Feature = Feature(geometry: Option<Geometry>, properties: Option<Properties>, members: map<string, string>)

  /** A `FeatureCollection`, with its features and any other top-level members. */
  datatype FeatureCollection = FeatureCollection(features: seq<Feature>, members: map<string, string>)

  /** What `JSON.parse` makes of a row's `geometry` string, by the `type` the
      code inspects: a `Feature`, a `FeatureCollection`, anything else (taken as
      a bare geometry), or `ParseError` when parsing throws or the parsed value
      has no `type` to read (the text `null`). */
  datatype ParsedGeometry =
    | ParsedFeature(feature: Feature)
    | ParsedCollection(collection: FeatureCollection)
    | RawGeometry(geometry: Geometry)
    | ParseError

  /** The code tests `type === 'Feature'` and `type === 'FeatureCollection'`
      before falling back to a bare geometry, so a value parsed from text never
      takes the `RawGeometry` shape with either of those two type names. */
  predicate WellFormedParse(p: ParsedGeometry) {
    p.RawGeometry? ==> p.geometry.geometryType != "Feature" && p.geometry.geometryType != "FeatureCollection"
  }

  /** The parse outcomes a row can carry: those that respect the type tests. */
  type ParsedText = p: ParsedGeometry | WellFormedParse(p) witness ParseError

  /** One analysed input feature as the service returns it. */
  datatype OverlapResult = OverlapResult(
    errorType: string,
    featureId: int,
    geometry: ParsedText,
    overlapPercentage: real,
    totalOverlapAreaM2: real,
    originalAreaM2: real,
    overlappingWith: seq<int>,
    remarks: string)

  /** The properties the dashboard attaches to a row's feature on the map. */
  function PropertiesOf(r: OverlapResult): Properties {
    RowProperties(r.featureId, r.errorType, r.overlapPercentage)
  }
}
