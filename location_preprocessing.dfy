/**
 * LocationPreProcessingJsonImporter: replaces the `location` of a document by
 * the stored JSON of the place its `@id` points to (keeping that `@id`), then
 * hands the document, with the same id, to the importer it wraps. Every
 * failure on the way leaves the body as it was.
 */
module LocationPreProcessing {
  import opened Wrappers
  import opened Json
  import opened Documents

  /**
   * The place collaborators: URL validation followed by the place id
   * parser (None when either throws), and the place document repository.
   */
  datatype PlaceSource = PlaceSource(placeIdOf: string -> Option<string>, documents: string -> DocumentLookup)

  /** `isset($data['location']['@id']) && is_string($data['location']['@id'])`: the location URL. */
  function LocationUrl(data: Json): (r: Option<string>)
    ensures r.Some? <==> data.JObject? && "location" in data.members && StringMember(data.members["location"], "@id").Some?
    ensures r.Some? ==> data.members["location"].members["@id"] == JString(r.value)
  {
    StringMember(MemberOrNull(data, "location"), "@id")
  }

  /** `$placeJson = $placeJson ? $placeJson : []; $placeJson['@id'] = $url;` */
  function WithId(placeJson: Json, url: string): (r: Json)
    ensures r.JObject? && "@id" in r.members && r.members["@id"] == JString(url)
    ensures placeJson.JObject? ==> r.members == placeJson.members["@id" := JString(url)]
    ensures !placeJson.JObject? ==> r.members == map["@id" := JString(url)]
  {
    if placeJson.JObject? then JObject(placeJson.members["@id" := JString(url)])
    else JObject(map["@id" := JString(url)])
  }

  /** The new location when the lookup answers: the stored place with the URL as its `@id`, or only the URL. */
  function EmbeddedPlace(lookup: DocumentLookup, url: string): (r: Option<Json>)
    ensures r.Some? <==> lookup.Found? || lookup == NotFound
    ensures lookup.Found? ==> r == Some(WithId(lookup.document.body, url))
    ensures lookup == NotFound ==> r == Some(JObject(map["@id" := JString(url)]))
  {
    match lookup
    case Found(place) => Some(WithId(place.body, url))
    case NotFound => Some(WithId(JObject(map[]), url))
    case _ => None
  }

  /**
   * The rewrite of the document body. Only `location` can change; a place
   * document that comes back replaces it by the place's JSON with the
   * original URL as `@id`, a null lookup leaves only the URL, and every other
   * case (no string `@id` in an object `location`, a URL without a place id,
   * a gone place, any other exception) leaves the body as it was.
   */
  function LocationRewrite(data: Json, source: PlaceSource): (r: Json)
    ensures data.JObject? <==> r.JObject?
    ensures data.JObject? ==> (r.members.Keys == data.members.Keys &&
      forall k :: k in data.members && k != "location" ==> r.members[k] == data.members[k])
    ensures LocationUrl(data).None? || source.placeIdOf(LocationUrl(data).value).None? ==> r == data
    ensures LocationUrl(data).Some? && source.placeIdOf(LocationUrl(data).value).Some? ==>
      var url := LocationUrl(data).value;
      var lookup := source.documents(source.placeIdOf(url).value);
      (lookup.Found? || lookup == NotFound ==>
        r.members["location"].JObject? && "@id" in r.members["location"].members &&
        r.members["location"].members["@id"] == JString(url) &&
        (lookup.Found? && lookup.document.body.JObject? ==>
          forall k :: k in lookup.document.body.members && k != "@id" ==>
            k in r.members["location"].members && r.members["location"].members[k] == lookup.document.body.members[k]) &&
        (lookup == NotFound ==> r.members["location"] == JObject(map["@id" := JString(url)]))) &&
      (lookup == Gone || lookup == LookupFails ==> r == data)
  {
    match LocationUrl(data)
    case None => data
    case Some(url) =>
      match source.placeIdOf(url)
      case None => data
      case Some(placeId) =>
        match EmbeddedPlace(source.documents(placeId), url)
        case None => data
        case Some(location) => JObject(data.members["location" := location])
  }

  /** import(): rewrite `$data['location']` inside the try block, then delegate exactly once with the same id. */
  method Import(document: JsonDocument, source: PlaceSource, inner: TraceableImporter<JsonDocument>)
    modifies inner
    ensures inner.received == old(inner.received) + [JsonDocument(document.id, LocationRewrite(document.body, source))]
  {
    var data := document.body;
    var url := LocationUrl(data);
    if url.Some? {
      var placeId := source.placeIdOf(url.value);
      if placeId.Some? {
        var lookup := source.documents(placeId.value);
        if lookup.Found? || lookup == NotFound {
          var placeJson := JObject(map[]);
          if lookup.Found? {
            placeJson := if Falsy(lookup.document.body) then JObject(map[]) else lookup.document.body;
          }
          placeJson := WithId(placeJson, url.value);
          data := JObject(data.members["location" := placeJson]);
        }
      }
    }
    inner.Import(JsonDocument(document.id, data));
  }
}
