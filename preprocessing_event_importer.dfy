/**
 * PreProcessingEventJsonImporter: refuses a body that does not decode to a
 * truthy value, then applies the term polyfill and the location embedding in
 * one pass, and hands the document, with the same id, to the importer it
 * wraps.
 */
module PreProcessingEventImporter {
  import opened Wrappers
  import opened Json
  import opened ImportErrors
  import opened Documents
  import opened TermPreProcessing
  import opened LocationPreProcessing

  /**
   * Lines 89-105: the location embedding of the location pre-processor,
   * except that a null place lookup is followed by a method call on null,
   * an Error that `catch (\Exception $e)` does not catch.
   */
  function EventLocationRewrite(data: Json, source: PlaceSource): (r: Result<Json, ImportError>)
    ensures r.Err? <==> (LocationUrl(data).Some? && source.placeIdOf(LocationUrl(data).value).Some? &&
      source.documents(source.placeIdOf(LocationUrl(data).value).value) == NotFound)
    ensures r.Err? ==> r.error == NullPlaceDocument
    ensures r.Ok? ==> r.value == LocationRewrite(data, source)
  {
    match LocationUrl(data)
    case None => Ok(data)
    case Some(url) =>
      match source.placeIdOf(url)
      case None => Ok(data)
      case Some(placeId) =>
        if source.documents(placeId) == NotFound then Err(NullPlaceDocument)
        else Ok(LocationRewrite(data, source))
  }

  /**
   * The rewrite of the document body: when it succeeds it is the term
   * pre-processor's rewrite followed by the location pre-processor's.
   */
  function Rewrite(body: Json, resolve: CategoryResolver, source: PlaceSource): (r: Result<Json, ImportError>)
    ensures Falsy(body) ==> r == Err(InvalidJson)
    ensures !Falsy(body) && TermsRewrite(body, resolve).Err? ==> r == Err(ArrayTypeError)
    ensures r.Ok? <==> (!Falsy(body) && TermsRewrite(body, resolve).Ok? &&
      EventLocationRewrite(TermsRewrite(body, resolve).value, source).Ok?)
    ensures r.Ok? ==> r.value == LocationRewrite(TermsRewrite(body, resolve).value, source)
    ensures r.Err? ==> r.error in {InvalidJson, ArrayTypeError, NullPlaceDocument}
  {
    if Falsy(body) then Err(InvalidJson)
    else
      var terms :- TermsRewrite(body, resolve);
      EventLocationRewrite(terms, source)
  }

  /** The term polyfill does not touch `location`, so a null place lookup is judged on the incoming body. */
  lemma {:induction false} NullPlaceDocumentFails(body: Json, resolve: CategoryResolver, source: PlaceSource)
    requires !Falsy(body) && TermsRewrite(body, resolve).Ok?
    requires LocationUrl(body).Some? && source.placeIdOf(LocationUrl(body).value).Some?
    requires source.documents(source.placeIdOf(LocationUrl(body).value).value) == NotFound
    ensures Rewrite(body, resolve, source) == Err(NullPlaceDocument)
  {
    var terms := TermsRewrite(body, resolve).value;
    assert terms.members["location"] == body.members["location"];
    assert LocationUrl(terms) == LocationUrl(body);
  }

  /** The `$data['terms']` rewrite: every term through the polyfill when the terms are an array. */
  method PolyfillTerms(data: Json, resolve: CategoryResolver) returns (r: Result<Json, ImportError>)
    ensures r == TermsRewrite(data, resolve)
  {
    if data.JObject? && "terms" in data.members && IsArray(data.members["terms"]) {
      var terms := ArrayMap(data.members["terms"], t => Polyfill(t, resolve));
      if terms.None? {
        return Err(ArrayTypeError);
      }
      return Ok(JObject(data.members["terms" := terms.value]));
    }
    return Ok(data);
  }

  /** The `$data['location']` rewrite, which fails on a null place document. */
  method EmbedLocation(data: Json, source: PlaceSource) returns (r: Result<Json, ImportError>)
    ensures r == EventLocationRewrite(data, source)
  {
    var url := LocationUrl(data);
    if url.Some? {
      var placeId := source.placeIdOf(url.value);
      if placeId.Some? {
        var lookup := source.documents(placeId.value);
        if lookup == NotFound {
          return Err(NullPlaceDocument);
        }
        if lookup.Found? {
          var placeJson := lookup.document.body;
          placeJson := if Falsy(placeJson) then JObject(map[]) else placeJson;
          placeJson := WithId(placeJson, url.value);
          return Ok(JObject(data.members["location" := placeJson]));
        }
      }
    }
    return Ok(data);
  }

  /** import(): refuse, rewrite `$data['terms']`, rewrite `$data['location']`, then delegate exactly once. */
  method Import(document: JsonDocument, resolve: CategoryResolver, source: PlaceSource, inner: TraceableImporter<JsonDocument>)
    returns (outcome: Outcome<ImportError>)
    modifies inner
    ensures Rewrite(document.body, resolve, source).Ok? ==>
      outcome == Pass &&
      inner.received == old(inner.received) + [JsonDocument(document.id, Rewrite(document.body, resolve, source).value)]
    ensures Rewrite(document.body, resolve, source).Err? ==>
      outcome == Fail(Rewrite(document.body, resolve, source).error) && inner.received == old(inner.received)
  {
    if Falsy(document.body) {
      return Fail(InvalidJson);
    }
    var terms := PolyfillTerms(document.body, resolve);
    if terms.Err? {
      return Fail(terms.error);
    }
    var data := EmbedLocation(terms.value, source);
    if data.Err? {
      return Fail(data.error);
    }
    inner.Import(JsonDocument(document.id, data.value));
    return Pass;
  }
}
