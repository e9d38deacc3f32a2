/**
 * MediaObjectPreProcessingDocumentImporter: replaces every `mediaObject`
 * entry whose `@id` leads to a media object the media manager knows by that
 * object as the serializer writes it, then hands the document, with the same
 * id, to the importer it wraps.
 */
module MediaObjectPreProcessing {
  import opened Wrappers
  import opened Json
  import opened ImportErrors
  import opened Documents

  /**
   * What the serializer gives for a media object: a decoded array, or a string,
   * modelled by what json_decode makes of it.
   */
  datatype Serialized = SerializedArray(value: Json) | SerializedString(decoded: Json)

  /**
   * The chain URL validation, id parsing, media manager lookup and
   * serialization for an `@id`; None when any step throws an Exception.
   */
  type MediaObjectSource = string -> Option<Serialized>

  /** The serialized object as an entry of the list: a string is decoded first. */
  function AsEntry(serialized: Serialized): (r: Json)
    ensures serialized.SerializedArray? ==> r == serialized.value
    ensures serialized.SerializedString? ==> r == serialized.decoded
  {
    match serialized
    case SerializedArray(value) => value
    case SerializedString(decoded) => decoded
  }

  /** The callback of the `array_map` over the media objects. */
  function Replacement(entry: Json, source: MediaObjectSource): (r: Json)
    ensures StringMember(entry, "@id").None? ==> r == entry
    ensures StringMember(entry, "@id").Some? ==>
      var serialized := source(StringMember(entry, "@id").value);
      (serialized.None? ==> r == entry) && (serialized.Some? ==> r == AsEntry(serialized.value))
  {
    match StringMember(entry, "@id")
    case None => entry
    case Some(id) =>
      match source(id)
      case None => entry
      case Some(serialized) => AsEntry(serialized)
  }

  /**
   * The rewrite of the document body. An absent or non-array `mediaObject`
   * is left alone; an entry that is not an array is the callback's
   * TypeError, which escapes import(); otherwise the list keeps its length
   * and order, each entry is replaced or kept, and no other key changes.
   */
  function MediaObjectsRewrite(body: map<string, Json>, source: MediaObjectSource): (r: Result<map<string, Json>, ImportError>)
    ensures !("mediaObject" in body && IsArray(body["mediaObject"])) ==> r == Ok(body)
    ensures r.Err? ==> r.error == ArrayTypeError
    ensures "mediaObject" in body && body["mediaObject"].JArray? ==>
      var entries := body["mediaObject"].items;
      (r.Ok? <==> forall i :: 0 <= i < |entries| ==> IsArray(entries[i])) &&
      (r.Ok? ==>
        "mediaObject" in r.value && r.value["mediaObject"].JArray? && |r.value["mediaObject"].items| == |entries| &&
        forall i :: 0 <= i < |entries| ==> r.value["mediaObject"].items[i] == Replacement(entries[i], source))
    ensures "mediaObject" in body && body["mediaObject"].JObject? ==>
      var entries := body["mediaObject"].members;
      (r.Ok? <==> forall k :: k in entries ==> IsArray(entries[k])) &&
      (r.Ok? ==>
        "mediaObject" in r.value && r.value["mediaObject"].JObject? && r.value["mediaObject"].members.Keys == entries.Keys &&
        forall k :: k in entries ==> r.value["mediaObject"].members[k] == Replacement(entries[k], source))
    ensures r.Ok? ==>
      r.value.Keys == body.Keys && forall k :: k in body && k != "mediaObject" ==> r.value[k] == body[k]
  {
    match MapArrayMember(body, "mediaObject", entry => Replacement(entry, source))
    case None => Err(ArrayTypeError)
    case Some(rewritten) => Ok(rewritten)
  }

  /**
   * An entry the source cannot resolve is kept as it was; so a body none of
   * whose media objects resolve goes on unchanged.
   */
  lemma {:induction false} UnresolvedMediaObjectsAreKept(body: map<string, Json>, source: MediaObjectSource)
    requires "mediaObject" in body && body["mediaObject"].JArray?
    requires var entries := body["mediaObject"].items;
      forall i :: 0 <= i < |entries| ==>
        IsArray(entries[i]) && (StringMember(entries[i], "@id").None? || source(StringMember(entries[i], "@id").value).None?)
    ensures MediaObjectsRewrite(body, source) == Ok(body)
  {
    var r := MediaObjectsRewrite(body, source).value;
    var entries := body["mediaObject"].items;
    assert r["mediaObject"].items == entries;
    assert r["mediaObject"] == body["mediaObject"];
    assert r == body;
  }

  /** import(): reassign `$data['mediaObject']`, then delegate exactly once with the same id. */
  method Import(document: DecodedDocument, source: MediaObjectSource, inner: TraceableImporter<DecodedDocument>)
    returns (outcome: Outcome<ImportError>)
    modifies inner
    ensures MediaObjectsRewrite(document.body, source).Ok? ==>
      outcome == Pass &&
      inner.received == old(inner.received) + [DecodedDocument(document.id, MediaObjectsRewrite(document.body, source).value)]
    ensures MediaObjectsRewrite(document.body, source).Err? ==>
      outcome == Fail(ArrayTypeError) && inner.received == old(inner.received)
  {
    var data := document.body;
    if "mediaObject" in data && IsArray(data["mediaObject"]) {
      var mediaObjects := ArrayMap(data["mediaObject"], entry => Replacement(entry, source));
      if mediaObjects.None? {
        return Fail(ArrayTypeError);
      }
      data := data["mediaObject" := mediaObjects.value];
    }
    inner.Import(DecodedDocument(document.id, data));
    return Pass;
  }
}
