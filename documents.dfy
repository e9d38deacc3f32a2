/**
 * The documents that travel through the pre-processor chain, and an inner
 * importer that records what it is handed (the decorated importer).
 */
module Documents {
  import opened Wrappers
  import opened Json
  import opened ImportErrors

  /** A JsonDocument: an id and its body, modelled as the value json_decode gives for it. */
  datatype JsonDocument = JsonDocument(id: string, body: Json)

  /** A DecodedDocument: an id and an already decoded associative body. */
  datatype DecodedDocument = DecodedDocument(id: string, body: map<string, Json>)

  /** The importer a pre-processor wraps; it records every document it receives. */
  class TraceableImporter<D> {
    var received: seq<D>

    constructor ()
      ensures received == []
    {
      received := [];
    }

    method Import(document: D)
      modifies this
      ensures received == old(received) + [document]
    {
      received := received + [document];
    }
  }

  /** What a document repository's get does for an id: a document, null, "gone", or another exception. */
  datatype DocumentLookup = Found(document: JsonDocument) | NotFound | Gone | LookupFails

  /** What the aggregate repository's load does for an id. */
  datatype LoadOutcome = Loaded | LoadedNull | AggregateNotFound | LoadFailed

  /** `$exists`: a non-null aggregate; "not found" means absent; any other exception escapes. */
  function AggregateExists(load: LoadOutcome): (r: Result<bool, ImportError>)
    ensures r.Err? <==> load == LoadFailed
    ensures r.Ok? ==> (r.value <==> load == Loaded)
  {
    match load
    case Loaded => Ok(true)
    case LoadedNull => Ok(false)
    case AggregateNotFound => Ok(false)
    case LoadFailed => Err(AggregateLoadFailed)
  }
}
