/** The exceptions that abort an import before anything is dispatched or delegated. */
module ImportErrors {
  datatype LocationError = DummyLocation | LocationNotFound | LocationDeleted

  datatype ImportError =
    | AggregateLoadFailed         // the repository threw something other than "not found"
    | LookupFailed                // a document repository threw something other than "gone"
    | DenormalizationFailed       // the denormalizer or deserializer rejected the body
    | EmbeddedPlaceRequired       // InvalidArgumentException of the event adapter
    | OrganizerUrlRequired        // InvalidArgumentException of the organizer adapter
    | EventTypeRequired           // no eventtype term: null passed where an EventType is required
    | MediaObjectNotFound(id: string)
    | ArrayTypeError              // an `array`-typed closure received a non-array element
    | InvalidJson                 // "invalid and could not be parsed"
    | NullPlaceDocument           // a method called on the null a place lookup returned
    | LabelNotFound(name: string) // a method called on the null the label repository returned
    | EventDeleted                // "deleted and cannot be re-created"
    | NullEventDocument           // a method called on the null an event lookup returned
    | TitleTranslationMissing     // no title in the main language
    | InvalidPlaceName            // StringLiteral given a non-string place name
    | InvalidPlaceAddress         // Address::deserialize rejected the place address
    | InvalidLocation(reason: LocationError)
}
