/** Udb3ModelToLegacyEventAdapter: the legacy view of an event, which needs its place embedded. */
module EventAdapter {
  import opened Wrappers
  import opened Udb3Model
  import opened LegacyCommands
  import opened ImportErrors
  import opened OfferAdapter

  datatype LegacyEventAdapter = LegacyEventAdapter(event: Event, place: Place) {
    /** What the constructor establishes: `place` is the event's embedded place. */
    predicate Valid() {
      event.WellFormed() && event.placeReference.embeddedPlace == Some(place)
    }

    /** The inherited offer getters. */
    function OfferView(): LegacyOfferAdapter {
      LegacyOfferAdapter(event.offer)
    }

    /** getLocation: the embedded place's id, its original-language title and original-language address. */
    function Location(): (r: LegacyCommands.Location)
      requires Valid()
      ensures r.cdbid == place.id
      ensures place.title.Translation(place.title.originalLanguage) == Some(r.name)
      ensures place.address.Translation(place.address.originalLanguage) == Some(r.address)
    {
      LegacyCommands.Location(place.id, place.title.Original(), place.address.Original())
    }

    /** getAudienceType: the event's audience type, or null when it has none. */
    function AudienceType(): (r: Option<string>)
      ensures r == event.audienceType
    {
      event.audienceType
    }
  }

  /** The constructor: refuses an event whose place reference has no embedded place. */
  function FromEvent(e: Event): (r: Result<LegacyEventAdapter, ImportError>)
    requires e.WellFormed()
    ensures r.Err? <==> e.placeReference.embeddedPlace.None?
    ensures r.Err? ==> r.error == EmbeddedPlaceRequired
    ensures r.Ok? ==> r.value.Valid() && r.value.event == e
  {
    match e.placeReference.embeddedPlace
    case None => Err(EmbeddedPlaceRequired)
    case Some(p) => Ok(LegacyEventAdapter(e, p))
  }
}
