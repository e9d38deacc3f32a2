/**
 * The legacy commands the importers emit, and the legacy value objects they
 * carry. Commands are immutable records dispatched in emission order.
 */
module LegacyCommands {
  import opened Wrappers
  import opened Udb3Model

  datatype EventType = EventType(id: string, labelText: string)

  datatype Theme = Theme(id: string, labelText: string)

  /** A legacy location: the place id (cdbid), its name and its address. */
  datatype Location = Location(cdbid: string, name: string, address: Address)

  datatype Image = Image(
    mediaObjectId: string,
    mimeType: string,
    description: string,
    copyrightHolder: string,
    sourceLocation: string,
    language: Language)

  /** Commands of the event aggregate (Event\Commands). */
  datatype EventCommand =
    | CreateEvent(id: string, mainLanguage: Language, title: string, eventType: EventType,
                  location: Location, calendar: Calendar, theme: Option<Theme>, publishDate: Option<DateTime>)
    | Publish(id: string, publicationDate: DateTime)
    | UpdateTitle(id: string, language: Language, title: string)
    | UpdateType(id: string, eventType: EventType)
    | UpdateLocation(id: string, locationId: string)
    | UpdateCalendar(id: string, calendar: Calendar)
    | UpdateTheme(id: string, theme: Option<Theme>)
    | UpdateAudience(id: string, audienceType: Option<string>)
    | UpdateBookingInfo(id: string, bookingInfo: BookingInfo)
    | UpdateContactPoint(id: string, contactPoint: ContactPoint)
    | UpdateDescription(id: string, language: Language, description: string)
    | UpdateOrganizer(id: string, organizerId: string)
    | DeleteCurrentOrganizer(id: string)
    | UpdateTypicalAgeRange(id: string, ageRange: AgeRange)
    | DeleteTypicalAgeRange(id: string)
    | UpdatePriceInfo(id: string, priceInfo: PriceInfo)
    | ImportLabels(id: string, labels: seq<LabelValue>)
    | ImportImages(id: string, images: seq<Image>)

  /** Commands of the place aggregate (Place\Commands). */
  datatype PlaceCommand =
    | CreatePlace(id: string, mainLanguage: Language, title: string, eventType: EventType,
                  address: Address, calendar: Calendar, theme: Option<Theme>, publishDate: DateTime)
    | PublishPlace(id: string, publicationDate: DateTime)
    | UpdatePlaceTitle(id: string, language: Language, title: string)
    | UpdatePlaceType(id: string, eventType: EventType)
    | UpdateAddress(id: string, address: Address, language: Language)
    | UpdatePlaceCalendar(id: string, calendar: Calendar)
    | UpdatePlaceTheme(id: string, newTheme: Theme)

  /**
   * Commands of the organizer aggregate (Organizer\Commands). The organizer
   * importer reuses the event's ImportLabels command class.
   */
  datatype OrganizerCommand =
    | CreateOrganizer(id: string, mainLanguage: Language, website: string, title: string)
    | UpdateOrganizerTitle(id: string, title: string, language: Language)
    | UpdateWebsite(id: string, website: string)
    | ImportOrganizerLabels(id: string, labels: seq<LabelValue>)

  /** A command bus that records what it is given, like the tests' TraceableCommandBus. */
  class TraceableCommandBus<C> {
    var recorded: seq<C>

    constructor ()
      ensures recorded == []
    {
      recorded := [];
    }

    method Dispatch(command: C)
      modifies this
      ensures recorded == old(recorded) + [command]
    {
      recorded := recorded + [command];
    }
  }

  /** Dispatch every command once, in list order (the importers' final foreach). */
  method DispatchAll<C>(bus: TraceableCommandBus<C>, commands: seq<C>)
    modifies bus
    ensures bus.recorded == old(bus.recorded) + commands
  {
    for i := 0 to |commands|
      invariant bus.recorded == old(bus.recorded) + commands[..i]
    {
      bus.Dispatch(commands[i]);
      assert commands[..i + 1] == commands[..i] + [commands[i]];
    }
    assert commands[..|commands|] == commands;
  }
}
