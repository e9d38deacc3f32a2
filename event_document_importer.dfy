/**
 * EventDocumentImporter: denormalizes a decoded event document, views it
 * through the legacy event adapter and dispatches the legacy commands that
 * create or update the event aggregate, in a fixed order.
 */
module EventDocumentImporter {
  import opened Wrappers
  import opened Seqs
  import opened Json
  import opened Udb3Model
  import opened LegacyCommands
  import opened ImportErrors
  import opened Documents
  import opened OfferAdapter
  import opened EventAdapter
  import opened ImageCollectionFactory

  /** The importer's collaborators: repository, denormalizer and the image factory's media manager. */
  datatype Collaborators = Collaborators(
    load: string -> LoadOutcome,
    denormalize: map<string, Json> -> Option<Event>,
    mediaManager: MediaManager)

  /** The denormalizer only builds well-formed events. */
  predicate DenormalizesWellFormed(c: Collaborators, body: map<string, Json>) {
    c.denormalize(body).Some? ==> c.denormalize(body).value.WellFormed()
  }

  /**
   * Everything the import reads before it emits a command: the existence
   * check, the denormalized event, its adapter, the legacy event type, the
   * images, and what the adapter's getTitle, getLocation and getTheme return.
   */
  datatype Reading = Reading(aggregateExists: bool, event: Event, adapter: LegacyEventAdapter,
                             eventType: EventType, title: string, location: Location, theme: Option<Theme>,
                             images: seq<Image>)
  {
    predicate Valid() {
      adapter.Valid() && adapter.event == event && adapter.OfferView().Type() == Some(eventType) &&
      title == adapter.OfferView().Title() && location == adapter.Location() && theme == adapter.OfferView().Theme()
    }
  }

  /**
   * The reads, in the order the source performs them; the first one that
   * throws aborts the import. A missing eventtype term makes the legacy
   * EventType conversion fail.
   */
  function Read(document: DecodedDocument, c: Collaborators): (r: Result<Reading, ImportError>)
    requires DenormalizesWellFormed(c, document.body)
    ensures c.load(document.id) == LoadFailed ==> r == Err(AggregateLoadFailed)
    ensures c.load(document.id) != LoadFailed && c.denormalize(document.body).None? ==>
      r == Err(DenormalizationFailed)
    ensures r.Ok? ==> r.value.Valid() && c.denormalize(document.body) == Some(r.value.event)
    ensures r.Ok? ==> (r.value.aggregateExists <==> c.load(document.id) == Loaded)
    ensures r.Ok? ==> FromMediaObjectReferences(r.value.event.mediaObjectReferences, c.mediaManager) == Ok(r.value.images)
  {
    var aggregateExists :- AggregateExists(c.load(document.id));
    var event :- if c.denormalize(document.body).None? then Err(DenormalizationFailed)
                 else Ok(c.denormalize(document.body).value);
    var adapter :- FromEvent(event);
    var eventType :- match adapter.OfferView().Type()
                     case None => Err(EventTypeRequired)
                     case Some(t) => Ok(t);
    var images :- FromMediaObjectReferences(event.mediaObjectReferences, c.mediaManager);
    Ok(Reading(aggregateExists, event, adapter, eventType, adapter.OfferView().Title(), adapter.Location(),
               adapter.OfferView().Theme(), images))
  }

  /** `getAvailableFrom(new \DateTimeImmutable())`: the offer's date, else the current time. */
  function PublishDate(rd: Reading, now: DateTime): DateTime {
    rd.adapter.OfferView().AvailableFrom(Some(now)).value
  }

  /** `CreateEvent` with every initial field, then `Publish` on the same date. */
  function CreateCommands(id: string, mainLanguage: Language, title: string, eventType: EventType, location: Location,
                          calendar: Calendar, theme: Option<Theme>, publishDate: DateTime): seq<EventCommand>
  {
    [CreateEvent(id, mainLanguage, title, eventType, location, calendar, theme, Some(publishDate)),
     Publish(id, publishDate)]
  }

  /** The core field updates of an existing event; the theme only when there is one. */
  function UpdateCommands(id: string, mainLanguage: Language, title: string, eventType: EventType, locationId: string,
                          calendar: Calendar, theme: Option<Theme>): seq<EventCommand>
  {
    [UpdateTitle(id, mainLanguage, title),
     UpdateType(id, eventType),
     UpdateLocation(id, locationId),
     UpdateCalendar(id, calendar)] +
    (if theme.Some? then [UpdateTheme(id, theme)] else [])
  }

  /** Create and publish a new event, or update the core fields of an existing one. */
  function BranchCommands(id: string, rd: Reading, now: DateTime): seq<EventCommand> {
    var offer := rd.adapter.OfferView();
    if !rd.aggregateExists then
      CreateCommands(id, offer.MainLanguage(), rd.title, rd.eventType, rd.location, offer.Calendar(), rd.theme,
                     PublishDate(rd, now))
    else
      UpdateCommands(id, offer.MainLanguage(), rd.title, rd.eventType, rd.location.cdbid, offer.Calendar(), rd.theme)
  }

  /** `if ($description)`: the main-language description, when there is one. */
  function DescriptionCommand(id: string, rd: Reading): seq<EventCommand> {
    var d := rd.event.details;
    if d.description.Some? then [UpdateDescription(id, rd.adapter.OfferView().MainLanguage(), d.description.value)] else []
  }

  function OrganizerCommand(id: string, rd: Reading): EventCommand {
    var d := rd.event.details;
    if d.organizerId.Some? then UpdateOrganizer(id, d.organizerId.value) else DeleteCurrentOrganizer(id)
  }

  function AgeRangeCommand(id: string, rd: Reading): EventCommand {
    var d := rd.event.details;
    if d.ageRange.Some? then UpdateTypicalAgeRange(id, d.ageRange.value) else DeleteTypicalAgeRange(id)
  }

  function PriceInfoCommand(id: string, rd: Reading): seq<EventCommand> {
    var d := rd.event.details;
    if d.priceInfo.Some? then [UpdatePriceInfo(id, d.priceInfo.value)] else []
  }

  /** The audience, booking info and contact point updates, then the description when there is one. */
  function FixedDetails(id: string, rd: Reading): seq<EventCommand> {
    [UpdateAudience(id, rd.adapter.AudienceType()), UpdateBookingInfo(id, rd.event.details.bookingInfo),
     UpdateContactPoint(id, rd.event.details.contactPoint)] + DescriptionCommand(id, rd)
  }

  /** The commands every import emits after the branch, for the event's details. */
  function DetailCommands(id: string, rd: Reading): seq<EventCommand> {
    FixedDetails(id, rd) + [OrganizerCommand(id, rd), AgeRangeCommand(id, rd)] + PriceInfoCommand(id, rd)
  }

  function TitleUpdates(id: string, titles: seq<(Language, string)>): seq<EventCommand> {
    seq(|titles|, i requires 0 <= i < |titles| => UpdateTitle(id, titles[i].0, titles[i].1))
  }

  function DescriptionUpdates(id: string, descriptions: seq<(Language, string)>): seq<EventCommand> {
    seq(|descriptions|, i requires 0 <= i < |descriptions| => UpdateDescription(id, descriptions[i].0, descriptions[i].1))
  }

  /** The full command list for a successful reading, in dispatch order. */
  function CommandsFor(id: string, rd: Reading, now: DateTime): seq<EventCommand> {
    BranchCommands(id, rd, now) + DetailCommands(id, rd) +
    TitleUpdates(id, rd.adapter.OfferView().TitleTranslationsOf()) +
    DescriptionUpdates(id, rd.event.details.descriptionTranslations) +
    [ImportLabels(id, rd.event.labels), ImportImages(id, rd.images)]
  }

  /** What one import dispatches, or the exception that stops it before any dispatch. */
  function EventCommands(document: DecodedDocument, c: Collaborators, now: DateTime): (r: Result<seq<EventCommand>, ImportError>)
    requires DenormalizesWellFormed(c, document.body)
  {
    var rd :- Read(document, c);
    Ok(CommandsFor(document.id, rd, now))
  }

  /** The statements of the `if (!$exists)` branch. */
  method AppendCreate(commands: seq<EventCommand>, id: string, mainLanguage: Language, title: string, eventType: EventType,
                      location: Location, calendar: Calendar, theme: Option<Theme>, publishDate: DateTime)
    returns (r: seq<EventCommand>)
    ensures r == commands + CreateCommands(id, mainLanguage, title, eventType, location, calendar, theme, publishDate)
  {
    r := commands + [CreateEvent(id, mainLanguage, title, eventType, location, calendar, theme, Some(publishDate))];
    r := r + [Publish(id, publishDate)];
  }

  /** The statements of the `else` branch. */
  method AppendUpdates(commands: seq<EventCommand>, id: string, mainLanguage: Language, title: string, eventType: EventType,
                       locationId: string, calendar: Calendar, theme: Option<Theme>)
    returns (r: seq<EventCommand>)
    ensures r == commands + UpdateCommands(id, mainLanguage, title, eventType, locationId, calendar, theme)
  {
    r := commands + [UpdateTitle(id, mainLanguage, title)];
    r := r + [UpdateType(id, eventType)];
    r := r + [UpdateLocation(id, locationId)];
    r := r + [UpdateCalendar(id, calendar)];
    if theme.Some? {
      r := r + [UpdateTheme(id, theme)];
    }
  }

  /** The `if (!$exists) ... else ...` block. */
  method AppendBranch(commands: seq<EventCommand>, id: string, rd: Reading, now: DateTime) returns (r: seq<EventCommand>)
    ensures r == commands + BranchCommands(id, rd, now)
  {
    var offer := rd.adapter.OfferView();
    if !rd.aggregateExists {
      r := AppendCreate(commands, id, offer.MainLanguage(), rd.title, rd.eventType, rd.location, offer.Calendar(),
                        rd.theme, PublishDate(rd, now));
    } else {
      r := AppendUpdates(commands, id, offer.MainLanguage(), rd.title, rd.eventType, rd.location.cdbid,
                         offer.Calendar(), rd.theme);
    }
  }

  /** The audience, booking info, contact point and description statements. */
  method AppendFixedDetails(commands: seq<EventCommand>, id: string, rd: Reading) returns (r: seq<EventCommand>)
    ensures r == commands + FixedDetails(id, rd)
  {
    var details := rd.event.details;
    r := commands + [UpdateAudience(id, rd.adapter.AudienceType())];
    r := r + [UpdateBookingInfo(id, details.bookingInfo)];
    r := r + [UpdateContactPoint(id, details.contactPoint)];
    if details.description.Some? {
      r := r + [UpdateDescription(id, rd.adapter.OfferView().MainLanguage(), details.description.value)];
    }
  }

  /** The organizer and age range statements: an update when there is a value, else a delete. */
  method AppendOrganizerAndAgeRange(commands: seq<EventCommand>, id: string, rd: Reading) returns (r: seq<EventCommand>)
    ensures r == commands + [OrganizerCommand(id, rd), AgeRangeCommand(id, rd)]
  {
    var details := rd.event.details;
    if details.organizerId.Some? {
      r := commands + [UpdateOrganizer(id, details.organizerId.value)];
    } else {
      r := commands + [DeleteCurrentOrganizer(id)];
    }
    if details.ageRange.Some? {
      r := r + [UpdateTypicalAgeRange(id, details.ageRange.value)];
    } else {
      r := r + [DeleteTypicalAgeRange(id)];
    }
  }

  /** The audience, booking info, contact point, description, organizer, age range and price statements. */
  method AppendDetails(commands: seq<EventCommand>, id: string, rd: Reading) returns (r: seq<EventCommand>)
    ensures r == commands + DetailCommands(id, rd)
  {
    r := AppendFixedDetails(commands, id, rd);
    r := AppendOrganizerAndAgeRange(r, id, rd);
    if rd.event.details.priceInfo.Some? {
      r := r + [UpdatePriceInfo(id, rd.event.details.priceInfo.value)];
    }
    assert r == commands + FixedDetails(id, rd) + [OrganizerCommand(id, rd), AgeRangeCommand(id, rd)] + PriceInfoCommand(id, rd);
  }

  /** The foreach over getTitleTranslations(). */
  method AppendTitleUpdates(commands: seq<EventCommand>, id: string, titles: seq<(Language, string)>)
    returns (r: seq<EventCommand>)
    ensures r == commands + TitleUpdates(id, titles)
  {
    r := commands;
    for i := 0 to |titles|
      invariant r == commands + TitleUpdates(id, titles[..i])
    {
      assert TitleUpdates(id, titles[..i + 1]) == TitleUpdates(id, titles[..i]) + [UpdateTitle(id, titles[i].0, titles[i].1)];
      r := r + [UpdateTitle(id, titles[i].0, titles[i].1)];
    }
    assert titles[..|titles|] == titles;
  }

  /** The foreach over getDescriptionTranslations(). */
  method AppendDescriptionUpdates(commands: seq<EventCommand>, id: string, descriptions: seq<(Language, string)>)
    returns (r: seq<EventCommand>)
    ensures r == commands + DescriptionUpdates(id, descriptions)
  {
    r := commands;
    for i := 0 to |descriptions|
      invariant r == commands + DescriptionUpdates(id, descriptions[..i])
    {
      assert DescriptionUpdates(id, descriptions[..i + 1]) ==
        DescriptionUpdates(id, descriptions[..i]) + [UpdateDescription(id, descriptions[i].0, descriptions[i].1)];
      r := r + [UpdateDescription(id, descriptions[i].0, descriptions[i].1)];
    }
    assert descriptions[..|descriptions|] == descriptions;
  }

  /** The body of import() up to the dispatch loop: the `$commands[] = ...` statements. */
  method Build(document: DecodedDocument, c: Collaborators, now: DateTime) returns (r: Result<seq<EventCommand>, ImportError>)
    requires DenormalizesWellFormed(c, document.body)
    ensures r == EventCommands(document, c, now)
  {
    var read := Read(document, c);
    if read.Err? {
      return Err(read.error);
    }
    var rd := read.value;
    var id := document.id;
    var commands := AppendBranch([], id, rd, now);
    assert commands == BranchCommands(id, rd, now);
    commands := AppendDetails(commands, id, rd);
    var titles := rd.adapter.OfferView().TitleTranslations();
    commands := AppendTitleUpdates(commands, id, titles);
    commands := AppendDescriptionUpdates(commands, id, rd.event.details.descriptionTranslations);
    commands := commands + [ImportLabels(id, rd.event.labels), ImportImages(id, rd.images)];
    assert commands == CommandsFor(id, rd, now);
    return Ok(commands);
  }

  /** import(): build the command list, then dispatch it; an exception dispatches nothing. */
  method Import(document: DecodedDocument, c: Collaborators, now: DateTime, bus: TraceableCommandBus<EventCommand>)
    returns (outcome: Outcome<ImportError>)
    requires DenormalizesWellFormed(c, document.body)
    modifies bus
    ensures EventCommands(document, c, now).Ok? ==>
      outcome == Pass && bus.recorded == old(bus.recorded) + EventCommands(document, c, now).value
    ensures EventCommands(document, c, now).Err? ==>
      outcome == Fail(EventCommands(document, c, now).error) && bus.recorded == old(bus.recorded)
  {
    var commands := Build(document, c, now);
    if commands.Err? {
      return Fail(commands.error);
    }
    DispatchAll(bus, commands.value);
    return Pass;
  }

  // ---- properties of the emitted command list ----

  predicate IsCreateOrPublish(command: EventCommand) {
    command.CreateEvent? || command.Publish?
  }

  predicate IsUpdateTitle(command: EventCommand) {
    command.UpdateTitle?
  }

  predicate IsOrganizerCommand(command: EventCommand) {
    command.UpdateOrganizer? || command.DeleteCurrentOrganizer?
  }

  predicate IsAgeRangeCommand(command: EventCommand) {
    command.UpdateTypicalAgeRange? || command.DeleteTypicalAgeRange?
  }

  /** A count over the command list is the sum of the counts over its five parts. */
  lemma CountCommandsFor(id: string, rd: Reading, now: DateTime, p: EventCommand -> bool)
    ensures Count(CommandsFor(id, rd, now), p) ==
      Count(BranchCommands(id, rd, now), p) + Count(DetailCommands(id, rd), p) +
      Count(TitleUpdates(id, rd.adapter.OfferView().TitleTranslationsOf()), p) +
      Count(DescriptionUpdates(id, rd.event.details.descriptionTranslations), p) +
      Count([ImportLabels(id, rd.event.labels), ImportImages(id, rd.images)], p)
  {
    var b := BranchCommands(id, rd, now);
    var d := DetailCommands(id, rd);
    var t := TitleUpdates(id, rd.adapter.OfferView().TitleTranslationsOf());
    var ds := DescriptionUpdates(id, rd.event.details.descriptionTranslations);
    var tail := [ImportLabels(id, rd.event.labels), ImportImages(id, rd.images)];
    CountConcat(b + d + t + ds, tail, p);
    CountConcat(b + d + t, ds, p);
    CountConcat(b + d, t, p);
    CountConcat(b, d, p);
  }

  /** A successful import dispatches exactly the commands of its reading. */
  lemma CommandsOfReading(document: DecodedDocument, c: Collaborators, now: DateTime)
    requires DenormalizesWellFormed(c, document.body)
    requires EventCommands(document, c, now).Ok?
    ensures Read(document, c).Ok?
    ensures EventCommands(document, c, now).value == CommandsFor(document.id, Read(document, c).value, now)
  {
  }

  /**
   * The reads fail in source order: repository, denormalizer, adapter
   * constructor, event type, images; the import succeeds exactly when none
   * of them fails.
   */
  lemma ImportErrorsInOrder(document: DecodedDocument, c: Collaborators, now: DateTime)
    requires DenormalizesWellFormed(c, document.body)
    ensures var r := EventCommands(document, c, now);
      var load := c.load(document.id);
      var event := c.denormalize(document.body);
      (load == LoadFailed ==> r == Err(AggregateLoadFailed)) &&
      (load != LoadFailed && event.None? ==> r == Err(DenormalizationFailed)) &&
      (load != LoadFailed && event.Some? && event.value.placeReference.embeddedPlace.None? ==>
        r == Err(EmbeddedPlaceRequired)) &&
      ((load != LoadFailed && event.Some? && event.value.placeReference.embeddedPlace.Some? &&
        FirstOfDomain(event.value.offer.terms, "eventtype").None?) ==> r == Err(EventTypeRequired)) &&
      (r.Ok? <==> (load != LoadFailed && event.Some? && event.value.placeReference.embeddedPlace.Some? &&
        FirstOfDomain(event.value.offer.terms, "eventtype").Some? &&
        FromMediaObjectReferences(event.value.mediaObjectReferences, c.mediaManager).Ok?))
  {
  }

  /** The kinds of command the branch emits. */
  lemma BranchKinds(id: string, rd: Reading, now: DateTime)
    ensures var b := BranchCommands(id, rd, now);
      Count(b, IsCreateOrPublish) == (if rd.aggregateExists then 0 else 2) &&
      Count(b, IsUpdateTitle) == (if rd.aggregateExists then 1 else 0) &&
      Count(b, IsOrganizerCommand) == 0 && Count(b, IsAgeRangeCommand) == 0
  {
    var offer := rd.adapter.OfferView();
    if rd.aggregateExists {
      UpdateKinds(id, offer.MainLanguage(), rd.title, rd.eventType, rd.location.cdbid, offer.Calendar(), rd.theme);
    }
  }

  /** The update branch: one title update, and no create, publish, organizer or age range command. */
  lemma UpdateKinds(id: string, mainLanguage: Language, title: string, eventType: EventType, locationId: string,
                    calendar: Calendar, theme: Option<Theme>)
    ensures var u := UpdateCommands(id, mainLanguage, title, eventType, locationId, calendar, theme);
      Count(u, IsCreateOrPublish) == 0 && Count(u, IsUpdateTitle) == 1 &&
      Count(u, IsOrganizerCommand) == 0 && Count(u, IsAgeRangeCommand) == 0
  {
    var u := UpdateCommands(id, mainLanguage, title, eventType, locationId, calendar, theme);
    assert forall i :: 1 <= i < |u| ==> u[i].UpdateType? || u[i].UpdateLocation? || u[i].UpdateCalendar? || u[i].UpdateTheme?;
    assert u == [u[0]] + u[1..];
    CountConcat([u[0]], u[1..], IsUpdateTitle);
  }

  predicate IsDetailCommand(command: EventCommand) {
    command.UpdateAudience? || command.UpdateBookingInfo? || command.UpdateContactPoint? ||
    command.UpdateDescription? || command.UpdateOrganizer? || command.DeleteCurrentOrganizer? ||
    command.UpdateTypicalAgeRange? || command.DeleteTypicalAgeRange? || command.UpdatePriceInfo?
  }

  /** The detail statements emit no create, publish or title update. */
  lemma DetailKinds(id: string, rd: Reading)
    ensures var d := DetailCommands(id, rd);
      Count(d, IsCreateOrPublish) == 0 && Count(d, IsUpdateTitle) == 0
  {
    var d := DetailCommands(id, rd);
    assert forall i :: 0 <= i < |d| ==> IsDetailCommand(d[i]);
  }

  /** Neither the fixed details nor the price update is an organizer or age range command. */
  lemma DetailEnds(id: string, rd: Reading)
    ensures Count(FixedDetails(id, rd), IsOrganizerCommand) == 0 && Count(FixedDetails(id, rd), IsAgeRangeCommand) == 0
    ensures Count(PriceInfoCommand(id, rd), IsOrganizerCommand) == 0 && Count(PriceInfoCommand(id, rd), IsAgeRangeCommand) == 0
  {
    var fixed := FixedDetails(id, rd);
    assert forall i :: 0 <= i < |fixed| ==> (fixed[i].UpdateAudience? || fixed[i].UpdateBookingInfo? ||
      fixed[i].UpdateContactPoint? || fixed[i].UpdateDescription?);
  }

  /** Exactly one organizer command and one age range command among the details, at known places. */
  lemma DetailOnce(id: string, rd: Reading)
    ensures var d := DetailCommands(id, rd);
      Count(d, IsOrganizerCommand) == 1 && Count(d, IsAgeRangeCommand) == 1 &&
      d[|FixedDetails(id, rd)|] == OrganizerCommand(id, rd) && d[|FixedDetails(id, rd)| + 1] == AgeRangeCommand(id, rd)
  {
    var fixed := FixedDetails(id, rd);
    var pair := [OrganizerCommand(id, rd), AgeRangeCommand(id, rd)];
    var price := PriceInfoCommand(id, rd);
    assert DetailCommands(id, rd) == fixed + pair + price;
    DetailEnds(id, rd);
    assert Count(pair, IsOrganizerCommand) == 1;
    assert Count(pair, IsAgeRangeCommand) == 1;
    CountConcat(fixed + pair, price, IsOrganizerCommand);
    CountConcat(fixed, pair, IsOrganizerCommand);
    CountConcat(fixed + pair, price, IsAgeRangeCommand);
    CountConcat(fixed, pair, IsAgeRangeCommand);
  }

  /** Translation updates are only title or description updates. */
  lemma TranslationKinds(id: string, titles: seq<(Language, string)>, descriptions: seq<(Language, string)>)
    ensures var t := TitleUpdates(id, titles);
      Count(t, IsCreateOrPublish) == 0 && Count(t, IsUpdateTitle) == |titles| &&
      Count(t, IsOrganizerCommand) == 0 && Count(t, IsAgeRangeCommand) == 0
    ensures var ds := DescriptionUpdates(id, descriptions);
      Count(ds, IsUpdateDescription) == |descriptions| &&
      Count(ds, IsCreateOrPublish) == 0 && Count(ds, IsUpdateTitle) == 0 &&
      Count(ds, IsOrganizerCommand) == 0 && Count(ds, IsAgeRangeCommand) == 0
  {
    CountAll(TitleUpdates(id, titles), IsUpdateTitle);
    CountAll(DescriptionUpdates(id, descriptions), IsUpdateDescription);
  }

  /** The closing imports are neither creates, title updates, organizer nor age range commands. */
  lemma TailKinds(id: string, rd: Reading)
    ensures var tail := [ImportLabels(id, rd.event.labels), ImportImages(id, rd.images)];
      Count(tail, IsCreateOrPublish) == 0 && Count(tail, IsUpdateTitle) == 0 &&
      Count(tail, IsOrganizerCommand) == 0 && Count(tail, IsAgeRangeCommand) == 0
  {
    var tail := [ImportLabels(id, rd.event.labels), ImportImages(id, rd.images)];
    assert forall i :: 0 <= i < |tail| ==> tail[i].ImportLabels? || tail[i].ImportImages?;
  }

  /** Each counted kind, summed over the five parts of the list. */
  lemma KindCounts(id: string, rd: Reading, now: DateTime)
    ensures var commands := CommandsFor(id, rd, now);
      Count(commands, IsCreateOrPublish) == (if rd.aggregateExists then 0 else 2) &&
      Count(commands, IsUpdateTitle) ==
        (if rd.aggregateExists then 1 else 0) + |rd.adapter.OfferView().TitleTranslationsOf()| &&
      Count(commands, IsOrganizerCommand) == 1 && Count(commands, IsAgeRangeCommand) == 1
  {
    BranchKinds(id, rd, now);
    DetailKinds(id, rd);
    DetailOnce(id, rd);
    TranslationKinds(id, rd.adapter.OfferView().TitleTranslationsOf(), rd.event.details.descriptionTranslations);
    TailKinds(id, rd);
    CountCommandsFor(id, rd, now, IsCreateOrPublish);
    CountCommandsFor(id, rd, now, IsUpdateTitle);
    CountCommandsFor(id, rd, now, IsOrganizerCommand);
    CountCommandsFor(id, rd, now, IsAgeRangeCommand);
  }

  /** For a new event: create, then publish with the same date, and no other create or publish. */
  lemma NewEventCommands(id: string, rd: Reading, now: DateTime)
    requires rd.Valid() && !rd.aggregateExists
    ensures var commands := CommandsFor(id, rd, now);
      var offer := rd.event.offer;
      var date := if offer.availableFrom.Some? then offer.availableFrom.value else now;
      |commands| >= 2 && rd.event.placeReference.embeddedPlace.Some? &&
      CreatedAsRead(commands[0], id, rd.event, Some(date)) && commands[1] == Publish(id, date) &&
      Count(commands, IsCreateOrPublish) == 2
  {
    KindCounts(id, rd, now);
    CreateOfReading(id, rd, now);
    ReadingFields(rd);
  }

  /**
   * `CreateEvent` for this event: the main language and calendar, the title
   * in its original language, the first `eventtype` and `theme` terms, and
   * the embedded place's id with its original-language name and address.
   */
  predicate CreatedAsRead(command: EventCommand, id: string, event: Event, publishDate: Option<DateTime>)
    requires event.placeReference.embeddedPlace.Some?
  {
    var offer := event.offer;
    var place := event.placeReference.embeddedPlace.value;
    command.CreateEvent? &&
    command == CreateEvent(id, offer.mainLanguage, command.title, command.eventType, command.location, offer.calendar,
                           LegacyOfferAdapter(offer).Theme(), publishDate) &&
    offer.title.Translation(offer.title.originalLanguage) == Some(command.title) &&
    LegacyOfferAdapter(offer).Type() == Some(command.eventType) &&
    command.location.cdbid == place.id &&
    place.title.Translation(place.title.originalLanguage) == Some(command.location.name) &&
    place.address.Translation(place.address.originalLanguage) == Some(command.location.address)
  }

  /** The create branch, stated on the values the reading holds. */
  lemma CreateOfReading(id: string, rd: Reading, now: DateTime)
    requires !rd.aggregateExists
    ensures var commands := CommandsFor(id, rd, now);
      var offer := rd.adapter.OfferView();
      |commands| >= 2 &&
      commands[0] == CreateEvent(id, offer.MainLanguage(), rd.title, rd.eventType, rd.location, offer.Calendar(),
                                 rd.theme, Some(PublishDate(rd, now))) &&
      commands[1] == Publish(id, PublishDate(rd, now))
  {
    var offer := rd.adapter.OfferView();
    var rest := DetailCommands(id, rd) + TitleUpdates(id, offer.TitleTranslationsOf()) +
      DescriptionUpdates(id, rd.event.details.descriptionTranslations) +
      [ImportLabels(id, rd.event.labels), ImportImages(id, rd.images)];
    assert CommandsFor(id, rd, now) == BranchCommands(id, rd, now) + rest;
  }

  /** What the reading records from the adapter's getters, stated on the event itself. */
  lemma ReadingFields(rd: Reading)
    requires rd.Valid()
    ensures var event := rd.event;
      rd.adapter.event == event && event.placeReference.embeddedPlace.Some? &&
      event.offer.title.Translation(event.offer.title.originalLanguage) == Some(rd.title) &&
      rd.location.cdbid == event.placeReference.embeddedPlace.value.id &&
      (rd.theme.Some? <==> FirstOfDomain(event.offer.terms, "theme").Some?) &&
      rd.adapter.OfferView().MainLanguage() == event.offer.mainLanguage &&
      rd.adapter.OfferView().Calendar() == event.offer.calendar &&
      rd.adapter.OfferView().TitleTranslationsOf() == event.offer.title.WithoutOriginal() &&
      LegacyOfferAdapter(event.offer).Type() == Some(rd.eventType) &&
      rd.theme == LegacyOfferAdapter(event.offer).Theme() &&
      rd.adapter.AudienceType() == event.audienceType &&
      var place := event.placeReference.embeddedPlace.value;
      place.title.Translation(place.title.originalLanguage) == Some(rd.location.name) &&
      place.address.Translation(place.address.originalLanguage) == Some(rd.location.address)
  {
  }

  /** The update opening, stated on the values the reading holds. */
  lemma OpeningOfReading(id: string, rd: Reading, now: DateTime)
    requires rd.aggregateExists
    ensures var commands := CommandsFor(id, rd, now);
      var offer := rd.adapter.OfferView();
      |commands| > 4 && commands[0] == UpdateTitle(id, offer.MainLanguage(), rd.title) &&
      commands[1] == UpdateType(id, rd.eventType) && commands[2] == UpdateLocation(id, rd.location.cdbid) &&
      commands[3] == UpdateCalendar(id, offer.Calendar()) && (commands[4].UpdateTheme? <==> rd.theme.Some?) &&
      (rd.theme.Some? ==> commands[4] == UpdateTheme(id, rd.theme))
  {
    var offer := rd.adapter.OfferView();
    var rest := DetailCommands(id, rd) + TitleUpdates(id, offer.TitleTranslationsOf()) +
      DescriptionUpdates(id, rd.event.details.descriptionTranslations) +
      [ImportLabels(id, rd.event.labels), ImportImages(id, rd.images)];
    assert CommandsFor(id, rd, now) == BranchCommands(id, rd, now) + rest;
    assert rest[0] == DetailCommands(id, rd)[0];
    UpdateOpening(id, offer.MainLanguage(), rd.title, rd.eventType, rd.location.cdbid, offer.Calendar(), rd.theme, rest);
  }

  /** For an existing event: title, type, location, calendar, then a theme update iff there is a theme. */
  lemma ExistingEventOpening(id: string, rd: Reading, now: DateTime)
    requires rd.Valid() && rd.aggregateExists
    ensures var commands := CommandsFor(id, rd, now);
      var event := rd.event;
      |commands| > 4 &&
      event.offer.title.Translation(event.offer.title.originalLanguage) == Some(commands[0].title) &&
      commands[0] == UpdateTitle(id, event.offer.mainLanguage, commands[0].title) &&
      commands[1] == UpdateType(id, rd.eventType) && LegacyOfferAdapter(event.offer).Type() == Some(rd.eventType) &&
      commands[2] == UpdateLocation(id, event.placeReference.embeddedPlace.value.id) &&
      commands[3] == UpdateCalendar(id, event.offer.calendar) &&
      (commands[4].UpdateTheme? <==> FirstOfDomain(event.offer.terms, "theme").Some?) &&
      (commands[4].UpdateTheme? ==> commands[4] == UpdateTheme(id, LegacyOfferAdapter(event.offer).Theme()))
  {
    OpeningOfReading(id, rd, now);
    ReadingFields(rd);
  }

  /** The update branch opens with title, type, location and calendar; a theme update comes next iff there is a theme. */
  lemma UpdateOpening(id: string, mainLanguage: Language, title: string, eventType: EventType, locationId: string,
                      calendar: Calendar, theme: Option<Theme>, rest: seq<EventCommand>)
    requires |rest| > 0 && !rest[0].UpdateTheme?
    ensures var c := UpdateCommands(id, mainLanguage, title, eventType, locationId, calendar, theme) + rest;
      |c| > 4 && c[0] == UpdateTitle(id, mainLanguage, title) && c[1] == UpdateType(id, eventType) &&
      c[2] == UpdateLocation(id, locationId) && c[3] == UpdateCalendar(id, calendar) &&
      (c[4].UpdateTheme? <==> theme.Some?) && (theme.Some? ==> c[4] == UpdateTheme(id, theme))
  {
  }

  /** For an existing event: no create or publish; the update opening of ExistingEventOpening. */
  lemma ExistingEventCommands(id: string, rd: Reading, now: DateTime)
    requires rd.Valid() && rd.aggregateExists
    ensures var commands := CommandsFor(id, rd, now);
      var event := rd.event;
      |commands| > 4 && Count(commands, IsCreateOrPublish) == 0 &&
      event.offer.title.Translation(event.offer.title.originalLanguage) == Some(commands[0].title) &&
      commands[0] == UpdateTitle(id, event.offer.mainLanguage, commands[0].title) &&
      commands[1] == UpdateType(id, rd.eventType) && LegacyOfferAdapter(event.offer).Type() == Some(rd.eventType) &&
      commands[2] == UpdateLocation(id, event.placeReference.embeddedPlace.value.id) &&
      commands[3] == UpdateCalendar(id, event.offer.calendar) &&
      (commands[4].UpdateTheme? <==> FirstOfDomain(event.offer.terms, "theme").Some?) &&
      (commands[4].UpdateTheme? ==> commands[4] == UpdateTheme(id, LegacyOfferAdapter(event.offer).Theme()))
  {
    KindCounts(id, rd, now);
    ExistingEventOpening(id, rd, now);
  }

  /** A new event is created and then published, both with the same publish date, and nothing else creates or publishes. */
  lemma NewEventIsCreatedAndPublished(document: DecodedDocument, c: Collaborators, now: DateTime)
    requires DenormalizesWellFormed(c, document.body)
    requires EventCommands(document, c, now).Ok? && c.load(document.id) != Loaded
    ensures var commands := EventCommands(document, c, now).value;
      var event := c.denormalize(document.body).value;
      var date := if event.offer.availableFrom.Some? then event.offer.availableFrom.value else now;
      |commands| >= 2 && event.placeReference.embeddedPlace.Some? &&
      CreatedAsRead(commands[0], document.id, event, Some(date)) && commands[1] == Publish(document.id, date) &&
      Count(commands, IsCreateOrPublish) == 2
  {
    CommandsOfReading(document, c, now);
    NewEventCommands(document.id, Read(document, c).value, now);
  }

  /**
   * An existing event is never re-created or re-published; its update opens
   * with title, type, location and calendar, followed by a theme update
   * exactly when the event has a theme term.
   */
  lemma ExistingEventIsUpdated(document: DecodedDocument, c: Collaborators, now: DateTime)
    requires DenormalizesWellFormed(c, document.body)
    requires EventCommands(document, c, now).Ok? && c.load(document.id) == Loaded
    ensures var commands := EventCommands(document, c, now).value;
      var event := c.denormalize(document.body).value;
      var id := document.id;
      |commands| > 4 && Count(commands, IsCreateOrPublish) == 0 &&
      event.offer.title.Translation(event.offer.title.originalLanguage) == Some(commands[0].title) &&
      commands[0] == UpdateTitle(id, event.offer.mainLanguage, commands[0].title) &&
      LegacyOfferAdapter(event.offer).Type().Some? &&
      commands[1] == UpdateType(id, LegacyOfferAdapter(event.offer).Type().value) &&
      commands[2] == UpdateLocation(id, event.placeReference.embeddedPlace.value.id) &&
      commands[3] == UpdateCalendar(id, event.offer.calendar) &&
      (commands[4].UpdateTheme? <==> FirstOfDomain(event.offer.terms, "theme").Some?) &&
      (commands[4].UpdateTheme? ==> commands[4] == UpdateTheme(id, LegacyOfferAdapter(event.offer).Theme()))
  {
    CommandsOfReading(document, c, now);
    ExistingEventCommands(document.id, Read(document, c).value, now);
  }

  /** Exactly one organizer and one age range command per reading. */
  lemma DetailCommandsOnce(id: string, rd: Reading, now: DateTime)
    ensures var commands := CommandsFor(id, rd, now);
      Count(commands, IsOrganizerCommand) == 1 && Count(commands, IsAgeRangeCommand) == 1 &&
      OrganizerCommand(id, rd) in commands && AgeRangeCommand(id, rd) in commands
  {
    KindCounts(id, rd, now);
    DetailOnce(id, rd);
    var b := BranchCommands(id, rd, now);
    var d := DetailCommands(id, rd);
    var commands := CommandsFor(id, rd, now);
    var k := |FixedDetails(id, rd)|;
    assert commands[|b| + k] == d[k];
    assert commands[|b| + k + 1] == d[k + 1];
  }

  /** Exactly one organizer command and one age range command: an update when there is a value, else a delete. */
  lemma OneOrganizerAndAgeRangeCommand(document: DecodedDocument, c: Collaborators, now: DateTime)
    requires DenormalizesWellFormed(c, document.body)
    requires EventCommands(document, c, now).Ok?
    ensures var commands := EventCommands(document, c, now).value;
      var details := c.denormalize(document.body).value.details;
      var id := document.id;
      Count(commands, IsOrganizerCommand) == 1 && Count(commands, IsAgeRangeCommand) == 1 &&
      (details.organizerId.Some? ==> UpdateOrganizer(id, details.organizerId.value) in commands) &&
      (details.organizerId.None? ==> DeleteCurrentOrganizer(id) in commands) &&
      (details.ageRange.Some? ==> UpdateTypicalAgeRange(id, details.ageRange.value) in commands) &&
      (details.ageRange.None? ==> DeleteTypicalAgeRange(id) in commands)
  {
    CommandsOfReading(document, c, now);
    DetailCommandsOnce(document.id, Read(document, c).value, now);
  }

  /** The list always ends with the labels import and then the images import. */
  lemma EndsWithLabelsAndImages(document: DecodedDocument, c: Collaborators, now: DateTime)
    requires DenormalizesWellFormed(c, document.body)
    requires EventCommands(document, c, now).Ok?
    ensures var commands := EventCommands(document, c, now).value;
      c.denormalize(document.body).Some? &&
      var event := c.denormalize(document.body).value;
      FromMediaObjectReferences(event.mediaObjectReferences, c.mediaManager).Ok? &&
      |commands| >= 2 &&
      commands[|commands| - 2] == ImportLabels(document.id, event.labels) &&
      commands[|commands| - 1] ==
        ImportImages(document.id, FromMediaObjectReferences(event.mediaObjectReferences, c.mediaManager).value)
  {
    CommandsOfReading(document, c, now);
  }

  /**
   * The k-th of the given translations is updated in place n + k: the title
   * updates start at n and keep the translations' order.
   */
  predicate TitleUpdatesAt(commands: seq<EventCommand>, n: nat, id: string, titles: seq<(Language, string)>) {
    |commands| >= n + |titles| &&
    forall k :: 0 <= k < |titles| ==> commands[n + k] == UpdateTitle(id, titles[k].0, titles[k].1)
  }

  /**
   * One title update per non-original language, plus the main one when the
   * event exists; the translations are updated in the title's order, right
   * after the details and right before the description translations.
   */
  lemma TitleUpdateCommands(id: string, rd: Reading, now: DateTime)
    requires rd.event.offer.title.Valid() && rd.adapter.event == rd.event
    ensures var commands := CommandsFor(id, rd, now);
      var title := rd.event.offer.title;
      var n := |BranchCommands(id, rd, now)| + |DetailCommands(id, rd)|;
      Count(commands, IsUpdateTitle) == (if rd.aggregateExists then 1 else 0) + |title.entries| - 1 &&
      (forall l, v :: (l, v) in title.entries && l != title.originalLanguage ==> UpdateTitle(id, l, v) in commands) &&
      |commands| == n + |title.WithoutOriginal()| + |rd.event.details.descriptionTranslations| + 2 &&
      TitleUpdatesAt(commands, n, id, title.WithoutOriginal())
  {
    var title := rd.event.offer.title;
    var ts := rd.adapter.OfferView().TitleTranslationsOf();
    KindCounts(id, rd, now);
    WithoutKeyLength(title.entries, title.originalLanguage);
    var commands := CommandsFor(id, rd, now);
    var before := BranchCommands(id, rd, now) + DetailCommands(id, rd);
    var updates := TitleUpdates(id, ts);
    var after := DescriptionUpdates(id, rd.event.details.descriptionTranslations) +
      [ImportLabels(id, rd.event.labels), ImportImages(id, rd.images)];
    assert commands == before + updates + after;
    forall l, v | (l, v) in title.entries && l != title.originalLanguage
      ensures UpdateTitle(id, l, v) in commands
    {
      WithoutKeyMember(title.entries, title.originalLanguage, (l, v));
      var k :| 0 <= k < |ts| && ts[k] == (l, v);
      TitleUpdateAt(id, before, ts, after, k);
    }
    forall k | 0 <= k < |ts|
      ensures commands[|before| + k] == UpdateTitle(id, ts[k].0, ts[k].1)
    {
      TitleUpdateAt(id, before, ts, after, k);
    }
  }

  /** The k-th title translation is updated in place |before| + k, whatever surrounds the title updates. */
  lemma TitleUpdateAt(id: string, before: seq<EventCommand>, titles: seq<(Language, string)>,
                      after: seq<EventCommand>, k: nat)
    requires k < |titles|
    ensures |before + TitleUpdates(id, titles) + after| > |before| + k
    ensures (before + TitleUpdates(id, titles) + after)[|before| + k] == UpdateTitle(id, titles[k].0, titles[k].1)
    ensures UpdateTitle(id, titles[k].0, titles[k].1) in before + TitleUpdates(id, titles) + after
  {
    assert (before + TitleUpdates(id, titles) + after)[|before| + k] == TitleUpdates(id, titles)[k];
  }

  /**
   * One title update per non-original title language, carrying that
   * translation, plus the main-language title update when the event exists;
   * the translations are updated in the title's order, after the branch and
   * the details, and the description translations and the two closing
   * imports follow.
   */
  lemma TitleUpdatesPerLanguage(document: DecodedDocument, c: Collaborators, now: DateTime)
    requires DenormalizesWellFormed(c, document.body)
    requires EventCommands(document, c, now).Ok?
    ensures var commands := EventCommands(document, c, now).value;
      var event := c.denormalize(document.body).value;
      var title := event.offer.title;
      var d := event.details;
      var branch := if c.load(document.id) != Loaded then 2
                    else if FirstOfDomain(event.offer.terms, "theme").Some? then 5 else 4;
      var n := branch + 5 + (if d.description.Some? then 1 else 0) + (if d.priceInfo.Some? then 1 else 0);
      Count(commands, IsUpdateTitle) == (if c.load(document.id) == Loaded then 1 else 0) + |title.entries| - 1 &&
      (forall l, v :: (l, v) in title.entries && l != title.originalLanguage ==>
        UpdateTitle(document.id, l, v) in commands) &&
      |commands| == n + |title.WithoutOriginal()| + |d.descriptionTranslations| + 2 &&
      TitleUpdatesAt(commands, n, document.id, title.WithoutOriginal())
  {
    CommandsOfReading(document, c, now);
    var rd := Read(document, c).value;
    ReadingFields(rd);
    BranchLength(document.id, rd, now);
    DetailLength(document.id, rd);
    TitleUpdateCommands(document.id, rd, now);
  }

  /** Audience, booking info, contact point, organizer and age range, plus the description and the price info when there are. */
  lemma DetailLength(id: string, rd: Reading)
    ensures var d := rd.event.details;
      |DetailCommands(id, rd)| == 5 + (if d.description.Some? then 1 else 0) + (if d.priceInfo.Some? then 1 else 0)
  {
  }

  predicate IsUpdateDescription(command: EventCommand) {
    command.UpdateDescription?
  }

  predicate IsUpdatePriceInfo(command: EventCommand) {
    command.UpdatePriceInfo?
  }

  /**
   * The details open with the audience, booking info and contact point
   * updates, followed by the main-language description update exactly when
   * the event has a description.
   */
  lemma DetailsOpening(id: string, rd: Reading, now: DateTime)
    ensures var commands := CommandsFor(id, rd, now);
      var n := |BranchCommands(id, rd, now)|;
      var d := rd.event.details;
      |commands| > n + 3 &&
      commands[n] == UpdateAudience(id, rd.adapter.AudienceType()) &&
      commands[n + 1] == UpdateBookingInfo(id, d.bookingInfo) &&
      commands[n + 2] == UpdateContactPoint(id, d.contactPoint) &&
      (commands[n + 3].UpdateDescription? <==> d.description.Some?) &&
      (d.description.Some? ==>
        commands[n + 3] == UpdateDescription(id, rd.adapter.OfferView().MainLanguage(), d.description.value))
  {
    var b := BranchCommands(id, rd, now);
    var details := DetailCommands(id, rd);
    var rest := TitleUpdates(id, rd.adapter.OfferView().TitleTranslationsOf()) +
      DescriptionUpdates(id, rd.event.details.descriptionTranslations) +
      [ImportLabels(id, rd.event.labels), ImportImages(id, rd.images)];
    DetailsHead(id, rd);
    assert CommandsFor(id, rd, now) == b + details + rest;
    ElementsAfter(b, details, rest, 4);
  }

  /**
   * From position n on: the audience, booking info and contact point
   * updates, then the main-language description update exactly when the
   * event has a description.
   */
  predicate DetailsOpenAt(commands: seq<EventCommand>, n: nat, id: string, event: Event) {
    var d := event.details;
    |commands| > n + 3 &&
    commands[n] == UpdateAudience(id, event.audienceType) &&
    commands[n + 1] == UpdateBookingInfo(id, d.bookingInfo) &&
    commands[n + 2] == UpdateContactPoint(id, d.contactPoint) &&
    (commands[n + 3].UpdateDescription? <==> d.description.Some?) &&
    (d.description.Some? ==> commands[n + 3] == UpdateDescription(id, event.offer.mainLanguage, d.description.value))
  }

  /** The details open right after the branch, stated on the event itself. */
  lemma DetailsOpenAfterBranch(id: string, rd: Reading, now: DateTime)
    requires rd.adapter.event == rd.event
    ensures DetailsOpenAt(CommandsFor(id, rd, now), |BranchCommands(id, rd, now)|, id, rd.event)
  {
    DetailsOpening(id, rd, now);
  }

  /** Two commands for a new event; four for an existing one, five when it has a theme term. */
  lemma BranchLength(id: string, rd: Reading, now: DateTime)
    requires rd.Valid()
    ensures |BranchCommands(id, rd, now)| ==
      if !rd.aggregateExists then 2 else if FirstOfDomain(rd.event.offer.terms, "theme").Some? then 5 else 4
  {
    ReadingFields(rd);
  }

  /** The first four detail commands. */
  lemma DetailsHead(id: string, rd: Reading)
    ensures var details := DetailCommands(id, rd);
      var d := rd.event.details;
      |details| >= 5 &&
      details[0] == UpdateAudience(id, rd.adapter.AudienceType()) &&
      details[1] == UpdateBookingInfo(id, d.bookingInfo) &&
      details[2] == UpdateContactPoint(id, d.contactPoint) &&
      (details[3].UpdateDescription? <==> d.description.Some?) &&
      (d.description.Some? ==>
        details[3] == UpdateDescription(id, rd.adapter.OfferView().MainLanguage(), d.description.value))
  {
    assert DetailCommands(id, rd) ==
      FixedDetails(id, rd) + [OrganizerCommand(id, rd), AgeRangeCommand(id, rd)] + PriceInfoCommand(id, rd);
  }

  /** The first k elements of the middle part, found after the part before it. */
  lemma ElementsAfter(before: seq<EventCommand>, middle: seq<EventCommand>, after: seq<EventCommand>, k: nat)
    requires k <= |middle|
    ensures |before + middle + after| >= |before| + k
    ensures forall i :: 0 <= i < k ==> (before + middle + after)[|before| + i] == middle[i]
  {
  }

  /** The branch holds no description or price info update. */
  lemma BranchHasNoDetails(id: string, rd: Reading, now: DateTime)
    ensures Count(BranchCommands(id, rd, now), IsUpdateDescription) == 0
    ensures Count(BranchCommands(id, rd, now), IsUpdatePriceInfo) == 0
  {
    var b := BranchCommands(id, rd, now);
    assert forall i :: 0 <= i < |b| ==> (b[i].CreateEvent? || b[i].Publish? || b[i].UpdateTitle? || b[i].UpdateType? ||
      b[i].UpdateLocation? || b[i].UpdateCalendar? || b[i].UpdateTheme?);
  }

  /** Among the details, one description update exactly when there is a description. */
  lemma DetailDescriptions(id: string, rd: Reading)
    ensures Count(DetailCommands(id, rd), IsUpdateDescription) == (if rd.event.details.description.Some? then 1 else 0)
  {
    var head := [UpdateAudience(id, rd.adapter.AudienceType()), UpdateBookingInfo(id, rd.event.details.bookingInfo),
                 UpdateContactPoint(id, rd.event.details.contactPoint)];
    var description := DescriptionCommand(id, rd);
    var others := [OrganizerCommand(id, rd), AgeRangeCommand(id, rd)] + PriceInfoCommand(id, rd);
    assert DetailCommands(id, rd) == head + description + others;
    assert forall i :: 0 <= i < |head| ==> !IsUpdateDescription(head[i]);
    assert forall i :: 0 <= i < |others| ==> !IsUpdateDescription(others[i]);
    assert Count(description, IsUpdateDescription) == |description|;
    CountConcat(head + description, others, IsUpdateDescription);
    CountConcat(head, description, IsUpdateDescription);
  }

  /** Among the details, one price info update exactly when there is price info. */
  lemma DetailPriceInfo(id: string, rd: Reading)
    ensures Count(DetailCommands(id, rd), IsUpdatePriceInfo) == (if rd.event.details.priceInfo.Some? then 1 else 0)
  {
    var others := FixedDetails(id, rd) + [OrganizerCommand(id, rd), AgeRangeCommand(id, rd)];
    var price := PriceInfoCommand(id, rd);
    assert DetailCommands(id, rd) == others + price;
    assert forall i :: 0 <= i < |others| ==> !IsUpdatePriceInfo(others[i]);
    assert Count(price, IsUpdatePriceInfo) == |price|;
    CountConcat(others, price, IsUpdatePriceInfo);
  }

  /** The translation updates and the closing imports hold no price info update, and no description update but the translations'. */
  lemma TranslationAndTailDetails(id: string, rd: Reading)
    ensures var t := TitleUpdates(id, rd.adapter.OfferView().TitleTranslationsOf());
      var ds := DescriptionUpdates(id, rd.event.details.descriptionTranslations);
      var tail := [ImportLabels(id, rd.event.labels), ImportImages(id, rd.images)];
      Count(t, IsUpdateDescription) == 0 && Count(t, IsUpdatePriceInfo) == 0 && Count(ds, IsUpdatePriceInfo) == 0 &&
      Count(tail, IsUpdateDescription) == 0 && Count(tail, IsUpdatePriceInfo) == 0
  {
    var tail := [ImportLabels(id, rd.event.labels), ImportImages(id, rd.images)];
    assert forall i :: 0 <= i < |tail| ==> tail[i].ImportLabels? || tail[i].ImportImages?;
  }

  /**
   * One description update for the main-language description, when there is
   * one, plus one per description translation; a price info update exactly
   * when there is price info, and no command ever deletes price info.
   */
  lemma DescriptionAndPriceCounts(id: string, rd: Reading, now: DateTime)
    ensures var commands := CommandsFor(id, rd, now);
      var d := rd.event.details;
      Count(commands, IsUpdateDescription) == (if d.description.Some? then 1 else 0) + |d.descriptionTranslations| &&
      Count(commands, IsUpdatePriceInfo) == (if d.priceInfo.Some? then 1 else 0)
  {
    BranchHasNoDetails(id, rd, now);
    DetailDescriptions(id, rd);
    DetailPriceInfo(id, rd);
    TranslationAndTailDetails(id, rd);
    TranslationKinds(id, rd.adapter.OfferView().TitleTranslationsOf(), rd.event.details.descriptionTranslations);
    CountCommandsFor(id, rd, now, IsUpdateDescription);
    CountCommandsFor(id, rd, now, IsUpdatePriceInfo);
  }

  /** The price info update, when there is price info, comes right after the organizer and age range commands. */
  lemma PriceInfoUpdate(id: string, rd: Reading, now: DateTime)
    requires rd.event.details.priceInfo.Some?
    ensures UpdatePriceInfo(id, rd.event.details.priceInfo.value) in CommandsFor(id, rd, now)
  {
    var b := BranchCommands(id, rd, now);
    var details := DetailCommands(id, rd);
    var k := |FixedDetails(id, rd)| + 2;
    assert details == FixedDetails(id, rd) + [OrganizerCommand(id, rd), AgeRangeCommand(id, rd)] + PriceInfoCommand(id, rd);
    assert details[k] == UpdatePriceInfo(id, rd.event.details.priceInfo.value);
    assert CommandsFor(id, rd, now)[|b| + k] == details[k];
  }

  /** The k-th description translation is updated in the k-th of the |translations| places before the last two. */
  predicate DescriptionsBeforeImports(commands: seq<EventCommand>, id: string, translations: seq<(Language, string)>) {
    |commands| >= |translations| + 2 &&
    forall k :: 0 <= k < |translations| ==>
      commands[|commands| - 2 - |translations| + k] == UpdateDescription(id, translations[k].0, translations[k].1)
  }

  /** The description translations are updated in order, right before the closing labels and images imports. */
  lemma DescriptionTranslationUpdates(id: string, rd: Reading, now: DateTime)
    ensures var commands := CommandsFor(id, rd, now);
      var d := rd.event.details;
      var ds := d.descriptionTranslations;
      Count(commands, IsUpdateDescription) == (if d.description.Some? then 1 else 0) + |ds| &&
      DescriptionsBeforeImports(commands, id, ds)
  {
    var ds := rd.event.details.descriptionTranslations;
    var before := BranchCommands(id, rd, now) + DetailCommands(id, rd) +
      TitleUpdates(id, rd.adapter.OfferView().TitleTranslationsOf());
    var updates := DescriptionUpdates(id, ds);
    var commands := CommandsFor(id, rd, now);
    DescriptionAndPriceCounts(id, rd, now);
    assert commands == before + updates + [ImportLabels(id, rd.event.labels), ImportImages(id, rd.images)];
    forall k | 0 <= k < |ds|
      ensures commands[|commands| - 2 - |ds| + k] == UpdateDescription(id, ds[k].0, ds[k].1)
    {
      assert commands[|before| + k] == updates[k];
    }
  }

  /**
   * After the branch: audience, booking info and contact point, then the
   * main-language description when there is one; the price info is updated
   * exactly when there is some.
   */
  lemma DetailsAreUpdated(document: DecodedDocument, c: Collaborators, now: DateTime)
    requires DenormalizesWellFormed(c, document.body)
    requires EventCommands(document, c, now).Ok?
    ensures var commands := EventCommands(document, c, now).value;
      var event := c.denormalize(document.body).value;
      var d := event.details;
      var id := document.id;
      var n := if c.load(document.id) != Loaded then 2
               else if FirstOfDomain(event.offer.terms, "theme").Some? then 5 else 4;
      DetailsOpenAt(commands, n, id, event) &&
      Count(commands, IsUpdatePriceInfo) == (if d.priceInfo.Some? then 1 else 0) &&
      (d.priceInfo.Some? ==> UpdatePriceInfo(id, d.priceInfo.value) in commands)
  {
    CommandsOfReading(document, c, now);
    var rd := Read(document, c).value;
    BranchLength(document.id, rd, now);
    DetailsOpenAfterBranch(document.id, rd, now);
    DescriptionAndPriceCounts(document.id, rd, now);
    if rd.event.details.priceInfo.Some? {
      PriceInfoUpdate(document.id, rd, now);
    }
  }

  /**
   * One description update per description translation, in order, right
   * before the closing imports; with the main-language one, the description
   * updates number the translations plus one when there is a description.
   */
  lemma DescriptionTranslationsAreUpdated(document: DecodedDocument, c: Collaborators, now: DateTime)
    requires DenormalizesWellFormed(c, document.body)
    requires EventCommands(document, c, now).Ok?
    ensures var commands := EventCommands(document, c, now).value;
      var d := c.denormalize(document.body).value.details;
      var ds := d.descriptionTranslations;
      Count(commands, IsUpdateDescription) == (if d.description.Some? then 1 else 0) + |ds| &&
      DescriptionsBeforeImports(commands, document.id, ds)
  {
    CommandsOfReading(document, c, now);
    DescriptionTranslationUpdates(document.id, Read(document, c).value, now);
  }

  // ---- a worked example: a new event with two title translations ----

  function ExamplePlace(): Place {
    Place("f3277646-1cc8-4af9-b6d5-a47f3c4f2ac0",
          Translated("nl", [("nl", "Voorbeeld locatienaam")]),
          Translated("nl", [("nl", Address("Henegouwenkaai 41-43", "1080", "Brussel", "BE"))]))
  }

  function ExampleEvent(): Event {
    Event(
      Offer("d4b46fba-6433-4f86-bcb5-edeef6689fea", "nl",
            Translated("nl", [("nl", "Voorbeeld naam"), ("fr", "Nom example"), ("en", "Example name")]),
            [Category("0.7.0.0.0", "Begeleide rondleiding", Some("eventtype")),
             Category("1.17.0.0.0", "Antiek en brocante", Some("theme"))],
            "single 2018-01-01T12:00:00+01:00 2018-01-01T17:00:00+01:00", Some("2018-01-01T00:00:00+01:00")),
      PlaceReference(ExamplePlace().id, Some(ExamplePlace())),
      Some("everyone"), [], [],
      EventDetails("no booking info", "no contact point", None, None, None, None, []))
  }

  function ExampleId(): string {
    "d4b46fba-6433-4f86-bcb5-edeef6689fea"
  }

  function ExampleCollaborators(): Collaborators {
    Collaborators(_ => AggregateNotFound, _ => Some(ExampleEvent()), _ => None)
  }

  lemma ExampleWellFormed()
    ensures ExampleEvent().WellFormed()
    ensures ExampleEvent().offer.title.WithoutOriginal() == [("fr", "Nom example"), ("en", "Example name")]
  {
    var title := ExampleEvent().offer.title;
    assert title.entries[1..] == [("fr", "Nom example"), ("en", "Example name")];
    assert title.entries[1..][1..] == [("en", "Example name")];
    assert Keys(title.entries) == ["nl", "fr", "en"];
    assert Keys(ExamplePlace().title.entries) == ["nl"];
    assert Keys(ExamplePlace().address.entries) == ["nl"];
  }

  lemma ExampleRead()
    requires ExampleEvent().WellFormed()
    ensures ExampleReading().Valid()
    ensures Read(DecodedDocument(ExampleId(), map[]), ExampleCollaborators()) ==
      Ok(ExampleReading())
  {
    var terms := ExampleEvent().offer.terms;
    assert FirstOfDomain(terms, "eventtype") == Some(terms[0]);
    assert FromMediaObjectReferences([], ExampleCollaborators().mediaManager) == Ok([]);
  }

  function ExampleReading(): Reading {
    Reading(false, ExampleEvent(), LegacyEventAdapter(ExampleEvent(), ExamplePlace()),
            EventType("0.7.0.0.0", "Begeleide rondleiding"), "Voorbeeld naam",
            Location(ExamplePlace().id, "Voorbeeld locatienaam", Address("Henegouwenkaai 41-43", "1080", "Brussel", "BE")),
            Some(LegacyCommands.Theme("1.17.0.0.0", "Antiek en brocante")), [])
  }

  lemma ExampleBranch(now: DateTime)
    ensures BranchCommands(ExampleId(), ExampleReading(), now) == ExampleCommands(now)[..2]
  {
    var terms := ExampleEvent().offer.terms;
    assert FirstOfDomain(terms, "theme") == Some(terms[1]) by {
      assert terms[1..] == [terms[1]];
    }
  }

  lemma ExampleDetails(now: DateTime)
    ensures DetailCommands(ExampleId(), ExampleReading()) == ExampleCommands(now)[2..7]
  {
  }

  lemma ExampleTitles(now: DateTime)
    requires ExampleEvent().offer.title.WithoutOriginal() == [("fr", "Nom example"), ("en", "Example name")]
    ensures TitleUpdates(ExampleId(), ExampleReading().adapter.OfferView().TitleTranslationsOf()) ==
      ExampleCommands(now)[7..9]
  {
  }

  /** The eleven commands of the example, in dispatch order. */
  function ExampleCommands(now: DateTime): seq<EventCommand> {
    var id := ExampleId();
    [CreateEvent(id, "nl", "Voorbeeld naam", EventType("0.7.0.0.0", "Begeleide rondleiding"),
                 Location(ExamplePlace().id, "Voorbeeld locatienaam",
                          Address("Henegouwenkaai 41-43", "1080", "Brussel", "BE")),
                 "single 2018-01-01T12:00:00+01:00 2018-01-01T17:00:00+01:00",
                 Some(LegacyCommands.Theme("1.17.0.0.0", "Antiek en brocante")), Some("2018-01-01T00:00:00+01:00")),
     Publish(id, "2018-01-01T00:00:00+01:00"),
     UpdateAudience(id, Some("everyone")),
     UpdateBookingInfo(id, "no booking info"),
     UpdateContactPoint(id, "no contact point"),
     DeleteCurrentOrganizer(id),
     DeleteTypicalAgeRange(id),
     UpdateTitle(id, "fr", "Nom example"),
     UpdateTitle(id, "en", "Example name"),
     ImportLabels(id, []),
     ImportImages(id, [])]
  }

  lemma ExampleAssemble(now: DateTime, b: seq<EventCommand>, d: seq<EventCommand>, t: seq<EventCommand>)
    requires b == ExampleCommands(now)[..2] && d == ExampleCommands(now)[2..7] && t == ExampleCommands(now)[7..9]
    ensures b + d + t + [] + [ImportLabels(ExampleId(), []), ImportImages(ExampleId(), [])] == ExampleCommands(now)
  {
  }

  /**
   * Importing that event when no aggregate exists yields create, publish
   * (dated by availableFrom, whatever `now` is), the audience, booking info and contact point updates, the
   * organizer and age range deletes, the French and English title updates,
   * and the label and image imports, in that order.
   */
  lemma ExampleNewEventCommands(now: DateTime)
    ensures ExampleEvent().WellFormed()
    ensures EventCommands(DecodedDocument(ExampleId(), map[]), ExampleCollaborators(), now) == Ok(ExampleCommands(now))
  {
    ExampleWellFormed();
    ExampleRead();
    ExampleCommandsFor(now);
  }

  /** The command list of the example's reading. */
  lemma ExampleCommandsFor(now: DateTime)
    requires ExampleEvent().offer.title.WithoutOriginal() == [("fr", "Nom example"), ("en", "Example name")]
    ensures CommandsFor(ExampleId(), ExampleReading(), now) == ExampleCommands(now)
  {
    ExampleBranch(now);
    ExampleDetails(now);
    ExampleTitles(now);
    var id := ExampleId();
    var rd := ExampleReading();
    assert DescriptionUpdates(id, []) == [];
    ExampleAssemble(now, BranchCommands(id, rd, now), DetailCommands(id, rd),
                    TitleUpdates(id, rd.adapter.OfferView().TitleTranslationsOf()));
  }
}
