/**
 * PlaceDocumentImporter: denormalizes a decoded place document, views it
 * through the legacy place adapter and dispatches the legacy commands that
 * create or update the place aggregate.
 */
module PlaceDocumentImporter {
  import opened Wrappers
  import opened Seqs
  import opened Json
  import opened Udb3Model
  import opened LegacyCommands
  import opened ImportErrors
  import opened Documents
  import opened OfferAdapter

  /** An imported place: its offer part and its translated address. */
  datatype ImportedPlace = ImportedPlace(offer: Offer, address: Translated<Address>) {
    predicate WellFormed() {
      offer.WellFormed() && address.Valid()
    }
  }

  /**
   * The legacy place adapter: the offer getters plus the address in its
   * original language and the address translations, shaped like the title
   * getters of the offer adapter.
   */
  datatype LegacyPlaceAdapter = LegacyPlaceAdapter(place: ImportedPlace) {
    function OfferView(): LegacyOfferAdapter {
      LegacyOfferAdapter(place.offer)
    }

    /** getAddress: the address in the address's original language. */
    function Address(): (r: Udb3Model.Address)
      requires place.WellFormed()
      ensures place.address.Translation(place.address.originalLanguage) == Some(r)
    {
      place.address.Original()
    }

    /** What getAddressTranslations returns: every address translation but the original. */
    function AddressTranslationsOf(): seq<(Language, Udb3Model.Address)> {
      place.address.WithoutOriginal()
    }

    method AddressTranslations() returns (addresses: seq<(Language, Udb3Model.Address)>)
      requires place.WellFormed()
      ensures addresses == AddressTranslationsOf()
    {
      addresses := place.address.CollectWithoutOriginal();
    }
  }

  datatype Collaborators = Collaborators(
    load: string -> LoadOutcome,
    denormalize: map<string, Json> -> Option<ImportedPlace>)

  predicate DenormalizesWellFormed(c: Collaborators, body: map<string, Json>) {
    c.denormalize(body).Some? ==> c.denormalize(body).value.WellFormed()
  }

  /** What the import reads before it dispatches anything, with the getter results it uses. */
  datatype Reading = Reading(aggregateExists: bool, adapter: LegacyPlaceAdapter, eventType: EventType,
                             title: string, address: Address, theme: Option<Theme>)
  {
    predicate Valid() {
      adapter.place.WellFormed() && adapter.OfferView().Type() == Some(eventType) &&
      title == adapter.OfferView().Title() && address == adapter.Address() && theme == adapter.OfferView().Theme()
    }
  }

  /** The reads in source order: repository, denormalizer, then the type getter. */
  function Read(document: DecodedDocument, c: Collaborators): (r: Result<Reading, ImportError>)
    requires DenormalizesWellFormed(c, document.body)
    ensures c.load(document.id) == LoadFailed ==> r == Err(AggregateLoadFailed)
    ensures c.load(document.id) != LoadFailed && c.denormalize(document.body).None? ==>
      r == Err(DenormalizationFailed)
    ensures r.Ok? <==> (c.load(document.id) != LoadFailed && c.denormalize(document.body).Some? &&
      FirstOfDomain(c.denormalize(document.body).value.offer.terms, "eventtype").Some?)
    ensures r.Ok? ==> r.value.Valid() && c.denormalize(document.body) == Some(r.value.adapter.place)
    ensures r.Ok? ==> (r.value.aggregateExists <==> c.load(document.id) == Loaded)
  {
    var aggregateExists :- AggregateExists(c.load(document.id));
    var place :- if c.denormalize(document.body).None? then Err(DenormalizationFailed)
                 else Ok(c.denormalize(document.body).value);
    var adapter := LegacyPlaceAdapter(place);
    var eventType :- match adapter.OfferView().Type()
                     case None => Err(EventTypeRequired)
                     case Some(t) => Ok(t);
    Ok(Reading(aggregateExists, adapter, eventType, adapter.OfferView().Title(), adapter.Address(),
               adapter.OfferView().Theme()))
  }

  function PublishDate(rd: Reading, now: DateTime): DateTime {
    rd.adapter.OfferView().AvailableFrom(Some(now)).value
  }

  /** Create a new place, then publish it with the same date. */
  function CreateCommands(id: string, mainLanguage: Language, title: string, eventType: EventType, address: Address,
                          calendar: Calendar, theme: Option<Theme>, publishDate: DateTime): seq<PlaceCommand>
  {
    [CreatePlace(id, mainLanguage, title, eventType, address, calendar, theme, publishDate),
     PublishPlace(id, publishDate)]
  }

  /** The core field updates of an existing place; the theme only when there is one. */
  function UpdateCommands(id: string, mainLanguage: Language, title: string, eventType: EventType, address: Address,
                          calendar: Calendar, theme: Option<Theme>): seq<PlaceCommand>
  {
    [UpdatePlaceTitle(id, mainLanguage, title),
     UpdatePlaceType(id, eventType),
     UpdateAddress(id, address, mainLanguage),
     UpdatePlaceCalendar(id, calendar)] +
    (if theme.Some? then [UpdatePlaceTheme(id, theme.value)] else [])
  }

  /** Create and publish a new place, or update the core fields of an existing one. */
  function BranchCommands(id: string, rd: Reading, now: DateTime): seq<PlaceCommand> {
    var offer := rd.adapter.OfferView();
    if !rd.aggregateExists then
      CreateCommands(id, offer.MainLanguage(), rd.title, rd.eventType, rd.address, offer.Calendar(), rd.theme,
                     PublishDate(rd, now))
    else
      UpdateCommands(id, offer.MainLanguage(), rd.title, rd.eventType, rd.address, offer.Calendar(), rd.theme)
  }

  function TitleUpdates(id: string, titles: seq<(Language, string)>): seq<PlaceCommand> {
    seq(|titles|, i requires 0 <= i < |titles| => UpdatePlaceTitle(id, titles[i].0, titles[i].1))
  }

  function AddressUpdates(id: string, addresses: seq<(Language, Address)>): seq<PlaceCommand> {
    seq(|addresses|, i requires 0 <= i < |addresses| => UpdateAddress(id, addresses[i].1, addresses[i].0))
  }

  function CommandsFor(id: string, rd: Reading, now: DateTime): seq<PlaceCommand> {
    BranchCommands(id, rd, now) +
    TitleUpdates(id, rd.adapter.OfferView().TitleTranslationsOf()) +
    AddressUpdates(id, rd.adapter.AddressTranslationsOf())
  }

  /** What one import dispatches, or the exception that stops it before any dispatch. */
  function PlaceCommands(document: DecodedDocument, c: Collaborators, now: DateTime): (r: Result<seq<PlaceCommand>, ImportError>)
    requires DenormalizesWellFormed(c, document.body)
  {
    var rd :- Read(document, c);
    Ok(CommandsFor(document.id, rd, now))
  }

  /** The statements of the `if (!$exists)` branch. */
  method AppendCreate(commands: seq<PlaceCommand>, id: string, mainLanguage: Language, title: string, eventType: EventType,
                      address: Address, calendar: Calendar, theme: Option<Theme>, publishDate: DateTime)
    returns (r: seq<PlaceCommand>)
    ensures r == commands + CreateCommands(id, mainLanguage, title, eventType, address, calendar, theme, publishDate)
  {
    r := commands + [CreatePlace(id, mainLanguage, title, eventType, address, calendar, theme, publishDate)];
    r := r + [PublishPlace(id, publishDate)];
  }

  /** The statements of the `else` branch. */
  method AppendUpdates(commands: seq<PlaceCommand>, id: string, mainLanguage: Language, title: string, eventType: EventType,
                       address: Address, calendar: Calendar, theme: Option<Theme>)
    returns (r: seq<PlaceCommand>)
    ensures r == commands + UpdateCommands(id, mainLanguage, title, eventType, address, calendar, theme)
  {
    r := commands + [UpdatePlaceTitle(id, mainLanguage, title)];
    r := r + [UpdatePlaceType(id, eventType)];
    r := r + [UpdateAddress(id, address, mainLanguage)];
    r := r + [UpdatePlaceCalendar(id, calendar)];
    if theme.Some? {
      r := r + [UpdatePlaceTheme(id, theme.value)];
    }
  }

  /** The `if (!$exists) ... else ...` block. */
  method AppendBranch(commands: seq<PlaceCommand>, id: string, rd: Reading, now: DateTime) returns (r: seq<PlaceCommand>)
    ensures r == commands + BranchCommands(id, rd, now)
  {
    var offer := rd.adapter.OfferView();
    if !rd.aggregateExists {
      r := AppendCreate(commands, id, offer.MainLanguage(), rd.title, rd.eventType, rd.address, offer.Calendar(),
                        rd.theme, PublishDate(rd, now));
    } else {
      r := AppendUpdates(commands, id, offer.MainLanguage(), rd.title, rd.eventType, rd.address, offer.Calendar(),
                         rd.theme);
    }
  }

  /** The foreach over getTitleTranslations(). */
  method AppendTitleUpdates(commands: seq<PlaceCommand>, id: string, titles: seq<(Language, string)>)
    returns (r: seq<PlaceCommand>)
    ensures r == commands + TitleUpdates(id, titles)
  {
    r := commands;
    for i := 0 to |titles|
      invariant r == commands + TitleUpdates(id, titles[..i])
    {
      assert TitleUpdates(id, titles[..i + 1]) == TitleUpdates(id, titles[..i]) + [UpdatePlaceTitle(id, titles[i].0, titles[i].1)];
      r := r + [UpdatePlaceTitle(id, titles[i].0, titles[i].1)];
    }
    assert titles[..|titles|] == titles;
  }

  /** The foreach over getAddressTranslations(). */
  method AppendAddressUpdates(commands: seq<PlaceCommand>, id: string, addresses: seq<(Language, Address)>)
    returns (r: seq<PlaceCommand>)
    ensures r == commands + AddressUpdates(id, addresses)
  {
    r := commands;
    for i := 0 to |addresses|
      invariant r == commands + AddressUpdates(id, addresses[..i])
    {
      assert AddressUpdates(id, addresses[..i + 1]) == AddressUpdates(id, addresses[..i]) + [UpdateAddress(id, addresses[i].1, addresses[i].0)];
      r := r + [UpdateAddress(id, addresses[i].1, addresses[i].0)];
    }
    assert addresses[..|addresses|] == addresses;
  }

  /** The body of import() up to the dispatch loop. */
  method Build(document: DecodedDocument, c: Collaborators, now: DateTime) returns (r: Result<seq<PlaceCommand>, ImportError>)
    requires DenormalizesWellFormed(c, document.body)
    ensures r == PlaceCommands(document, c, now)
  {
    var read := Read(document, c);
    if read.Err? {
      return Err(read.error);
    }
    var rd := read.value;
    var id := document.id;
    var commands := AppendBranch([], id, rd, now);
    assert commands == BranchCommands(id, rd, now);
    var titles := rd.adapter.OfferView().TitleTranslations();
    commands := AppendTitleUpdates(commands, id, titles);
    var addresses := rd.adapter.AddressTranslations();
    commands := AppendAddressUpdates(commands, id, addresses);
    return Ok(commands);
  }

  /** import(): build the command list, then dispatch it; an exception dispatches nothing. */
  method Import(document: DecodedDocument, c: Collaborators, now: DateTime, bus: TraceableCommandBus<PlaceCommand>)
    returns (outcome: Outcome<ImportError>)
    requires DenormalizesWellFormed(c, document.body)
    modifies bus
    ensures PlaceCommands(document, c, now).Ok? ==>
      outcome == Pass && bus.recorded == old(bus.recorded) + PlaceCommands(document, c, now).value
    ensures PlaceCommands(document, c, now).Err? ==>
      outcome == Fail(PlaceCommands(document, c, now).error) && bus.recorded == old(bus.recorded)
  {
    var commands := Build(document, c, now);
    if commands.Err? {
      return Fail(commands.error);
    }
    DispatchAll(bus, commands.value);
    return Pass;
  }

  // ---- properties of the emitted command list ----

  predicate IsCreateOrPublish(command: PlaceCommand) {
    command.CreatePlace? || command.PublishPlace?
  }

  predicate IsTitleUpdate(command: PlaceCommand) {
    command.UpdatePlaceTitle?
  }

  predicate IsAddressUpdate(command: PlaceCommand) {
    command.UpdateAddress?
  }

  lemma CommandsOfReading(document: DecodedDocument, c: Collaborators, now: DateTime)
    requires DenormalizesWellFormed(c, document.body)
    requires PlaceCommands(document, c, now).Ok?
    ensures Read(document, c).Ok?
    ensures PlaceCommands(document, c, now).value == CommandsFor(document.id, Read(document, c).value, now)
  {
  }

  /** The kinds of command the branch emits. */
  lemma BranchKinds(id: string, rd: Reading, now: DateTime)
    ensures var b := BranchCommands(id, rd, now);
      Count(b, IsCreateOrPublish) == (if rd.aggregateExists then 0 else 2) &&
      Count(b, IsTitleUpdate) == (if rd.aggregateExists then 1 else 0) &&
      Count(b, IsAddressUpdate) == (if rd.aggregateExists then 1 else 0)
  {
    var offer := rd.adapter.OfferView();
    if rd.aggregateExists {
      UpdateKinds(id, offer.MainLanguage(), rd.title, rd.eventType, rd.address, offer.Calendar(), rd.theme);
    }
  }

  /** The update branch: one title update, one address update, and no create or publish. */
  lemma UpdateKinds(id: string, mainLanguage: Language, title: string, eventType: EventType, address: Address,
                    calendar: Calendar, theme: Option<Theme>)
    ensures var u := UpdateCommands(id, mainLanguage, title, eventType, address, calendar, theme);
      Count(u, IsCreateOrPublish) == 0 && Count(u, IsTitleUpdate) == 1 && Count(u, IsAddressUpdate) == 1
  {
    var u := UpdateCommands(id, mainLanguage, title, eventType, address, calendar, theme);
    assert forall i :: 0 <= i < |u| ==> !IsCreateOrPublish(u[i]);
    assert Count(u, IsTitleUpdate) == 1 by {
      assert u == [u[0]] + u[1..];
      assert forall i :: 0 <= i < |u[1..]| ==> !IsTitleUpdate(u[1..][i]);
      CountConcat([u[0]], u[1..], IsTitleUpdate);
    }
    assert Count(u, IsAddressUpdate) == 1 by {
      assert u == u[..2] + ([u[2]] + u[3..]);
      assert forall i :: 0 <= i < |u[..2]| ==> !IsAddressUpdate(u[..2][i]);
      assert forall i :: 0 <= i < |u[3..]| ==> !IsAddressUpdate(u[3..][i]);
      CountConcat([u[2]], u[3..], IsAddressUpdate);
      CountConcat(u[..2], [u[2]] + u[3..], IsAddressUpdate);
    }
  }

  lemma TranslationKinds(id: string, titles: seq<(Language, string)>, addresses: seq<(Language, Address)>)
    ensures var t := TitleUpdates(id, titles);
      Count(t, IsCreateOrPublish) == 0 && Count(t, IsTitleUpdate) == |titles| && Count(t, IsAddressUpdate) == 0
    ensures var a := AddressUpdates(id, addresses);
      Count(a, IsCreateOrPublish) == 0 && Count(a, IsTitleUpdate) == 0 && Count(a, IsAddressUpdate) == |addresses|
  {
    CountAll(TitleUpdates(id, titles), IsTitleUpdate);
    CountAll(AddressUpdates(id, addresses), IsAddressUpdate);
  }

  /**
   * Counted over the whole list: two creating commands for a new place and
   * none otherwise; one title update and one address update per language
   * (all of them for a new place, all but the main one's branch update for
   * an existing place).
   */
  lemma KindCounts(id: string, rd: Reading, now: DateTime)
    requires rd.Valid()
    ensures var commands := CommandsFor(id, rd, now);
      var place := rd.adapter.place;
      Count(commands, IsCreateOrPublish) == (if rd.aggregateExists then 0 else 2) &&
      Count(commands, IsTitleUpdate) == (if rd.aggregateExists then 1 else 0) + |place.offer.title.entries| - 1 &&
      Count(commands, IsAddressUpdate) == (if rd.aggregateExists then 1 else 0) + |place.address.entries| - 1
  {
    var place := rd.adapter.place;
    var b := BranchCommands(id, rd, now);
    var t := TitleUpdates(id, rd.adapter.OfferView().TitleTranslationsOf());
    var a := AddressUpdates(id, rd.adapter.AddressTranslationsOf());
    BranchKinds(id, rd, now);
    TranslationKinds(id, rd.adapter.OfferView().TitleTranslationsOf(), rd.adapter.AddressTranslationsOf());
    WithoutKeyLength(place.offer.title.entries, place.offer.title.originalLanguage);
    WithoutKeyLength(place.address.entries, place.address.originalLanguage);
    CountConcat(b + t, a, IsCreateOrPublish);
    CountConcat(b, t, IsCreateOrPublish);
    CountConcat(b + t, a, IsTitleUpdate);
    CountConcat(b, t, IsTitleUpdate);
    CountConcat(b + t, a, IsAddressUpdate);
    CountConcat(b, t, IsAddressUpdate);
  }

  /** A new place is created and then published with the same date; nothing else creates or publishes. */
  lemma NewPlaceIsCreatedAndPublished(document: DecodedDocument, c: Collaborators, now: DateTime)
    requires DenormalizesWellFormed(c, document.body)
    requires PlaceCommands(document, c, now).Ok? && c.load(document.id) != Loaded
    ensures var commands := PlaceCommands(document, c, now).value;
      var place := c.denormalize(document.body).value;
      var date := if place.offer.availableFrom.Some? then place.offer.availableFrom.value else now;
      |commands| >= 2 && CreatedAsRead(commands[0], document.id, place, date) &&
      commands[1] == PublishPlace(document.id, date) &&
      Count(commands, IsCreateOrPublish) == 2
  {
    var rd := Read(document, c).value;
    CommandsOfReading(document, c, now);
    KindCounts(document.id, rd, now);
    CreateOfReading(document.id, rd, now);
    ReadingFields(rd);
  }

  /**
   * `CreatePlace` for this place: the main language and calendar, the title
   * and the address in their original languages, and the first `eventtype`
   * and `theme` terms.
   */
  predicate CreatedAsRead(command: PlaceCommand, id: string, place: ImportedPlace, publishDate: DateTime) {
    var offer := place.offer;
    command.CreatePlace? &&
    command == CreatePlace(id, offer.mainLanguage, command.title, command.eventType, command.address, offer.calendar,
                           LegacyOfferAdapter(offer).Theme(), publishDate) &&
    offer.title.Translation(offer.title.originalLanguage) == Some(command.title) &&
    LegacyOfferAdapter(offer).Type() == Some(command.eventType) &&
    place.address.Translation(place.address.originalLanguage) == Some(command.address)
  }

  /** The create branch, stated on the values the reading holds. */
  lemma CreateOfReading(id: string, rd: Reading, now: DateTime)
    requires !rd.aggregateExists
    ensures var commands := CommandsFor(id, rd, now);
      var offer := rd.adapter.OfferView();
      |commands| >= 2 &&
      commands[0] == CreatePlace(id, offer.MainLanguage(), rd.title, rd.eventType, rd.address, offer.Calendar(),
                                 rd.theme, PublishDate(rd, now)) &&
      commands[1] == PublishPlace(id, PublishDate(rd, now))
  {
    var rest := TitleUpdates(id, rd.adapter.OfferView().TitleTranslationsOf()) +
      AddressUpdates(id, rd.adapter.AddressTranslationsOf());
    assert CommandsFor(id, rd, now) == BranchCommands(id, rd, now) + rest;
  }

  /** What the reading records from the adapter's getters, stated on the place itself. */
  lemma ReadingFields(rd: Reading)
    requires rd.Valid()
    ensures var place := rd.adapter.place;
      place.offer.title.Translation(place.offer.title.originalLanguage) == Some(rd.title) &&
      place.address.Translation(place.address.originalLanguage) == Some(rd.address) &&
      (rd.theme.Some? <==> FirstOfDomain(place.offer.terms, "theme").Some?) &&
      rd.adapter.OfferView().MainLanguage() == place.offer.mainLanguage &&
      rd.adapter.OfferView().Calendar() == place.offer.calendar &&
      LegacyOfferAdapter(place.offer).Type() == Some(rd.eventType) &&
      rd.theme == LegacyOfferAdapter(place.offer).Theme()
  {
  }

  /**
   * An existing place is never re-created; its update opens with title,
   * type, the original-language address under the main language, and
   * calendar; a theme update follows exactly when there is a theme term.
   */
  lemma ExistingPlaceOpening(id: string, rd: Reading, now: DateTime)
    requires rd.Valid() && rd.aggregateExists
    ensures var commands := CommandsFor(id, rd, now);
      var place := rd.adapter.place;
      |commands| >= 4 &&
      place.offer.title.Translation(place.offer.title.originalLanguage) == Some(commands[0].title) &&
      commands[0] == UpdatePlaceTitle(id, place.offer.mainLanguage, commands[0].title) &&
      commands[1] == UpdatePlaceType(id, rd.eventType) && LegacyOfferAdapter(place.offer).Type() == Some(rd.eventType) &&
      place.address.Translation(place.address.originalLanguage) == Some(commands[2].address) &&
      commands[2] == UpdateAddress(id, commands[2].address, place.offer.mainLanguage) &&
      commands[3] == UpdatePlaceCalendar(id, place.offer.calendar) &&
      ((|commands| > 4 && commands[4].UpdatePlaceTheme?) <==> FirstOfDomain(place.offer.terms, "theme").Some?) &&
      (|commands| > 4 && commands[4].UpdatePlaceTheme? ==>
        commands[4] == UpdatePlaceTheme(id, commands[4].newTheme) &&
        LegacyOfferAdapter(place.offer).Theme() == Some(commands[4].newTheme))
  {
    OpeningOfReading(id, rd, now);
    ReadingFields(rd);
  }

  /** The update opening, stated on the values the reading holds. */
  lemma OpeningOfReading(id: string, rd: Reading, now: DateTime)
    requires rd.aggregateExists
    ensures var commands := CommandsFor(id, rd, now);
      var offer := rd.adapter.OfferView();
      |commands| >= 4 && commands[0] == UpdatePlaceTitle(id, offer.MainLanguage(), rd.title) &&
      commands[1] == UpdatePlaceType(id, rd.eventType) &&
      commands[2] == UpdateAddress(id, rd.address, offer.MainLanguage()) &&
      commands[3] == UpdatePlaceCalendar(id, offer.Calendar()) &&
      ((|commands| > 4 && commands[4].UpdatePlaceTheme?) <==> rd.theme.Some?) &&
      (|commands| > 4 && commands[4].UpdatePlaceTheme? ==>
        commands[4] == UpdatePlaceTheme(id, commands[4].newTheme) && rd.theme == Some(commands[4].newTheme))
  {
    var offer := rd.adapter.OfferView();
    var rest := TitleUpdates(id, offer.TitleTranslationsOf()) + AddressUpdates(id, rd.adapter.AddressTranslationsOf());
    assert CommandsFor(id, rd, now) == BranchCommands(id, rd, now) + rest;
    assert forall i :: 0 <= i < |rest| ==> rest[i].UpdatePlaceTitle? || rest[i].UpdateAddress?;
    UpdateOpening(id, offer.MainLanguage(), rd.title, rd.eventType, rd.address, offer.Calendar(), rd.theme, rest);
  }

  /** The update branch opens with title, type, address and calendar; a theme update comes next iff there is a theme. */
  lemma UpdateOpening(id: string, mainLanguage: Language, title: string, eventType: EventType, address: Address,
                      calendar: Calendar, theme: Option<Theme>, rest: seq<PlaceCommand>)
    requires |rest| > 0 ==> !rest[0].UpdatePlaceTheme?
    ensures var c := UpdateCommands(id, mainLanguage, title, eventType, address, calendar, theme) + rest;
      |c| >= 4 && c[0] == UpdatePlaceTitle(id, mainLanguage, title) && c[1] == UpdatePlaceType(id, eventType) &&
      c[2] == UpdateAddress(id, address, mainLanguage) && c[3] == UpdatePlaceCalendar(id, calendar) &&
      ((|c| > 4 && c[4].UpdatePlaceTheme?) <==> theme.Some?) &&
      (|c| > 4 && c[4].UpdatePlaceTheme? ==> c[4] == UpdatePlaceTheme(id, c[4].newTheme) && theme == Some(c[4].newTheme))
  {
  }

  lemma ExistingPlaceIsUpdated(document: DecodedDocument, c: Collaborators, now: DateTime)
    requires DenormalizesWellFormed(c, document.body)
    requires PlaceCommands(document, c, now).Ok? && c.load(document.id) == Loaded
    ensures var commands := PlaceCommands(document, c, now).value;
      var place := c.denormalize(document.body).value;
      var id := document.id;
      |commands| >= 4 && Count(commands, IsCreateOrPublish) == 0 &&
      place.offer.title.Translation(place.offer.title.originalLanguage) == Some(commands[0].title) &&
      commands[0] == UpdatePlaceTitle(id, place.offer.mainLanguage, commands[0].title) &&
      LegacyOfferAdapter(place.offer).Type().Some? &&
      commands[1] == UpdatePlaceType(id, LegacyOfferAdapter(place.offer).Type().value) &&
      place.address.Translation(place.address.originalLanguage) == Some(commands[2].address) &&
      commands[2] == UpdateAddress(id, commands[2].address, place.offer.mainLanguage) &&
      commands[3] == UpdatePlaceCalendar(id, place.offer.calendar) &&
      ((|commands| > 4 && commands[4].UpdatePlaceTheme?) <==> FirstOfDomain(place.offer.terms, "theme").Some?) &&
      (|commands| > 4 && commands[4].UpdatePlaceTheme? ==>
        commands[4] == UpdatePlaceTheme(id, commands[4].newTheme) &&
        LegacyOfferAdapter(place.offer).Theme() == Some(commands[4].newTheme))
  {
    CommandsOfReading(document, c, now);
    KindCounts(document.id, Read(document, c).value, now);
    ExistingPlaceOpening(document.id, Read(document, c).value, now);
  }

  /** Every non-original address translation becomes an address update under its own language. */
  lemma AddressTranslationsAreUpdated(document: DecodedDocument, c: Collaborators, now: DateTime)
    requires DenormalizesWellFormed(c, document.body)
    requires PlaceCommands(document, c, now).Ok?
    ensures var commands := PlaceCommands(document, c, now).value;
      var place := c.denormalize(document.body).value;
      Count(commands, IsAddressUpdate) == (if c.load(document.id) == Loaded then 1 else 0) + |place.address.entries| - 1 &&
      forall l, v :: (l, v) in place.address.entries && l != place.address.originalLanguage ==>
        UpdateAddress(document.id, v, l) in commands
  {
    CommandsOfReading(document, c, now);
    var rd := Read(document, c).value;
    var id := document.id;
    KindCounts(id, rd, now);
    var address := rd.adapter.place.address;
    var translations := rd.adapter.AddressTranslationsOf();
    var commands := CommandsFor(id, rd, now);
    var before := BranchCommands(id, rd, now) + TitleUpdates(id, rd.adapter.OfferView().TitleTranslationsOf());
    assert commands == before + AddressUpdates(id, translations);
    forall l, v | (l, v) in address.entries && l != address.originalLanguage
      ensures UpdateAddress(id, v, l) in commands
    {
      WithoutKeyMember(address.entries, address.originalLanguage, (l, v));
      var k :| 0 <= k < |translations| && translations[k] == (l, v);
      AddressUpdateAt(id, before, translations, k);
    }
  }

  /** The k-th address translation is updated, whatever comes before the address updates. */
  lemma AddressUpdateAt(id: string, before: seq<PlaceCommand>, translations: seq<(Language, Address)>, k: nat)
    requires k < |translations|
    ensures UpdateAddress(id, translations[k].1, translations[k].0) in before + AddressUpdates(id, translations)
  {
    assert (before + AddressUpdates(id, translations))[|before| + k] == AddressUpdates(id, translations)[k];
  }

  /** Every non-original title translation becomes a title update under its own language. */
  lemma TitleTranslationsAreUpdated(document: DecodedDocument, c: Collaborators, now: DateTime)
    requires DenormalizesWellFormed(c, document.body)
    requires PlaceCommands(document, c, now).Ok?
    ensures var commands := PlaceCommands(document, c, now).value;
      var title := c.denormalize(document.body).value.offer.title;
      Count(commands, IsTitleUpdate) == (if c.load(document.id) == Loaded then 1 else 0) + |title.entries| - 1 &&
      forall l, v :: (l, v) in title.entries && l != title.originalLanguage ==>
        UpdatePlaceTitle(document.id, l, v) in commands
  {
    CommandsOfReading(document, c, now);
    var rd := Read(document, c).value;
    var id := document.id;
    KindCounts(id, rd, now);
    var title := rd.adapter.place.offer.title;
    var translations := rd.adapter.OfferView().TitleTranslationsOf();
    var commands := CommandsFor(id, rd, now);
    var before := BranchCommands(id, rd, now);
    var after := AddressUpdates(id, rd.adapter.AddressTranslationsOf());
    assert commands == before + TitleUpdates(id, translations) + after;
    forall l, v | (l, v) in title.entries && l != title.originalLanguage
      ensures UpdatePlaceTitle(id, l, v) in commands
    {
      WithoutKeyMember(title.entries, title.originalLanguage, (l, v));
      var k :| 0 <= k < |translations| && translations[k] == (l, v);
      TitleUpdateAt(id, before, translations, after, k);
    }
  }

  /** The k-th title translation is updated, whatever surrounds the title updates. */
  lemma TitleUpdateAt(id: string, before: seq<PlaceCommand>, titles: seq<(Language, string)>,
                      after: seq<PlaceCommand>, k: nat)
    requires k < |titles|
    ensures UpdatePlaceTitle(id, titles[k].0, titles[k].1) in before + TitleUpdates(id, titles) + after
  {
    assert (before + TitleUpdates(id, titles) + after)[|before| + k] == TitleUpdates(id, titles)[k];
  }

  /** The title translations come before every address translation. */
  lemma TitlesBeforeAddresses(id: string, rd: Reading, now: DateTime)
    ensures var commands := CommandsFor(id, rd, now);
      var n := |BranchCommands(id, rd, now)|;
      forall i, j :: n <= i < j < |commands| && commands[i].UpdateAddress? ==> commands[j].UpdateAddress?
  {
  }
}
