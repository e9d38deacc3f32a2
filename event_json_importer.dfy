/**
 * EventJsonImporter: the older event importer that works on a raw JSON
 * document. It rejects a deleted event, picks the type and theme among the
 * terms, couples the event to a place document, collects location errors,
 * and dispatches either a CreateEvent or a list of updates, followed by one
 * title update per language other than the main language.
 *
 * Two parts of the source cannot behave as evidently intended; both are
 * modelled as written (the `AsWritten` members) next to the intended
 * behaviour, which the importer itself uses.
 */
module EventJsonImporter {
  import opened Wrappers
  import opened Seqs
  import opened Json
  import opened Udb3Model
  import opened LegacyCommands
  import opened ImportErrors
  import opened Documents
  import opened OfferAdapter
  import EventDocumentImporter

  datatype Collaborators = Collaborators(
    deserialize: Json -> Option<Event>,
    eventDocuments: string -> DocumentLookup,
    placeDocuments: string -> DocumentLookup,
    dummyLocationId: string,
    deserializeAddress: Json -> Option<Address>)

  // ---- the deserialized import and the stored state ----

  /** `$serializer->deserialize($data, Event::class, 'json')` */
  function ImportedEvent(document: JsonDocument, c: Collaborators): (r: Result<Event, ImportError>)
    ensures r.Ok? <==> c.deserialize(document.body).Some?
    ensures r.Ok? ==> c.deserialize(document.body) == Some(r.value)
    ensures r.Err? ==> r.error == DenormalizationFailed
  {
    match c.deserialize(document.body)
    case None => Err(DenormalizationFailed)
    case Some(e) => Ok(e)
  }

  /**
   * Whether there is current state, as intended: a stored document means an
   * existing event, no stored document means a new one, and a deleted
   * document is refused.
   */
  function CurrentState(id: string, c: Collaborators): (r: Result<bool, ImportError>)
    ensures c.eventDocuments(id) == Gone ==> r == Err(EventDeleted)
    ensures c.eventDocuments(id) == NotFound ==> r == Ok(false)
    ensures c.eventDocuments(id).Found? ==>
      r == (if c.deserialize(c.eventDocuments(id).document.body).Some? then Ok(true) else Err(DenormalizationFailed))
    ensures c.eventDocuments(id) == LookupFails ==> r == Err(LookupFailed)
  {
    match c.eventDocuments(id)
    case Found(stored) => if c.deserialize(stored.body).Some? then Ok(true) else Err(DenormalizationFailed)
    case NotFound => Ok(false)
    case Gone => Err(EventDeleted)
    case LookupFails => Err(LookupFailed)
  }

  /**
   * The same step as written: a repository that returns null for an unknown
   * id makes `$currentDocument->getRawBody()` a call on null, an Error that
   * the `catch (DocumentGoneException)` does not catch.
   */
  function CurrentStateAsWritten(id: string, c: Collaborators): (r: Result<bool, ImportError>)
    ensures c.eventDocuments(id) == NotFound ==> r == Err(NullEventDocument)
    ensures c.eventDocuments(id) != NotFound ==> r == CurrentState(id, c)
  {
    match c.eventDocuments(id)
    case NotFound => Err(NullEventDocument)
    case _ => CurrentState(id, c)
  }

  /** As written, an import that gets past this step always has current state: `!$current` never holds. */
  lemma AsWrittenAlwaysHasCurrentState(id: string, c: Collaborators)
    ensures CurrentStateAsWritten(id, c).Ok? ==> CurrentStateAsWritten(id, c).value
  {
  }

  // ---- type and theme ----

  /** The legacy category objects: a plain Category, or an instance of its EventType or Theme subclass. */
  datatype CategoryObject =
    | PlainCategory(id: string, labelText: string, domain: Option<string>)
    | EventTypeObject(eventType: EventType)
    | ThemeObject(theme: Theme)

  /**
   * The `array_map` over the terms. `toArray()` yields the collection's
   * Category value objects, and the closure's `array` parameter type refuses
   * the first of them with a TypeError before any `new Category` is built;
   * only an empty term list gets through, as an empty list of categories.
   */
  function CategoriesOf(terms: seq<Category>): (r: Result<seq<CategoryObject>, ImportError>)
    ensures r.Ok? <==> terms == []
    ensures r.Ok? ==> |r.value| == |terms|
    ensures r.Err? ==> r.error == ArrayTypeError
  {
    if terms == [] then Ok([]) else Err(ArrayTypeError)
  }

  /** `reset(array_filter($categories, instanceof EventType))`, as written: false (None) when nothing matches. */
  function TypeAsWritten(categories: seq<CategoryObject>): (r: Option<EventType>)
    ensures r.None? <==> forall i :: 0 <= i < |categories| ==> !categories[i].EventTypeObject?
    ensures r.Some? ==> exists i :: 0 <= i < |categories| && categories[i] == EventTypeObject(r.value)
  {
    if categories == [] then None
    else if categories[0].EventTypeObject? then Some(categories[0].eventType)
    else
      var r := TypeAsWritten(categories[1..]);
      assert r.Some? ==> categories[1..][0..] == categories[1..];
      r
  }

  /** The first Theme instance among the categories, or null. */
  function ThemeAsWritten(categories: seq<CategoryObject>): (r: Option<Theme>)
    ensures r.None? <==> forall i :: 0 <= i < |categories| ==> !categories[i].ThemeObject?
    ensures r.Some? ==> exists i :: 0 <= i < |categories| && categories[i] == ThemeObject(r.value)
  {
    if categories == [] then None
    else if categories[0].ThemeObject? then Some(categories[0].theme)
    else ThemeAsWritten(categories[1..])
  }

  /** As written, no term ever becomes the type or the theme: the only term list that gets through is empty. */
  lemma AsWrittenNeverFindsTypeOrTheme(terms: seq<Category>)
    ensures CategoriesOf(terms).Ok? ==> TypeAsWritten(CategoriesOf(terms).value) == None
    ensures CategoriesOf(terms).Ok? ==> ThemeAsWritten(CategoriesOf(terms).value) == None
  {
  }

  /** A term with domain `eventtype` that the code as written refuses with a TypeError, while the intended selection takes it as the type. */
  lemma AsWrittenTypeCounterexample()
    ensures var terms := [Category("0.50.4.0.0", "Concert", Some("eventtype"))];
      CategoriesOf(terms) == Err(ArrayTypeError) &&
      LegacyOfferAdapter(Offer("e", "nl", Translated("nl", [("nl", "t")]), terms, "permanent", None)).Type() ==
        Some(EventType("0.50.4.0.0", "Concert"))
  {
    var terms := [Category("0.50.4.0.0", "Concert", Some("eventtype"))];
    assert FirstOfDomain(terms, "eventtype") == Some(terms[0]);
  }

  // ---- the location ----

  /** `isset($placeJson->mainLanguage) ? $placeJson->mainLanguage : 'nl'` (a string main language, else `nl`). */
  function PlaceMainLanguage(body: Json): (language: string)
    ensures StringMember(body, "mainLanguage").Some? ==> language == StringMember(body, "mainLanguage").value
    ensures StringMember(body, "mainLanguage").None? ==> language == "nl"
  {
    StringMember(body, "mainLanguage").GetOr("nl")
  }

  /** A value that is a language map is replaced by its entry for `language` (null when absent). */
  function InLanguage(value: Json, language: string): (r: Json)
    ensures !IsArray(value) ==> r == value
    ensures value.JObject? && language in value.members ==> r == value.members[language]
    ensures IsArray(value) && !(value.JObject? && language in value.members) ==> r == JNull
  {
    if IsArray(value) then MemberOrNull(value, language) else value
  }

  /** The Location built from the place document: its name and address in the place's main language. */
  function LocationOf(placeId: string, body: Json, c: Collaborators): (r: Result<Location, ImportError>)
    ensures var name := InLanguage(MemberOrNull(body, "name"), PlaceMainLanguage(body));
      var address := InLanguage(MemberOrNull(body, "address"), PlaceMainLanguage(body));
      (!name.JString? ==> r == Err(InvalidPlaceName)) &&
      (name.JString? && c.deserializeAddress(address).None? ==> r == Err(InvalidPlaceAddress)) &&
      (r.Ok? <==> name.JString? && c.deserializeAddress(address).Some?) &&
      (r.Ok? ==> r.value == Location(placeId, name.s, c.deserializeAddress(address).value))
  {
    var language := PlaceMainLanguage(body);
    var name := InLanguage(MemberOrNull(body, "name"), language);
    var address := InLanguage(MemberOrNull(body, "address"), language);
    if !name.JString? then Err(InvalidPlaceName)
    else if c.deserializeAddress(address).None? then Err(InvalidPlaceAddress)
    else Ok(Location(placeId, name.s, c.deserializeAddress(address).value))
  }

  /** The `$errors` the place lookup leaves behind; an exception other than "gone" escapes. */
  function LocationProblem(placeId: string, c: Collaborators): (r: Result<Option<LocationError>, ImportError>)
    ensures c.placeDocuments(placeId) == LookupFails <==> r.Err?
    ensures c.placeDocuments(placeId) == Gone ==> r == Ok(Some(LocationDeleted))
    ensures c.placeDocuments(placeId) != Gone && c.placeDocuments(placeId) != LookupFails && placeId == c.dummyLocationId ==>
      r == Ok(Some(DummyLocation))
    ensures c.placeDocuments(placeId) == NotFound && placeId != c.dummyLocationId ==> r == Ok(Some(LocationNotFound))
    ensures r == Ok(None) <==> c.placeDocuments(placeId).Found? && placeId != c.dummyLocationId
  {
    match c.placeDocuments(placeId)
    case LookupFails => Err(LookupFailed)
    case Gone => Ok(Some(LocationDeleted))
    case Found(_) => if placeId == c.dummyLocationId then Ok(Some(DummyLocation)) else Ok(None)
    case NotFound => if placeId == c.dummyLocationId then Ok(Some(DummyLocation)) else Ok(Some(LocationNotFound))
  }

  /**
   * Lines 133-182: look the place up, build the Location whenever a place
   * document came back (even for the dummy location), then throw if the
   * lookup left an error.
   */
  function PlaceLocation(placeId: string, c: Collaborators): (r: Result<Location, ImportError>)
    ensures r.Ok? <==> (c.placeDocuments(placeId).Found? && placeId != c.dummyLocationId &&
      LocationOf(placeId, c.placeDocuments(placeId).document.body, c).Ok?)
    ensures r.Ok? ==> r == LocationOf(placeId, c.placeDocuments(placeId).document.body, c) && r.value.cdbid == placeId
    ensures c.placeDocuments(placeId) == Gone ==> r == Err(InvalidLocation(LocationDeleted))
    ensures c.placeDocuments(placeId) == NotFound ==>
      r == Err(InvalidLocation(if placeId == c.dummyLocationId then DummyLocation else LocationNotFound))
  {
    var problem :- LocationProblem(placeId, c);
    match c.placeDocuments(placeId)
    case Found(place) =>
      var location :- LocationOf(placeId, place.body, c);
      if problem.Some? then Err(InvalidLocation(problem.value)) else Ok(location)
    case _ => Err(InvalidLocation(problem.GetOr(LocationNotFound)))
  }

  // ---- reading everything the command list needs ----

  datatype Reading = Reading(
    current: bool,
    imported: Event,
    title: string,
    eventType: EventType,
    theme: Option<Theme>,
    location: Location)

  /**
   * Lines 94-182 once the current state is known: the title in the main
   * language, the location and its errors, and finally the type, whose
   * absence makes the first command's constructor refuse it.
   */
  function ReadFrom(imported: Event, current: bool, eventType: Option<EventType>, theme: Option<Theme>, c: Collaborators)
    : (r: Result<Reading, ImportError>)
    ensures imported.offer.title.Translation(imported.offer.mainLanguage).None? ==> r == Err(TitleTranslationMissing)
    ensures imported.offer.title.Translation(imported.offer.mainLanguage).Some? && PlaceLocation(imported.placeReference.placeId, c).Err? ==>
      r == Err(PlaceLocation(imported.placeReference.placeId, c).error)
    ensures r.Ok? <==> (imported.offer.title.Translation(imported.offer.mainLanguage).Some? &&
      PlaceLocation(imported.placeReference.placeId, c).Ok? && eventType.Some?)
    ensures r.Ok? ==>
      r.value == Reading(current, imported, imported.offer.title.Translation(imported.offer.mainLanguage).value,
                         eventType.value, theme, PlaceLocation(imported.placeReference.placeId, c).value)
  {
    var title :- if imported.offer.title.Translation(imported.offer.mainLanguage).None? then Err(TitleTranslationMissing)
                 else Ok(imported.offer.title.Translation(imported.offer.mainLanguage).value);
    var location :- PlaceLocation(imported.placeReference.placeId, c);
    var t :- if eventType.None? then Err(EventTypeRequired) else Ok(eventType.value);
    Ok(Reading(current, imported, title, t, theme, location))
  }

  /** The reads as intended: the type and theme are the first `eventtype` and `theme` terms. */
  function Read(document: JsonDocument, c: Collaborators): (r: Result<Reading, ImportError>)
  {
    var imported :- ImportedEvent(document, c);
    var current :- CurrentState(document.id, c);
    var offer := LegacyOfferAdapter(imported.offer);
    ReadFrom(imported, current, offer.Type(), offer.Theme(), c)
  }

  /** The reads as written. */
  function ReadAsWritten(document: JsonDocument, c: Collaborators): (r: Result<Reading, ImportError>)
  {
    var imported :- ImportedEvent(document, c);
    var current :- CurrentStateAsWritten(document.id, c);
    if imported.offer.title.Translation(imported.offer.mainLanguage).None? then Err(TitleTranslationMissing)
    else
      var categories :- CategoriesOf(imported.offer.terms);
      ReadFrom(imported, current, TypeAsWritten(categories), ThemeAsWritten(categories), c)
  }

  /**
   * As written, an event with a main-language title and any term at all is
   * refused by the categories' TypeError, before the place is looked up.
   */
  lemma AsWrittenTermsAreRefused(document: JsonDocument, c: Collaborators)
    requires ImportedEvent(document, c).Ok? && CurrentStateAsWritten(document.id, c).Ok?
    ensures var offer := ImportedEvent(document, c).value.offer;
      offer.title.Translation(offer.mainLanguage).Some? && offer.terms != [] ==>
        ReadAsWritten(document, c) == Err(ArrayTypeError)
  {
  }

  // ---- the command list ----

  /** Only CreateEvent for a new event; five updates and a Publish when there is a publish date otherwise. */
  function BranchCommands(id: string, rd: Reading): seq<EventCommand> {
    var offer := rd.imported.offer;
    if !rd.current then
      [CreateEvent(id, offer.mainLanguage, rd.title, rd.eventType, rd.location, offer.calendar, rd.theme, offer.availableFrom)]
    else
      [UpdateTitle(id, offer.mainLanguage, rd.title),
       UpdateType(id, rd.eventType),
       UpdateLocation(id, rd.imported.placeReference.placeId),
       UpdateCalendar(id, offer.calendar),
       UpdateTheme(id, rd.theme)] +
      (if offer.availableFrom.Some? then [Publish(id, offer.availableFrom.value)] else [])
  }

  /** The title in every language but the main one, in the title's order. */
  function OtherTitles(rd: Reading): seq<(Language, string)> {
    WithoutKey(rd.imported.offer.title.entries, rd.imported.offer.mainLanguage)
  }

  function CommandsFor(id: string, rd: Reading): seq<EventCommand> {
    BranchCommands(id, rd) + EventDocumentImporter.TitleUpdates(id, OtherTitles(rd))
  }

  /** What one import dispatches, or the exception that stops it before any dispatch. */
  function EventJsonCommands(document: JsonDocument, c: Collaborators): Result<seq<EventCommand>, ImportError> {
    var rd :- Read(document, c);
    Ok(CommandsFor(document.id, rd))
  }

  function EventJsonCommandsAsWritten(document: JsonDocument, c: Collaborators): Result<seq<EventCommand>, ImportError> {
    var rd :- ReadAsWritten(document, c);
    Ok(CommandsFor(document.id, rd))
  }

  /** As written, the importer never dispatches anything: every import ends in an exception. */
  lemma {:induction false} AsWrittenNeverImports(document: JsonDocument, c: Collaborators)
    ensures EventJsonCommandsAsWritten(document, c).Err?
  {
    var imported := ImportedEvent(document, c);
    if imported.Ok? {
      AsWrittenNeverFindsTypeOrTheme(imported.value.offer.terms);
    }
  }

  /** The foreach over all title languages that skips the main language. */
  method AppendTitleUpdates(commands: seq<EventCommand>, id: string, title: Translated<string>, mainLanguage: Language)
    returns (r: seq<EventCommand>)
    ensures r == commands + EventDocumentImporter.TitleUpdates(id, WithoutKey(title.entries, mainLanguage))
  {
    var entries := title.entries;
    r := commands;
    for i := 0 to |entries|
      invariant r + EventDocumentImporter.TitleUpdates(id, WithoutKey(entries[i..], mainLanguage)) ==
        commands + EventDocumentImporter.TitleUpdates(id, WithoutKey(entries, mainLanguage))
    {
      assert entries[i..][1..] == entries[i + 1..];
      var rest := WithoutKey(entries[i + 1..], mainLanguage);
      if entries[i].0 != mainLanguage {
        assert WithoutKey(entries[i..], mainLanguage) == [entries[i]] + rest;
        assert EventDocumentImporter.TitleUpdates(id, [entries[i]] + rest) ==
          [UpdateTitle(id, entries[i].0, entries[i].1)] + EventDocumentImporter.TitleUpdates(id, rest);
        r := r + [UpdateTitle(id, entries[i].0, entries[i].1)];
      } else {
        assert WithoutKey(entries[i..], mainLanguage) == rest;
      }
    }
  }

  /** The `if (!$current) ... else ...` block. */
  method AppendBranch(commands: seq<EventCommand>, id: string, rd: Reading) returns (r: seq<EventCommand>)
    ensures r == commands + BranchCommands(id, rd)
  {
    var offer := rd.imported.offer;
    if !rd.current {
      r := commands + [CreateEvent(id, offer.mainLanguage, rd.title, rd.eventType, rd.location,
                                   offer.calendar, rd.theme, offer.availableFrom)];
    } else {
      r := commands + [UpdateTitle(id, offer.mainLanguage, rd.title)];
      r := r + [UpdateType(id, rd.eventType)];
      r := r + [UpdateLocation(id, rd.imported.placeReference.placeId)];
      r := r + [UpdateCalendar(id, offer.calendar)];
      r := r + [UpdateTheme(id, rd.theme)];
      if offer.availableFrom.Some? {
        r := r + [Publish(id, offer.availableFrom.value)];
      }
    }
  }

  /** The body of import() up to the dispatch loop. */
  method Build(document: JsonDocument, c: Collaborators) returns (r: Result<seq<EventCommand>, ImportError>)
    ensures r == EventJsonCommands(document, c)
  {
    var read := Read(document, c);
    if read.Err? {
      return Err(read.error);
    }
    var rd := read.value;
    var id := document.id;
    var offer := rd.imported.offer;
    var commands := AppendBranch([], id, rd);
    assert commands == BranchCommands(id, rd);
    commands := AppendTitleUpdates(commands, id, offer.title, offer.mainLanguage);
    return Ok(commands);
  }

  /** import(): build the command list, then dispatch it; an exception dispatches nothing. */
  method Import(document: JsonDocument, c: Collaborators, bus: TraceableCommandBus<EventCommand>)
    returns (outcome: Outcome<ImportError>)
    modifies bus
    ensures EventJsonCommands(document, c).Ok? ==>
      outcome == Pass && bus.recorded == old(bus.recorded) + EventJsonCommands(document, c).value
    ensures EventJsonCommands(document, c).Err? ==>
      outcome == Fail(EventJsonCommands(document, c).error) && bus.recorded == old(bus.recorded)
  {
    var commands := Build(document, c);
    if commands.Err? {
      return Fail(commands.error);
    }
    DispatchAll(bus, commands.value);
    return Pass;
  }

  // ---- properties ----

  /** A deleted event is refused before anything else is looked at. */
  lemma DeletedEventIsRefused(document: JsonDocument, c: Collaborators)
    requires c.deserialize(document.body).Some? && c.eventDocuments(document.id) == Gone
    ensures EventJsonCommands(document, c) == Err(EventDeleted)
  {
  }

  /** A dummy, unknown or deleted location aborts the import with its reason once the title is found. */
  lemma LocationErrorsAbort(document: JsonDocument, c: Collaborators)
    requires ImportedEvent(document, c).Ok? && CurrentState(document.id, c).Ok?
    requires var imported := ImportedEvent(document, c).value;
      imported.offer.title.Translation(imported.offer.mainLanguage).Some?
    ensures var placeId := ImportedEvent(document, c).value.placeReference.placeId;
      (c.placeDocuments(placeId) == Gone ==> EventJsonCommands(document, c) == Err(InvalidLocation(LocationDeleted))) &&
      (c.placeDocuments(placeId) == NotFound && placeId != c.dummyLocationId ==>
        EventJsonCommands(document, c) == Err(InvalidLocation(LocationNotFound))) &&
      (c.placeDocuments(placeId) != LookupFails && placeId == c.dummyLocationId ==> EventJsonCommands(document, c).Err?)
  {
  }

  /** The type and theme the intended importer uses: the first `eventtype` term, and the first `theme` term or null. */
  lemma TypeAndThemeAreFirstTerms(document: JsonDocument, c: Collaborators)
    requires Read(document, c).Ok?
    ensures var rd := Read(document, c).value;
      var terms := rd.imported.offer.terms;
      (exists i :: FirstIndexOfDomain(terms, i, "eventtype") && rd.eventType == EventType(terms[i].id, terms[i].labelText)) &&
      (rd.theme.None? <==> forall i :: 0 <= i < |terms| ==> terms[i].domain != Some("theme")) &&
      (rd.theme.Some? ==> exists i :: FirstIndexOfDomain(terms, i, "theme") && rd.theme.value == LegacyCommands.Theme(terms[i].id, terms[i].labelText))
  {
    var imported := ImportedEvent(document, c).value;
    var offer := LegacyOfferAdapter(imported.offer);
    assert Read(document, c) == ReadFrom(imported, CurrentState(document.id, c).value, offer.Type(), offer.Theme(), c);
  }

  /** The place name in the place's main language, `nl` by default, or the plain name when it is not a map. */
  lemma PlaceNameLanguagePick(placeId: string, body: Json, c: Collaborators, name: string)
    requires LocationOf(placeId, body, c).Ok?
    ensures var located := LocationOf(placeId, body, c).value.name;
      (body.JObject? && "name" in body.members && body.members["name"] == JString(name) ==> located == name) &&
      (body.JObject? && "name" in body.members && StringMember(body, "mainLanguage").None? &&
        body.members["name"].JObject? && "nl" in body.members["name"].members ==>
        body.members["name"].members["nl"] == JString(located)) &&
      (body.JObject? && "name" in body.members && StringMember(body, "mainLanguage").Some? &&
        body.members["name"].JObject? && StringMember(body, "mainLanguage").value in body.members["name"].members ==>
        body.members["name"].members[StringMember(body, "mainLanguage").value] == JString(located))
  {
  }

  /**
   * A new event gets exactly one branch command, CreateEvent with every field
   * as read (the main-language title, the type and theme of the first
   * `eventtype` and `theme` terms, the place's location, the calendar and
   * availableFrom as publication date), and never a Publish.
   */
  lemma NewEventIsOnlyCreated(document: JsonDocument, c: Collaborators)
    requires EventJsonCommands(document, c).Ok? && c.eventDocuments(document.id) == NotFound
    ensures var commands := EventJsonCommands(document, c).value;
      var rd := Read(document, c).value;
      var offer := rd.imported.offer;
      |commands| >= 1 &&
      commands[0] == CreateEvent(document.id, offer.mainLanguage, rd.title, rd.eventType, rd.location,
                                 offer.calendar, rd.theme, offer.availableFrom) &&
      offer.title.Translation(offer.mainLanguage) == Some(rd.title) &&
      rd.location == PlaceLocation(rd.imported.placeReference.placeId, c).value &&
      forall i :: 1 <= i < |commands| ==> commands[i].UpdateTitle?
  {
    var rd := Read(document, c).value;
    var t := EventDocumentImporter.TitleUpdates(document.id, OtherTitles(rd));
    assert EventJsonCommands(document, c).value == BranchCommands(document.id, rd) + t;
  }

  lemma CommandsOfReading(document: JsonDocument, c: Collaborators)
    requires EventJsonCommands(document, c).Ok?
    ensures Read(document, c).Ok?
    ensures EventJsonCommands(document, c).value == CommandsFor(document.id, Read(document, c).value)
  {
  }

  /**
   * An existing event is never created; it opens with title, type,
   * location, calendar and theme updates (the theme even when null), and a
   * Publish follows exactly when the import has a publish date.
   */
  lemma {:induction false} ExistingEventOpening(id: string, rd: Reading)
    requires rd.current
    ensures var commands := CommandsFor(id, rd);
      var offer := rd.imported.offer;
      |commands| >= 5 &&
      commands[0] == UpdateTitle(id, offer.mainLanguage, rd.title) &&
      commands[1] == UpdateType(id, rd.eventType) &&
      commands[2] == UpdateLocation(id, rd.imported.placeReference.placeId) &&
      commands[3] == UpdateCalendar(id, offer.calendar) &&
      commands[4] == UpdateTheme(id, rd.theme) &&
      (offer.availableFrom.Some? ==> |commands| >= 6 && commands[5] == Publish(id, offer.availableFrom.value)) &&
      (forall i :: 0 <= i < |commands| && commands[i].Publish? ==>
        i == 5 && offer.availableFrom == Some(commands[i].publicationDate)) &&
      (forall i :: 0 <= i < |commands| ==> !commands[i].CreateEvent?)
  {
    var b := BranchCommands(id, rd);
    var t := EventDocumentImporter.TitleUpdates(id, OtherTitles(rd));
    var commands := CommandsFor(id, rd);
    assert commands == b + t;
    assert forall i :: 0 <= i < |t| ==> t[i].UpdateTitle?;
    assert forall i :: 0 <= i < |b| ==> !b[i].CreateEvent? && (b[i].Publish? ==> i == 5);
  }

  lemma ExistingEventIsUpdated(document: JsonDocument, c: Collaborators)
    requires EventJsonCommands(document, c).Ok? && c.eventDocuments(document.id).Found?
    ensures Read(document, c).Ok? && Read(document, c).value.current
  {
    CommandsOfReading(document, c);
  }

  /**
   * Title translations follow the branch: one per language other than the
   * main language, with that language's title; the main language never gets
   * a translation update.
   */
  lemma {:induction false} TitleTranslationsSkipMainLanguage(id: string, rd: Reading)
    ensures var commands := CommandsFor(id, rd);
      var n := |BranchCommands(id, rd)|;
      var title := rd.imported.offer.title;
      var main := rd.imported.offer.mainLanguage;
      |commands| == n + |WithoutKey(title.entries, main)| &&
      (forall i :: n <= i < |commands| ==> (commands[i].UpdateTitle? && commands[i].language != main &&
        (commands[i].language, commands[i].title) in title.entries)) &&
      (forall l, v :: (l, v) in title.entries && l != main ==> UpdateTitle(id, l, v) in commands)
  {
    var main := rd.imported.offer.mainLanguage;
    var entries := rd.imported.offer.title.entries;
    var b := BranchCommands(id, rd);
    var others := OtherTitles(rd);
    var t := EventDocumentImporter.TitleUpdates(id, others);
    var commands := CommandsFor(id, rd);
    forall i | |b| <= i < |commands|
      ensures commands[i].UpdateTitle? && commands[i].language != main &&
        (commands[i].language, commands[i].title) in entries
    {
      assert commands[i] == t[i - |b|];
      WithoutKeyMember(entries, main, others[i - |b|]);
    }
    forall l, v | (l, v) in entries && l != main
      ensures UpdateTitle(id, l, v) in commands
    {
      WithoutKeyMember(entries, main, (l, v));
      var k :| 0 <= k < |others| && others[k] == (l, v);
      assert commands[|b| + k] == t[k];
    }
  }
}
