# udb3-models-import in Dafny

This project models the decision logic of the UiTdatabank (UDB3) import pipeline.

**Importers.** A JSON-LD document for an event, a place or an organizer comes in. The importer turns it into legacy commands and dispatches them on a command bus:
- a new aggregate is created (and, for events and places, published right away);
- an existing aggregate is updated field by field;
- translations follow as one update per language.

The older `EventJsonImporter` does the same from a raw JSON document. It also rejects deleted events and checks the event's location.

**Pre-processors.** Before a document reaches an importer, pre-processors rewrite it:
- the term pre-processor fills in the label and domain of known categories;
- the location pre-processor embeds the stored place document;
- the label pre-processor makes `labels`/`hiddenLabels` agree with the labels already related to the item;
- the media object pre-processor embeds the stored media objects.

**Custom validation rules.** There are two:
- the label permission rule;
- the rule that terms hold exactly one event type.

**Collaborators.** Repositories, the denormalizer, serializers, resolvers, the media manager and the label stores are function-typed parameters, or values of the outcome they can have: a document, null, "gone", or another exception. The same goes for the clock ("now").

**Adapters, importers and the bus.**
- Each adapter is a datatype over the value-object model. Its getters are functions. A getter that fills an array in a `foreach` is a method with a loop, proved equal to its specification function.
- Each importer has a specification function for the command list it dispatches, or for the exception that stops it before it dispatches anything.
- A `Build` method is proved equal to that function. It appends to the list the way the source's `$commands[] = …` statements and `foreach` loops do.
- An `Import` method runs the dispatch loop into a `TraceableCommandBus`. That bus is a class whose `recorded` field grows by one command per dispatch.
- Each pre-processor has a pure rewrite function. Its `Import` method reassigns the body the way the source does and hands the result, with the same id, to a `TraceableImporter`.

**Module layout.**
- `wrappers`, `seqs`, `json`: Option/Result, counting and filtering, and a JSON value with PHP's `is_array`, `isset` and truthiness.
- `model`: the value-object model, with translated values as ordered language maps.
- `errors`: the import errors.
- `commands`: the legacy commands and the command bus.
- `documents`: documents, lookups and the decorated importer.
- `offer_adapter`, `event_adapter`, `organizer_adapter`: the legacy adapters.
- `image_collection_factory`: the image collection factory.
- One file per importer, pre-processor and rule.

## Model

| member | source | states |
|---|---|---|
| `Documents.AggregateExists` | src/Event/EventDocumentImporter.php:76-80 | the aggregate exists iff load returns a non-null value; "not found" means absent; any other exception escapes |
| `Documents.TraceableImporter.Import` | src/DocumentImporterInterface.php:10 | the decorated importer receives exactly the given document, appended to what it received before |
| `LegacyCommands.TraceableCommandBus.Dispatch` | src/Event/EventDocumentImporter.php:181-183 | one dispatch records exactly that command after the earlier ones |
| `LegacyCommands.DispatchAll` | src/Event/EventDocumentImporter.php:181-183 | the dispatch loop records every command once, in list order |
| `Udb3Model.Translated.Original` | src/Offer/Udb3ModelToLegacyOfferAdapter.php:52-58 | the translation in the original language is an entry of the translated value |
| `Udb3Model.Translated.CollectWithoutOriginal` | src/Offer/Udb3ModelToLegacyOfferAdapter.php:120-133 | the foreach over the languages without the original builds exactly the other entries, in order |
| `Udb3Model.WithoutOriginalExact` | src/Offer/Udb3ModelToLegacyOfferAdapter.php:126 | the translations without the original hold exactly the non-original entries, each language at most once |
| `OfferAdapter.FirstOfDomain` | src/Offer/Udb3ModelToLegacyOfferAdapter.php:64-93 | none is found iff no term has that domain; a term without a domain never matches; otherwise the first term with that domain is found |
| `OfferAdapter.LegacyOfferAdapter.Id` | src/Offer/Udb3ModelToLegacyOfferAdapter.php:32-35 | the id is the offer's own id |
| `OfferAdapter.LegacyOfferAdapter.MainLanguage` | src/Offer/Udb3ModelToLegacyOfferAdapter.php:40-45 | the main language is the offer's main language |
| `OfferAdapter.LegacyOfferAdapter.Title` | src/Offer/Udb3ModelToLegacyOfferAdapter.php:50-59 | the title is the translation in the title's original language |
| `OfferAdapter.LegacyOfferAdapter.Type` | src/Offer/Udb3ModelToLegacyOfferAdapter.php:64-76 | the type is absent iff there is no `eventtype` term; otherwise it is the first such term's id and label |
| `OfferAdapter.LegacyOfferAdapter.Theme` | src/Offer/Udb3ModelToLegacyOfferAdapter.php:81-93 | the theme is absent iff there is no `theme` term; otherwise it is built from the first such term |
| `OfferAdapter.LegacyOfferAdapter.Calendar` | src/Offer/Udb3ModelToLegacyOfferAdapter.php:98-101 | the calendar is the offer's calendar |
| `OfferAdapter.LegacyOfferAdapter.AvailableFrom` | src/Offer/Udb3ModelToLegacyOfferAdapter.php:107-114 | the offer's own date when it has one, else the caller's default; absent only when both are |
| `OfferAdapter.LegacyOfferAdapter.TitleTranslations` | src/Offer/Udb3ModelToLegacyOfferAdapter.php:120-133 | the loop yields every title translation except the original, in the title's order |
| `EventAdapter.FromEvent` | src/Event/Udb3ModelToLegacyEventAdapter.php:28-38 | the constructor refuses exactly the events without an embedded place; otherwise the adapter holds that place |
| `EventAdapter.LegacyEventAdapter.Location` | src/Event/Udb3ModelToLegacyEventAdapter.php:43-100 | the location has the embedded place's id, the title in its original language and the address in its original language |
| `EventAdapter.LegacyEventAdapter.AudienceType` | src/Event/Udb3ModelToLegacyEventAdapter.php:55-64 | the audience type is the event's own, and absent when the event has none |
| `OrganizerAdapter.FromOrganizer` | src/Organizer/Udb3ModelToLegacyOrganizerAdapter.php:20-27 | the constructor refuses exactly the organizers without a URL |
| `OrganizerAdapter.LegacyOrganizerAdapter.Id` | src/Organizer/Udb3ModelToLegacyOrganizerAdapter.php:32-35 | the id is the organizer's own id |
| `OrganizerAdapter.LegacyOrganizerAdapter.MainLanguage` | src/Organizer/Udb3ModelToLegacyOrganizerAdapter.php:40-45 | the main language is the organizer's main language |
| `OrganizerAdapter.LegacyOrganizerAdapter.Title` | src/Organizer/Udb3ModelToLegacyOrganizerAdapter.php:50-59 | the title is the name in its original language |
| `OrganizerAdapter.LegacyOrganizerAdapter.Website` | src/Organizer/Udb3ModelToLegacyOrganizerAdapter.php:64-67 | the website is the organizer's URL |
| `OrganizerAdapter.LegacyOrganizerAdapter.TitleTranslations` | src/Organizer/Udb3ModelToLegacyOrganizerAdapter.php:73-86 | the loop yields every name translation except the original, in the name's order |
| `ImageCollectionFactory.Images` | src/MediaObject/MediaManagerImageCollectionFactory.php:42-58 | one image per reference, in order, with id, MIME type and source from the media manager and the rest from the reference; the first unknown media object aborts the whole mapping |
| `ImageCollectionFactory.FromReferencesImages` | src/MediaObject/MediaManagerImageCollectionFactory.php:31-61 | a reference is kept iff it has no embedded object or an image object; the result fails iff a kept reference is unknown, and otherwise has one image per kept reference, in reference order, each built from that reference and its media object |
| `ImageCollectionFactory.NonImagesAreDropped` | src/MediaObject/MediaManagerImageCollectionFactory.php:33-40 | references that all embed non-image objects yield an empty collection |
| `EventDocumentImporter.Read` | src/Event/EventDocumentImporter.php:76-94 | a failed load and a failed denormalization stop the import in that order; on success the existence flag is "loaded", the reading holds the denormalized event and its adapter, and its type is what getType returns |
| `EventDocumentImporter.AppendBranch` | src/Event/EventDocumentImporter.php:96-131 | the branch statements append exactly the branch commands to the list |
| `EventDocumentImporter.AppendDetails` | src/Event/EventDocumentImporter.php:133-164 | the detail statements append exactly the detail commands |
| `EventDocumentImporter.AppendTitleUpdates` | src/Event/EventDocumentImporter.php:166-169 | the loop appends one title update per translation, in order |
| `EventDocumentImporter.AppendDescriptionUpdates` | src/Event/EventDocumentImporter.php:171-174 | the loop appends one description update per translation, in order |
| `EventDocumentImporter.Build` | src/Event/EventDocumentImporter.php:72-179 | the statements of import() build exactly the specified command list, or stop with the specified error |
| `EventDocumentImporter.Import` | src/Event/EventDocumentImporter.php:72-184 | a successful import dispatches exactly the built list after what was dispatched before; an exception dispatches nothing |
| `EventDocumentImporter.CountCommandsFor` | src/Event/EventDocumentImporter.php:96-179 | a count over the command list is the sum over its branch, details, translations and closing imports |
| `EventDocumentImporter.CommandsOfReading` | src/Event/EventDocumentImporter.php:72-179 | a successful import dispatches the command list of its reading |
| `EventDocumentImporter.ImportErrorsInOrder` | src/Event/EventDocumentImporter.php:76-179 | load failure, denormalization failure, missing embedded place, missing event type and an unknown image are the failures, checked in that order, and there are no others |
| `EventDocumentImporter.BranchKinds` | src/Event/EventDocumentImporter.php:97-131 | the branch holds two create/publish commands for a new event and none for an existing one, plus exactly one title update when the event exists |
| `EventDocumentImporter.DetailKinds` | src/Event/EventDocumentImporter.php:133-164 | the detail statements emit no create, publish or title update |
| `EventDocumentImporter.DetailEnds` | src/Event/EventDocumentImporter.php:133-164 | apart from the organizer and age range statements, no detail is an organizer or age range command |
| `EventDocumentImporter.DetailOnce` | src/Event/EventDocumentImporter.php:147-159 | the details hold exactly one organizer command and one age range command, right after the fixed details |
| `EventDocumentImporter.TranslationKinds` | src/Event/EventDocumentImporter.php:166-174 | the title loop emits one title update per translation and the description loop one description update per translation, and neither emits a create, publish, organizer or age range command |
| `EventDocumentImporter.TailKinds` | src/Event/EventDocumentImporter.php:176-179 | the labels and images imports are none of the counted kinds |
| `EventDocumentImporter.KindCounts` | src/Event/EventDocumentImporter.php:96-179 | the whole list has 2 or 0 creates/publishes, the title updates of the branch plus one per translation, and exactly one organizer and one age range command |
| `EventDocumentImporter.NewEventCommands` | src/Event/EventDocumentImporter.php:97-116 | for a new event: CreateEvent with the id, main language, original-language title, first `eventtype` term, embedded place (id, original-language name and address), calendar, first `theme` term and publish date, then Publish on that same date (the event's own or now); no other create or publish |
| `EventDocumentImporter.ExistingEventOpening` | src/Event/EventDocumentImporter.php:117-131 | for an existing event the list opens with the main-language title, the type getType returns, the embedded place's id and the calendar; a theme update follows iff there is a `theme` term, and then carries getTheme's value |
| `EventDocumentImporter.ExistingEventCommands` | src/Event/EventDocumentImporter.php:117-131 | an existing event gets no create or publish, and the update opening above, with the type and theme values |
| `EventDocumentImporter.NewEventIsCreatedAndPublished` | src/Event/EventDocumentImporter.php:76-116 | an absent aggregate is created with every field of the denormalized event as the getters read it, then published on the same publish date, and nothing else creates or publishes |
| `EventDocumentImporter.ExistingEventIsUpdated` | src/Event/EventDocumentImporter.php:76-131 | a loaded aggregate gets the title, type (getType's value), location id and calendar updates, then the theme update with getTheme's value iff there is a `theme` term, and no create or publish |
| `EventDocumentImporter.DetailCommandsOnce` | src/Event/EventDocumentImporter.php:147-159 | each reading yields exactly one organizer command and one age range command |
| `EventDocumentImporter.OneOrganizerAndAgeRangeCommand` | src/Event/EventDocumentImporter.php:147-159 | the organizer is updated when there is one and deleted otherwise; the same holds for the age range |
| `EventDocumentImporter.EndsWithLabelsAndImages` | src/Event/EventDocumentImporter.php:176-179 | the list always ends with the labels import and then the images import |
| `EventDocumentImporter.TitleUpdateCommands` | src/Event/EventDocumentImporter.php:166-174 | one title update per non-original language, plus the main one when the event exists; the k-th non-original translation `(l, v)` is `UpdateTitle(id, l, v)` at position n + k, n being the branch plus detail length, so the updates come in translation order right after the details and before the description translations; the list has n + translations + description translations + 2 commands |
| `EventDocumentImporter.ReadingFields` | src/Event/EventDocumentImporter.php:88-94 | the title, type, location, theme and audience type the import reads are the original-language title, the first `eventtype` term, the embedded place with its original-language name and address, the first `theme` term and the event's audience type |
| `EventDocumentImporter.TitleUpdatesPerLanguage` | src/Event/EventDocumentImporter.php:166-169 | the same count, membership, order and position stated on the import's inputs, with n = 2 for a new event (4 for an existing one, 5 with a `theme` term) + 5 + one for a description + one for price info |
| `EventDocumentImporter.DetailLength` | src/Event/EventDocumentImporter.php:133-164 | the detail commands are the five fixed ones (audience, booking info, contact point, organizer, age range) plus one for a description and one for price info when present |
| `EventDocumentImporter.DetailsOpening` | src/Event/EventDocumentImporter.php:133-145 | right after the branch come the audience, booking info and contact point updates, then the main-language description update exactly when there is a description |
| `EventDocumentImporter.DetailsHead` | src/Event/EventDocumentImporter.php:133-145 | the detail statements open with those four commands |
| `EventDocumentImporter.DetailsOpenAfterBranch` | src/Event/EventDocumentImporter.php:133-145 | the same, with the audience type and main language read from the event itself |
| `EventDocumentImporter.BranchLength` | src/Event/EventDocumentImporter.php:96-131 | the branch has two commands for a new event, and four for an existing one, five when it has a `theme` term |
| `EventDocumentImporter.BranchHasNoDetails` | src/Event/EventDocumentImporter.php:96-131 | the branch holds no description or price info update |
| `EventDocumentImporter.DetailDescriptions` | src/Event/EventDocumentImporter.php:133-164 | the details hold one description update iff there is a description |
| `EventDocumentImporter.DetailPriceInfo` | src/Event/EventDocumentImporter.php:161-164 | the details hold one price info update iff there is price info |
| `EventDocumentImporter.TranslationAndTailDetails` | src/Event/EventDocumentImporter.php:166-179 | the title translations and the closing imports hold no description or price info update, and the description translations no price info update |
| `EventDocumentImporter.DescriptionAndPriceCounts` | src/Event/EventDocumentImporter.php:142-174 | the whole list has one description update for the main-language description when there is one plus one per description translation, and a price info update exactly when there is price info (never a delete) |
| `EventDocumentImporter.PriceInfoUpdate` | src/Event/EventDocumentImporter.php:161-164 | when there is price info, it is sent in a price info update |
| `EventDocumentImporter.DescriptionTranslationUpdates` | src/Event/EventDocumentImporter.php:171-179 | the description translations are sent in order, one update each in its language, right before the labels and images imports |
| `EventDocumentImporter.DetailsAreUpdated` | src/Event/EventDocumentImporter.php:76-164 | stated on the import's inputs: after the branch (two, four or five commands) come audience, booking info, contact point and the main-language description iff there is one; price info is updated exactly when there is some |
| `EventDocumentImporter.DescriptionTranslationsAreUpdated` | src/Event/EventDocumentImporter.php:142-179 | stated on the import's inputs: the description updates number the translations plus one for a description, and the translations are sent in order right before the closing imports |
| `EventDocumentImporter.ExampleNewEventCommands` | tests/Event/EventDocumentImporterTest.php:171-214 | the test's new event (its place, theme, two title translations and 2018-01-01 publish date) yields the expected commands, computed out in full, plus the ImportLabels that src/Event/EventDocumentImporter.php:176 dispatches |
| `PlaceDocumentImporter.LegacyPlaceAdapter.Address` | src/Place/PlaceDocumentImporter.php:71 | the address is the translation in the address's original language |
| `PlaceDocumentImporter.LegacyPlaceAdapter.AddressTranslations` | src/Place/PlaceDocumentImporter.php:117 | the address translations are every address entry except the original's |
| `PlaceDocumentImporter.Read` | src/Place/PlaceDocumentImporter.php:53-73 | load failure, then denormalization failure, then a missing event type stop the import; on success the existence flag is "loaded" and the reading's type is what getType returns |
| `PlaceDocumentImporter.AppendBranch` | src/Place/PlaceDocumentImporter.php:75-110 | the branch statements append exactly the branch commands to the list |
| `PlaceDocumentImporter.AppendCreate` | src/Place/PlaceDocumentImporter.php:76-95 | the create statements append the create command and then the publish command with the same date |
| `PlaceDocumentImporter.AppendUpdates` | src/Place/PlaceDocumentImporter.php:96-110 | the update statements append title, type, address and calendar updates, and a theme update only when there is a theme |
| `PlaceDocumentImporter.AppendTitleUpdates` | src/Place/PlaceDocumentImporter.php:112-115 | the loop appends one title update per translation, in order |
| `PlaceDocumentImporter.AppendAddressUpdates` | src/Place/PlaceDocumentImporter.php:117-120 | the loop appends one address update per translation, in order |
| `PlaceDocumentImporter.Build` | src/Place/PlaceDocumentImporter.php:51-120 | the statements of import() build exactly the specified list, or stop with the specified error |
| `PlaceDocumentImporter.Import` | src/Place/PlaceDocumentImporter.php:51-125 | a successful import dispatches exactly that list; an exception dispatches nothing |
| `PlaceDocumentImporter.CommandsOfReading` | src/Place/PlaceDocumentImporter.php:51-120 | a successful import dispatches the command list of its reading |
| `PlaceDocumentImporter.BranchKinds` | src/Place/PlaceDocumentImporter.php:76-110 | two create/publish commands for a new place and none for an existing one, which gets one title update and one address update |
| `PlaceDocumentImporter.UpdateKinds` | src/Place/PlaceDocumentImporter.php:96-110 | the update statements emit no create or publish, one title update and one address update, whatever the theme |
| `PlaceDocumentImporter.TranslationKinds` | src/Place/PlaceDocumentImporter.php:112-120 | the translation loops emit one title update per title translation and one address update per address translation |
| `PlaceDocumentImporter.KindCounts` | src/Place/PlaceDocumentImporter.php:76-120 | the list has 2 or 0 creates/publishes, title updates for the branch plus one per non-original title, and address updates for the branch plus one per non-original address |
| `PlaceDocumentImporter.NewPlaceIsCreatedAndPublished` | src/Place/PlaceDocumentImporter.php:76-95 | a new place is created with its id, main language, original-language title, first `eventtype` term, original-language address, calendar, first `theme` term and publish date, then published on the same date; nothing else creates or publishes |
| `PlaceDocumentImporter.ExistingPlaceOpening` | src/Place/PlaceDocumentImporter.php:96-110 | an existing place's list opens with the main-language title, the type getType returns, the main-language address and the calendar; a theme update follows iff there is a `theme` term, and then carries getTheme's value |
| `PlaceDocumentImporter.UpdateOpening` | src/Place/PlaceDocumentImporter.php:96-110 | the update statements open with title, type, address and calendar; a theme update comes next iff there is a theme, whatever follows |
| `PlaceDocumentImporter.ReadingFields` | src/Place/PlaceDocumentImporter.php:65-73 | the title, type, address and theme the import reads are the original-language title, the first `eventtype` term, the original-language address and the first `theme` term |
| `PlaceDocumentImporter.ExistingPlaceIsUpdated` | src/Place/PlaceDocumentImporter.php:55-110 | a loaded place gets the title, type (getType's value), address and calendar updates, then the theme update with getTheme's value iff there is a `theme` term, and no create or publish |
| `PlaceDocumentImporter.AddressTranslationsAreUpdated` | src/Place/PlaceDocumentImporter.php:117-120 | the address updates are the branch's one (for an existing place) plus one per non-original address; every non-original address translation is sent as an address update in its language |
| `PlaceDocumentImporter.TitleTranslationsAreUpdated` | src/Place/PlaceDocumentImporter.php:112-115 | the title updates are the branch's one (for an existing place) plus one per non-original title; every non-original title translation is sent as a title update in its language |
| `PlaceDocumentImporter.TitlesBeforeAddresses` | src/Place/PlaceDocumentImporter.php:112-120 | after the branch, nothing but address updates follows the first address update |
| `OrganizerDocumentImporter.Read` | src/Organizer/OrganizerDocumentImporter.php:50-66 | load failure, then denormalization failure, then a missing URL stop the import; on success the existence flag is "loaded" |
| `OrganizerDocumentImporter.AppendTitleUpdates` | src/Organizer/OrganizerDocumentImporter.php:86-89 | the loop appends one title update per translation, in order |
| `OrganizerDocumentImporter.Build` | src/Organizer/OrganizerDocumentImporter.php:48-93 | the statements of import() build exactly the specified list, or stop with the specified error |
| `OrganizerDocumentImporter.Import` | src/Organizer/OrganizerDocumentImporter.php:48-98 | a successful import dispatches exactly that list; an exception dispatches nothing |
| `OrganizerDocumentImporter.CommandsOfReading` | src/Organizer/OrganizerDocumentImporter.php:48-93 | a successful import dispatches the command list of its reading |
| `OrganizerDocumentImporter.KindCounts` | src/Organizer/OrganizerDocumentImporter.php:69-93 | title updates for the branch plus one per translation; one labels import iff there are labels, and then it is the last command |
| `OrganizerDocumentImporter.BranchKinds` | src/Organizer/OrganizerDocumentImporter.php:69-84 | the branch is never empty, holds one title update only for an existing organizer, and never imports labels |
| `OrganizerDocumentImporter.LabelsLast` | src/Organizer/OrganizerDocumentImporter.php:91-93 | the label import, when the organizer has labels, is the last command, and otherwise no label import ends the list |
| `OrganizerDocumentImporter.NewOrganizerIsCreated` | src/Organizer/OrganizerDocumentImporter.php:69-75 | a new organizer is created with its id, main language, URL and original-language name |
| `OrganizerDocumentImporter.ExistingOrganizerIsUpdated` | src/Organizer/OrganizerDocumentImporter.php:76-84 | an existing organizer gets a main-language title update and then a website update, and is never created |
| `OrganizerDocumentImporter.TitleTranslationsAreUpdated` | src/Organizer/OrganizerDocumentImporter.php:86-89 | every non-original name translation is sent as a title update in its language, in name order, the k-th at position b + k right after the branch (b = 1 for a new organizer, 2 for an existing one) |
| `EventJsonImporter.ImportedEvent` | src/Event/EventJsonImporter.php:80 | the import is the deserialized event; a body that does not deserialize fails |
| `EventJsonImporter.CurrentState` | src/Event/EventJsonImporter.php:82-92 | a gone event is refused, a missing one is new, a stored one exists once it deserializes, and any other lookup exception escapes |
| `EventJsonImporter.CurrentStateAsWritten` | src/Event/EventJsonImporter.php:83-89 | as written, a missing stored document fails (a method call on null) instead of meaning "new" |
| `EventJsonImporter.AsWrittenAlwaysHasCurrentState` | src/Event/EventJsonImporter.php:83-89 | as written, every import that gets past the lookup has a current event, so the create branch is never taken |
| `EventJsonImporter.CategoriesOf` | src/Event/EventJsonImporter.php:106-115 | `toArray()` yields Category objects, which the closure's `array` parameter refuses: a TypeError iff the term list is non-empty, and an empty list of categories otherwise |
| `EventJsonImporter.AsWrittenTermsAreRefused` | src/Event/EventJsonImporter.php:100-138 | as written, an event with a main-language title and at least one term fails with that TypeError, before the place lookup |
| `EventJsonImporter.TypeAsWritten` | src/Event/EventJsonImporter.php:117-123 | as written, the type is found only among categories that are event type objects |
| `EventJsonImporter.ThemeAsWritten` | src/Event/EventJsonImporter.php:125-131 | as written, the theme is found only among categories that are theme objects |
| `EventJsonImporter.AsWrittenNeverFindsTypeOrTheme` | src/Event/EventJsonImporter.php:106-131 | as written, no term list that gets past the mapping yields a type or a theme |
| `EventJsonImporter.AsWrittenTypeCounterexample` | src/Event/EventJsonImporter.php:106-123 | one `eventtype` term is a TypeError as written, and the adapter's first-term rule takes it as the type |
| `EventJsonImporter.PlaceMainLanguage` | src/Event/EventJsonImporter.php:153 | the place's main language when it is set, else `nl` |
| `EventJsonImporter.InLanguage` | src/Event/EventJsonImporter.php:155-162 | a language map is replaced by its entry for the language (null when missing); any other value is kept |
| `EventJsonImporter.LocationOf` | src/Event/EventJsonImporter.php:150-169 | the location has the place id, the name and the deserialized address in the place's main language; a non-string name or an undeserializable address fails |
| `EventJsonImporter.LocationProblem` | src/Event/EventJsonImporter.php:137-146 | a deleted place, the dummy location and a missing place are the three location errors; "deleted" comes before "dummy", and "dummy" before "missing"; any other exception escapes; a found place that is not the dummy leaves no error |
| `EventJsonImporter.PlaceLocation` | src/Event/EventJsonImporter.php:133-182 | there is a location iff a place document came back, it is not the dummy, and its name and address are usable; every location error aborts the import |
| `EventJsonImporter.ReadFrom` | src/Event/EventJsonImporter.php:94-182 | the main-language title, then the location, then the type decide success, in that order |
| `EventJsonImporter.AsWrittenNeverImports` | src/Event/EventJsonImporter.php:74-211 | as written, every import ends in an exception and dispatches nothing |
| `EventJsonImporter.AppendTitleUpdates` | src/Event/EventJsonImporter.php:213-224 | the loop skips the main language and appends one title update per other language, in order |
| `EventJsonImporter.AppendBranch` | src/Event/EventJsonImporter.php:184-211 | the branch statements append a lone CreateEvent for a new event, else the five updates and a Publish only when there is a publish date |
| `EventJsonImporter.Build` | src/Event/EventJsonImporter.php:74-224 | the statements of import() build exactly the specified list, or stop with the specified error |
| `EventJsonImporter.Import` | src/Event/EventJsonImporter.php:74-229 | a successful import dispatches exactly that list; an exception dispatches nothing |
| `EventJsonImporter.DeletedEventIsRefused` | src/Event/EventJsonImporter.php:90-92 | an event whose stored document is gone is refused |
| `EventJsonImporter.LocationErrorsAbort` | src/Event/EventJsonImporter.php:137-182 | a deleted place, a missing place and the dummy location each abort the import |
| `EventJsonImporter.TypeAndThemeAreFirstTerms` | src/Event/EventJsonImporter.php:106-131 | the type is the first `eventtype` term; the theme is the first `theme` term, and absent iff there is none |
| `EventJsonImporter.PlaceNameLanguagePick` | src/Event/EventJsonImporter.php:153-157 | a string name is used as is; a name map gives its entry for the place's main language, or for `nl` when that is unset |
| `EventJsonImporter.NewEventIsOnlyCreated` | src/Event/EventJsonImporter.php:185-196 | a new event gets one CreateEvent with every field: id, main language, the title in the main language, type and theme as read, the place's location, calendar and availableFrom as publish date; only title updates follow |
| `EventJsonImporter.CommandsOfReading` | src/Event/EventJsonImporter.php:74-224 | a successful import dispatches the command list of its reading |
| `EventJsonImporter.ExistingEventOpening` | src/Event/EventJsonImporter.php:196-211 | an existing event gets title, type, location id, calendar and theme updates, then Publish exactly when it has a publish date, and never a CreateEvent |
| `EventJsonImporter.ExistingEventIsUpdated` | src/Event/EventJsonImporter.php:83-89 | a stored event document makes the import take the update branch |
| `EventJsonImporter.TitleTranslationsSkipMainLanguage` | src/Event/EventJsonImporter.php:213-224 | after the branch there is one title update per non-main language, each an entry of the title, and every such entry is updated |
| `TermPreProcessing.Polyfill` | src/PreProcessing/TermPreProcessingJsonImporter.php:46-58 | a term with a known string id gets the category's label and domain and keeps its other keys; any other term is unchanged |
| `TermPreProcessing.TermsRewrite` | src/PreProcessing/TermPreProcessingJsonImporter.php:41-61 | only `terms` changes; each term is polyfilled in place, in order; a term that is not an array is a TypeError; absent or non-array terms leave the body as is |
| `TermPreProcessing.PolyfillIdempotent` | src/PreProcessing/TermPreProcessingJsonImporter.php:46-58 | polyfilling a term twice is polyfilling it once |
| `TermPreProcessing.TermsRewriteIdempotent` | src/PreProcessing/TermPreProcessingJsonImporter.php:41-61 | rewriting an already rewritten body changes nothing |
| `TermPreProcessing.Import` | src/PreProcessing/TermPreProcessingJsonImporter.php:39-69 | the inner importer receives the rewritten body under the same id, exactly once; a TypeError delegates nothing |
| `LocationPreProcessing.LocationUrl` | src/PreProcessing/LocationPreProcessingJsonImporter.php:53 | a URL is present iff `location` holds a string `@id` |
| `LocationPreProcessing.WithId` | src/PreProcessing/LocationPreProcessingJsonImporter.php:58-63 | the embedded place keeps its keys and gets the URL as `@id` |
| `LocationPreProcessing.EmbeddedPlace` | src/PreProcessing/LocationPreProcessingJsonImporter.php:55-64 | a stored place is embedded with the URL as `@id`, a null lookup leaves only the URL, and gone or failing lookups embed nothing |
| `LocationPreProcessing.LocationRewrite` | src/PreProcessing/LocationPreProcessingJsonImporter.php:50-70 | only `location` changes; a resolvable place replaces it by the place's JSON with the original URL as `@id`; every failure leaves the body as it was |
| `LocationPreProcessing.Import` | src/PreProcessing/LocationPreProcessingJsonImporter.php:48-79 | the inner importer receives the rewritten body under the same id, exactly once |
| `PreProcessingEventImporter.EventLocationRewrite` | src/Event/PreProcessingEventJsonImporter.php:89-105 | it is the location embedding, except that a null place lookup fails the import |
| `PreProcessingEventImporter.Rewrite` | src/Event/PreProcessingEventJsonImporter.php:63-105 | a falsy body is invalid JSON, a non-array term is a TypeError, and otherwise the body is the term rewrite followed by the location rewrite |
| `PreProcessingEventImporter.NullPlaceDocumentFails` | src/Event/PreProcessingEventJsonImporter.php:89-98 | a location URL whose place lookup returns null fails the import, whatever the terms are |
| `PreProcessingEventImporter.PolyfillTerms` | src/Event/PreProcessingEventJsonImporter.php:70-87 | the statements rewriting the terms compute the term pre-processor's rewrite, failing where the callback refuses a term |
| `PreProcessingEventImporter.EmbedLocation` | src/Event/PreProcessingEventJsonImporter.php:89-105 | the statements embedding the place compute the location rewrite, failing on a null place document |
| `PreProcessingEventImporter.Import` | src/Event/PreProcessingEventJsonImporter.php:61-113 | the inner importer receives the rewritten body under the same id, exactly once; every error delegates nothing |
| `LabelPreProcessing.TrackedRelations` | src/PreProcessing/LabelPreProcessingDocumentImporter.php:62-69 | exactly the relations that were not imported are tracked |
| `LabelPreProcessing.TrackedNames` | src/PreProcessing/LabelPreProcessingDocumentImporter.php:70-75 | the tracked names are the tracked relations' names, in order |
| `LabelPreProcessing.Untracked` | src/PreProcessing/LabelPreProcessingDocumentImporter.php:78-85 | the list without the tracked names; every untracked entry stays |
| `LabelPreProcessing.AddedNames` | src/PreProcessing/LabelPreProcessingDocumentImporter.php:88-98 | at most one appended name per tracked relation |
| `LabelPreProcessing.Reappend` | src/PreProcessing/LabelPreProcessingDocumentImporter.php:88-98 | the loop succeeds iff the repository knows every tracked name, and then appends each label to the list of its visibility; otherwise it stops at an unknown name |
| `LabelPreProcessing.AddedNamesSplit` | src/PreProcessing/LabelPreProcessingDocumentImporter.php:93-97 | each known tracked label is appended to exactly one of the two lists, the one of its visibility |
| `LabelPreProcessing.ReconciledLists` | src/PreProcessing/LabelPreProcessingDocumentImporter.php:60-103 | each list becomes its untracked entries in order followed by the tracked labels of its visibility; no other key changes |
| `LabelPreProcessing.TrackedLabelsFollowVisibility` | src/PreProcessing/LabelPreProcessingDocumentImporter.php:88-101 | every tracked label ends up in the list of its repository visibility, whichever list the document had it in |
| `LabelPreProcessing.HiddenLabelMoves` | src/PreProcessing/LabelPreProcessingDocumentImporter.php:53-101 | a visible-listed label that the repository hides moves to `hiddenLabels`, a visible label is added, and imported relations are ignored |
| `LabelPreProcessing.Reconcile` | src/PreProcessing/LabelPreProcessingDocumentImporter.php:60-101 | the statements of import() compute exactly the reconciled body |
| `LabelPreProcessing.Import` | src/PreProcessing/LabelPreProcessingDocumentImporter.php:48-105 | the inner importer receives the reconciled body under the same id, exactly once; an unknown label delegates nothing |
| `MediaObjectPreProcessing.AsEntry` | src/PreProcessing/MediaObjectPreProcessingDocumentImporter.php:72-80 | a serialized array is used as is, and a string is decoded first |
| `MediaObjectPreProcessing.Replacement` | src/PreProcessing/MediaObjectPreProcessingDocumentImporter.php:66-86 | an entry with a resolvable string `@id` becomes the serialized media object; any other entry, or any failure on the way, leaves it unchanged |
| `MediaObjectPreProcessing.MediaObjectsRewrite` | src/PreProcessing/MediaObjectPreProcessingDocumentImporter.php:61-90 | only `mediaObject` changes; it keeps its length and order with each entry replaced or kept; absent or non-array values are left alone; a non-array entry is a TypeError |
| `MediaObjectPreProcessing.UnresolvedMediaObjectsAreKept` | src/PreProcessing/MediaObjectPreProcessingDocumentImporter.php:64-90 | a body none of whose media objects resolve goes on unchanged |
| `MediaObjectPreProcessing.Import` | src/PreProcessing/MediaObjectPreProcessingDocumentImporter.php:59-95 | the inner importer receives the rewritten body under the same id, exactly once; a TypeError delegates nothing |
| `LabelPermissionRule.RelationNamed` | src/Validation/Taxonomy/Label/LabelPermissionRule.php:63-68 | the search succeeds iff some relation has exactly the input as its name |
| `LabelPermissionRule.Validate` | src/Validation/Taxonomy/Label/LabelPermissionRule.php:55-75 | valid iff god user, or already related, or granted; a god user consults nothing; the grant is asked iff the user is not a god user and no relation matches, and then it decides |
| `LabelPermissionRule.ValidateMonotone` | src/Validation/Taxonomy/Label/LabelPermissionRule.php:55-75 | more relations or wider grants never take a permission away |
| `LabelPermissionRule.OtherNamesNeedTheGrant` | src/Validation/Taxonomy/Label/LabelPermissionRule.php:65 | the match is exact: a name differing in case falls back to the grant |
| `EventTypeCountValidator.Validate` | src/Validation/Taxonomy/Category/EventTypeCountValidator.php:18-35 | non-array input is valid; array input is valid iff exactly one term has domain `eventtype`; a non-array term is a TypeError |
| `EventTypeCountValidator.NoEventTypeIsInvalid` | tests/Validation/Taxonomy/Category/EventTypeValidatorTest.php:93-120 | terms without an event type are invalid |
| `EventTypeCountValidator.TwoEventTypesAreInvalid` | tests/Validation/Taxonomy/Category/EventTypeValidatorTest.php:51-88 | two event type terms are invalid, whatever else there is |
| `EventTypeCountValidator.OneEventTypeIsValid` | tests/Validation/Taxonomy/Category/EventTypeValidatorTest.php:25-46 | exactly one event type term is valid |
| `EventTypeCountValidator.OtherTermsAreNotCounted` | src/Validation/Taxonomy/Category/EventTypeCountValidator.php:26 | a term without an `eventtype` domain does not change the verdict |
| `EventTypeCountValidator.OrderDoesNotMatter` | src/Validation/Taxonomy/Category/EventTypeCountValidator.php:23-30 | the verdict depends only on which terms there are, not on their order |

## Left out

- I/O, persistence, HTTP and consumer concerns are not modelled. The command bus and the decorated importers record what they receive; aggregates and handlers are not modelled.
- Collaborators are parameters: `json_decode`/`json_encode`, the denormalizers and the Symfony serializer, Url/UUID/place-id parsing, `Address::deserialize`, the category resolvers, the media manager and the label repositories.
  - A failing collaborator is a `None` or an outcome value.
  - Calendar, booking info and the other legacy conversions are kept opaque.
- The clock is a parameter: `new \DateTimeImmutable()` is the `now` the importers receive.
- The validator factories (src/Validation/Event/EventValidatorFactory.php and its place and organizer counterparts) are not modelled: they only wire rule objects together. The rules they wire other than the two modelled here are not part of this model either.
- The resolver constructors (src/Event/EventLegacyBridgeCategoryResolver.php, src/Place/PlaceLegacyBridgeCategoryResolver.php) are represented by the resolver function they produce.
- The interfaces (LegacyOffer, LegacyEvent, LegacyOrganizer and the importer interfaces) have no behaviour.
- `LegacyOrganizer::getLabels` is declared but not implemented by the adapter, so it is not modelled. The organizer importer reads the labels from the organizer itself.
- Udb3ModelToLegacyPlaceAdapter is not part of this model. `PlaceDocumentImporter.LegacyPlaceAdapter` assumes it follows the offer adapter and reads the place's translated address the way getTitle and getTitleTranslations read the title.
- Adapter getters for booking info, contact point, description, organizer, age range, price info and description translations are called by the event importer but defined in no adapter shown. They are read from `Udb3Model.EventDetails`.
- Exceptions are all modelled as one `ImportError`, with no message text. EventJsonImporter's grouped exception (lines 175-182) is modelled as one `InvalidLocation` error naming the problem. That includes the `foreach` over a string and the `new` on an object; the import aborts either way.
- `EventJsonImporter.InLanguage` treats the place body's name and address maps as associative arrays, as lines 155-161 presume. `JsonDocument::getBody` is not part of this model. If it yields objects, the language pick never applies and a name map fails as a StringLiteral.
- `EventJsonImporter.PlaceMainLanguage` uses a non-string `mainLanguage` as if it were absent.
- `LocationPreProcessing.WithId` gives a truthy non-object place body (a list or a scalar) the object `{"@id": url}`. PHP would add `@id` to a list, or fail on a scalar, which the catch then swallows.
- `LabelPreProcessing.Reconciled`, `LabelPreProcessing.ReconciledLists`, `LabelPreProcessing.TrackedLabelsFollowVisibility`, `LabelPreProcessing.Reconcile` and `LabelPreProcessing.Import` require `labels` and `hiddenLabels` to be lists of strings. The source checks neither that both keys exist nor that they hold lists; it reads them as they are. PHP's behaviour on a missing key, a non-list value or a non-string entry is not modelled.
- `EventAdapter.LegacyEventAdapter.AudienceType` returns the event's raw audience type. The conversion into the legacy AudienceType value object is kept opaque, like the other legacy conversions.
- The model follows the source where the tests disagree:
  - tests/Event/EventDocumentImporterTest.php:171-214 expects no `ImportLabels`, but src/Event/EventDocumentImporter.php:176 always emits it;
  - tests/Place/PlaceDocumentImporterTest.php:139-142 and 208-216 expect booking, contact, organizer, age range and label commands that src/Place/PlaceDocumentImporter.php never emits.
- Message texts and the Respect-Validation exception objects are opaque.

## Findings

| source | as written | input that shows it | evidently intended | confidence | as-written member | corrected member |
|---|---|---|---|---|---|---|
| src/Event/EventJsonImporter.php:106-131 | `toArray()` yields the terms' Category objects, and the `array`-typed closure at line 107 throws a TypeError on the first one. An empty term list gets through, but then no type is found: `$type` becomes `false`, and the CreateEvent/UpdateType constructors refuse it. Even with arrays, the `instanceof EventType` / `instanceof Theme` filters would never match a plain `new Category` | terms `[{"id": "0.50.4.0.0", "label": "Concert", "domain": "eventtype"}]` | the first `eventtype` term as the type, and the first `theme` term as the theme, as the offer adapter does | not executed | `EventJsonImporter.AsWrittenTypeCounterexample` | `EventJsonImporter.TypeAndThemeAreFirstTerms` |
| src/Event/EventJsonImporter.php:83-89 | a missing stored event document makes `get` return null, and `getRawBody()` on null throws an Error the `catch` does not catch. So the create branch (line 185) is unreachable and a new event can never be imported | any event id with no stored document | a missing stored document means the event is new, and CreateEvent is dispatched | not executed | `EventJsonImporter.AsWrittenAlwaysHasCurrentState` | `EventJsonImporter.NewEventIsOnlyCreated` |
