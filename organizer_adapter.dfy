/** Udb3ModelToLegacyOrganizerAdapter: the legacy view of an organizer, which needs a website. */
module OrganizerAdapter {
  import opened Wrappers
  import opened Udb3Model
  import opened ImportErrors

  datatype LegacyOrganizerAdapter = LegacyOrganizerAdapter(organizer: Organizer) {
    /** What the constructor establishes. */
    predicate Valid() {
      organizer.WellFormed() && organizer.url.Some?
    }

    /** getId: the organizer's own id. */
    function Id(): (r: string)
      ensures r == organizer.id
    {
      organizer.id
    }

    /** getMainLanguage: the organizer's main language. */
    function MainLanguage(): (r: Language)
      ensures r == organizer.mainLanguage
    {
      organizer.mainLanguage
    }

    /** getTitle: the name in the name's original language. */
    function Title(): (title: string)
      requires Valid()
      ensures organizer.name.Translation(organizer.name.originalLanguage) == Some(title)
    {
      organizer.name.Original()
    }

    /** getWebsite: the organizer's URL, which the constructor guarantees. */
    function Website(): (website: string)
      requires Valid()
      ensures organizer.url == Some(website)
    {
      organizer.url.value
    }

    /** What getTitleTranslations returns: every name translation but the original, in order. */
    function TitleTranslationsOf(): seq<(Language, string)> {
      organizer.name.WithoutOriginal()
    }

    /** getTitleTranslations: the language-keyed array of every name translation but the original. */
    method TitleTranslations() returns (titles: seq<(Language, string)>)
      requires Valid()
      ensures titles == TitleTranslationsOf()
    {
      titles := organizer.name.CollectWithoutOriginal();
    }
  }

  /** The constructor: refuses an organizer without a URL. */
  function FromOrganizer(o: Organizer): (r: Result<LegacyOrganizerAdapter, ImportError>)
    requires o.WellFormed()
    ensures r.Err? <==> o.url.None?
    ensures r.Err? ==> r.error == OrganizerUrlRequired
    ensures r.Ok? ==> r.value.Valid() && r.value.organizer == o
  {
    if o.url.None? then Err(OrganizerUrlRequired) else Ok(LegacyOrganizerAdapter(o))
  }
}
