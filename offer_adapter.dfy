/** Udb3ModelToLegacyOfferAdapter: the legacy view of an offer (an event or a place). */
module OfferAdapter {
  import opened Wrappers
  import opened Seqs
  import opened Udb3Model
  import opened LegacyCommands

  /** Term `i` is the first one whose domain is `domain`. */
  predicate FirstIndexOfDomain(terms: seq<Category>, i: int, domain: string) {
    0 <= i < |terms| && terms[i].domain == Some(domain) &&
    forall j :: 0 <= j < i ==> terms[j].domain != Some(domain)
  }

  /** The first term whose domain is `domain`; terms without a domain never match. */
  function FirstOfDomain(terms: seq<Category>, domain: string): (r: Option<Category>)
    ensures r.None? <==> forall i :: 0 <= i < |terms| ==> terms[i].domain != Some(domain)
    ensures r.Some? ==> exists i :: FirstIndexOfDomain(terms, i, domain) && terms[i] == r.value
  {
    if terms == [] then None
    else if terms[0].domain == Some(domain) then Some(terms[0])
    else
      var r := FirstOfDomain(terms[1..], domain);
      assert r.Some? ==> exists i :: FirstIndexOfDomain(terms, i, domain) && terms[i] == r.value by {
        if r.Some? {
          var i :| FirstIndexOfDomain(terms[1..], i, domain) && terms[1..][i] == r.value;
          assert terms[i + 1] == r.value;
          forall j | 0 <= j < i + 1 ensures terms[j].domain != Some(domain) {
            if j > 0 { assert terms[j] == terms[1..][j - 1]; }
          }
          assert FirstIndexOfDomain(terms, i + 1, domain);
        }
      }
      r
  }

  datatype LegacyOfferAdapter = LegacyOfferAdapter(offer: Offer) {

    /** getId: the offer's own id. */
    function Id(): (r: string)
      ensures r == offer.id
    {
      offer.id
    }

    /** getMainLanguage: the offer's main language. */
    function MainLanguage(): (r: Language)
      ensures r == offer.mainLanguage
    {
      offer.mainLanguage
    }

    /** getTitle: the title in the title's original language. */
    function Title(): (title: string)
      requires offer.WellFormed()
      ensures offer.title.Translation(offer.title.originalLanguage) == Some(title)
    {
      offer.title.Original()
    }

    /** getType: the first `eventtype` term as a legacy EventType; null when there is none. */
    function Type(): (r: Option<EventType>)
      ensures r.None? <==> forall i :: 0 <= i < |offer.terms| ==> offer.terms[i].domain != Some("eventtype")
      ensures r.Some? ==> exists i :: FirstIndexOfDomain(offer.terms, i, "eventtype") && r.value == EventType(offer.terms[i].id, offer.terms[i].labelText)
    {
      match FirstOfDomain(offer.terms, "eventtype")
      case None => None
      case Some(c) => Some(EventType(c.id, c.labelText))
    }

    /** getTheme: the first `theme` term as a legacy Theme, or null. */
    function Theme(): (r: Option<Theme>)
      ensures r.None? <==> forall i :: 0 <= i < |offer.terms| ==> offer.terms[i].domain != Some("theme")
      ensures r.Some? ==> exists i :: FirstIndexOfDomain(offer.terms, i, "theme") && r.value == LegacyCommands.Theme(offer.terms[i].id, offer.terms[i].labelText)
    {
      match FirstOfDomain(offer.terms, "theme")
      case None => None
      case Some(c) => Some(LegacyCommands.Theme(c.id, c.labelText))
    }

    /** getCalendar: the offer's calendar, unchanged. */
    function Calendar(): (r: Calendar)
      ensures r == offer.calendar
    {
      offer.calendar
    }

    /** getAvailableFrom: the offer's own date when it has one, else the caller's default. */
    function AvailableFrom(default: Option<DateTime>): (r: Option<DateTime>)
      ensures offer.availableFrom.Some? ==> r == offer.availableFrom
      ensures offer.availableFrom.None? ==> r == default
      ensures r.None? <==> offer.availableFrom.None? && default.None?
    {
      if offer.availableFrom.None? then default else offer.availableFrom
    }

    /** What getTitleTranslations returns: every translation but the original, in order. */
    function TitleTranslationsOf(): seq<(Language, string)> {
      offer.title.WithoutOriginal()
    }

    /** getTitleTranslations: the language-keyed array of every title translation but the original. */
    method TitleTranslations() returns (titles: seq<(Language, string)>)
      requires offer.WellFormed()
      ensures titles == TitleTranslationsOf()
    {
      titles := offer.title.CollectWithoutOriginal();
    }
  }
}
