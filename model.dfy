/**
 * The current-generation domain model that the importers denormalize into:
 * immutable offers, events, places and organizers, and the translated values
 * they carry. Conversions between this model and the legacy one for calendars,
 * titles and other payloads are treated as identities on uninterpreted values.
 */
module Udb3Model {
  import opened Wrappers
  import opened Seqs

  type Language = string
  /** An ISO 8601 timestamp; only compared for equality. */
  type DateTime = string
  /** Opaque payloads whose structure the pipeline never inspects. */
  type Calendar = string
  type BookingInfo = string
  type ContactPoint = string
  type AgeRange = string
  type PriceInfo = string

  // ---- ordered maps (PHP arrays with string keys keep insertion order) ----

  function Keys<K, V>(m: seq<(K, V)>): (ks: seq<K>)
    ensures |ks| == |m| && forall i :: 0 <= i < |m| ==> ks[i] == m[i].0
  {
    seq(|m|, i requires 0 <= i < |m| => m[i].0)
  }

  predicate DistinctKeys<K(==), V>(m: seq<(K, V)>) {
    forall i, j :: 0 <= i < j < |m| ==> m[i].0 != m[j].0
  }

  /** `$m[$k]`: the value of the first entry with key `k`. */
  function Get<K(==), V>(m: seq<(K, V)>, k: K): (r: Option<V>)
    ensures r.Some? <==> k in Keys(m)
    ensures r.Some? ==> (k, r.value) in m
  {
    if m == [] then None
    else if m[0].0 == k then Some(m[0].1)
    else Get(m[1..], k)
  }

  /** `$m[$k] = $v`: overwrite in place if the key exists, else append. */
  function Put<K(==), V>(m: seq<(K, V)>, k: K, v: V): (r: seq<(K, V)>)
  {
    if m == [] then [(k, v)]
    else if m[0].0 == k then [(k, v)] + m[1..]
    else [m[0]] + Put(m[1..], k, v)
  }

  lemma {:induction false} PutNewKey<K, V>(m: seq<(K, V)>, k: K, v: V)
    requires k !in Keys(m)
    ensures Put(m, k, v) == m + [(k, v)]
  {
    if m != [] {
      assert m[0].0 == Keys(m)[0];
      assert Keys(m[1..]) == Keys(m)[1..];
      PutNewKey(m[1..], k, v);
      assert [m[0]] + (m[1..] + [(k, v)]) == m + [(k, v)];
    }
  }

  lemma {:induction false} GetDistinct<K, V>(m: seq<(K, V)>, k: K, v: V)
    requires DistinctKeys(m) && (k, v) in m
    ensures Get(m, k) == Some(v)
  {
    if m[0] != (k, v) {
      var i :| 0 <= i < |m| && m[i] == (k, v);
      assert m[0].0 != k;
      assert m[1..][i - 1] == (k, v);
      GetDistinct(m[1..], k, v);
    }
  }

  /** The entries whose key is not `k`, in their order (a foreach that skips one key). */
  function WithoutKey<V>(m: seq<(Language, V)>, k: Language): (r: seq<(Language, V)>)
    ensures |r| <= |m|
  {
    if m == [] then [] else (if m[0].0 == k then [] else [m[0]]) + WithoutKey(m[1..], k)
  }

  /** An entry is kept exactly when it is in `m` and its key is not `k`. */
  lemma {:induction false} WithoutKeyMember<V>(m: seq<(Language, V)>, k: Language, e: (Language, V))
    ensures e in WithoutKey(m, k) <==> e in m && e.0 != k
  {
    if m != [] {
      WithoutKeyMember(m[1..], k, e);
      assert m == [m[0]] + m[1..];
    }
  }

  lemma {:induction false} WithoutKeyDistinct<V>(m: seq<(Language, V)>, k: Language)
    requires DistinctKeys(m)
    ensures DistinctKeys(WithoutKey(m, k))
  {
    if m != [] {
      WithoutKeyDistinct(m[1..], k);
      var rest := WithoutKey(m[1..], k);
      forall j | 0 <= j < |rest| ensures rest[j].0 != m[0].0 {
        var e := rest[j];
        WithoutKeyMember(m[1..], k, e);
        var i :| 0 <= i < |m[1..]| && m[1..][i] == e;
        assert m[i + 1] == e;
      }
    }
  }

  /** Skipping a key that does not occur changes nothing. */
  lemma {:induction false} WithoutKeyAbsent<V>(m: seq<(Language, V)>, k: Language)
    requires k !in Keys(m)
    ensures WithoutKey(m, k) == m
  {
    if m != [] {
      assert Keys(m)[0] == m[0].0;
      assert Keys(m[1..]) == Keys(m)[1..];
      WithoutKeyAbsent(m[1..], k);
    }
  }

  /** With distinct keys, skipping a key that occurs drops exactly one entry. */
  lemma {:induction false} WithoutKeyLength<V>(m: seq<(Language, V)>, k: Language)
    requires DistinctKeys(m) && k in Keys(m)
    ensures |WithoutKey(m, k)| == |m| - 1
  {
    assert Keys(m)[0] == m[0].0;
    assert Keys(m[1..]) == Keys(m)[1..];
    if m[0].0 == k {
      assert k !in Keys(m[1..]);
      WithoutKeyAbsent(m[1..], k);
    } else {
      WithoutKeyLength(m[1..], k);
    }
  }

  /** A value given in several languages, one of which is its original language. */
  datatype Translated<T> = Translated(originalLanguage: Language, entries: seq<(Language, T)>) {
    /** The value object's own invariant: one value per language, the original among them. */
    predicate Valid() {
      DistinctKeys(entries) && originalLanguage in Keys(entries)
    }

    function Languages(): seq<Language> {
      Keys(entries)
    }

    function Translation(language: Language): Option<T> {
      Get(entries, language)
    }

    /** `getTranslation(getOriginalLanguage())` */
    function Original(): (v: T)
      requires Valid()
      ensures (originalLanguage, v) in entries
      ensures Translation(originalLanguage) == Some(v)
    {
      Get(entries, originalLanguage).value
    }

    /** The translations in every language but the original, in the value's own order. */
    function WithoutOriginal(): seq<(Language, T)> {
      WithoutKey(entries, originalLanguage)
    }

    /** A foreach over getLanguagesWithoutOriginal() storing `$r[$language] = getTranslation($language)`. */
    method CollectWithoutOriginal() returns (r: seq<(Language, T)>)
      requires Valid()
      ensures r == WithoutOriginal()
    {
      WithoutKeyDistinct(entries, originalLanguage);
      r := [];
      for i := 0 to |entries|
        invariant r + WithoutKey(entries[i..], originalLanguage) == WithoutKey(entries, originalLanguage)
      {
        assert entries[i..][1..] == entries[i + 1..];
        if entries[i].0 != originalLanguage {
          CollectStep(r, entries, i, originalLanguage);
          r := Put(r, entries[i].0, entries[i].1);
        }
      }
    }
  }

  /** One step of the collecting foreach: a kept entry's language is new, so storing it appends it. */
  lemma CollectStep<T>(r: seq<(Language, T)>, entries: seq<(Language, T)>, i: nat, k: Language)
    requires i < |entries| && entries[i].0 != k
    requires DistinctKeys(WithoutKey(entries, k))
    requires r + WithoutKey(entries[i..], k) == WithoutKey(entries, k)
    ensures Put(r, entries[i].0, entries[i].1) + WithoutKey(entries[i + 1..], k) == WithoutKey(entries, k)
  {
    assert entries[i..][1..] == entries[i + 1..];
    var rest := WithoutKey(entries[i + 1..], k);
    assert WithoutKey(entries[i..], k) == [entries[i]] + rest;
    assert r + [entries[i]] + rest == WithoutKey(entries, k);
    NextKeyIsNew(r, entries[i], rest);
    PutNewKey(r, entries[i].0, entries[i].1);
  }

  /** In a list with distinct keys, an entry's key does not occur before it. */
  lemma NextKeyIsNew<K, V>(before: seq<(K, V)>, e: (K, V), after: seq<(K, V)>)
    requires DistinctKeys(before + [e] + after)
    ensures e.0 !in Keys(before)
  {
    var all := before + [e] + after;
    forall j | 0 <= j < |before| ensures before[j].0 != e.0 {
      assert all[j] == before[j] && all[|before|] == e;
    }
  }

  /** The collected translations have exactly the non-original languages as keys, each with its own value. */
  lemma WithoutOriginalExact<T>(t: Translated<T>)
    requires t.Valid()
    ensures DistinctKeys(t.WithoutOriginal())
    ensures forall l, v :: (l, v) in t.WithoutOriginal() <==> (l, v) in t.entries && l != t.originalLanguage
    ensures forall l :: l in Keys(t.WithoutOriginal()) <==> l in t.Languages() && l != t.originalLanguage
  {
    var r := t.WithoutOriginal();
    WithoutKeyDistinct(t.entries, t.originalLanguage);
    forall l, v ensures (l, v) in r <==> (l, v) in t.entries && l != t.originalLanguage {
      WithoutKeyMember(t.entries, t.originalLanguage, (l, v));
    }
    forall l | l in t.Languages() && l != t.originalLanguage ensures l in Keys(r) {
      var i :| 0 <= i < |t.entries| && t.entries[i].0 == l;
      WithoutKeyMember(t.entries, t.originalLanguage, t.entries[i]);
      var j :| 0 <= j < |r| && r[j] == t.entries[i];
      assert Keys(r)[j] == l;
    }
    forall l | l in Keys(r) ensures l in t.Languages() && l != t.originalLanguage {
      var j :| 0 <= j < |r| && r[j].0 == l;
      WithoutKeyMember(t.entries, t.originalLanguage, r[j]);
      var i :| 0 <= i < |t.entries| && t.entries[i] == r[j];
      assert t.Languages()[i] == l;
    }
  }

  datatype Category = Category(id: string, labelText: string, domain: Option<string>)

  datatype Address = Address(streetAddress: string, postalCode: string, addressLocality: string, addressCountry: string)

  /** What an Event and a Place share. */
  datatype Offer = Offer(
    id: string,
    mainLanguage: Language,
    title: Translated<string>,
    terms: seq<Category>,
    calendar: Calendar,
    availableFrom: Option<DateTime>)
  {
    predicate WellFormed() {
      title.Valid()
    }
  }

  datatype Place = Place(id: string, title: Translated<string>, address: Translated<Address>) {
    predicate WellFormed() {
      title.Valid() && address.Valid()
    }
  }

  datatype PlaceReference = PlaceReference(placeId: string, embeddedPlace: Option<Place>)

  datatype LabelValue = LabelValue(name: string, visible: bool)

  datatype MediaObjectType = ImageObject | OtherMediaObjectType(name: string)

  datatype MediaObject = MediaObject(id: string, mediaType: MediaObjectType)

  datatype MediaObjectReference = MediaObjectReference(
    mediaObjectId: string,
    embeddedMediaObject: Option<MediaObject>,
    description: string,
    copyrightHolder: string,
    language: Language)

  /**
   * What the event importer reads through adapter getters that no shown
   * adapter defines (getBookingInfo, getContactPoint, getDescription,
   * getOrganizerId, getAgeRange, getPriceInfo, getDescriptionTranslations).
   */
  datatype EventDetails = EventDetails(
    bookingInfo: BookingInfo,
    contactPoint: ContactPoint,
    description: Option<string>,
    organizerId: Option<string>,
    ageRange: Option<AgeRange>,
    priceInfo: Option<PriceInfo>,
    descriptionTranslations: seq<(Language, string)>)

  datatype Event = Event(
    offer: Offer,
    placeReference: PlaceReference,
    audienceType: Option<string>,
    labels: seq<LabelValue>,
    mediaObjectReferences: seq<MediaObjectReference>,
    details: EventDetails)
  {
    predicate WellFormed() {
      offer.WellFormed() &&
      (placeReference.embeddedPlace.Some? ==> placeReference.embeddedPlace.value.WellFormed())
    }
  }

  datatype Organizer = Organizer(
    id: string,
    mainLanguage: Language,
    name: Translated<string>,
    url: Option<string>,
    labels: seq<LabelValue>)
  {
    predicate WellFormed() {
      name.Valid()
    }
  }
}
