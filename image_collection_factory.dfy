/**
 * MediaManagerImageCollectionFactory: turns an event's media object
 * references into legacy images, looking each referenced media object up in
 * the media manager.
 */
module ImageCollectionFactory {
  import opened Wrappers
  import opened Seqs
  import opened Udb3Model
  import opened LegacyCommands
  import opened ImportErrors

  /** What the media manager stores for an uploaded media object. */
  datatype MediaObjectAggregate = MediaObjectAggregate(mediaObjectId: string, mimeType: string, sourceLocation: string)

  /** The media manager's `get`: the aggregate of a media object id, or None when it throws. */
  type MediaManager = string -> Option<MediaObjectAggregate>

  /** The filter: a reference is kept unless its embedded media object is something other than an image. */
  predicate IsImageReference(reference: MediaObjectReference) {
    reference.embeddedMediaObject.None? || reference.embeddedMediaObject.value.mediaType == ImageObject
  }

  /** Identity, mime type and file location come from the aggregate; the rest from the reference. */
  function ImageOf(reference: MediaObjectReference, aggregate: MediaObjectAggregate): Image {
    Image(aggregate.mediaObjectId, aggregate.mimeType, reference.description,
          reference.copyrightHolder, aggregate.sourceLocation, reference.language)
  }

  predicate Known(mediaManager: MediaManager, reference: MediaObjectReference) {
    mediaManager(reference.mediaObjectId).Some?
  }

  /** The array_map over the kept references; the first unknown media object aborts it. */
  function Images(references: seq<MediaObjectReference>, mediaManager: MediaManager): (r: Result<seq<Image>, ImportError>)
    ensures r.Ok? <==> forall i :: 0 <= i < |references| ==> Known(mediaManager, references[i])
    ensures r.Ok? ==> (|r.value| == |references| &&
      forall i :: 0 <= i < |references| ==> (
        Known(mediaManager, references[i]) &&
        r.value[i] == ImageOf(references[i], mediaManager(references[i].mediaObjectId).value)))
    ensures r.Err? ==> exists i :: (FirstUnknown(references, mediaManager, i) &&
      r.error == MediaObjectNotFound(references[i].mediaObjectId))
  {
    if references == [] then Ok([])
    else
      var head := references[0];
      match mediaManager(head.mediaObjectId)
      case None =>
        assert FirstUnknown(references, mediaManager, 0);
        Err(MediaObjectNotFound(head.mediaObjectId))
      case Some(aggregate) =>
        var rest := Images(references[1..], mediaManager);
        assert rest.Err? ==> exists i :: (FirstUnknown(references, mediaManager, i) &&
          rest.error == MediaObjectNotFound(references[i].mediaObjectId)) by {
          if rest.Err? {
            var i :| FirstUnknown(references[1..], mediaManager, i) &&
              rest.error == MediaObjectNotFound(references[1..][i].mediaObjectId);
            assert FirstUnknown(references, mediaManager, i + 1);
          }
        }
        match rest
        case Err(e) => Err(e)
        case Ok(images) => Ok([ImageOf(head, aggregate)] + images)
  }

  /** Reference `i` is the first whose media object the manager does not know. */
  predicate FirstUnknown(references: seq<MediaObjectReference>, mediaManager: MediaManager, i: int) {
    0 <= i < |references| && !Known(mediaManager, references[i]) &&
    forall j :: 0 <= j < i ==> Known(mediaManager, references[j])
  }

  /** fromMediaObjectReferences: filter, then map each kept reference to an image. */
  function FromMediaObjectReferences(references: seq<MediaObjectReference>, mediaManager: MediaManager): (r: Result<seq<Image>, ImportError>)
  {
    Images(Filter(references, IsImageReference), mediaManager)
  }

  /**
   * One image per reference that is not a non-image, in order, each carrying
   * the aggregate's id, mime type and location and the reference's
   * description, copyright holder and language; it fails exactly when a kept
   * reference names an unknown media object.
   */
  lemma FromReferencesImages(references: seq<MediaObjectReference>, mediaManager: MediaManager)
    ensures var kept := Filter(references, IsImageReference);
      var r := FromMediaObjectReferences(references, mediaManager);
      (r.Ok? <==> forall i :: 0 <= i < |references| && IsImageReference(references[i]) ==>
        Known(mediaManager, references[i])) &&
      (r.Ok? ==> (|r.value| == Count(references, IsImageReference) &&
        forall i :: 0 <= i < |r.value| ==> (IsImageReference(kept[i]) && Known(mediaManager, kept[i]) &&
          r.value[i] == ImageOf(kept[i], mediaManager(kept[i].mediaObjectId).value))))
  {
    var kept := Filter(references, IsImageReference);
    var r := FromMediaObjectReferences(references, mediaManager);
    if !r.Ok? {
      var i :| FirstUnknown(kept, mediaManager, i);
      assert kept[i] in references;
    } else {
      forall i | 0 <= i < |references| && IsImageReference(references[i])
        ensures Known(mediaManager, references[i])
      {
        assert references[i] in kept;
      }
    }
  }

  /** References whose embedded media objects are all non-images yield no images and ask nothing. */
  lemma NonImagesAreDropped(references: seq<MediaObjectReference>, mediaManager: MediaManager)
    requires forall i :: 0 <= i < |references| ==> !IsImageReference(references[i])
    ensures FromMediaObjectReferences(references, mediaManager) == Ok([])
  {
    assert Count(references, IsImageReference) == 0;
  }
}
