/** The PDF reader's view-model: reading progress and highlight synchronisation. */
module Reader {
  import opened Prelude
  import opened Geometry
  import opened Annotations
  import opened Identity
  import opened Metadata
  import opened Progress
  import opened Overlap
  import opened Requests

  /**
   * The view-model of one open PDF. `params` is the loaded document (null until a
   * load completes), `currentReadingProgress` the highest progress reported so
   * far, and `outbox` the network requests fired off, in order.
   */
  class PDFReaderViewModel {
    var params: Option<ReaderParams>
    var currentReadingProgress: real
    var outbox: seq<Request>

    constructor ()
      ensures params.None? && currentReadingProgress == 0.0 && outbox == []
    {
      params := None;
      currentReadingProgress := 0.0;
      outbox := [];
    }

    /** The state a completed document load leaves: the document posted and its stored progress. */
    method SessionLoaded(loaded: ReaderParams, readingProgress: real)
      modifies this`params, this`currentReadingProgress
      ensures params == Some(loaded) && currentReadingProgress == readingProgress
    {
      currentReadingProgress := readingProgress;
      params := Some(loaded);
    }

    /** Clears the loaded document. */
    method Reset()
      modifies this`params
      ensures params.None?
    {
      params := None;
    }

    /**
     * A page change: when its percent is above the stored progress, the progress
     * becomes that percent and one progress update is sent with the page index as
     * its anchor; otherwise neither the progress nor the outbox changes.
     */
    method SyncPageChange(currentPageIndex: int32, totalPages: int32)
      modifies this`currentReadingProgress, this`outbox
      ensures var s := ProgressStep(old(currentReadingProgress), currentPageIndex, totalPages);
        currentReadingProgress == s.progress &&
        outbox == old(outbox) +
          (if s.emitted.Some?
           then [UpdateReadingProgress(ReadingProgressParams(ItemId(params), s.emitted.value, currentPageIndex))]
           else [])
    {
      var percent := PagePercent(currentPageIndex, totalPages);
      if percent.Some? && percent.value > currentReadingProgress {
        currentReadingProgress := percent.value;
        outbox := outbox + [UpdateReadingProgress(ReadingProgressParams(ItemId(params), percent.value, currentPageIndex))];
      }
    }

    /**
     * A newly drawn highlight. Without a loaded document nothing happens. Otherwise
     * its custom data becomes the highlight metadata, and one create (no overlaps)
     * or merge (overlaps) request is sent with the fresh ids, taken from the two
     * injected UUIDs.
     */
    method SyncHighlightUpdates(newAnnotation: Annotation, quote: string, overlapIds: seq<string>,
                                highlightUuid: string, shortUuid: string)
      requires IsUuidText(shortUuid)
      modifies newAnnotation, this`outbox
      ensures params.None? ==> newAnnotation.customData == old(newAnnotation.customData) && outbox == old(outbox)
      ensures params.Some? ==>
        newAnnotation.customData == HighlightCustomData(highlightUuid, ShortIdOf(shortUuid), quote, params.value.itemId) &&
        outbox == old(outbox) + [HighlightRequest(params.value.itemId, highlightUuid, ShortIdOf(shortUuid), quote,
                                                  overlapIds, ToInstantJson(newAnnotation))]
    {
      if params.None? {
        return;
      }
      var itemId := params.value.itemId;
      var highlightId := highlightUuid;
      var shortId := ShortIdOf(shortUuid);
      newAnnotation.customData := HighlightCustomData(highlightId, shortId, quote, itemId);
      outbox := outbox + [HighlightRequest(itemId, highlightId, shortId, quote, overlapIds, ToInstantJson(newAnnotation))];
    }

    /** Records a note locally in the annotation's highlight metadata; nothing is sent. */
    method UpdateHighlightNote(annotation: Annotation, note: string) returns (r: Result<()>)
      modifies annotation
      ensures var u := NoteUpdated(old(annotation.customData), note);
        (u.Ok? ==> r.Ok? && annotation.customData == u.value) &&
        (u.JSONException? ==> r == JSONException(u.missingKey) && annotation.customData == old(annotation.customData))
    {
      var customData := annotation.customData;
      if customData.None? {
        return Ok(());
      }
      if HighlightKey !in customData.value {
        return JSONException(HighlightKey);
      }
      r := Ok(());
      match customData.value[HighlightKey]
      case JObject(highlight) =>
        var edited := highlight[EditedNoteKey := JString(note)];
        annotation.customData := Some(map[HighlightKey := JObject(edited)]);
      case _ =>
    }

    /** Sends a delete of the annotation's highlight id, when it has one. */
    method DeleteHighlight(annotation: Annotation) returns (r: Result<()>)
      modifies this`outbox
      ensures var d := DeleteRequests(annotation.customData);
        (d.Ok? ==> r.Ok? && outbox == old(outbox) + d.value) &&
        (d.JSONException? ==> r == JSONException(d.missingKey) && outbox == old(outbox))
    {
      var highlightId := PluckHighlightID(annotation.customData);
      match highlightId
      case JSONException(key) =>
        return JSONException(key);
      case Ok(None) =>
        return Ok(());
      case Ok(Some(id)) =>
        outbox := outbox + [DeleteHighlights([id])];
        return Ok(());
    }

    /** The existing annotations that overlap the new one, in their original order. */
    method OverlappingAnnotations(newAnnotation: Annotation, existingAnnotations: seq<Annotation>)
      returns (result: seq<Annotation>)
      ensures result == OverlapFilter(newAnnotation, existingAnnotations)
      ensures forall a :: a in result <==> a in existingAnnotations && AnnotationsOverlap(newAnnotation, a)
      ensures IsSubsequence(result, existingAnnotations)
    {
      result := [];
      var i := 0;
      while i < |existingAnnotations|
        invariant 0 <= i <= |existingAnnotations|
        invariant result == OverlapFilter(newAnnotation, existingAnnotations[..i])
      {
        var existing := existingAnnotations[i];
        var overlaps := HasOverlaps(newAnnotation, existing);
        OverlapFilterAppend(newAnnotation, existingAnnotations[..i], existing);
        assert existingAnnotations[..i + 1] == existingAnnotations[..i] + [existing];
        if overlaps {
          result := result + [existing];
        }
        i := i + 1;
      }
      assert existingAnnotations[..i] == existingAnnotations;
      OverlapFilterMembers(newAnnotation, existingAnnotations);
      OverlapFilterIsSubsequence(newAnnotation, existingAnnotations);
    }

    /**
     * Whether some rectangle of `rightAnnotation` intersects some rectangle of
     * `leftAnnotation`; an annotation that is not a highlight has no rectangles.
     */
    method HasOverlaps(leftAnnotation: Annotation, rightAnnotation: Annotation) returns (r: bool)
      ensures r <==> AnnotationsOverlap(leftAnnotation, rightAnnotation)
      ensures HighlightRects(leftAnnotation) == [] || HighlightRects(rightAnnotation) == [] ==> !r
    {
      var leftRects := HighlightRects(leftAnnotation);
      var rightRects := HighlightRects(rightAnnotation);
      var i := 0;
      while i < |leftRects|
        invariant 0 <= i <= |leftRects|
        invariant forall a, b :: 0 <= a < i && 0 <= b < |rightRects| ==> !Intersects(rightRects[b], leftRects[a])
      {
        var j := 0;
        while j < |rightRects|
          invariant 0 <= j <= |rightRects|
          invariant forall b :: 0 <= b < j ==> !Intersects(rightRects[b], leftRects[i])
        {
          if Intersects(rightRects[j], leftRects[i]) {
            return true;
          }
          j := j + 1;
        }
        i := i + 1;
      }
      return false;
    }
  }
}
