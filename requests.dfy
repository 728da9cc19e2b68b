/** The network requests the view-model fires off, as records put in an outbox. */
module Requests {
  import opened Prelude
  import opened Annotations
  import opened Metadata

  datatype ReadingProgressParams =
    ReadingProgressParams(id: Option<string>, readingProgressPercent: real, readingProgressAnchorIndex: int32)

  datatype CreateHighlightInput =
    CreateHighlightInput(annotation: Option<string>, articleId: string, id: string, patch: Patch, quote: string, shortId: string)

  datatype MergeHighlightInput =
    MergeHighlightInput(annotation: Option<string>, articleId: string, id: string, overlapHighlightIdList: seq<string>,
                        patch: Patch, quote: string, shortId: string)

  datatype Request =
    | UpdateReadingProgress(progress: ReadingProgressParams)
    | CreateHighlight(create: CreateHighlightInput)
    | MergeHighlights(merge: MergeHighlightInput)
    | DeleteHighlights(highlightIds: seq<string>)

  /**
   * The record sent for a new highlight: a merge when it overlaps existing
   * highlights, carrying their ids as given, and a create otherwise. Either way
   * it carries the new highlight's own ids, its quote and no note.
   */
  function HighlightRequest(articleId: string, id: string, shortId: string, quote: string,
                            overlapIds: seq<string>, patch: Patch): (r: Request)
    ensures r.MergeHighlights? <==> |overlapIds| > 0
    ensures r.CreateHighlight? <==> |overlapIds| == 0
    ensures r.MergeHighlights? ==>
      r.merge.overlapHighlightIdList == overlapIds &&
      r.merge.id == id && r.merge.shortId == shortId && r.merge.quote == quote &&
      r.merge.articleId == articleId && r.merge.patch == patch && r.merge.annotation.None?
    ensures r.CreateHighlight? ==>
      r.create.id == id && r.create.shortId == shortId && r.create.quote == quote &&
      r.create.articleId == articleId && r.create.patch == patch && r.create.annotation.None?
  {
    if |overlapIds| > 0 then
      MergeHighlights(MergeHighlightInput(None, articleId, id, overlapIds, patch, quote, shortId))
    else
      CreateHighlight(CreateHighlightInput(None, articleId, id, patch, quote, shortId))
  }

  /**
   * The requests deleteHighlight sends: one delete of the annotation's highlight
   * id, none when it has no id, and the exception when reading the id throws.
   */
  function DeleteRequests(customData: CustomData): (r: Result<seq<Request>>)
    ensures r.JSONException? <==> PluckHighlightID(customData).JSONException?
    ensures r.JSONException? ==> r.missingKey == PluckHighlightID(customData).missingKey
    ensures r.Ok? ==> |r.value| <= 1
    ensures r.Ok? && r.value == [] <==> PluckHighlightID(customData) == Ok(None)
    ensures forall id :: PluckHighlightID(customData) == Ok(Some(id)) ==> r == Ok([DeleteHighlights([id])])
  {
    match PluckHighlightID(customData)
    case JSONException(key) => JSONException(key)
    case Ok(None) => Ok([])
    case Ok(Some(id)) => Ok([DeleteHighlights([id])])
  }

  /**
   * For a new highlight, the id its metadata holds is the id the create or merge
   * record carries, and deleting it later sends a delete of exactly that id.
   */
  lemma HighlightIdentityRoundTrip(articleId: string, id: string, shortId: string, quote: string,
                                   overlapIds: seq<string>, patch: Patch)
    ensures var cd := HighlightCustomData(id, shortId, quote, articleId);
      var r := HighlightRequest(articleId, id, shortId, quote, overlapIds, patch);
      PluckHighlightID(cd) == Ok(Some(if r.MergeHighlights? then r.merge.id else r.create.id)) &&
      DeleteRequests(cd) == Ok([DeleteHighlights([id])])
  {
  }
}
