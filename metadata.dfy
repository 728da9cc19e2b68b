/**
 * The `omnivoreHighlight` metadata the view-model keeps in an annotation's
 * custom data, and the lookups that read it back.
 */
module Metadata {
  import opened Prelude
  import opened Annotations

  const HighlightKey := "omnivoreHighlight"
  const IdKey := "id"
  const ShortIdKey := "shortId"
  const QuoteKey := "quote"
  const ArticleIdKey := "articleId"
  const EditedNoteKey := "editedNote"

  /**
   * The outcome of a lookup: a value, or the JSONException that `JSONObject.get`
   * throws when the key it asks for is absent.
   */
  datatype Result<+T> = Ok(value: T) | JSONException(missingKey: string)

  /** A highlight as the server returned it when the document was loaded. */
  datatype Highlight = Highlight(id: string, shortId: string, quote: string, annotation: Option<string>)

  /** The loaded document: the item's id and the highlights fetched with it. */
  datatype ReaderParams = ReaderParams(itemId: string, highlights: seq<Highlight>)

  /** `params?.item?.id`. */
  function ItemId(params: Option<ReaderParams>): (id: Option<string>)
    ensures id.Some? <==> params.Some?
    ensures params.Some? ==> id == Some(params.value.itemId)
  {
    if params.Some? then Some(params.value.itemId) else None
  }

  /**
   * `customData?.opt("omnivoreHighlight") as? JSONObject`: the highlight object,
   * or null when there is no custom data, no such key, or a value of another kind.
   */
  function HighlightObject(customData: CustomData): (obj: Option<map<string, Json>>)
    ensures obj.Some? ==> customData.Some? && HighlightKey in customData.value &&
                          customData.value[HighlightKey] == JObject(obj.value)
    ensures obj.None? ==> customData.None? || HighlightKey !in customData.value || !customData.value[HighlightKey].JObject?
  {
    if customData.Some? && HighlightKey in customData.value && customData.value[HighlightKey].JObject?
    then Some(customData.value[HighlightKey].fields)
    else None
  }

  /** `opt(key) as? String`: the string under `key`, or null. */
  function StringAt(obj: map<string, Json>, key: string): Option<string>
  {
    if key in obj && obj[key].JString? then Some(obj[key].str) else None
  }

  /** The custom data written for a new highlight: the four identifying keys and no note. */
  function HighlightCustomData(id: string, shortId: string, quote: string, articleId: string): (cd: CustomData)
    ensures cd.Some? && cd.value.Keys == {HighlightKey}
    ensures HighlightObject(cd).Some? && HighlightObject(cd).value.Keys == {IdKey, ShortIdKey, QuoteKey, ArticleIdKey}
    ensures StringAt(HighlightObject(cd).value, IdKey) == Some(id)
    ensures StringAt(HighlightObject(cd).value, ShortIdKey) == Some(shortId)
    ensures StringAt(HighlightObject(cd).value, QuoteKey) == Some(quote)
    ensures StringAt(HighlightObject(cd).value, ArticleIdKey) == Some(articleId)
  {
    Some(map[HighlightKey := JObject(map[IdKey := JString(id), ShortIdKey := JString(shortId),
                                         QuoteKey := JString(quote), ArticleIdKey := JString(articleId)])])
  }

  /**
   * pluckHighlightID: `customData?.get("omnivoreHighlight") as? JSONObject`, then
   * `get("id") as? String`. Both `get` calls throw when their key is absent.
   */
  function PluckHighlightID(customData: CustomData): (r: Result<Option<string>>)
    ensures customData.None? ==> r == Ok(None)
    ensures customData.Some? && HighlightKey !in customData.value ==> r == JSONException(HighlightKey)
    ensures r.JSONException? ==> customData.Some?
    ensures r.Ok? && r.value.Some? <==> HighlightObject(customData).Some? && StringAt(HighlightObject(customData).value, IdKey).Some?
    ensures r.Ok? && r.value.Some? ==> r.value == StringAt(HighlightObject(customData).value, IdKey)
    ensures r == JSONException(IdKey) <==> HighlightObject(customData).Some? && IdKey !in HighlightObject(customData).value
    ensures r.JSONException? <==>
              customData.Some? &&
              (HighlightKey !in customData.value ||
               (HighlightObject(customData).Some? && IdKey !in HighlightObject(customData).value))
    ensures r.Ok? ==>
      r.value == (if HighlightObject(customData).Some? then StringAt(HighlightObject(customData).value, IdKey) else None)
  {
    if customData.None? then Ok(None)
    else if HighlightKey !in customData.value then JSONException(HighlightKey)
    else match customData.value[HighlightKey]
      case JObject(obj) =>
        if IdKey !in obj then JSONException(IdKey)
        else Ok(StringAt(obj, IdKey))
      case _ => Ok(None)
  }

  /**
   * `highlights.firstOrNull { it.shortId == shortId }`, as the index of the
   * first highlight with that short id.
   */
  function FirstWithShortId(highlights: seq<Highlight>, shortId: string): (k: Option<nat>)
    ensures k.Some? ==> k.value < |highlights| && highlights[k.value].shortId == shortId
    ensures k.Some? ==> forall j :: 0 <= j < k.value ==> highlights[j].shortId != shortId
    ensures k.None? ==> forall j :: 0 <= j < |highlights| ==> highlights[j].shortId != shortId
  {
    if highlights == [] then None
    else if highlights[0].shortId == shortId then Some(0)
    else
      var rest := FirstWithShortId(highlights[1..], shortId);
      if rest.Some? then Some(rest.value + 1) else None
  }

  /**
   * pluckExistingNote: the locally edited note when there is one; otherwise the
   * note of the first fetched highlight that shares the annotation's short id.
   * `get("shortId")` throws when the key is absent.
   */
  function PluckExistingNote(customData: CustomData, params: Option<ReaderParams>): (r: Result<Option<string>>)
    ensures HighlightObject(customData).None? ==> r == Ok(None)
    ensures HighlightObject(customData).Some? && StringAt(HighlightObject(customData).value, EditedNoteKey).Some? ==>
              r == Ok(StringAt(HighlightObject(customData).value, EditedNoteKey))
    ensures r.JSONException? <==>
              HighlightObject(customData).Some? && StringAt(HighlightObject(customData).value, EditedNoteKey).None? &&
              ShortIdKey !in HighlightObject(customData).value
    ensures r.JSONException? ==> r.missingKey == ShortIdKey
    ensures (HighlightObject(customData).Some? && StringAt(HighlightObject(customData).value, EditedNoteKey).None? &&
             ShortIdKey in HighlightObject(customData).value &&
             StringAt(HighlightObject(customData).value, ShortIdKey).None?) ==> r == Ok(None)
  {
    match HighlightObject(customData)
    case None => Ok(None)
    case Some(obj) =>
      var editedNote := StringAt(obj, EditedNoteKey);
      if editedNote.Some? then Ok(editedNote)
      else if ShortIdKey !in obj then JSONException(ShortIdKey)
      else if !obj[ShortIdKey].JString? then Ok(None)
      else if params.None? then Ok(None)
      else
        var matching := FirstWithShortId(params.value.highlights, obj[ShortIdKey].str);
        if matching.Some? then Ok(params.value.highlights[matching.value].annotation) else Ok(None)
  }

  /**
   * Without a local note, the note comes from the first fetched highlight that
   * has the annotation's short id.
   */
  lemma NoteFallbackFirstMatch(customData: CustomData, params: Option<ReaderParams>, shortId: string, k: nat)
    requires HighlightObject(customData).Some?
    requires StringAt(HighlightObject(customData).value, EditedNoteKey).None?
    requires StringAt(HighlightObject(customData).value, ShortIdKey) == Some(shortId)
    requires params.Some? && k < |params.value.highlights| && params.value.highlights[k].shortId == shortId
    requires forall j :: 0 <= j < k ==> params.value.highlights[j].shortId != shortId
    ensures PluckExistingNote(customData, params) == Ok(params.value.highlights[k].annotation)
  {
  }

  /**
   * Without a local note, and with no document loaded or no fetched highlight
   * sharing the annotation's short id, there is no note.
   */
  lemma NoteFallbackNoMatch(customData: CustomData, params: Option<ReaderParams>, shortId: string)
    requires HighlightObject(customData).Some?
    requires StringAt(HighlightObject(customData).value, EditedNoteKey).None?
    requires StringAt(HighlightObject(customData).value, ShortIdKey) == Some(shortId)
    requires params.Some? ==> forall j :: 0 <= j < |params.value.highlights| ==> params.value.highlights[j].shortId != shortId
    ensures PluckExistingNote(customData, params) == Ok(None)
  {
  }

  /**
   * The custom data after updateHighlightNote: `editedNote` is put into the
   * highlight object, which is written back as the only top-level key. Without a
   * highlight object nothing changes; a missing `omnivoreHighlight` key throws.
   */
  function NoteUpdated(customData: CustomData, note: string): (r: Result<CustomData>)
    ensures r.JSONException? <==> customData.Some? && HighlightKey !in customData.value
    ensures r.JSONException? ==> r.missingKey == HighlightKey
    ensures r.Ok? && HighlightObject(customData).None? ==> r.value == customData
    ensures HighlightObject(customData).Some? ==>
      r.Ok? && r.value.Some? && r.value.value.Keys == {HighlightKey} && HighlightObject(r.value).Some? &&
      var before, after := HighlightObject(customData).value, HighlightObject(r.value).value;
      after.Keys == before.Keys + {EditedNoteKey} &&
      StringAt(after, EditedNoteKey) == Some(note) &&
      forall key :: key in before && key != EditedNoteKey ==> after[key] == before[key]
  {
    if customData.None? then Ok(customData)
    else if HighlightKey !in customData.value then JSONException(HighlightKey)
    else match customData.value[HighlightKey]
      case JObject(obj) =>
        Ok(Some(map[HighlightKey := JObject(obj[EditedNoteKey := JString(note)])]))
      case _ => Ok(customData)
  }

  /**
   * The metadata written for a new highlight reads back as written: exactly the
   * four identifying keys, no edited note, and the id that was sent.
   */
  lemma HighlightMetadataRoundTrip(id: string, shortId: string, quote: string, articleId: string)
    ensures var cd := HighlightCustomData(id, shortId, quote, articleId);
      HighlightObject(cd).Some? &&
      HighlightObject(cd).value.Keys == {IdKey, ShortIdKey, QuoteKey, ArticleIdKey} &&
      StringAt(HighlightObject(cd).value, EditedNoteKey).None? &&
      StringAt(HighlightObject(cd).value, ShortIdKey) == Some(shortId) &&
      StringAt(HighlightObject(cd).value, QuoteKey) == Some(quote) &&
      StringAt(HighlightObject(cd).value, ArticleIdKey) == Some(articleId) &&
      PluckHighlightID(cd) == Ok(Some(id))
  {
  }

  /**
   * After a note update on an annotation that has highlight metadata, the note
   * reads back as its existing note, and its highlight id is unchanged.
   */
  lemma NoteRoundTrip(customData: CustomData, note: string, params: Option<ReaderParams>)
    requires HighlightObject(customData).Some?
    ensures NoteUpdated(customData, note).Ok?
    ensures PluckExistingNote(NoteUpdated(customData, note).value, params) == Ok(Some(note))
    ensures PluckHighlightID(NoteUpdated(customData, note).value) == PluckHighlightID(customData)
  {
  }
}
