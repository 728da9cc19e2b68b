/** The rendering layer's annotation object and the JSON metadata it carries. */
module Annotations {
  import opened Prelude
  import opened Geometry

  /** The JSON values the metadata holds: strings, objects, and anything else. */
  datatype Json = JString(str: string) | JObject(fields: map<string, Json>) | JOther

  /** An annotation's `customData`: a JSON object, or null. */
  type CustomData = Option<map<string, Json>>

  /**
   * An annotation drawn by the rendering layer. Its kind and rectangles are fixed;
   * its custom data is overwritten in place by the view-model.
   */
  class Annotation {
    const isHighlight: bool
    const rects: seq<Rect>
    var customData: CustomData

    constructor (isHighlight: bool, rects: seq<Rect>, customData: CustomData)
      ensures this.isHighlight == isHighlight && this.rects == rects
      ensures this.customData == customData
    {
      this.isHighlight := isHighlight;
      this.rects := rects;
      this.customData := customData;
    }
  }

  /** `(annotation as? HighlightAnnotation)?.rects ?: listOf()`. */
  function HighlightRects(a: Annotation): (rs: seq<Rect>)
    ensures !a.isHighlight ==> rs == []
    ensures a.isHighlight ==> rs == a.rects
  {
    if a.isHighlight then a.rects else []
  }

  /**
   * The serialised annotation sent as a highlight's patch. Its format belongs to
   * the rendering toolkit; the model keeps the state it is taken from.
   */
  datatype Patch = InstantJson(isHighlight: bool, rects: seq<Rect>, customData: CustomData)

  function ToInstantJson(a: Annotation): (p: Patch)
    reads a
    ensures p.isHighlight == a.isHighlight && p.rects == a.rects && p.customData == a.customData
  {
    InstantJson(a.isHighlight, a.rects, a.customData)
  }
}
