/** What the overlap query of the view-model answers, stated over values. */
module Overlap {
  import opened Geometry
  import opened Annotations

  /** hasOverlaps: some rectangle of the right annotation intersects some rectangle of the left one. */
  predicate AnnotationsOverlap(left: Annotation, right: Annotation)
  {
    RectSetsOverlap(HighlightRects(left), HighlightRects(right))
  }

  /** The annotations of `existing` that overlap `candidate`, in their original order. */
  ghost function OverlapFilter(candidate: Annotation, existing: seq<Annotation>): seq<Annotation>
  {
    if existing == [] then []
    else (if AnnotationsOverlap(candidate, existing[0]) then [existing[0]] else []) + OverlapFilter(candidate, existing[1..])
  }

  /** Filtering one more annotation appends it exactly when it overlaps. */
  lemma {:induction false} OverlapFilterAppend(candidate: Annotation, existing: seq<Annotation>, next: Annotation)
    ensures OverlapFilter(candidate, existing + [next]) ==
            OverlapFilter(candidate, existing) + (if AnnotationsOverlap(candidate, next) then [next] else [])
  {
    if existing != [] {
      assert (existing + [next])[1..] == existing[1..] + [next];
      OverlapFilterAppend(candidate, existing[1..], next);
    } else {
      assert existing + [next] == [next];
    }
  }

  /** An annotation is kept iff it is one of `existing` and overlaps the candidate. */
  lemma {:induction false} OverlapFilterMembers(candidate: Annotation, existing: seq<Annotation>)
    ensures forall a :: a in OverlapFilter(candidate, existing) <==> a in existing && AnnotationsOverlap(candidate, a)
  {
    if existing != [] {
      OverlapFilterMembers(candidate, existing[1..]);
      assert existing == [existing[0]] + existing[1..];
    }
  }

  /** `sub` is `s` with some elements left out and the rest in their order. */
  predicate IsSubsequence<T(==)>(sub: seq<T>, s: seq<T>)
    decreases |s|
  {
    sub == [] ||
    (s != [] && ((sub[0] == s[0] && IsSubsequence(sub[1..], s[1..])) || IsSubsequence(sub, s[1..])))
  }

  lemma {:induction false} OverlapFilterIsSubsequence(candidate: Annotation, existing: seq<Annotation>)
    ensures IsSubsequence(OverlapFilter(candidate, existing), existing)
    decreases |existing|
  {
    if existing != [] {
      OverlapFilterIsSubsequence(candidate, existing[1..]);
      var rest := OverlapFilter(candidate, existing[1..]);
      if AnnotationsOverlap(candidate, existing[0]) {
        assert OverlapFilter(candidate, existing) == [existing[0]] + rest;
        assert ([existing[0]] + rest)[1..] == rest;
      } else {
        assert OverlapFilter(candidate, existing) == rest;
      }
    }
  }

  /** A candidate without rectangles overlaps nothing. */
  lemma {:induction false} NoRectsNoOverlaps(candidate: Annotation, existing: seq<Annotation>)
    requires HighlightRects(candidate) == []
    ensures OverlapFilter(candidate, existing) == []
  {
    if existing != [] {
      NoRectsNoOverlap(HighlightRects(candidate), HighlightRects(existing[0]));
      NoRectsNoOverlaps(candidate, existing[1..]);
    }
  }
}
