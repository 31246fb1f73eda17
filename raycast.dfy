/**
 * The result of a three.js ray cast, taken as an input: the intersected
 * objects with their distance along the ray, nearest first.
 */
module Raycast {
  import opened Wrappers

  datatype Intersection<T> = Intersection(distance: real, target: T)

  /** What `Raycaster.intersectObjects` guarantees about its result. */
  ghost predicate SortedByDistance<T>(hits: seq<Intersection<T>>) {
    forall i, j :: 0 <= i < j < |hits| ==> hits[i].distance <= hits[j].distance
  }

  /** The object a handler acts on: the first intersection, if any. */
  function FirstHit<T>(hits: seq<Intersection<T>>): (r: Option<T>)
    ensures r.None? <==> |hits| == 0
    ensures r.Some? ==> exists i :: 0 <= i < |hits| && hits[i].target == r.value
    ensures |hits| > 0 ==> r == Some(hits[0].target)
  {
    if |hits| > 0 then Some(hits[0].target) else None
  }

  /** When the hits come nearest first, the chosen object is at least as near
      as every other hit, whatever order the objects were registered in. */
  lemma FirstHitIsNearest<T>(hits: seq<Intersection<T>>)
    requires SortedByDistance(hits) && |hits| > 0
    ensures exists i :: 0 <= i < |hits| && Some(hits[i].target) == FirstHit(hits) &&
                        forall j :: 0 <= j < |hits| ==> hits[i].distance <= hits[j].distance
  {
    assert forall j :: 0 <= j < |hits| ==> hits[0].distance <= hits[j].distance;
    assert Some(hits[0].target) == FirstHit(hits);
  }
}
