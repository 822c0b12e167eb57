/**
  The value record a cursor query produces, the capability contract of the
  scene objects that can be hit, and the rule by which the controller picks
  one of their answers.
 */
module Selections {
  import opened Wrappers
  import opened Geometry

  /**
    A 4x4 orientation matrix, kept as its sixteen entries in column order.
    Its contents are produced by rendering code that is not modelled, so no
    property of it is relied on.
   */
  datatype Mat4 = Mat4(entries: seq<real>)

  const Identity: Mat4 := Mat4([1.0, 0.0, 0.0, 0.0,  0.0, 1.0, 0.0, 0.0,  0.0, 0.0, 1.0, 0.0,  0.0, 0.0, 0.0, 1.0])

  /** A non-owning reference to a scene object that can be hit by the cursor ray. */
  datatype SelectableRef = SelectableRef(id: nat)

  /**
    The resolved cursor: world position, surface normal, glyph orientation,
    the object selected (None when no real object was hit) and the hit distance
    along the ray. A distance below zero means "no selection".
   */
  datatype Selection = Selection(
    pos: Vec3,
    normal: Vec3,
    rotationMatrix: Mat4,
    selected: Option<SelectableRef>,
    distance: real)

  /**
    Every scene object's intersection test, as one function of the object,
    the ray origin and the ray direction. The objects themselves are foreign
    code; only their answers are modelled.
   */
  type Scene = (SelectableRef, Vec3, Vec3) -> Selection

  /** The object's own contract: a negative distance reports that the ray missed it. */
  predicate NoSelection(s: Selection) {
    s.distance < 0.0
  }

  /** What the controller accepts as a hit: a strictly positive distance (so distance 0 is ignored too). */
  predicate IsHit(s: Selection) {
    s.distance > 0.0
  }

  /** The answers of the objects, in list order, for one ray. */
  function Results(scene: Scene, objects: seq<SelectableRef>, origin: Vec3, direction: Vec3): (rs: seq<Selection>)
    ensures |rs| == |objects|
    ensures forall j :: 0 <= j < |objects| ==> rs[j] == scene(objects[j], origin, direction)
  {
    seq(|objects|, j requires 0 <= j < |objects| => scene(objects[j], origin, direction))
  }

  /** No answer in `rs` is a hit. */
  predicate NoHit(rs: seq<Selection>) {
    forall j :: 0 <= j < |rs| ==> !IsHit(rs[j])
  }

  /**
    `k` is the answer the controller keeps: a hit whose distance is no larger
    than that of any other hit, and strictly smaller than that of every earlier
    hit, so that among equally close hits the first in list order wins.
   */
  predicate IsClosest(rs: seq<Selection>, k: nat) {
    && k < |rs|
    && IsHit(rs[k])
    && (forall j :: 0 <= j < |rs| && IsHit(rs[j]) ==> rs[k].distance <= rs[j].distance)
    && (forall j :: 0 <= j < k && IsHit(rs[j]) ==> rs[k].distance < rs[j].distance)
  }

  /**
    Reference definition of the pick: the closest hit of all but the last
    answer, replaced by the last answer when that is a hit strictly closer.
   */
  function Closest(rs: seq<Selection>): (r: Option<nat>)
    ensures r.None? <==> NoHit(rs)
    ensures r.Some? ==> IsClosest(rs, r.value)
  {
    if |rs| == 0 then None
    else
      var front := rs[..|rs| - 1];
      var last := |rs| - 1;
      var best := Closest(front);
      assert forall j :: 0 <= j < last ==> front[j] == rs[j];
      if IsHit(rs[last]) && (best.None? || rs[last].distance < rs[best.value].distance) then Some(last)
      else best
  }

  /** At most one index satisfies IsClosest, so the pick is fully determined by the answers. */
  lemma ClosestIsUnique(rs: seq<Selection>, a: nat, b: nat)
    requires IsClosest(rs, a) && IsClosest(rs, b)
    ensures a == b
  {
  }

  /** Closest is the only index meeting the characterisation. */
  lemma ClosestCharacterised(rs: seq<Selection>, k: nat)
    requires IsClosest(rs, k)
    ensures Closest(rs) == Some(k)
  {
    ClosestIsUnique(rs, Closest(rs).value, k);
  }

  /** An answer that is not a hit, appended after the others, does not change the pick. */
  lemma MissesDoNotMatter(rs: seq<Selection>, miss: Selection)
    requires !IsHit(miss)
    ensures Closest(rs + [miss]) == Closest(rs)
  {
    var ext := rs + [miss];
    assert ext[..|ext| - 1] == rs;
  }
}
