/**
  The ViewpointCursor controller: it accumulates relative 2D input into a 2D
  offset and, on demand, resolves that offset into a 3D cursor by casting a
  ray from the user's viewpoint against the caller's scene objects, falling
  back to a plane ahead of the user. Every method is proved to change the
  fields exactly as the matching transition of module CursorSpec says.
 */
module Controller {
  import opened Wrappers
  import opened Geometry
  import opened Selections
  import opened CursorSpec

  /**
    The selection loop of getCursor: ask every object in turn and keep the
    answer with the smallest strictly positive distance, replacing the current
    one only when strictly closer, so the first of equally close hits stays.
   */
  method ClosestSelectable(scene: Scene, objects: seq<SelectableRef>, origin: Vec3, direction: Vec3)
    returns (closest: Option<nat>, intersection: Selection)
    ensures closest.None? <==> NoHit(Results(scene, objects, origin, direction))
    ensures closest.Some? ==> IsClosest(Results(scene, objects, origin, direction), closest.value)
    ensures closest.Some? ==> intersection == scene(objects[closest.value], origin, direction)
  {
    ghost var rs := Results(scene, objects, origin, direction);
    closest := None;
    intersection := Unresolved;
    var i := 0;
    while i < |objects|
      invariant 0 <= i <= |objects|
      invariant closest.None? <==> NoHit(rs[..i])
      invariant closest.Some? ==> IsClosest(rs[..i], closest.value) && intersection == rs[closest.value]
    {
      var answer := scene(objects[i], origin, direction);
      assert rs[..i + 1] == rs[..i] + [answer];
      if answer.distance > 0.0 && (closest.None? || answer.distance < intersection.distance) {
        closest := Some(i);
        intersection := answer;
      }
      i := i + 1;
    }
    assert rs[..i] == rs;
  }

  class ViewpointCursor {
    /** The pose-dependent geometry helpers this controller relies on. */
    const optics: Optics

    /** Accumulated offset of the pointing device, in device units. */
    var cursor2D: Vec2
    /** World-space point the cursor was last resolved to. */
    var cursor3D: Vec3
    /** Normal of the surface under cursor3D. */
    var cursorNormal: Vec3
    /** Where the last back-projection ray met the reference plane. */
    var backCursor: Vec3
    /** Anchor of the reference plane, as the last reverse update placed it. */
    var planePos: Vec3
    /** How far ahead of the user the reference plane sits. */
    var planeDistance: real
    /** Whether Y input is used as given or negated. */
    var mode: MouseMode
    /** Factor applied to every input delta. */
    var mouseScale: real
    /** Set by input, cleared when the cursor is resolved. */
    var updatePending: bool
    /** World-space viewpoint of the user. */
    var userPos: Vec3
    /** World-space direction of the user's gaze. */
    var viewDirection: Vec3
    /** Becomes true the first time the cursor lands somewhere, and stays so. */
    var cursorPlaced: bool
    /** The Selection the last resolution produced, served while nothing is pending. */
    var last: Selection

    /** All fields as one value. */
    function State(): CursorState
      reads this
    {
      CursorState(cursor2D, cursor3D, cursorNormal, backCursor, planePos, planeDistance, mode,
                  mouseScale, updatePending, userPos, viewDirection, cursorPlaced, last)
    }

    constructor (optics: Optics, inputScale: real := 1.0, mode: MouseMode := Normal)
      ensures this.optics == optics
      ensures State() == Initial(inputScale, mode)
      ensures planeDistance == 10000.0 && mouseScale == inputScale && this.mode == mode
      ensures !updatePending && !cursorPlaced
    {
      this.optics := optics;
      cursor2D := Zero2;
      cursor3D := Zero3;
      cursorNormal := Zero3;
      backCursor := Zero3;
      planePos := Zero3;
      planeDistance := DefaultPlaneDistance;
      this.mode := mode;
      mouseScale := inputScale;
      updatePending := false;
      userPos := Zero3;
      viewDirection := Zero3;
      cursorPlaced := false;
      last := Unresolved;
    }

    /** Move the cursor by relative 2D input. */
    method MoveCursor(dx: real, dy: real)
      modifies this
      ensures State() == Moved(old(State()), dx, dy)
    {
      cursor2D := cursor2D.(x := cursor2D.x + dx * mouseScale);
      if mode == InvertY {
        cursor2D := cursor2D.(y := cursor2D.y - dy * mouseScale);
      } else {
        cursor2D := cursor2D.(y := cursor2D.y + dy * mouseScale);
      }
      updatePending := true;
    }

    /** Resolve the cursor against the given objects if input is pending, and return the current Selection. */
    method GetCursor(scene: Scene, objects: seq<SelectableRef>) returns (selection: Selection)
      modifies this
      ensures State() == Resolved(old(State()), optics, scene, objects)
      ensures selection == last
    {
      if updatePending {
        var p := userPos;
        var d := optics.cursorDirection(cursor2D, userPos, viewDirection);
        ghost var rs := Answers(State(), optics, scene, objects);
        ghost var before := State();
        var closest, closestIntersection := ClosestSelectable(scene, objects, p, d);
        updatePending := false;

        if closest.Some? {
          ClosestCharacterised(rs, closest.value);
          cursorPlaced := true;
          cursor3D := closestIntersection.pos;
          cursorNormal := closestIntersection.normal;
          last := closestIntersection.(rotationMatrix := optics.cursorRotation(cursorNormal),
                                       selected := Some(objects[closest.value]));
        } else {
          var userDirection := viewDirection;
          var plane := Plane(Add(p, Scale(userDirection, planeDistance)), userDirection);
          assert plane == ReferencePlane(before);
          var ip := Intersect(plane, p, d);
          if ip.Intersects? {
            cursorPlaced := true;
            cursor3D := ip.point;
            cursorNormal := Neg(userDirection);
            last := Selection(cursor3D, cursorNormal, optics.cursorRotation(cursorNormal), None, MaxFloat);
          }
        }
      }
      selection := last;
    }

    /** Record the user's viewpoint position and re-derive the 2D offset. */
    method SetUserPosition(position: Vec3)
      modifies this
      ensures State() == WithUserPosition(old(State()), optics, position)
    {
      userPos := position;
      ReverseUpdate();
    }

    /** Record the user's view direction and re-derive the 2D offset. */
    method SetViewDirection(direction: Vec3)
      modifies this
      ensures State() == WithViewDirection(old(State()), optics, direction)
    {
      viewDirection := direction;
      ReverseUpdate();
    }

    /** Re-derive the 2D offset that points at the last 3D cursor from the current pose. */
    method ReverseUpdate()
      modifies this
      ensures State() == Reprojected(old(State()), optics)
    {
      var d := optics.normalize(Sub(cursor3D, userPos));
      planePos := Add(userPos, Scale(viewDirection, planeDistance));
      var plane := Plane(planePos, viewDirection);
      var i := Intersect(plane, userPos, d);
      if i.Intersects? {
        backCursor := i.point;
        cursor2D := optics.toLocal(userPos, viewDirection, backCursor);
      }
    }
  }
}
