/** The road: an append-only chain of segments laid along z from the manager's
    origin, a cursor at which the next segment goes, a cap on extensions and an
    animated extension that cannot be re-entered. The fade-in of the initial
    segments and the animated extension are coroutines, advanced here by `Tick`. */
module Road {
  import opened Tween
  import opened Format

  /** Length of the scale-up of each initial segment, in seconds. */
  const InitialFadeDuration: real := 3.0

  /** The name of the n-th segment created since the last clear. */
  function SegmentName(n: nat): seq<char>
  {
    "RoadSegment_" + D3(n)
  }

  /** Distinct counters give distinct segment names. */
  lemma SegmentNameInjective(a: nat, b: nat)
    requires SegmentName(a) == SegmentName(b)
    ensures a == b
  {
    CounterNameInjective("RoadSegment_", a, b);
  }

  /** Total length of a road of `count` segments. */
  function RoadLength(count: nat, segmentLength: real): real
  {
    count as real * segmentLength
  }

  /** Centre of the road: the origin when there is no segment, otherwise half the
      total length along z from the origin. */
  function RoadCenter(origin: Vec3, count: nat, segmentLength: real): Vec3
  {
    if count == 0 then origin
    else origin.Plus(Vec3(0.0, 0.0, RoadLength(count, segmentLength) / 2.0))
  }

  /** A road's centre is the midpoint between the origin and the far end of its
      last segment (the empty road's centre, the origin, included), and each
      added segment, the first one too, moves it by half a segment. */
  lemma {:induction false} CenterIsMidpoint(origin: Vec3, count: nat, segmentLength: real)
    ensures var far := origin.Plus(Vec3(0.0, 0.0, RoadLength(count, segmentLength)));
            RoadCenter(origin, count, segmentLength)
            == Vec3((origin.x + far.x) / 2.0, (origin.y + far.y) / 2.0, (origin.z + far.z) / 2.0)
    ensures RoadCenter(origin, count + 1, segmentLength).z
            == RoadCenter(origin, count, segmentLength).z + segmentLength / 2.0
  {
    assert RoadLength(count + 1, segmentLength) == RoadLength(count, segmentLength) + segmentLength;
  }

  /** A road segment object, the `index`-th created since the last clear and named
      after it; `alive` is false once it has been destroyed, and `growth` is the
      fraction of its full scale it currently shows. */
  class Segment {
    const index: nat
    const name: seq<char>
    const position: Vec3
    var alive: bool
    var growth: real

    constructor (index: nat, position: Vec3)
      ensures this.index == index && name == SegmentName(index) && this.position == position
      ensures alive && growth == 1.0
    {
      this.index := index;
      name := SegmentName(index);
      this.position := position;
      alive := true;
      growth := 1.0;
    }
  }

  /** The fade-in of the initial segments: how many it has created, the segment
      now growing and how long it has been growing. */
  datatype FadeRun = FadeRun(created: nat, segment: Segment, elapsed: real)

  /** An animated extension: the new segment and how long it has been growing. */
  datatype ExtendRun = ExtendRun(segment: Segment, elapsed: real)

  class RoadManager {
    // configuration
    const origin: Vec3
    const initialRoadSegments: int
    const segmentLength: real
    const enableRoadExtension: bool
    const extendDuration: real
    const maxRoadSegments: int
    const smoothTransition: bool
    /** Whether this is a WebGL player build, where the initial segments start
        at the world origin instead of at the manager's position. */
    const webGLPlayer: bool

    // state
    var roadSegments: seq<Segment>
    var nextSegmentPosition: Vec3
    var segmentCounter: nat
    var isExtending: bool
    var fadeIn: Option<FadeRun>
    var extension: Option<ExtendRun>
    /** Every segment this manager has created. */
    ghost var Repr: set<Segment>

    ghost predicate Valid()
      reads this, Repr
    {
      && segmentCounter == |roadSegments|
      && (forall i :: 0 <= i < |roadSegments| ==>
            && roadSegments[i] in Repr
            && roadSegments[i].alive
            && roadSegments[i].index == i + 1
            && roadSegments[i].name == SegmentName(roadSegments[i].index)
            && 0.0 <= roadSegments[i].growth <= 1.0
            && (roadSegments[i].growth == 1.0 || Animating(roadSegments[i])))
      && (fadeIn.Some? ==>
            fadeIn.value.segment in roadSegments && fadeIn.value.segment in Repr && 1 <= fadeIn.value.created
            && fadeIn.value.elapsed >= 0.0)
      && (extension.Some? ==>
            isExtending && extension.value.segment in roadSegments && extension.value.segment in Repr
            && extension.value.elapsed >= 0.0)
      && (fadeIn.Some? && extension.Some? ==> fadeIn.value.segment != extension.value.segment)
    }

    /** The segment is still being scaled up by a running coroutine. */
    ghost predicate Animating(s: Segment)
      reads this
    {
      (fadeIn.Some? && fadeIn.value.segment == s) || (extension.Some? && extension.value.segment == s)
    }

    constructor (origin: Vec3, initialRoadSegments: int, segmentLength: real, enableRoadExtension: bool,
                 extendDuration: real, maxRoadSegments: int, smoothTransition: bool, webGLPlayer: bool)
      ensures Valid() && fresh(Repr)
      ensures this.origin == origin && this.initialRoadSegments == initialRoadSegments
      ensures this.segmentLength == segmentLength && this.enableRoadExtension == enableRoadExtension
      ensures this.extendDuration == extendDuration && this.maxRoadSegments == maxRoadSegments
      ensures this.smoothTransition == smoothTransition && this.webGLPlayer == webGLPlayer
      ensures roadSegments == [] && segmentCounter == 0 && !isExtending
      ensures fadeIn == None && extension == None
    {
      this.origin := origin;
      this.initialRoadSegments := initialRoadSegments;
      this.segmentLength := segmentLength;
      this.enableRoadExtension := enableRoadExtension;
      this.extendDuration := extendDuration;
      this.maxRoadSegments := maxRoadSegments;
      this.smoothTransition := smoothTransition;
      this.webGLPlayer := webGLPlayer;
      roadSegments := [];
      nextSegmentPosition := Vec3(0.0, 0.0, 0.0);
      segmentCounter := 0;
      isExtending := false;
      fadeIn := None;
      extension := None;
      Repr := {};
    }

    /** The length of the road as it stands: segments times segment length. */
    function GetTotalRoadLength(): (r: real)
      reads this
    {
      RoadLength(|roadSegments|, segmentLength)
    }

    /** The centre of the road as it stands (see `CenterIsMidpoint`). */
    function GetRoadCenter(): (r: Vec3)
      reads this
    {
      RoadCenter(origin, |roadSegments|, segmentLength)
    }

    /** Creates a full-size segment at `position`, bumps the counter, names the
        segment after the new counter and appends it; the cursor advances by one
        segment length only when asked to. */
    method CreateRoadSegment(position: Vec3, updateNextPosition: bool) returns (segment: Segment)
      requires Valid()
      modifies this
      ensures fresh(segment) && Repr == old(Repr) + {segment}
      ensures segment.alive && segment.growth == 1.0
      ensures segment.position == position && segment.name == SegmentName(old(segmentCounter) + 1)
      ensures roadSegments == old(roadSegments) + [segment] && segmentCounter == old(segmentCounter) + 1
      ensures nextSegmentPosition
              == if updateNextPosition then old(nextSegmentPosition).Plus(Vec3(0.0, 0.0, segmentLength))
                 else old(nextSegmentPosition)
      ensures isExtending == old(isExtending) && fadeIn == old(fadeIn) && extension == old(extension)
      ensures Valid()
    {
      segmentCounter := segmentCounter + 1;
      segment := new Segment(segmentCounter, position);
      roadSegments := roadSegments + [segment];
      Repr := Repr + {segment};
      if updateNextPosition {
        nextSegmentPosition := nextSegmentPosition.Plus(Vec3(0.0, 0.0, segmentLength));
      }
    }

    /** Destroys every live segment in the list, empties it and zeroes the counter. */
    method ClearAllRoads()
      requires forall i :: 0 <= i < |roadSegments| ==> roadSegments[i] in Repr
      modifies this, Repr
      ensures roadSegments == [] && segmentCounter == 0
      ensures forall s :: s in old(roadSegments) ==> !s.alive
      ensures forall s :: s in old(Repr) && s !in old(roadSegments) ==> s.alive == old(s.alive)
      ensures forall s :: s in old(Repr) ==> s.growth == old(s.growth)
      ensures Repr == old(Repr) && nextSegmentPosition == old(nextSegmentPosition)
      ensures isExtending == old(isExtending) && fadeIn == old(fadeIn) && extension == old(extension)
    {
      var segments := roadSegments;
      var i := 0;
      while i < |segments|
        invariant 0 <= i <= |segments|
        invariant forall k :: 0 <= k < i ==> !segments[k].alive
        invariant forall s :: s in old(Repr) && s !in segments ==> s.alive == old(s.alive)
        invariant forall s :: s in old(Repr) ==> s.growth == old(s.growth)
        invariant roadSegments == segments && Repr == old(Repr)
        invariant nextSegmentPosition == old(nextSegmentPosition) && isExtending == old(isExtending)
        invariant fadeIn == old(fadeIn) && extension == old(extension)
      {
        if segments[i].alive {
          segments[i].alive := false;
        }
        i := i + 1;
      }
      roadSegments := [];
      segmentCounter := 0;
    }

    /** Where `Initialize` puts the cursor: the world origin in a WebGL player
        build, the manager's own position everywhere else. */
    function InitialCursor(): Vec3
    {
      if webGLPlayer then Vec3(0.0, 0.0, 0.0) else origin
    }

    /** Clears the road, puts the cursor at its initial position and starts the fade-in of
        the initial segments, whose first segment is created at once. An
        animated extension in progress loses its segment, so it ends without
        lowering `isExtending`. */
    method Initialize()
      requires Valid()
      modifies this, Repr
      ensures Valid() && fresh(Repr - old(Repr))
      ensures forall s :: s in old(roadSegments) ==> !s.alive
      ensures isExtending == old(isExtending) && extension == None
      ensures initialRoadSegments <= 0 ==>
                roadSegments == [] && fadeIn == None && nextSegmentPosition == InitialCursor()
      ensures initialRoadSegments > 0 ==>
                && |roadSegments| == 1 && roadSegments[0].position == InitialCursor()
                && roadSegments[0].growth == 0.0
                && fadeIn == Some(FadeRun(1, roadSegments[0], 0.0)) && nextSegmentPosition == InitialCursor()
    {
      ClearAllRoads();
      nextSegmentPosition := InitialCursor();
      fadeIn := None;
      extension := None;
      if initialRoadSegments > 0 {
        FadeInNextSegment(1);
      }
    }

    /** Adds one segment when extension is enabled, the cap is not reached and no
        animated extension is running: in smooth mode it starts the animated
        extension, otherwise it creates a full segment at the cursor and advances
        the cursor. */
    method ExtendRoad()
      requires Valid()
      modifies this
      ensures Valid() && fresh(Repr - old(Repr))
      ensures fadeIn == old(fadeIn)
      ensures !enableRoadExtension || old(|roadSegments|) >= maxRoadSegments
                || (old(isExtending) && smoothTransition) ==>
                roadSegments == old(roadSegments) && nextSegmentPosition == old(nextSegmentPosition)
                && isExtending == old(isExtending) && extension == old(extension)
      ensures enableRoadExtension && old(|roadSegments|) < maxRoadSegments && smoothTransition
                && !old(isExtending) ==>
                && extension.Some? && extension.value.elapsed == 0.0
                && roadSegments == old(roadSegments) + [extension.value.segment]
                && extension.value.segment.position == old(nextSegmentPosition)
                && extension.value.segment.growth == 0.0
                && nextSegmentPosition == old(nextSegmentPosition) && isExtending
      ensures enableRoadExtension && old(|roadSegments|) < maxRoadSegments && !smoothTransition ==>
                && |roadSegments| == old(|roadSegments|) + 1
                && roadSegments[..old(|roadSegments|)] == old(roadSegments)
                && roadSegments[old(|roadSegments|)].position == old(nextSegmentPosition)
                && roadSegments[old(|roadSegments|)].growth == 1.0
                && nextSegmentPosition == old(nextSegmentPosition).Plus(Vec3(0.0, 0.0, segmentLength))
                && isExtending == old(isExtending) && extension == old(extension)
      ensures |roadSegments| <= old(|roadSegments|) + 1
      ensures old(|roadSegments|) < maxRoadSegments ==> |roadSegments| <= maxRoadSegments
    {
      if !enableRoadExtension {
        return;
      }
      if |roadSegments| >= maxRoadSegments {
        return;
      }
      if isExtending && smoothTransition {
        return;
      }
      if smoothTransition {
        ExtendRoadAnimated();
      } else {
        var segment := CreateRoadSegment(nextSegmentPosition, true);
      }
    }

    /** The part of the animated extension that runs when it is started: it raises
        `isExtending` and creates its segment, shrunk to nothing, at the cursor
        without advancing the cursor. */
    method ExtendRoadAnimated()
      requires Valid() && extension == None
      modifies this
      ensures Valid() && fresh(Repr - old(Repr))
      ensures fadeIn == old(fadeIn) && isExtending
      ensures extension.Some? && extension.value.elapsed == 0.0
      ensures roadSegments == old(roadSegments) + [extension.value.segment]
      ensures extension.value.segment.position == old(nextSegmentPosition)
      ensures extension.value.segment.growth == 0.0
      ensures nextSegmentPosition == old(nextSegmentPosition)
    {
      isExtending := true;
      var segment := CreateRoadSegment(nextSegmentPosition, false);
      extension := Some(ExtendRun(segment, 0.0));
      segment.growth := 0.0;
    }

    /** One frame of the running coroutines, `dt` seconds long: the fade-in of the
        initial segments, then the animated extension. */
    method Tick(dt: real)
      requires Valid() && dt >= 0.0
      modifies this, Repr
      ensures Valid() && fresh(Repr - old(Repr))
      ensures old(fadeIn) == None ==>
                roadSegments == old(roadSegments) && nextSegmentPosition == old(nextSegmentPosition)
                && fadeIn == None
      ensures old(fadeIn).Some? ==>
                var run := old(fadeIn).value;
                var e := run.elapsed + dt;
                if e < InitialFadeDuration then
                  && fadeIn == Some(FadeRun(run.created, run.segment, e))
                  && run.segment.growth == SmoothStep(Progress(e, InitialFadeDuration))
                  && roadSegments == old(roadSegments) && nextSegmentPosition == old(nextSegmentPosition)
                else
                  var cursor := old(nextSegmentPosition).Plus(Vec3(0.0, 0.0, segmentLength));
                  && run.segment.growth == 1.0
                  && nextSegmentPosition == cursor
                  && (run.created >= initialRoadSegments ==> fadeIn == None && roadSegments == old(roadSegments))
                  && (run.created < initialRoadSegments ==>
                        && fadeIn.Some? && fadeIn.value.created == run.created + 1 && fadeIn.value.elapsed == 0.0
                        && roadSegments == old(roadSegments) + [fadeIn.value.segment]
                        && fadeIn.value.segment.position == cursor
                        && fadeIn.value.segment.growth == 0.0)
      ensures old(extension) == None ==> extension == None && isExtending == old(isExtending)
      ensures old(extension).Some? ==>
                var run := old(extension).value;
                var e := run.elapsed + dt;
                if e < extendDuration then
                  && extension == Some(ExtendRun(run.segment, e)) && isExtending
                  && run.segment.growth == Evaluate(EaseInOut, Progress(e, extendDuration))
                else extension == None && !isExtending && run.segment.growth == 1.0
    {
      TickFadeIn(dt);
      TickExtension(dt);
    }

    /** One frame of the fade-in: its segment grows along the smooth step; when
        the segment is done the cursor advances one segment length and the next
        initial segment, if any, is created there. */
    method TickFadeIn(dt: real)
      requires Valid() && dt >= 0.0
      modifies this, if fadeIn.Some? then {fadeIn.value.segment} else {}
      ensures Valid() && fresh(Repr - old(Repr))
      ensures isExtending == old(isExtending) && extension == old(extension)
      ensures old(fadeIn) == None ==>
                roadSegments == old(roadSegments) && nextSegmentPosition == old(nextSegmentPosition)
                && fadeIn == None
      ensures old(fadeIn).Some? ==>
                var run := old(fadeIn).value;
                var e := run.elapsed + dt;
                if e < InitialFadeDuration then
                  && fadeIn == Some(FadeRun(run.created, run.segment, e))
                  && run.segment.growth == SmoothStep(Progress(e, InitialFadeDuration))
                  && roadSegments == old(roadSegments) && nextSegmentPosition == old(nextSegmentPosition)
                else
                  var cursor := old(nextSegmentPosition).Plus(Vec3(0.0, 0.0, segmentLength));
                  && run.segment.growth == 1.0
                  && nextSegmentPosition == cursor
                  && (run.created >= initialRoadSegments ==> fadeIn == None && roadSegments == old(roadSegments))
                  && (run.created < initialRoadSegments ==>
                        && fadeIn.Some? && fadeIn.value.created == run.created + 1 && fadeIn.value.elapsed == 0.0
                        && roadSegments == old(roadSegments) + [fadeIn.value.segment]
                        && fadeIn.value.segment.position == cursor
                        && fadeIn.value.segment.growth == 0.0)
    {
      if fadeIn.None? {
        return;
      }
      var run := fadeIn.value;
      var e := run.elapsed + dt;
      if e < InitialFadeDuration {
        run.segment.growth := SmoothStep(Progress(e, InitialFadeDuration));
        fadeIn := Some(FadeRun(run.created, run.segment, e));
      } else {
        FinishFadeInSegment();
      }
    }

    /** The fade-in's current segment reaches full size: the cursor advances one
        segment length and the next initial segment, if any, is created there. */
    method FinishFadeInSegment()
      requires Valid() && fadeIn.Some?
      modifies this, fadeIn.value.segment
      ensures Valid() && fresh(Repr - old(Repr))
      ensures isExtending == old(isExtending) && extension == old(extension)
      ensures old(fadeIn).value.segment.growth == 1.0
      ensures nextSegmentPosition == old(nextSegmentPosition).Plus(Vec3(0.0, 0.0, segmentLength))
      ensures old(fadeIn).value.created >= initialRoadSegments ==>
                fadeIn == None && roadSegments == old(roadSegments)
      ensures old(fadeIn).value.created < initialRoadSegments ==>
                && fadeIn.Some? && fadeIn.value.created == old(fadeIn).value.created + 1
                && fadeIn.value.elapsed == 0.0
                && roadSegments == old(roadSegments) + [fadeIn.value.segment]
                && fadeIn.value.segment.position == nextSegmentPosition
                && fadeIn.value.segment.growth == 0.0
    {
      var run := fadeIn.value;
      CompleteFadeInSegment();
      if run.created < initialRoadSegments {
        FadeInNextSegment(run.created + 1);
      }
    }

    /** The fade-in's current segment snaps to full size and the cursor advances
        one segment length. */
    method CompleteFadeInSegment()
      requires Valid() && fadeIn.Some?
      modifies this, fadeIn.value.segment
      ensures Valid() && Repr == old(Repr) && fadeIn == None
      ensures old(fadeIn).value.segment.growth == 1.0
      ensures roadSegments == old(roadSegments) && segmentCounter == old(segmentCounter)
      ensures isExtending == old(isExtending) && extension == old(extension)
      ensures nextSegmentPosition == old(nextSegmentPosition).Plus(Vec3(0.0, 0.0, segmentLength))
    {
      var run := fadeIn.value;
      run.segment.growth := 1.0;
      fadeIn := None;
      nextSegmentPosition := nextSegmentPosition.Plus(Vec3(0.0, 0.0, segmentLength));
      forall i | 0 <= i < |roadSegments|
        ensures roadSegments[i].growth == 1.0 || Animating(roadSegments[i])
      {
        if roadSegments[i] != run.segment {
          assert old(roadSegments[i].growth) == roadSegments[i].growth;
        }
      }
    }

    /** The fade-in creates its next segment at the cursor, shrunk to nothing,
        without advancing the cursor. */
    method FadeInNextSegment(created: nat)
      requires Valid() && fadeIn == None && created >= 1
      modifies this
      ensures Valid() && fresh(Repr - old(Repr))
      ensures isExtending == old(isExtending) && extension == old(extension)
      ensures fadeIn.Some? && fadeIn.value.created == created && fadeIn.value.elapsed == 0.0
      ensures roadSegments == old(roadSegments) + [fadeIn.value.segment]
      ensures fadeIn.value.segment.position == old(nextSegmentPosition)
      ensures fadeIn.value.segment.growth == 0.0
      ensures nextSegmentPosition == old(nextSegmentPosition)
    {
      var segment := CreateRoadSegment(nextSegmentPosition, false);
      fadeIn := Some(FadeRun(created, segment, 0.0));
      segment.growth := 0.0;
    }

    /** One frame of the animated extension: its segment grows along the extension
        curve; when done, `isExtending` falls. */
    method TickExtension(dt: real)
      requires Valid() && dt >= 0.0
      modifies this, if extension.Some? then {extension.value.segment} else {}
      ensures Valid() && Repr == old(Repr)
      ensures roadSegments == old(roadSegments) && nextSegmentPosition == old(nextSegmentPosition)
      ensures fadeIn == old(fadeIn)
      ensures old(extension) == None ==> extension == None && isExtending == old(isExtending)
      ensures old(extension).Some? ==>
                var run := old(extension).value;
                var e := run.elapsed + dt;
                if e < extendDuration then
                  && extension == Some(ExtendRun(run.segment, e)) && isExtending
                  && run.segment.growth == Evaluate(EaseInOut, Progress(e, extendDuration))
                else extension == None && !isExtending && run.segment.growth == 1.0
    {
      if extension.None? {
        return;
      }
      var run := extension.value;
      var e := run.elapsed + dt;
      if e < extendDuration {
        GrowExtension(e);
      } else {
        FinishExtension();
      }
    }

    /** The extending segment takes the extension curve's value at elapsed time
        `e`, which is still below the extension duration. */
    method GrowExtension(e: real)
      requires Valid() && extension.Some? && 0.0 <= e < extendDuration
      modifies this, extension.value.segment
      ensures Valid() && Repr == old(Repr)
      ensures roadSegments == old(roadSegments) && nextSegmentPosition == old(nextSegmentPosition)
      ensures fadeIn == old(fadeIn) && isExtending
      ensures extension == Some(ExtendRun(old(extension).value.segment, e))
      ensures old(extension).value.segment.growth == Evaluate(EaseInOut, Progress(e, extendDuration))
    {
      var segment := extension.value.segment;
      segment.growth := Evaluate(EaseInOut, Progress(e, extendDuration));
      extension := Some(ExtendRun(segment, e));
      forall i | 0 <= i < |roadSegments|
        ensures roadSegments[i].growth == 1.0 || Animating(roadSegments[i])
      {
        if roadSegments[i] != segment {
          assert roadSegments[i].growth == old(roadSegments[i].growth);
        }
      }
    }

    /** The extending segment snaps to full size, the extension ends and
        `isExtending` falls. */
    method FinishExtension()
      requires Valid() && extension.Some?
      modifies this, extension.value.segment
      ensures Valid() && Repr == old(Repr)
      ensures roadSegments == old(roadSegments) && nextSegmentPosition == old(nextSegmentPosition)
      ensures fadeIn == old(fadeIn) && extension == None && !isExtending
      ensures old(extension).value.segment.growth == 1.0
    {
      var segment := extension.value.segment;
      segment.growth := 1.0;
      extension := None;
      isExtending := false;
      forall i | 0 <= i < |roadSegments|
        ensures roadSegments[i].growth == 1.0 || Animating(roadSegments[i])
      {
        if roadSegments[i] != segment {
          assert roadSegments[i].growth == old(roadSegments[i].growth);
        }
      }
    }

    /** Stops both coroutines, lowers `isExtending`, clears the road and puts the
        cursor back at the origin; the resulting state does not depend on the
        state before, so resetting twice is the same as resetting once. */
    method Reset()
      requires Valid()
      modifies this, Repr
      ensures Valid() && Repr == old(Repr)
      ensures forall s :: s in old(roadSegments) ==> !s.alive
      ensures roadSegments == [] && segmentCounter == 0 && !isExtending
      ensures nextSegmentPosition == origin && fadeIn == None && extension == None
      ensures GetTotalRoadLength() == 0.0 && GetRoadCenter() == origin
    {
      fadeIn := None;
      extension := None;
      isExtending := false;
      ClearAllRoads();
      nextSegmentPosition := origin;
    }
  }

  /** Two smooth extensions in a row, the first one's animation allowed to
      finish in between: an animated extension leaves the cursor where it was,
      so the second segment is placed at the same position as the first and
      the road does not get longer in space. */
  method StackedSmoothExtensions(road: RoadManager) returns (first: Segment, second: Segment)
    requires road.Valid() && road.enableRoadExtension && road.smoothTransition && !road.isExtending
    requires |road.roadSegments| + 2 <= road.maxRoadSegments
    modifies road, road.Repr
    ensures road.Valid() && road.isExtending && road.extension == Some(ExtendRun(second, 0.0))
    ensures road.roadSegments == old(road.roadSegments) + [first, second]
    ensures first != second
    ensures first.position == second.position == old(road.nextSegmentPosition)
    ensures road.nextSegmentPosition == old(road.nextSegmentPosition)
  {
    road.ExtendRoad();
    first := road.extension.value.segment;
    ghost var once := road.roadSegments;
    assert once == old(road.roadSegments) + [first];
    road.TickExtension(if road.extendDuration > 0.0 then road.extendDuration else 0.0);
    assert !road.isExtending && road.roadSegments == once;
    road.ExtendRoad();
    second := road.extension.value.segment;
    assert road.roadSegments == once + [second];
    assert first.index != second.index by {
      assert road.roadSegments[|once| - 1] == first && road.roadSegments[|once|] == second;
    }
  }
}
