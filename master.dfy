/** The master controller: a one-shot, guarded sequence that waits an optional
    start delay, plays the price tag, waits for the price tag's total duration,
    starts the star spawner and initializes the road. Reset fans out to the
    three collaborators, and a star's disappearance extends the road whatever
    the sequence is doing. The collaborator references may be missing; a step
    that needs a missing one ends the sequence the way the engine ends a
    coroutine that throws, with the playing flag left up. */
module Master {
  import opened Tween
  import opened PriceTag
  import opened Spawner
  import opened Road
  import opened Star

  /** Where the animation sequence is. `Halted` is a sequence that stopped at a
      step whose collaborator is missing. */
  datatype Sequence =
    | NotStarted
    | Delaying(elapsed: real)
    | WaitingForPriceTag(elapsed: real, wait: real)
    | Finished
    | Halted

  class MasterController {
    // collaborators, as assigned in the scene or found when the scene started
    const priceTag: PriceTagAnimator?
    const spawner: StarSpawner?
    const road: RoadManager?
    // configuration
    const autoPlayOnStart: bool
    const startDelay: real

    // state
    var isAnimationPlaying: bool
    var sequence: Sequence
    /** Time that has passed since the running sequence was started. */
    ghost var played: real

    /** The wait the sequence spends before playing the price tag. */
    function LeadTime(): real
      reads this
    {
      if startDelay > 0.0 then startDelay else 0.0
    }

    /** Each collaborator that is present keeps its own invariant. */
    ghost predicate CollaboratorsValid()
      reads this, priceTag, spawner, road, if road != null then road.Repr else {}
    {
      && (priceTag != null ==> priceTag.Valid())
      && (spawner != null ==> spawner.Valid())
      && (road != null ==> road.Valid())
    }

    ghost predicate Valid()
      reads this, priceTag, spawner, road, if road != null then road.Repr else {}
    {
      && CollaboratorsValid()
      && (isAnimationPlaying <==> !sequence.NotStarted?)
      && match sequence
         case NotStarted => true
         case Delaying(e) => startDelay > 0.0 && 0.0 <= e <= played
         case WaitingForPriceTag(e, w) =>
           priceTag != null && w == priceTag.GetTotalDuration() && 0.0 <= e && LeadTime() + e <= played
         case Finished =>
           priceTag != null && spawner != null && road != null
           && LeadTime() + priceTag.GetTotalDuration() <= played
         case Halted => true
    }

    constructor (priceTag: PriceTagAnimator?, spawner: StarSpawner?, road: RoadManager?,
                 autoPlayOnStart: bool, startDelay: real)
      requires priceTag != null ==> priceTag.Valid()
      requires spawner != null ==> spawner.Valid()
      requires road != null ==> road.Valid()
      ensures Valid()
      ensures this.priceTag == priceTag && this.spawner == spawner && this.road == road
      ensures this.autoPlayOnStart == autoPlayOnStart && this.startDelay == startDelay
      ensures !isAnimationPlaying && sequence == NotStarted
    {
      this.priceTag := priceTag;
      this.spawner := spawner;
      this.road := road;
      this.autoPlayOnStart := autoPlayOnStart;
      this.startDelay := startDelay;
      isAnimationPlaying := false;
      sequence := NotStarted;
      played := 0.0;
    }

    /** Whether all three collaborators are present. */
    method ValidateComponents() returns (isValid: bool)
      ensures isValid <==> priceTag != null && spawner != null && road != null
    {
      isValid := true;
      if priceTag == null {
        isValid := false;
      }
      if spawner == null {
        isValid := false;
      }
      if road == null {
        isValid := false;
      }
    }

    /** Scene start: when a collaborator is missing nothing is played; otherwise
        the sequence is started if auto-play is on. */
    method Start()
      requires Valid()
      modifies this, priceTag
      ensures Valid()
      ensures priceTag == null || spawner == null || road == null || !autoPlayOnStart ==>
                unchanged(this) && (priceTag != null ==> unchanged(priceTag))
      ensures priceTag != null && spawner != null && road != null && autoPlayOnStart && !old(isAnimationPlaying) ==>
                Begun()
    {
      var isValid := ValidateComponents();
      if !isValid {
        return;
      }
      if autoPlayOnStart {
        StartAnimation();
      }
    }

    /** The state right after a sequence has been started with all collaborators
        present: the flag is up and the sequence is in its delay, or, without a
        delay, the price tag has been played and its total duration is being
        waited out. */
    ghost predicate Begun()
      reads this, priceTag
    {
      && isAnimationPlaying && played == 0.0
      && (startDelay > 0.0 ==> sequence == Delaying(0.0))
      && (startDelay <= 0.0 && priceTag != null ==>
            sequence == WaitingForPriceTag(0.0, priceTag.GetTotalDuration()) && priceTag.isAnimating)
      && (startDelay <= 0.0 && priceTag == null ==> sequence == Halted)
    }

    /** The state the sequence's last steps leave: it has finished when both
        the spawner and the road are present and has halted otherwise; the
        spawner spawns unless it has nothing to spawn, and the road is
        initialized: empty, or holding the first fading-in segment at its
        initial cursor. */
    ghost predicate SpawnerAndRoadStarted()
      reads this, spawner, road
    {
      && (sequence == Halted <==> spawner == null || road == null)
      && (spawner != null && road != null ==> sequence == Finished)
      && (spawner != null ==> spawner.isSpawning || !KeepSpawning(spawner.totalStarsToSpawn, 0))
      && (spawner != null && road != null ==>
            && road.extension == None
            && (road.initialRoadSegments <= 0 ==> road.roadSegments == [] && road.fadeIn == None)
            && (road.initialRoadSegments > 0 ==>
                  && |road.roadSegments| == 1 && road.fadeIn.Some?
                  && road.roadSegments[0].position == road.InitialCursor()))
    }

    /** Starts the sequence unless it is playing; the sequence raises the flag
        and, without a start delay, plays the price tag at once. */
    method StartAnimation()
      requires Valid()
      modifies this, priceTag
      ensures Valid()
      ensures old(isAnimationPlaying) ==> unchanged(this) && (priceTag != null ==> unchanged(priceTag))
      ensures !old(isAnimationPlaying) ==> Begun()
      ensures !old(isAnimationPlaying) && startDelay > 0.0 && priceTag != null ==> unchanged(priceTag)
      ensures !old(isAnimationPlaying) && startDelay <= 0.0 && priceTag == null ==> sequence == Halted
    {
      if isAnimationPlaying {
        return;
      }
      isAnimationPlaying := true;
      played := 0.0;
      if startDelay > 0.0 {
        sequence := Delaying(0.0);
      } else {
        PlayPriceTag();
      }
    }

    /** The sequence's first step after the delay: play the price tag and wait
        for its total duration, or halt when there is no price tag. */
    method PlayPriceTag()
      requires CollaboratorsValid() && isAnimationPlaying && LeadTime() <= played
      modifies this, priceTag
      ensures Valid() && isAnimationPlaying && played == old(played)
      ensures priceTag == null ==> sequence == Halted
      ensures priceTag != null ==>
                && sequence == WaitingForPriceTag(0.0, priceTag.GetTotalDuration())
                && priceTag.isAnimating
                && (old(priceTag.isAnimating) ==> unchanged(priceTag))
                && (!old(priceTag.isAnimating) ==> priceTag.stage == FadingIn(0.0))
    {
      if priceTag == null {
        sequence := Halted;
        return;
      }
      priceTag.PlayAnimation();
      sequence := WaitingForPriceTag(0.0, priceTag.GetTotalDuration());
    }

    /** The sequence's last steps, once the price tag's duration has passed:
        start the spawner, then initialize the road; a missing collaborator
        halts the sequence at its step. */
    method StartSpawnerAndRoad()
      requires CollaboratorsValid() && isAnimationPlaying && priceTag != null
      requires LeadTime() + priceTag.GetTotalDuration() <= played
      modifies this, spawner, road, if road != null then road.Repr else {}
      ensures Valid() && isAnimationPlaying && played == old(played)
      ensures SpawnerAndRoadStarted()
      ensures spawner == null && road != null ==> unchanged(road)
      ensures spawner != null && !old(spawner.isSpawning) ==> spawner.manualSpawns == 0
    {
      if spawner == null {
        sequence := Halted;
        return;
      }
      var first := spawner.StartSpawning();
      if road == null {
        sequence := Halted;
        return;
      }
      road.Initialize();
      sequence := Finished;
    }

    /** One frame of the sequence, `dt` seconds long: a wait that is over moves the
        sequence on to its next step; a finished or halted sequence does
        nothing more and keeps the flag up. */
    method Tick(dt: real)
      requires Valid() && dt >= 0.0
      modifies this, priceTag, spawner, road, if road != null then road.Repr else {}
      ensures Valid()
      ensures isAnimationPlaying == old(isAnimationPlaying)
      ensures old(sequence).NotStarted? || old(sequence).Finished? || old(sequence).Halted? ==>
                sequence == old(sequence)
      ensures old(sequence).Delaying? ==>
                var e := old(sequence).elapsed + dt;
                if e < startDelay then sequence == Delaying(e)
                else
                  && (sequence == Halted <==> priceTag == null)
                  && (priceTag != null ==>
                        sequence == WaitingForPriceTag(0.0, priceTag.GetTotalDuration()) && priceTag.isAnimating)
      ensures old(sequence).WaitingForPriceTag? ==>
                var e := old(sequence).elapsed + dt;
                if e < old(sequence).wait then sequence == WaitingForPriceTag(e, old(sequence).wait)
                else SpawnerAndRoadStarted()
      ensures sequence.WaitingForPriceTag? && !old(sequence).WaitingForPriceTag? ==> priceTag != null && priceTag.isAnimating
      ensures sequence.Finished? ==> played >= LeadTime() + priceTag.GetTotalDuration()
    {
      match sequence
      case NotStarted =>
      case Finished =>
      case Halted =>
      case Delaying(e0) =>
        var e := e0 + dt;
        played := played + dt;
        if e < startDelay {
          sequence := Delaying(e);
        } else {
          PlayPriceTag();
        }
      case WaitingForPriceTag(e0, w) =>
        var e := e0 + dt;
        played := played + dt;
        if e < w {
          sequence := WaitingForPriceTag(e, w);
        } else {
          StartSpawnerAndRoad();
        }
    }

    /** Stops the sequence, lowers the flag, and resets each collaborator that is
        present: the price tag's animation, the spawner's routine and the road. */
    method ResetAnimation()
      requires Valid()
      modifies this, priceTag, spawner, road, if road != null then road.Repr else {}
      ensures Valid()
      ensures !isAnimationPlaying && sequence == NotStarted
      ensures priceTag != null ==> !priceTag.isAnimating && priceTag.alpha == 0.0
      ensures priceTag != null ==> priceTag.priceString == old(priceTag.priceString)
      ensures spawner != null ==> !spawner.isSpawning && spawner.spawnedStarCount == old(spawner.spawnedStarCount)
      ensures road != null ==>
                road.roadSegments == [] && !road.isExtending && road.nextSegmentPosition == road.origin
                && road.Repr == old(road.Repr)
    {
      sequence := NotStarted;
      isAnimationPlaying := false;
      if priceTag != null {
        priceTag.ResetAnimation();
      }
      if spawner != null {
        spawner.StopSpawning();
      }
      if road != null {
        road.Reset();
      }
    }

    /** A star has disappeared: the road is extended, whatever the sequence is
        doing. */
    method OnStarDisappeared()
      requires Valid()
      modifies road
      ensures Valid()
      ensures road != null ==>
                && |road.roadSegments| <= old(|road.roadSegments|) + 1
                && old(road.roadSegments) <= road.roadSegments
                && (old(|road.roadSegments|) < road.maxRoadSegments ==> |road.roadSegments| <= road.maxRoadSegments)
                && (!road.enableRoadExtension ==> road.roadSegments == old(road.roadSegments))
      ensures road != null && road.enableRoadExtension && old(|road.roadSegments|) < road.maxRoadSegments
                && !(road.smoothTransition && old(road.isExtending)) ==>
                && |road.roadSegments| == old(|road.roadSegments|) + 1
                && road.roadSegments[old(|road.roadSegments|)].position == old(road.nextSegmentPosition)
                && road.roadSegments[old(|road.roadSegments|)].growth == if road.smoothTransition then 0.0 else 1.0
      ensures road != null && (!road.enableRoadExtension || old(|road.roadSegments|) >= road.maxRoadSegments
                || (road.smoothTransition && old(road.isExtending))) ==>
                road.roadSegments == old(road.roadSegments) && road.nextSegmentPosition == old(road.nextSegmentPosition)
    {
      if road != null {
        road.ExtendRoad();
      }
    }

    /** One frame of a star of this scene: when its fade-out ends, its
        disappearance notification reaches this controller, once, if the star
        found the controller when it woke up. */
    method AdvanceStar(star: StarController, dt: real) returns (disappeared: bool)
      requires Valid() && star.Valid() && dt >= 0.0
      modifies star, road
      ensures Valid() && star.Valid()
      ensures disappeared <==> old(star.phase).FadingOut? && star.phase.Gone?
      ensures road != null && !(disappeared && star.notifiesMaster) ==> unchanged(road)
      ensures road != null && disappeared && star.notifiesMaster ==>
                |road.roadSegments| <= old(|road.roadSegments|) + 1 && old(road.roadSegments) <= road.roadSegments
      ensures road != null && disappeared && star.notifiesMaster
                && road.enableRoadExtension && old(|road.roadSegments|) < road.maxRoadSegments
                && !(road.smoothTransition && old(road.isExtending)) ==>
                && |road.roadSegments| == old(|road.roadSegments|) + 1
                && road.roadSegments[old(|road.roadSegments|)].position == old(road.nextSegmentPosition)
                && road.roadSegments[old(|road.roadSegments|)].growth == if road.smoothTransition then 0.0 else 1.0
    {
      disappeared := star.Tick(dt);
      if disappeared && star.notifiesMaster {
        OnStarDisappeared();
      }
    }

    /** The restart key: reset, then start, so a fresh sequence begins whatever
        state the previous one was in. */
    method Update(spacePressed: bool)
      requires Valid()
      modifies this, priceTag, spawner, road, if road != null then road.Repr else {}
      ensures Valid()
      ensures !spacePressed ==> unchanged(this)
      ensures spacePressed ==> Begun()
      ensures spacePressed && spawner != null ==> !spawner.isSpawning
      ensures spacePressed && road != null ==> road.roadSegments == [] && !road.isExtending
    {
      if spacePressed {
        ResetAnimation();
        StartAnimation();
      }
    }
  }
}
