/** One falling star: it drops from above its spawn point to the ground, bounces
    its scale up and back, rests, fades out, raises the disappearance
    notification and destroys itself. The animation sequence is a stage machine
    advanced by `Tick`. */
module Star {
  import opened Tween

  /** Where a star's animation sequence is. `Created` is a star not yet
      initialized and `Gone` a destroyed one; the others carry the time spent in
      the stage so far. The land bounce is its two halves, `Growing` and
      `Shrinking`. */
  datatype Phase =
    | Created
    | Falling(elapsed: real)
    | Growing(elapsed: real)
    | Shrinking(elapsed: real)
    | Resting(elapsed: real)
    | FadingOut(elapsed: real)
    | Gone

  /** The order in which the phases are passed. */
  function Rank(p: Phase): nat
  {
    match p
    case Created => 0
    case Falling(_) => 1
    case Growing(_) => 2
    case Shrinking(_) => 3
    case Resting(_) => 4
    case FadingOut(_) => 5
    case Gone => 6
  }

  /** The star's start point: `dropHeight` above the spawn point. */
  function StartFor(spawn: Vec3, dropHeight: real): (r: Vec3)
    ensures r.x == spawn.x && r.z == spawn.z && r.y == spawn.y + dropHeight
  {
    spawn.Plus(Vec3(0.0, dropHeight, 0.0))
  }

  /** The star's landing point: the spawn point moved onto the ground. */
  function TargetFor(spawn: Vec3, groundLevel: real): (r: Vec3)
    ensures r.x == spawn.x && r.z == spawn.z && r.y == groundLevel
  {
    Vec3(spawn.x, groundLevel, spawn.z)
  }

  /** The tunable parameters of a star, as set on its prefab. */
  datatype StarSettings = StarSettings(
    dropHeight: real, fallDuration: real, landDuration: real, landScaleBounce: real,
    landScaleDuration: real, fadeOutDuration: real, groundLevel: real)

  /** The parameters of a star built without a prefab. */
  const DefaultSettings := StarSettings(10.0, 1.5, 0.5, 1.2, 0.3, 1.0, 0.0)

  class StarController {
    // configuration
    const dropHeight: real
    const fallDuration: real
    const landDuration: real
    const landScaleBounce: real
    const landScaleDuration: real
    const fadeOutDuration: real
    const groundLevel: real
    /** Whether the star has a material whose alpha it can set. */
    const hasMaterial: bool
    /** Whether a master controller was found when the star woke up. */
    const notifiesMaster: bool

    // state
    var name: seq<char>
    var startPosition: Vec3
    var targetPosition: Vec3
    var position: Vec3
    var scale: real
    var alpha: real
    var isAnimating: bool
    var phase: Phase
    /** Time that has passed since the star was initialized. */
    ghost var age: real

    ghost predicate Valid()
      reads this
    {
      && 0.0 <= alpha <= 1.0
      && (phase.Created? ==> !isAnimating)
      && (!phase.Created? ==> isAnimating)
      && match phase
         case Created => age == 0.0
         case Falling(e) => 0.0 <= e <= age
         case Growing(e) => 0.0 <= e && fallDuration + e <= age
         case Shrinking(e) => 0.0 <= e && fallDuration + landScaleDuration / 2.0 + e <= age
         case Resting(e) => 0.0 <= e && fallDuration + landScaleDuration + e <= age
         case FadingOut(e) => 0.0 <= e && fallDuration + landScaleDuration + landDuration + e <= age
         case Gone => GetTotalDuration() <= age
    }

    /** The length of the whole sequence: fall, land bounce, rest and fade-out. */
    function GetTotalDuration(): real
      reads this
    {
      fallDuration + landScaleDuration + landDuration + fadeOutDuration
    }

    /** A freshly instantiated star (Awake): configured, not yet animating. */
    constructor (name: seq<char>, settings: StarSettings, hasMaterial: bool, notifiesMaster: bool, position: Vec3)
      ensures Valid() && phase == Created && !isAnimating
      ensures this.name == name && this.position == position
      ensures Settings() == settings
      ensures this.hasMaterial == hasMaterial && this.notifiesMaster == notifiesMaster
    {
      this.name := name;
      dropHeight := settings.dropHeight;
      fallDuration := settings.fallDuration;
      landDuration := settings.landDuration;
      landScaleBounce := settings.landScaleBounce;
      landScaleDuration := settings.landScaleDuration;
      fadeOutDuration := settings.fadeOutDuration;
      groundLevel := settings.groundLevel;
      this.hasMaterial := hasMaterial;
      this.notifiesMaster := notifiesMaster;
      this.position := position;
      startPosition := position;
      targetPosition := position;
      scale := 1.0;
      alpha := 1.0;
      isAnimating := false;
      phase := Created;
      age := 0.0;
    }

    /** The star's parameters. */
    function Settings(): StarSettings
    {
      StarSettings(dropHeight, fallDuration, landDuration, landScaleBounce,
                   landScaleDuration, fadeOutDuration, groundLevel)
    }

    /** Places the star `dropHeight` above the spawn point, aims it at the ground
        below, resets scale and alpha, and starts the sequence. */
    method Initialize(spawnPosition: Vec3)
      requires Valid() && !phase.Gone?
      modifies this
      ensures Valid()
      ensures startPosition == StartFor(spawnPosition, dropHeight)
      ensures targetPosition == TargetFor(spawnPosition, groundLevel)
      ensures position == startPosition && scale == 1.0
      ensures alpha == if hasMaterial then 1.0 else old(alpha)
      ensures phase == Falling(0.0) && isAnimating && age == 0.0
      ensures name == old(name)
    {
      startPosition := StartFor(spawnPosition, dropHeight);
      targetPosition := TargetFor(spawnPosition, groundLevel);
      position := startPosition;
      scale := 1.0;
      if hasMaterial {
        alpha := 1.0;
      }
      phase := Falling(0.0);
      isAnimating := true;
      age := 0.0;
    }

    /** One frame of the sequence, `dt` seconds long. A stage interpolates with its
        clamped progress while unfinished and ends on its exact end value (the
        ground target, scale 1, alpha 0) before the next stage begins. When the
        fade-out ends the star raises the disappearance notification, once, and
        is destroyed. */
    method Tick(dt: real) returns (disappeared: bool)
      requires Valid() && dt >= 0.0
      modifies this
      ensures Valid()
      ensures name == old(name) && startPosition == old(startPosition) && targetPosition == old(targetPosition)
      ensures disappeared <==> old(phase).FadingOut? && phase.Gone?
      ensures Rank(phase) == Rank(old(phase)) || (Rank(phase) == Rank(old(phase)) + 1 && !old(phase).Created?)
      ensures old(phase).Created? || old(phase).Gone? ==> unchanged(this)
      ensures phase.Gone? ==> age >= GetTotalDuration()
      ensures old(phase).Falling? ==>
                var e := old(phase).elapsed + dt;
                if e < fallDuration then
                  phase == Falling(e)
                  && position == Lerp3(startPosition, targetPosition, Evaluate(EaseInOut, Progress(e, fallDuration)))
                else phase == Growing(0.0) && position == targetPosition
      ensures old(phase).Growing? ==>
                var e := old(phase).elapsed + dt;
                var half := landScaleDuration / 2.0;
                if e < half then phase == Growing(e) && scale == Lerp(1.0, landScaleBounce, Progress(e, half))
                else phase == Shrinking(0.0) && scale == (if half > 0.0 then landScaleBounce else old(scale))
      ensures old(phase).Shrinking? ==>
                var e := old(phase).elapsed + dt;
                var half := landScaleDuration / 2.0;
                if e < half then phase == Shrinking(e) && scale == Lerp(landScaleBounce, 1.0, Progress(e, half))
                else phase == Resting(0.0) && scale == 1.0
      ensures old(phase).Resting? ==>
                var e := old(phase).elapsed + dt;
                phase == (if e < landDuration then Resting(e) else FadingOut(0.0))
      ensures old(phase).FadingOut? ==>
                var e := old(phase).elapsed + dt;
                if e < fadeOutDuration then
                  phase == FadingOut(e)
                  && alpha == (if hasMaterial then Evaluate(LinearOneToZero, Progress(e, fadeOutDuration)) else old(alpha))
                else phase == Gone && alpha == (if hasMaterial then 0.0 else old(alpha))
      ensures !old(phase).Falling? ==> position == old(position)
      ensures !old(phase).Growing? && !old(phase).Shrinking? ==> scale == old(scale)
      ensures !old(phase).FadingOut? ==> alpha == old(alpha)
    {
      disappeared := false;
      match phase
      case Created =>
      case Gone =>
      case Falling(e0) =>
        FallDownStep(e0, dt);
      case Growing(e0) =>
        GrowStep(e0, dt);
      case Shrinking(e0) =>
        ShrinkStep(e0, dt);
      case Resting(e0) =>
        RestStep(e0, dt);
      case FadingOut(e0) =>
        disappeared := FadeOutStep(e0, dt);
    }

    /** One frame of the fall: the star moves along the ease-in-out curve from
        its start point towards its target, and lands exactly on the target. */
    method FallDownStep(e0: real, dt: real)
      requires Valid() && dt >= 0.0 && phase == Falling(e0)
      modifies this
      ensures Valid()
      ensures name == old(name) && startPosition == old(startPosition) && targetPosition == old(targetPosition)
      ensures scale == old(scale) && alpha == old(alpha)
      ensures var e := e0 + dt;
              if e < fallDuration then
                phase == Falling(e)
                && position == Lerp3(startPosition, targetPosition, Evaluate(EaseInOut, Progress(e, fallDuration)))
              else phase == Growing(0.0) && position == targetPosition
    {
      var e := e0 + dt;
      age := age + dt;
      if e < fallDuration {
        position := Lerp3(startPosition, targetPosition, Evaluate(EaseInOut, Progress(e, fallDuration)));
        phase := Falling(e);
      } else {
        position := targetPosition;
        phase := Growing(0.0);
      }
    }

    /** One frame of the first half of the land bounce: the scale grows from 1
        towards the bounce scale. */
    method GrowStep(e0: real, dt: real)
      requires Valid() && dt >= 0.0 && phase == Growing(e0)
      modifies this
      ensures Valid()
      ensures name == old(name) && startPosition == old(startPosition) && targetPosition == old(targetPosition)
      ensures position == old(position) && alpha == old(alpha)
      ensures var e := e0 + dt;
              var half := landScaleDuration / 2.0;
              if e < half then phase == Growing(e) && scale == Lerp(1.0, landScaleBounce, Progress(e, half))
              else phase == Shrinking(0.0) && scale == (if half > 0.0 then landScaleBounce else old(scale))
    {
      var e := e0 + dt;
      var half := landScaleDuration / 2.0;
      age := age + dt;
      if e < half {
        scale := Lerp(1.0, landScaleBounce, Progress(e, half));
        phase := Growing(e);
      } else {
        if half > 0.0 {
          // the last pass of the growing loop reaches the bounce scale
          scale := landScaleBounce;
        }
        phase := Shrinking(0.0);
      }
    }

    /** One frame of the second half of the land bounce: the scale shrinks back
        from the bounce scale and ends at exactly 1. */
    method ShrinkStep(e0: real, dt: real)
      requires Valid() && dt >= 0.0 && phase == Shrinking(e0)
      modifies this
      ensures Valid()
      ensures name == old(name) && startPosition == old(startPosition) && targetPosition == old(targetPosition)
      ensures position == old(position) && alpha == old(alpha)
      ensures var e := e0 + dt;
              var half := landScaleDuration / 2.0;
              if e < half then phase == Shrinking(e) && scale == Lerp(landScaleBounce, 1.0, Progress(e, half))
              else phase == Resting(0.0) && scale == 1.0
    {
      var e := e0 + dt;
      var half := landScaleDuration / 2.0;
      age := age + dt;
      if e < half {
        scale := Lerp(landScaleBounce, 1.0, Progress(e, half));
        phase := Shrinking(e);
      } else {
        scale := 1.0;
        phase := Resting(0.0);
      }
    }

    /** One frame of the rest on the ground. */
    method RestStep(e0: real, dt: real)
      requires Valid() && dt >= 0.0 && phase == Resting(e0)
      modifies this
      ensures Valid()
      ensures name == old(name) && startPosition == old(startPosition) && targetPosition == old(targetPosition)
      ensures position == old(position) && scale == old(scale) && alpha == old(alpha)
      ensures phase == (if e0 + dt < landDuration then Resting(e0 + dt) else FadingOut(0.0))
    {
      var e := e0 + dt;
      age := age + dt;
      if e < landDuration {
        phase := Resting(e);
      } else {
        phase := FadingOut(0.0);
      }
    }

    /** One frame of the fade-out: alpha follows the linear one-to-zero curve
        and ends at exactly 0, when the star disappears. */
    method FadeOutStep(e0: real, dt: real) returns (disappeared: bool)
      requires Valid() && dt >= 0.0 && phase == FadingOut(e0)
      modifies this
      ensures Valid()
      ensures name == old(name) && startPosition == old(startPosition) && targetPosition == old(targetPosition)
      ensures position == old(position) && scale == old(scale)
      ensures disappeared <==> phase.Gone?
      ensures var e := e0 + dt;
              if e < fadeOutDuration then
                phase == FadingOut(e)
                && alpha == (if hasMaterial then Evaluate(LinearOneToZero, Progress(e, fadeOutDuration)) else old(alpha))
              else phase == Gone && alpha == (if hasMaterial then 0.0 else old(alpha))
    {
      var e := e0 + dt;
      age := age + dt;
      if e < fadeOutDuration {
        if hasMaterial {
          alpha := Evaluate(LinearOneToZero, Progress(e, fadeOutDuration));
        }
        phase := FadingOut(e);
        disappeared := false;
      } else {
        if hasMaterial {
          alpha := 0.0;
        }
        disappeared := true;
        phase := Gone;
      }
    }
  }
}
