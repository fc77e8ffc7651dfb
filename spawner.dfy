/** The star spawner: a start/stop/reset state machine around a spawn routine
    that, after an optional first delay, spawns a star and waits an interval
    for as long as the spawned count is below the configured total (forever when
    the total is 0). The routine is a stage machine advanced by `Tick`. The
    random spawn offsets and intervals are arbitrary choices within their
    ranges. */
module Spawner {
  import opened Tween
  import opened Format
  import opened Star

  /** The name of the n-th star spawned since the counter was last reset. */
  function StarName(n: nat): seq<char>
  {
    "Star_" + D3(n)
  }

  /** Star names identify the counter they were built from. */
  lemma StarNameInjective(a: nat, b: nat)
    requires StarName(a) == StarName(b)
    ensures a == b
  {
    CounterNameInjective("Star_", a, b);
  }

  /** Where the spawn routine is: not running, in its first delay, or waiting
      out the interval after a spawn. */
  datatype Routine = NotRunning | FirstDelay(elapsed: real) | Interval(elapsed: real, wait: real)

  /** The routine's loop condition: a total of 0 means no limit. */
  predicate KeepSpawning(total: int, count: int)
  {
    total == 0 || count < total
  }

  class StarSpawner {
    // configuration
    const totalStarsToSpawn: int
    const spawnInterval: real
    const firstStarDelay: real
    const origin: Vec3
    const spawnCenter: Vec3
    const spawnRangeX: real
    const spawnRangeZ: real
    const randomizeInterval: bool
    const minRandomInterval: real
    const maxRandomInterval: real
    /** The parameters of the stars spawned (the prefab's, or the defaults). */
    const starSettings: StarSettings
    const starHasMaterial: bool
    /** Whether the scene has a master controller for the stars to notify. */
    const masterPresent: bool

    // state
    var spawnedStarCount: nat
    var isSpawning: bool
    var routine: Routine
    /** The stars spawned so far, in order (the spawner's child objects). */
    var stars: seq<StarController>
    /** Spawns made by the running routine, and by hand, since the counter was
        last reset. */
    ghost var routineSpawns: nat
    ghost var manualSpawns: nat

    ghost predicate Valid()
      reads this
    {
      && (isSpawning <==> !routine.NotRunning?)
      && spawnedStarCount == routineSpawns + manualSpawns
      && (totalStarsToSpawn > 0 ==> routineSpawns <= totalStarsToSpawn)
      && match routine
         case NotRunning => true
         case FirstDelay(e) => 0.0 <= e && routineSpawns == 0
         case Interval(e, w) => 0.0 <= e && routineSpawns >= 1
    }

    constructor (totalStarsToSpawn: int, spawnInterval: real, firstStarDelay: real, origin: Vec3,
                 spawnCenter: Vec3, spawnRangeX: real, spawnRangeZ: real, randomizeInterval: bool,
                 minRandomInterval: real, maxRandomInterval: real, starSettings: StarSettings,
                 starHasMaterial: bool, masterPresent: bool)
      ensures Valid()
      ensures this.totalStarsToSpawn == totalStarsToSpawn && this.spawnInterval == spawnInterval
      ensures this.firstStarDelay == firstStarDelay && this.origin == origin
      ensures this.spawnCenter == spawnCenter && this.spawnRangeX == spawnRangeX
      ensures this.spawnRangeZ == spawnRangeZ && this.randomizeInterval == randomizeInterval
      ensures this.minRandomInterval == minRandomInterval && this.maxRandomInterval == maxRandomInterval
      ensures this.starSettings == starSettings && this.starHasMaterial == starHasMaterial
      ensures this.masterPresent == masterPresent
      ensures spawnedStarCount == 0 && !isSpawning && stars == []
    {
      this.totalStarsToSpawn := totalStarsToSpawn;
      this.spawnInterval := spawnInterval;
      this.firstStarDelay := firstStarDelay;
      this.origin := origin;
      this.spawnCenter := spawnCenter;
      this.spawnRangeX := spawnRangeX;
      this.spawnRangeZ := spawnRangeZ;
      this.randomizeInterval := randomizeInterval;
      this.minRandomInterval := minRandomInterval;
      this.maxRandomInterval := maxRandomInterval;
      this.starSettings := starSettings;
      this.starHasMaterial := starHasMaterial;
      this.masterPresent := masterPresent;
      spawnedStarCount := 0;
      isSpawning := false;
      routine := NotRunning;
      stars := [];
      routineSpawns := 0;
      manualSpawns := 0;
    }

    /** The wait after a spawn: the fixed interval, or a random value between the
        two random bounds (taken in either order). */
    method GetSpawnInterval() returns (r: real)
      ensures !randomizeInterval ==> r == spawnInterval
      ensures randomizeInterval ==>
                Min(minRandomInterval, maxRandomInterval) <= r <= Max(minRandomInterval, maxRandomInterval)
    {
      if randomizeInterval {
        var low, high := Min(minRandomInterval, maxRandomInterval), Max(minRandomInterval, maxRandomInterval);
        var t :| 0.0 <= t <= 1.0;
        r := low + t * (high - low);
        MulNonneg(t, high - low);
        MulNonneg(1.0 - t, high - low);
        assert (1.0 - t) * (high - low) == (high - low) - t * (high - low);
      } else {
        r := spawnInterval;
      }
    }

    /** A spawn point: the spawn centre, offset by a random amount within the x and
        z ranges, relative to the spawner's position. */
    method CalculateSpawnPosition() returns (p: Vec3)
      ensures p.y == origin.y + spawnCenter.y
      ensures Min(-spawnRangeX, spawnRangeX) <= p.x - origin.x - spawnCenter.x <= Max(-spawnRangeX, spawnRangeX)
      ensures Min(-spawnRangeZ, spawnRangeZ) <= p.z - origin.z - spawnCenter.z <= Max(-spawnRangeZ, spawnRangeZ)
    {
      ghost var lowX, lowZ := Min(-spawnRangeX, spawnRangeX), Min(-spawnRangeZ, spawnRangeZ);
      assert Min(-spawnRangeX, spawnRangeX) <= lowX <= Max(-spawnRangeX, spawnRangeX);
      assert Min(-spawnRangeZ, spawnRangeZ) <= lowZ <= Max(-spawnRangeZ, spawnRangeZ);
      var dx :| Min(-spawnRangeX, spawnRangeX) <= dx <= Max(-spawnRangeX, spawnRangeX);
      var dz :| Min(-spawnRangeZ, spawnRangeZ) <= dz <= Max(-spawnRangeZ, spawnRangeZ);
      p := origin.Plus(spawnCenter).Plus(Vec3(dx, 0.0, dz));
    }

    /** Bumps the counter, creates a star at a random spawn point named after the
        new count, and starts its sequence. */
    method SpawnStar() returns (star: StarController)
      modifies this
      ensures fresh(star) && star.Valid()
      ensures spawnedStarCount == old(spawnedStarCount) + 1
      ensures star.name == StarName(spawnedStarCount)
      ensures stars == old(stars) + [star]
      ensures star.phase == Falling(0.0) && star.Settings() == starSettings
      ensures star.hasMaterial == starHasMaterial && star.notifiesMaster == masterPresent
      ensures star.targetPosition.y == starSettings.groundLevel
      ensures star.position == star.startPosition
      ensures isSpawning == old(isSpawning) && routine == old(routine)
      ensures routineSpawns == old(routineSpawns) && manualSpawns == old(manualSpawns)
    {
      spawnedStarCount := spawnedStarCount + 1;
      var position := CalculateSpawnPosition();
      star := new StarController(StarName(spawnedStarCount), starSettings, starHasMaterial, masterPresent, position);
      star.Initialize(position);
      stars := stars + [star];
    }

    /** The routine's loop test, spawn and wait, run at the routine's start (when
        there is no first delay) and each time a wait ends. */
    method LoopStep() returns (spawned: Option<StarController>)
      requires Valid() && isSpawning
      requires routine.FirstDelay? ==> routineSpawns == 0
      modifies this
      ensures Valid()
      ensures KeepSpawning(totalStarsToSpawn, old(spawnedStarCount)) ==>
                && spawned.Some? && fresh(spawned.value) && spawned.value.Valid()
                && spawnedStarCount == old(spawnedStarCount) + 1
                && routineSpawns == old(routineSpawns) + 1
                && stars == old(stars) + [spawned.value]
                && spawned.value.name == StarName(spawnedStarCount)
                && isSpawning && routine.Interval? && routine.elapsed == 0.0
                && (!randomizeInterval ==> routine.wait == spawnInterval)
      ensures !KeepSpawning(totalStarsToSpawn, old(spawnedStarCount)) ==>
                && spawned == None && !isSpawning && routine == NotRunning
                && spawnedStarCount == old(spawnedStarCount) && stars == old(stars)
                && routineSpawns == old(routineSpawns)
      ensures manualSpawns == old(manualSpawns)
    {
      if KeepSpawning(totalStarsToSpawn, spawnedStarCount) {
        var star := SpawnStar();
        routineSpawns := routineSpawns + 1;
        var wait := GetSpawnInterval();
        routine := Interval(0.0, wait);
        spawned := Some(star);
      } else {
        isSpawning := false;
        routine := NotRunning;
        spawned := None;
      }
    }

    /** Starts the routine unless it is already running, after resetting the
        counter; without a first delay the first star is spawned at once. */
    method StartSpawning() returns (spawned: Option<StarController>)
      requires Valid()
      modifies this
      ensures Valid()
      ensures old(isSpawning) ==> unchanged(this) && spawned == None
      ensures !old(isSpawning) && firstStarDelay > 0.0 ==>
                spawnedStarCount == 0 && isSpawning && routine == FirstDelay(0.0)
                && stars == old(stars) && spawned == None
      ensures !old(isSpawning) && firstStarDelay <= 0.0 ==>
                if KeepSpawning(totalStarsToSpawn, 0) then
                  spawnedStarCount == 1 && isSpawning && routine.Interval? && spawned.Some?
                  && stars == old(stars) + [spawned.value] && spawned.value.name == StarName(1)
                else spawnedStarCount == 0 && !isSpawning && stars == old(stars) && spawned == None
      ensures !old(isSpawning) ==> manualSpawns == 0
    {
      if isSpawning {
        spawned := None;
        return;
      }
      spawnedStarCount := 0;
      routineSpawns := 0;
      manualSpawns := 0;
      isSpawning := true;
      if firstStarDelay > 0.0 {
        routine := FirstDelay(0.0);
        spawned := None;
      } else {
        // no first delay: the routine goes straight to its loop test
        routine := FirstDelay(0.0);
        spawned := LoopStep();
      }
    }

    /** One frame of the routine, `dt` seconds long: when the current wait is over,
        the loop test runs and either spawns the next star or ends the routine,
        which then lowers `isSpawning`. A routine with a positive total ends only
        once the counter has reached the total; one with total 0 never ends. */
    method Tick(dt: real) returns (spawned: Option<StarController>)
      requires Valid() && dt >= 0.0
      modifies this
      ensures Valid()
      ensures !old(isSpawning) ==> unchanged(this) && spawned == None
      ensures manualSpawns == old(manualSpawns)
      ensures spawned.Some? ==>
                fresh(spawned.value) && spawned.value.Valid() && stars == old(stars) + [spawned.value]
                && spawnedStarCount == old(spawnedStarCount) + 1
      ensures spawned == None ==> stars == old(stars) && spawnedStarCount == old(spawnedStarCount)
      ensures old(isSpawning) && !isSpawning ==>
                totalStarsToSpawn != 0 && spawnedStarCount >= totalStarsToSpawn
      ensures old(isSpawning) && !isSpawning && manualSpawns == 0 && totalStarsToSpawn > 0 ==>
                routineSpawns == totalStarsToSpawn
      ensures totalStarsToSpawn == 0 && old(isSpawning) ==> isSpawning
    {
      match routine
      case NotRunning =>
        spawned := None;
      case FirstDelay(e0) =>
        var e := e0 + dt;
        if e < firstStarDelay {
          routine := FirstDelay(e);
          spawned := None;
        } else {
          spawned := LoopStep();
        }
      case Interval(e0, w) =>
        var e := e0 + dt;
        if e < w {
          routine := Interval(e, w);
          spawned := None;
        } else {
          spawned := LoopStep();
        }
    }

    /** Stops the routine and lowers the flag; the counter and the stars already
        spawned are kept. */
    method StopSpawning()
      requires Valid()
      modifies this
      ensures Valid()
      ensures !isSpawning && routine == NotRunning
      ensures spawnedStarCount == old(spawnedStarCount) && stars == old(stars)
      ensures routineSpawns == old(routineSpawns) && manualSpawns == old(manualSpawns)
    {
      routine := NotRunning;
      isSpawning := false;
    }

    /** Spawns one star by hand, in play mode only, regardless of the total; it
        bumps the same counter the routine's loop test reads. */
    method SpawnSingleStar(isPlaying: bool) returns (spawned: Option<StarController>)
      requires Valid()
      modifies this
      ensures Valid()
      ensures !isPlaying ==> unchanged(this) && spawned == None
      ensures isPlaying ==>
                && spawned.Some? && fresh(spawned.value) && stars == old(stars) + [spawned.value]
                && spawnedStarCount == old(spawnedStarCount) + 1
                && manualSpawns == old(manualSpawns) + 1
                && isSpawning == old(isSpawning) && routine == old(routine)
    {
      if isPlaying {
        var star := SpawnStar();
        manualSpawns := manualSpawns + 1;
        spawned := Some(star);
      } else {
        spawned := None;
      }
    }

    /** StopSpawning followed by a counter reset. */
    method Reset()
      requires Valid()
      modifies this
      ensures Valid()
      ensures !isSpawning && routine == NotRunning && spawnedStarCount == 0
      ensures stars == old(stars)
    {
      StopSpawning();
      spawnedStarCount := 0;
      routineSpawns := 0;
      manualSpawns := 0;
    }
  }
}
