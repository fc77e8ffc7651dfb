/** The recording helper: it remembers the engine's target frame rate and
    fixed time step when the scene wakes up, switches them to recording values
    while recording, and puts the remembered values back when recording stops.
    Its automatic routine prepares for recording, waits, and restarts the
    master sequence. The engine's two settings are an object handed to the
    helper, and so is the master controller the routine looks up. */
module Recording {
  import opened Tween
  import opened Master

  /** The engine's global timing settings. */
  class EngineSettings {
    var targetFrameRate: int
    var fixedDeltaTime: real

    constructor (targetFrameRate: int, fixedDeltaTime: real)
      ensures this.targetFrameRate == targetFrameRate && this.fixedDeltaTime == fixedDeltaTime
    {
      this.targetFrameRate := targetFrameRate;
      this.fixedDeltaTime := fixedDeltaTime;
    }
  }

  /** The fixed time step that gives one physics step per recorded frame. */
  function FixedStepFor(frameRate: int): (r: real)
    requires frameRate != 0
    ensures r * frameRate as real == 1.0
  {
    1.0 / frameRate as real
  }

  /** Resets the master sequence and starts it again, `times` times over. */
  method RestartMaster(master: MasterController, times: nat)
    requires master.Valid()
    modifies master, master.priceTag, master.spawner, master.road,
             if master.road != null then master.road.Repr else {}
    ensures master.Valid()
    ensures times > 0 ==> master.Begun()
    ensures times > 0 && master.spawner != null ==> !master.spawner.isSpawning
    ensures times > 0 && master.road != null ==> master.road.roadSegments == [] && !master.road.isExtending
    ensures times == 0 ==> unchanged(master)
  {
    var n := 0;
    while n < times
      invariant 0 <= n <= times
      invariant master.Valid()
      invariant master.road != null ==> master.road.Repr == old(master.road.Repr)
      invariant n > 0 ==> master.Begun()
      invariant n > 0 && master.spawner != null ==> !master.spawner.isSpawning
      invariant n > 0 && master.road != null ==> master.road.roadSegments == [] && !master.road.isExtending
      invariant n == 0 ==> unchanged(master)
    {
      master.ResetAnimation();
      master.StartAnimation();
      n := n + 1;
    }
  }

  class RecordingHelper {
    // configuration
    const settings: EngineSettings
    const master: MasterController?
    const targetFrameRate: int
    const recordingStartDelay: real
    const useFixedDeltaTime: bool
    /** The settings as they were when the scene woke up. */
    const originalFixedDeltaTime: real
    const originalTargetFrameRate: int

    // state
    var isRecording: bool
    /** Elapsed time of each automatic routine still waiting, oldest first. */
    var routines: seq<real>

    /** While not recording the engine runs on the remembered settings; while
        recording, on the recording frame rate and, when asked for, the
        matching fixed time step. */
    ghost predicate Valid()
      reads this, settings
    {
      && (useFixedDeltaTime ==> targetFrameRate != 0)
      && (forall e :: e in routines ==> e >= 0.0)
      && (!isRecording ==>
            settings.targetFrameRate == originalTargetFrameRate && settings.fixedDeltaTime == originalFixedDeltaTime)
      && (isRecording ==>
            && settings.targetFrameRate == targetFrameRate
            && settings.fixedDeltaTime == if useFixedDeltaTime then FixedStepFor(targetFrameRate) else originalFixedDeltaTime)
    }

    /** Awake: the current engine settings are remembered. A fixed time step
        is only computed from a non-zero frame rate. */
    constructor (settings: EngineSettings, master: MasterController?, targetFrameRate: int,
                 recordingStartDelay: real, useFixedDeltaTime: bool)
      requires useFixedDeltaTime ==> targetFrameRate != 0
      ensures Valid()
      ensures this.settings == settings && this.master == master && this.targetFrameRate == targetFrameRate
      ensures this.recordingStartDelay == recordingStartDelay && this.useFixedDeltaTime == useFixedDeltaTime
      ensures originalTargetFrameRate == settings.targetFrameRate && originalFixedDeltaTime == settings.fixedDeltaTime
      ensures !isRecording && routines == []
    {
      this.settings := settings;
      this.master := master;
      this.targetFrameRate := targetFrameRate;
      this.recordingStartDelay := recordingStartDelay;
      this.useFixedDeltaTime := useFixedDeltaTime;
      originalFixedDeltaTime := settings.fixedDeltaTime;
      originalTargetFrameRate := settings.targetFrameRate;
      isRecording := false;
      routines := [];
    }

    /** Switches the engine to the recording frame rate and, when asked for, the
        matching fixed time step, unless already recording. */
    method PrepareForRecording()
      requires Valid()
      modifies this, settings
      ensures Valid() && isRecording && routines == old(routines)
      ensures old(isRecording) ==> unchanged(this, settings)
      ensures settings.targetFrameRate == targetFrameRate
      ensures useFixedDeltaTime ==> settings.fixedDeltaTime * targetFrameRate as real == 1.0
      ensures !useFixedDeltaTime ==> settings.fixedDeltaTime == old(settings.fixedDeltaTime)
    {
      if isRecording {
        return;
      }
      settings.targetFrameRate := targetFrameRate;
      if useFixedDeltaTime {
        settings.fixedDeltaTime := FixedStepFor(targetFrameRate);
      }
      isRecording := true;
    }

    /** Puts back the settings remembered when the scene woke up, unless not
        recording. */
    method StopRecording()
      requires Valid()
      modifies this, settings
      ensures Valid() && !isRecording && routines == old(routines)
      ensures !old(isRecording) ==> unchanged(this, settings)
      ensures settings.targetFrameRate == originalTargetFrameRate
      ensures settings.fixedDeltaTime == originalFixedDeltaTime
    {
      if !isRecording {
        return;
      }
      settings.targetFrameRate := originalTargetFrameRate;
      settings.fixedDeltaTime := originalFixedDeltaTime;
      isRecording := false;
    }

    /** The helper is going away: recording settings are not left behind. */
    method OnDestroy()
      requires Valid()
      modifies this, settings
      ensures Valid() && !isRecording
      ensures settings.targetFrameRate == originalTargetFrameRate
      ensures settings.fixedDeltaTime == originalFixedDeltaTime
    {
      if isRecording {
        StopRecording();
      }
    }

    /** Starts an automatic routine: it prepares for recording at once and then
        waits the start delay. */
    method AutoRecordAnimation()
      requires Valid()
      modifies this, settings
      ensures Valid() && isRecording
      ensures routines == old(routines) + [0.0]
      ensures settings.targetFrameRate == targetFrameRate
    {
      PrepareForRecording();
      routines := routines + [0.0];
    }

    /** One frame, `dt` seconds long, of the automatic routines: each one whose
        delay is over resets the master sequence and starts it again (when there
        is a master controller); the others go on waiting. */
    method Tick(dt: real)
      requires Valid() && dt >= 0.0
      requires master != null ==> master.Valid()
      modifies this, if master != null then {master, master.priceTag, master.spawner, master.road} else {},
               if master != null && master.road != null then master.road.Repr else {}
      ensures Valid() && isRecording == old(isRecording)
      ensures routines == AdvanceWaits(old(routines), dt, recordingStartDelay)
      ensures master != null ==> master.Valid()
      ensures master != null && AnyWaitOver(old(routines), dt, recordingStartDelay) ==> master.Begun()
      ensures master != null && !AnyWaitOver(old(routines), dt, recordingStartDelay) ==> unchanged(master)
    {
      var remaining := AdvanceWaits(routines, dt, recordingStartDelay);
      AdvanceWaitsAll(routines, dt, recordingStartDelay);
      AdvanceWaitsNonnegative(routines, dt, recordingStartDelay);
      var finished := |routines| - |remaining|;
      routines := remaining;
      if master != null {
        RestartMaster(master, finished);
      }
    }
  }
}
