/** The cherry-blossom effect: a prefab of particle systems that is
    instantiated on the first start, has its emission rates scaled once by the
    density multiplier, plays until stopped, and on stop stops emitting at
    once and halts completely after the fade-out time. Placement in front of
    the camera and the emitter-shape scaling are not part of this model. */
module CherryBlossom {
  import opened Tween

  /** One particle system of the effect. */
  class ParticleSystem {
    var rate: real
    var maxParticles: int
    var emissionEnabled: bool
    var playing: bool

    constructor (rate: real, maxParticles: int)
      ensures this.rate == rate && this.maxParticles == maxParticles
      ensures emissionEnabled && !playing
    {
      this.rate := rate;
      this.maxParticles := maxParticles;
      emissionEnabled := true;
      playing := false;
    }

    /** Multiplies the emission rate and sets the particle maximum. */
    method Scale(multiplier: real, newMaxParticles: int)
      modifies this
      ensures rate == old(rate) * multiplier && maxParticles == newMaxParticles
      ensures playing == old(playing) && emissionEnabled == old(emissionEnabled)
    {
      rate := rate * multiplier;
      maxParticles := newMaxParticles;
    }
  }

  /** Scales each system's emission rate by `multiplier` and sets its
      particle maximum. */
  method ScaleAll(systems: seq<ParticleSystem>, multiplier: real, maxParticles: int)
    requires Distinct(systems)
    modifies set p | p in systems
    ensures forall i :: 0 <= i < |systems| ==>
              && systems[i].rate == old(systems[i].rate) * multiplier
              && systems[i].maxParticles == maxParticles
              && systems[i].playing == old(systems[i].playing)
              && systems[i].emissionEnabled == old(systems[i].emissionEnabled)
  {
    var i := 0;
    while i < |systems|
      invariant 0 <= i <= |systems|
      invariant forall k :: 0 <= k < |systems| ==>
                  && systems[k].rate == (if k < i then old(systems[k].rate) * multiplier else old(systems[k].rate))
                  && systems[k].maxParticles == (if k < i then maxParticles else old(systems[k].maxParticles))
                  && systems[k].playing == old(systems[k].playing)
                  && systems[k].emissionEnabled == old(systems[k].emissionEnabled)
    {
      systems[i].Scale(multiplier, maxParticles);
      i := i + 1;
    }
  }

  /** The instantiated effect object. */
  class BlossomInstance {
    var alive: bool

    constructor ()
      ensures alive
    {
      alive := true;
    }
  }

  /** The configured prefab: the authored emission rate of each of its
      particle systems, in hierarchy order, and their authored particle
      maximum. */
  datatype Prefab = Prefab(rates: seq<real>, maxParticles: int)

  /** No particle system appears twice. */
  predicate Distinct(s: seq<ParticleSystem>)
  {
    forall i, j :: 0 <= i < j < |s| ==> s[i] != s[j]
  }

  class CherryBlossomController {
    // configuration
    const cherryBlossomPrefab: Option<Prefab>
    const duration: real
    const fadeOutDuration: real
    const densityMultiplier: real
    const maxParticles: int

    // state
    var cherryBlossomInstance: BlossomInstance?
    var allParticleSystems: Option<seq<ParticleSystem>>
    var isPlaying: bool
    /** Elapsed time of each fade-out routine that is waiting, oldest first. */
    var fades: seq<real>
    ghost var Repr: set<object>

    /** The particle systems of the current instance (none without one). */
    function Systems(): seq<ParticleSystem>
      reads this
    {
      if allParticleSystems.Some? then allParticleSystems.value else []
    }

    ghost predicate Valid()
      reads this, Repr
    {
      && this !in Repr
      && (cherryBlossomInstance == null <==> allParticleSystems.None?)
      && (cherryBlossomInstance != null ==> cherryBlossomInstance in Repr && cherryBlossomPrefab.Some?)
      && (isPlaying ==> allParticleSystems.Some?)
      && (fades != [] ==> allParticleSystems.Some?)
      && (forall e :: e in fades ==> e >= 0.0)
      && Distinct(Systems())
      && (forall p :: p in Systems() ==> p in Repr)
      && (allParticleSystems.Some? ==> Adjusted())
    }

    /** The instance's particle systems correspond one to one with the prefab's,
        each with its authored rate scaled by the density multiplier and its
        particle maximum set from the configuration. */
    ghost predicate Adjusted()
      reads this, Systems()
    {
      && cherryBlossomPrefab.Some?
      && |Systems()| == |cherryBlossomPrefab.value.rates|
      && forall i :: 0 <= i < |Systems()| ==>
           && Systems()[i].rate == cherryBlossomPrefab.value.rates[i] * densityMultiplier
           && Systems()[i].maxParticles == maxParticles
    }

    constructor (cherryBlossomPrefab: Option<Prefab>, duration: real, fadeOutDuration: real,
                 densityMultiplier: real, maxParticles: int)
      ensures Valid() && fresh(Repr)
      ensures this.cherryBlossomPrefab == cherryBlossomPrefab && this.duration == duration
      ensures this.fadeOutDuration == fadeOutDuration && this.densityMultiplier == densityMultiplier
      ensures this.maxParticles == maxParticles
      ensures cherryBlossomInstance == null && !isPlaying && fades == []
    {
      this.cherryBlossomPrefab := cherryBlossomPrefab;
      this.duration := duration;
      this.fadeOutDuration := fadeOutDuration;
      this.densityMultiplier := densityMultiplier;
      this.maxParticles := maxParticles;
      cherryBlossomInstance := null;
      allParticleSystems := None;
      isPlaying := false;
      fades := [];
      Repr := {};
    }

    /** The configured length of the effect. */
    function GetDuration(): real
      reads this
    {
      duration
    }

    /** Fresh particle systems copied from the prefab, in its order. */
    static method InstantiateSystems(prefab: Prefab) returns (systems: seq<ParticleSystem>)
      ensures |systems| == |prefab.rates| && Distinct(systems)
      ensures forall p :: p in systems ==> fresh(p) && !p.playing && p.emissionEnabled
      ensures forall i :: 0 <= i < |systems| ==>
                systems[i].rate == prefab.rates[i] && systems[i].maxParticles == prefab.maxParticles
    {
      systems := [];
      var i := 0;
      while i < |prefab.rates|
        invariant 0 <= i <= |prefab.rates| && |systems| == i && Distinct(systems)
        invariant forall p :: p in systems ==> fresh(p) && !p.playing && p.emissionEnabled
        invariant forall k :: 0 <= k < i ==>
                    systems[k].rate == prefab.rates[k] && systems[k].maxParticles == prefab.maxParticles
      {
        var p := new ParticleSystem(prefab.rates[i], prefab.maxParticles);
        systems := systems + [p];
        i := i + 1;
      }
    }

    /** Scales every particle system's emission rate by the density multiplier
        and sets its particle maximum; nothing happens without particle
        systems. */
    method AdjustParticleDensity()
      requires Distinct(Systems())
      modifies set p | p in Systems()
      ensures forall i :: 0 <= i < |Systems()| ==>
                && Systems()[i].rate == old(Systems()[i].rate) * densityMultiplier
                && Systems()[i].maxParticles == maxParticles
                && Systems()[i].playing == old(Systems()[i].playing)
                && Systems()[i].emissionEnabled == old(Systems()[i].emissionEnabled)
    {
      if allParticleSystems.None? || |allParticleSystems.value| == 0 {
        return;
      }
      ScaleAll(allParticleSystems.value, densityMultiplier, maxParticles);
    }

    /** Enables emission on every particle system and plays it. */
    method PlayAll()
      requires Distinct(Systems())
      modifies set p | p in Systems()
      ensures forall p :: p in Systems() ==>
                p.playing && p.emissionEnabled && p.rate == old(p.rate) && p.maxParticles == old(p.maxParticles)
    {
      var systems := Systems();
      var i := 0;
      while i < |systems|
        invariant 0 <= i <= |systems|
        invariant forall k :: 0 <= k < i ==> systems[k].playing && systems[k].emissionEnabled
        invariant forall p :: p in systems ==> p.rate == old(p.rate) && p.maxParticles == old(p.maxParticles)
      {
        systems[i].emissionEnabled := true;
        systems[i].playing := true;
        i := i + 1;
      }
    }

    /** Starts the effect unless it is playing or no prefab is configured. The
        instance is created only when none exists, so the density is adjusted
        once per instance; a fresh instance without particle systems leaves the
        effect not playing. */
    method StartCherryBlossom()
      requires Valid()
      modifies this, Repr
      ensures Valid() && fresh(Repr - old(Repr))
      ensures fades == old(fades)
      ensures old(isPlaying) || cherryBlossomPrefab.None? ==> unchanged(this) && unchanged(old(Repr))
      ensures !old(isPlaying) && cherryBlossomPrefab.Some? ==>
                && cherryBlossomInstance != null
                && (old(cherryBlossomInstance) != null ==> cherryBlossomInstance == old(cherryBlossomInstance))
                && Adjusted()
                && (isPlaying <==> old(cherryBlossomInstance) != null || |cherryBlossomPrefab.value.rates| > 0)
                && (isPlaying ==> forall p :: p in Systems() ==> p.playing && p.emissionEnabled)
    {
      if isPlaying {
        return;
      }
      if cherryBlossomPrefab.None? {
        return;
      }
      if cherryBlossomInstance == null {
        CreateInstance();
        if |Systems()| == 0 {
          return;
        }
      }
      if allParticleSystems.Some? {
        PlayAll();
        isPlaying := true;
      }
    }

    /** Instantiates the prefab and collects its particle systems; when there
        are any, their density is adjusted. Nothing plays yet. */
    method CreateInstance()
      requires Valid() && !isPlaying && cherryBlossomPrefab.Some? && cherryBlossomInstance == null
      modifies this
      ensures Valid() && fresh(Repr - old(Repr))
      ensures cherryBlossomInstance != null && Adjusted()
      ensures !isPlaying && fades == old(fades)
    {
      var instance := new BlossomInstance();
      var systems := InstantiateSystems(cherryBlossomPrefab.value);
      cherryBlossomInstance := instance;
      allParticleSystems := Some(systems);
      Repr := Repr + {instance} + (set p | p in systems);
      if |systems| > 0 {
        AdjustParticleDensity();
      }
    }

    /** Stops the effect unless it is not playing: a fade-out routine stops
        every particle system's emission at once and is left waiting for the
        fade-out time; the effect still counts as playing until then. */
    method StopCherryBlossom()
      requires Valid()
      modifies this, Repr
      ensures Valid() && Repr == old(Repr)
      ensures isPlaying == old(isPlaying) && cherryBlossomInstance == old(cherryBlossomInstance)
      ensures allParticleSystems == old(allParticleSystems)
      ensures !old(isPlaying) ==> unchanged(this) && unchanged(Repr)
      ensures old(isPlaying) ==>
                && fades == old(fades) + [0.0]
                && forall p :: p in Systems() ==> !p.emissionEnabled && p.playing == old(p.playing)
    {
      if !isPlaying {
        return;
      }
      DisableEmission();
      fades := fades + [0.0];
    }

    /** Stops emission on every particle system, leaving it playing. */
    method DisableEmission()
      requires Distinct(Systems())
      modifies set p | p in Systems()
      ensures forall p :: p in Systems() ==>
                !p.emissionEnabled && p.playing == old(p.playing)
                && p.rate == old(p.rate) && p.maxParticles == old(p.maxParticles)
    {
      var systems := Systems();
      var i := 0;
      while i < |systems|
        invariant 0 <= i <= |systems|
        invariant forall k :: 0 <= k < i ==> !systems[k].emissionEnabled
        invariant forall p :: p in systems ==>
                    p.playing == old(p.playing) && p.rate == old(p.rate) && p.maxParticles == old(p.maxParticles)
      {
        systems[i].emissionEnabled := false;
        i := i + 1;
      }
    }

    /** Stops every particle system and clears its particles. */
    method StopAll()
      requires Distinct(Systems())
      modifies set p | p in Systems()
      ensures forall p :: p in Systems() ==>
                !p.playing && p.emissionEnabled == old(p.emissionEnabled)
                && p.rate == old(p.rate) && p.maxParticles == old(p.maxParticles)
    {
      var systems := Systems();
      var i := 0;
      while i < |systems|
        invariant 0 <= i <= |systems|
        invariant forall k :: 0 <= k < i ==> !systems[k].playing
        invariant forall p :: p in systems ==>
                    p.emissionEnabled == old(p.emissionEnabled) && p.rate == old(p.rate) && p.maxParticles == old(p.maxParticles)
      {
        systems[i].playing := false;
        i := i + 1;
      }
    }

    /** Stops and clears every particle system and re-enables its emission. */
    method RestartAll()
      requires Distinct(Systems())
      modifies set p | p in Systems()
      ensures forall p :: p in Systems() ==>
                !p.playing && p.emissionEnabled && p.rate == old(p.rate) && p.maxParticles == old(p.maxParticles)
    {
      var systems := Systems();
      var i := 0;
      while i < |systems|
        invariant 0 <= i <= |systems|
        invariant forall k :: 0 <= k < i ==> !systems[k].playing && systems[k].emissionEnabled
        invariant forall p :: p in systems ==> p.rate == old(p.rate) && p.maxParticles == old(p.maxParticles)
      {
        systems[i].playing := false;
        systems[i].emissionEnabled := true;
        i := i + 1;
      }
    }

    /** One frame, `dt` seconds long, of the pending fade-out routines: the
        ones whose wait is over stop every particle system and lower the
        playing flag, the others go on waiting. */
    method Tick(dt: real)
      requires Valid() && dt >= 0.0
      modifies this, Repr
      ensures Valid() && Repr == old(Repr)
      ensures cherryBlossomInstance == old(cherryBlossomInstance) && allParticleSystems == old(allParticleSystems)
      ensures fades == AdvanceWaits(old(fades), dt, fadeOutDuration)
      ensures AnyWaitOver(old(fades), dt, fadeOutDuration) ==>
                !isPlaying && forall p :: p in Systems() ==> !p.playing
      ensures !AnyWaitOver(old(fades), dt, fadeOutDuration) ==> unchanged(Repr) && isPlaying == old(isPlaying)
    {
      var due := AnyWaitOver(fades, dt, fadeOutDuration);
      AdvanceWaitsAll(fades, dt, fadeOutDuration);
      AdvanceWaitsNonnegative(fades, dt, fadeOutDuration);
      fades := AdvanceWaits(fades, dt, fadeOutDuration);
      if due {
        StopAll();
        isPlaying := false;
      }
    }

    /** Cancels any pending fade-out, lowers the playing flag, stops and clears
        every particle system with its emission re-enabled, destroys the
        instance and drops every reference, so the next start builds the
        effect anew. */
    method ResetCherryBlossom()
      requires Valid()
      modifies this, Repr
      ensures Valid() && Repr == {}
      ensures !isPlaying && fades == []
      ensures cherryBlossomInstance == null && allParticleSystems.None?
      ensures old(cherryBlossomInstance) != null ==> !old(cherryBlossomInstance).alive
      ensures forall p :: p in old(Systems()) ==> !p.playing && p.emissionEnabled
    {
      fades := [];
      isPlaying := false;
      RestartAll();
      if cherryBlossomInstance != null {
        cherryBlossomInstance.alive := false;
        cherryBlossomInstance := null;
        allParticleSystems := None;
      }
      Repr := {};
    }
  }
}
