/**
 * The particles the audio-reactive loop drives, and the two in-place passes
 * over the particle engine's array: capturing each particle's original size,
 * opacity and velocity once, and the per-frame update that writes clamped
 * values derived from one analyser sample.
 *
 * The engine's array may hold `null` entries (skipped) and, as far as this
 * code is concerned, the same particle twice; every pass below is stated so
 * that it holds either way.
 */
module ParticleSync {
  import opened Wrappers
  import opened Spectrum

  /** A particle's `velocity` object; either component may be missing. */
  datatype Velocity = Velocity(horizontal: Option<real>, vertical: Option<real>)

  /** The captured original velocity `_origVel = {h, v}`. */
  datatype OrigVelocity = OrigVelocity(h: real, v: real)

  /**
   * A particle handle of the engine. `size` and `opacity` stand for
   * `p.size.value` and `p.opacity.value`: `None` when the object or its
   * value is missing. The `orig` fields are the shadow values this code adds
   * (`_origSize`, `_origOpacity`, `_origVel`).
   */
  class Particle {
    var size: Option<real>
    var opacity: Option<real>
    var velocity: Option<Velocity>
    var origSize: Option<real>
    var origOpacity: Option<real>
    var origVel: Option<OrigVelocity>

    /** A particle as the engine creates it: no originals captured yet. */
    constructor (size: Option<real>, opacity: Option<real>, velocity: Option<Velocity>)
      ensures this.size == size && this.opacity == opacity && this.velocity == velocity
      ensures origSize == None && origOpacity == None && origVel == None
    {
      this.size := size;
      this.opacity := opacity;
      this.velocity := velocity;
      origSize, origOpacity, origVel := None, None, None;
    }
  }

  /** The particles an array refers to (its non-null entries). */
  ghost function Members(ps: seq<Particle?>): set<Particle> {
    set p: Particle | p in ps
  }

  /**
   * The array a later frame iterates: the engine's live array if it had one
   * when the loop started (the loop holds that array, which the engine keeps
   * updating), or the empty fallback `[]` if it had none.
   */
  function Tracked(arrayPresent: bool, live: seq<Particle?>): seq<Particle?> {
    if arrayPresent then live else []
  }

  /** An original after a capture pass: set from the current value only if not yet set. */
  function Captured(orig: Option<real>, current: Option<real>): (r: Option<real>)
    ensures orig.Some? ==> r == orig
    ensures orig.None? ==> r == current
  {
    if orig == None && current != None then current else orig
  }

  /** Once an original is set, later capture passes never change it. */
  lemma CapturedOnce(orig: Option<real>, c1: Option<real>, c2: Option<real>)
    requires Captured(orig, c1).Some?
    ensures Captured(Captured(orig, c1), c2) == Captured(orig, c1)
  {
  }

  /** The velocity default: a missing `velocity` or a missing component reads as 0. */
  function OrigVelocityOf(velocity: Option<Velocity>): (r: OrigVelocity)
    ensures velocity.None? ==> r == OrigVelocity(0.0, 0.0)
    ensures velocity.Some? ==> r.h == velocity.value.horizontal.GetOr(0.0) && r.v == velocity.value.vertical.GetOr(0.0)
  {
    match velocity
    case None => OrigVelocity(0.0, 0.0)
    case Some(vel) => OrigVelocity(vel.horizontal.GetOr(0.0), vel.vertical.GetOr(0.0))
  }

  function CapturedVelocity(orig: Option<OrigVelocity>, velocity: Option<Velocity>): (r: Option<OrigVelocity>)
    ensures r.Some?
    ensures orig.Some? ==> r == orig
  {
    if orig == None then Some(OrigVelocityOf(velocity)) else orig
  }

  /** Captures one particle's originals; `withVelocity` also captures `_origVel`. */
  method CaptureParticle(p: Particle, withVelocity: bool)
    modifies p
    ensures p.size == old(p.size) && p.opacity == old(p.opacity) && p.velocity == old(p.velocity)
    ensures p.origSize == Captured(old(p.origSize), p.size)
    ensures p.origOpacity == Captured(old(p.origOpacity), p.opacity)
    ensures p.origVel == if withVelocity then CapturedVelocity(old(p.origVel), p.velocity) else old(p.origVel)
  {
    if p.origSize == None && p.size != None {
      p.origSize := p.size;
    }
    if p.origOpacity == None && p.opacity != None {
      p.origOpacity := p.opacity;
    }
    if withVelocity && p.origVel == None {
      p.origVel := Some(OrigVelocityOf(p.velocity));
    }
  }

  /**
   * The capture pass over the engine's array: null entries are skipped, and a
   * particle's originals are set only where still unset, so an original, once
   * captured, is never overwritten. The visible fields are not touched.
   */
  method CaptureOriginals(ps: seq<Particle?>, withVelocity: bool)
    modifies Members(ps)
    ensures forall p: Particle | p in ps ::
      p.size == old(p.size) && p.opacity == old(p.opacity) && p.velocity == old(p.velocity)
    ensures forall p: Particle | p in ps ::
      && p.origSize == Captured(old(p.origSize), old(p.size))
      && p.origOpacity == Captured(old(p.origOpacity), old(p.opacity))
      && p.origVel == if withVelocity then CapturedVelocity(old(p.origVel), old(p.velocity)) else old(p.origVel)
  {
    for i := 0 to |ps|
      invariant forall p: Particle | p in ps ::
        p.size == old(p.size) && p.opacity == old(p.opacity) && p.velocity == old(p.velocity)
      invariant forall p: Particle | p in ps && p in ps[..i] ::
        && p.origSize == Captured(old(p.origSize), old(p.size))
        && p.origOpacity == Captured(old(p.origOpacity), old(p.opacity))
        && p.origVel == if withVelocity then CapturedVelocity(old(p.origVel), old(p.velocity)) else old(p.origVel)
      invariant forall p: Particle | p in ps && p !in ps[..i] ::
        p.origSize == old(p.origSize) && p.origOpacity == old(p.origOpacity) && p.origVel == old(p.origVel)
    {
      var p := ps[i];
      if p != null {
        CaptureParticle(p, withVelocity);
      }
      assert ps[..i + 1] == ps[..i] + [ps[i]];
    }
    assert ps[..|ps|] == ps;
  }

  /** What a frame may do to a velocity: keep it absent, or write both components within the jitter bound. */
  ghost predicate JitteredWithin(before: Option<Velocity>, after: Option<Velocity>, bass: real, treble: real) {
    && (before.None? <==> after.None?)
    && (after.Some? ==>
          && after.value.horizontal.Some? && after.value.vertical.Some?
          && -JitterWidth(bass) / 2.0 <= after.value.horizontal.value <= JitterWidth(bass) / 2.0
          && -JitterWidth(treble) / 2.0 <= after.value.vertical.value <= JitterWidth(treble) / 2.0)
  }

  /**
   * One particle's share of a frame. Size and opacity are written from the
   * original (or the default) and only where the field exists; with jitter,
   * the velocity is overwritten from two random draws when it exists.
   */
  method UpdateParticle(p: Particle, mult: real, add: real, jitter: bool,
                        bass: real, treble: real, rh: real, rv: real)
    requires bass >= 0.0 && treble >= 0.0
    requires jitter ==> 0.0 <= rh < 1.0 && 0.0 <= rv < 1.0
    modifies p
    ensures p.origSize == old(p.origSize) && p.origOpacity == old(p.origOpacity) && p.origVel == old(p.origVel)
    ensures p.size == WrittenSize(old(p.size), p.origSize, mult)
    ensures p.opacity == WrittenOpacity(old(p.opacity), p.origOpacity, add)
    ensures !jitter ==> p.velocity == old(p.velocity)
    ensures jitter ==> JitteredWithin(old(p.velocity), p.velocity, bass, treble)
    ensures jitter && old(p.velocity).Some? ==>
      p.velocity == Some(Velocity(Some(Jitter(rh, bass)), Some(Jitter(rv, treble))))
  {
    var newSize := SizeTarget(p.origSize, mult);
    if p.size != None {
      p.size := Some(newSize);
    }
    var newOp := OpacityTarget(p.origOpacity, add);
    if p.opacity != None {
      p.opacity := Some(newOp);
    }
    if jitter {
      var hv, vv := Jitter(rh, bass), Jitter(rv, treble);
      if p.velocity != None {
        p.velocity := Some(Velocity(Some(hv), Some(vv)));
      }
    }
  }

  /**
   * One frame of the audio loop over the engine's array, for one analyser
   * sample. Each particle's new size and opacity are determined by its
   * captured original and the sample alone; originals are not touched; fields
   * a particle lacks stay absent; null entries are skipped. With the jitter
   * preset, `random[2 * i]` and `random[2 * i + 1]` are the two
   * `Math.random()` draws for entry `i`.
   */
  method ApplyFrame(ps: seq<Particle?>, sample: seq<Byte>, preset: Preset, random: seq<real>)
    requires |sample| >= 1
    requires preset.jitter ==> |random| >= 2 * |ps|
    requires preset.jitter ==> forall k :: 0 <= k < |random| ==> 0.0 <= random[k] < 1.0
    modifies Members(ps)
    ensures forall p: Particle | p in ps ::
      p.origSize == old(p.origSize) && p.origOpacity == old(p.origOpacity) && p.origVel == old(p.origVel)
    ensures forall p: Particle | p in ps ::
      p.size == WrittenSize(old(p.size), p.origSize, SizeMultiplier(preset, BassEnergy(sample)))
    ensures forall p: Particle | p in ps ::
      p.opacity == WrittenOpacity(old(p.opacity), p.origOpacity, OpacityAdd(preset, TrebleEnergy(sample)))
    ensures forall p: Particle | p in ps ::
      if preset.jitter then JitteredWithin(old(p.velocity), p.velocity, BassEnergy(sample), TrebleEnergy(sample))
      else p.velocity == old(p.velocity)
  {
    var bass, treble := BassEnergy(sample), TrebleEnergy(sample);
    var mult, add := SizeMultiplier(preset, bass), OpacityAdd(preset, treble);
    for i := 0 to |ps|
      invariant forall p: Particle | p in ps ::
        p.origSize == old(p.origSize) && p.origOpacity == old(p.origOpacity) && p.origVel == old(p.origVel)
      invariant forall p: Particle | p in ps ::
        p.size.Some? == old(p.size).Some? && p.opacity.Some? == old(p.opacity).Some?
      invariant forall p: Particle | p in ps && p in ps[..i] ::
        && p.size == WrittenSize(old(p.size), p.origSize, mult)
        && p.opacity == WrittenOpacity(old(p.opacity), p.origOpacity, add)
        && if preset.jitter then JitteredWithin(old(p.velocity), p.velocity, bass, treble)
           else p.velocity == old(p.velocity)
      invariant forall p: Particle | p in ps && p !in ps[..i] ::
        p.size == old(p.size) && p.opacity == old(p.opacity) && p.velocity == old(p.velocity)
    {
      var p := ps[i];
      if p != null {
        var rh, rv := 0.0, 0.0;
        if preset.jitter {
          rh, rv := random[2 * i], random[2 * i + 1];
        }
        UpdateParticle(p, mult, add, preset.jitter, bass, treble, rh, rv);
      }
      assert ps[..i + 1] == ps[..i] + [ps[i]];
    }
    assert ps[..|ps|] == ps;
  }
}
