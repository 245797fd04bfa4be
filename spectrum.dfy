/**
 * The per-frame arithmetic of the audio-reactive particle loop: band energies
 * from an analyser sample, the two coefficient presets, and the clamped values
 * written into a particle. Everything here is pure; the particles themselves
 * are in module ParticleSync.
 *
 * Sizes, opacities and energies are `real`: the properties are about ranges and
 * clamps, so IEEE-754 rounding is not modelled.
 */
module Spectrum {
  import opened Wrappers

  /** One frequency bin as the analyser writes it into a `Uint8Array`. */
  type Byte = x: int | 0 <= x <= 255

  /** The analyser's transform size, and the bin count it yields (`frequencyBinCount`). */
  const FftSize: nat := 256
  const BinCount: nat := FftSize / 2

  /** Size and opacity defaults used when no original was captured, and the clamp bounds. */
  const DefaultSize: real := 16.0
  const DefaultOpacity: real := 0.6
  const MinSize: real := 6.0
  const MaxSize: real := 80.0
  const MinOpacity: real := 0.1
  const MaxOpacity: real := 1.0

  /** Sum of the bins, as `reduce((a, b) => a + b, 0)` folds them: at most 255 per bin. */
  function Sum(s: seq<Byte>): (r: int)
    ensures 0 <= r <= 255 * |s|
  {
    if s == [] then 0 else Sum(s[..|s| - 1]) + s[|s| - 1]
  }

  /** `avg(arr)`: the arithmetic mean of a non-empty run of bins lies in 0..255. */
  function Average(s: seq<Byte>): (r: real)
    requires |s| > 0
    ensures 0.0 <= r <= 255.0
  {
    var total, n := Sum(s) as real, |s| as real;
    assert 0.0 <= total <= 255.0 * n;
    total / n
  }

  /** End of the bass range: the lower quarter of the bins, but never fewer than one bin. */
  function BassEnd(n: nat): nat {
    if n / 4 > 1 then n / 4 else 1
  }

  /** Start of the treble range: the upper half of the bins. */
  function TrebleStart(n: nat): nat {
    n / 2
  }

  /** Both ranges are non-empty for any bin count of at least one, so both averages are defined. */
  lemma BandsNonEmpty(n: nat)
    requires n >= 1
    ensures 1 <= BassEnd(n) <= n
    ensures TrebleStart(n) < n && n - TrebleStart(n) >= 1
  {
  }

  /** Mean of the bass bins, normalised by 255. */
  function BassEnergy(sample: seq<Byte>): (e: real)
    requires |sample| >= 1
    ensures 0.0 <= e <= 1.0
  {
    BandsNonEmpty(|sample|);
    Average(sample[..BassEnd(|sample|)]) / 255.0
  }

  /** Mean of the treble bins, normalised by 255. */
  function TrebleEnergy(sample: seq<Byte>): (e: real)
    requires |sample| >= 1
    ensures 0.0 <= e <= 1.0
  {
    BandsNonEmpty(|sample|);
    Average(sample[TrebleStart(|sample|)..]) / 255.0
  }

  /** A sample whose bins all hold `v` has energy `v / 255` in both bands (0 when silent, 1 when saturated). */
  lemma EnergyOfConstantSample(sample: seq<Byte>, v: Byte)
    requires |sample| >= 1
    requires forall i :: 0 <= i < |sample| ==> sample[i] == v
    ensures BassEnergy(sample) == v as real / 255.0
    ensures TrebleEnergy(sample) == v as real / 255.0
  {
    BandsNonEmpty(|sample|);
    var n := |sample|;
    AverageConstant(sample[..BassEnd(n)], v);
    var treble := sample[TrebleStart(n)..];
    assert forall i :: 0 <= i < |treble| ==> treble[i] == sample[TrebleStart(n) + i];
    AverageConstant(treble, v);
  }

  lemma AverageConstant(s: seq<Byte>, v: Byte)
    requires |s| > 0
    requires forall i :: 0 <= i < |s| ==> s[i] == v
    ensures Average(s) == v as real
  {
    SumConstant(s, v);
    var n := |s| as real;
    assert Sum(s) as real == v as real * n;
  }

  lemma {:induction false} SumConstant(s: seq<Byte>, v: Byte)
    requires forall i :: 0 <= i < |s| ==> s[i] == v
    ensures Sum(s) == v * |s|
  {
    if s != [] {
      SumConstant(s[..|s| - 1], v);
    }
  }

  /**
   * One of the two coefficient presets: the size multiplier is
   * `sizeBase + bass * sizeGain`, the opacity offset `treble * opacityGain`, and
   * `jitter` says whether the frame also randomises each particle's velocity.
   */
  datatype Preset = Preset(sizeBase: real, sizeGain: real, opacityGain: real, jitter: bool)

  /** The logo handler's loop in src/js/app.js: larger swings, no velocity jitter. */
  const Punchy := Preset(0.5, 4.0, 1.5, false)

  /** The start button's loop in src/js/audio.js: gentler swings plus velocity jitter. */
  const Gentle := Preset(0.9, 1.8, 0.9, true)

  /** The size multiplier: with a non-negative gain it grows from `sizeBase` at silence to `sizeBase + sizeGain` at full bass. */
  function SizeMultiplier(p: Preset, bass: real): (r: real)
    ensures p.sizeGain >= 0.0 && 0.0 <= bass <= 1.0 ==> p.sizeBase <= r <= p.sizeBase + p.sizeGain
  {
    ScaledBound(bass, p.sizeGain);
    p.sizeBase + bass * p.sizeGain
  }

  /** The opacity offset: with a non-negative gain it grows from 0 at silence to `opacityGain` at full treble. */
  function OpacityAdd(p: Preset, treble: real): (r: real)
    ensures p.opacityGain >= 0.0 && 0.0 <= treble <= 1.0 ==> 0.0 <= r <= p.opacityGain
  {
    ScaledBound(treble, p.opacityGain);
    treble * p.opacityGain
  }

  /** A fraction in [0, 1] of a non-negative gain lies between 0 and the gain. */
  lemma ScaledBound(x: real, gain: real)
    ensures gain >= 0.0 && 0.0 <= x <= 1.0 ==> 0.0 <= x * gain <= gain
  {
    if gain >= 0.0 && 0.0 <= x <= 1.0 {
      assert (1.0 - x) * gain >= 0.0;
    }
  }

  /** For energies in [0, 1] the punchy preset's multiplier lies in [0.5, 4.5] and its offset in [0, 1.5]. */
  lemma PunchyRanges(bass: real, treble: real)
    requires 0.0 <= bass <= 1.0 && 0.0 <= treble <= 1.0
    ensures 0.5 <= SizeMultiplier(Punchy, bass) <= 4.5
    ensures 0.0 <= OpacityAdd(Punchy, treble) <= 1.5
  {
  }

  /** For energies in [0, 1] the gentle preset's multiplier lies in [0.9, 2.7] and its offset in [0, 0.9]. */
  lemma GentleRanges(bass: real, treble: real)
    requires 0.0 <= bass <= 1.0 && 0.0 <= treble <= 1.0
    ensures 0.9 <= SizeMultiplier(Gentle, bass) <= 2.7
    ensures 0.0 <= OpacityAdd(Gentle, treble) <= 0.9
  {
  }

  /** With non-negative gains (both presets), louder bands never shrink the multiplier or the offset. */
  lemma PresetMonotone(p: Preset, b1: real, b2: real, t1: real, t2: real)
    requires p.sizeGain >= 0.0 && p.opacityGain >= 0.0
    requires b1 <= b2 && t1 <= t2
    ensures SizeMultiplier(p, b1) <= SizeMultiplier(p, b2)
    ensures OpacityAdd(p, t1) <= OpacityAdd(p, t2)
  {
    assert (b2 - b1) * p.sizeGain >= 0.0;
    assert (t2 - t1) * p.opacityGain >= 0.0;
  }

  /** `Math.max(lo, Math.min(x, hi))`. */
  function Clamp(x: real, lo: real, hi: real): (r: real)
    requires lo <= hi
    ensures lo <= r <= hi
    ensures lo <= x <= hi ==> r == x
    ensures x < lo ==> r == lo
    ensures hi < x ==> r == hi
  {
    var m := if x < hi then x else hi;
    if lo > m then lo else m
  }

  /** The size written for a particle: its original (or 16) times the multiplier, clamped to [6, 80]. */
  function SizeTarget(orig: Option<real>, mult: real): (r: real)
    ensures MinSize <= r <= MaxSize
  {
    Clamp(orig.GetOr(DefaultSize) * mult, MinSize, MaxSize)
  }

  /** The opacity written for a particle: its original (or 0.6) plus the offset, clamped to [0.1, 1]. */
  function OpacityTarget(orig: Option<real>, add: real): (r: real)
    ensures MinOpacity <= r <= MaxOpacity
  {
    Clamp(orig.GetOr(DefaultOpacity) + add, MinOpacity, MaxOpacity)
  }

  /** The documented sample points: 16 at zero and full bass, 0.6 at full treble. */
  lemma PunchyExamples()
    ensures SizeTarget(None, SizeMultiplier(Punchy, 0.0)) == 8.0
    ensures SizeTarget(None, SizeMultiplier(Punchy, 1.0)) == 72.0
    ensures OpacityTarget(None, OpacityAdd(Punchy, 1.0)) == 1.0
  {
  }

  /**
   * A size field after a frame: written with the target when present, left
   * absent when absent. The previous value never enters the result.
   */
  function WrittenSize(current: Option<real>, orig: Option<real>, mult: real): (r: Option<real>)
    ensures r.Some? <==> current.Some?
    ensures r.Some? ==> MinSize <= r.value <= MaxSize
  {
    if current.Some? then Some(SizeTarget(orig, mult)) else None
  }

  function WrittenOpacity(current: Option<real>, orig: Option<real>, add: real): (r: Option<real>)
    ensures r.Some? <==> current.Some?
    ensures r.Some? ==> MinOpacity <= r.value <= MaxOpacity
  {
    if current.Some? then Some(OpacityTarget(orig, add)) else None
  }

  /**
   * Frames are relative to the captured original, not to the last frame's
   * output: two frames with the same sample write the same values, whatever
   * the field held before.
   */
  lemma FrameIgnoresPreviousOutput(c1: Option<real>, c2: Option<real>, orig: Option<real>, mult: real, add: real)
    requires c1.Some? <==> c2.Some?
    ensures WrittenSize(c1, orig, mult) == WrittenSize(c2, orig, mult)
    ensures WrittenOpacity(c1, orig, add) == WrittenOpacity(c2, orig, add)
    ensures WrittenSize(WrittenSize(c1, orig, mult), orig, mult) == WrittenSize(c1, orig, mult)
    ensures WrittenOpacity(WrittenOpacity(c1, orig, add), orig, add) == WrittenOpacity(c1, orig, add)
  {
  }

  /**
   * One velocity component: `(Math.random() - 0.5) * (0.2 + energy * 2.0)`.
   * With a draw in [0, 1) and a non-negative energy it is at most half the
   * width away from zero.
   */
  function Jitter(random: real, energy: real): (r: real)
    ensures 0.0 <= random < 1.0 && energy >= 0.0 ==>
              -JitterWidth(energy) / 2.0 <= r <= JitterWidth(energy) / 2.0
  {
    CenteredBound(random - 0.5, JitterWidth(energy));
    (random - 0.5) * JitterWidth(energy)
  }

  function JitterWidth(energy: real): real {
    0.2 + energy * 2.0
  }

  /** An offset in [-1/2, 1/2) of a positive width is at most half the width away from zero. */
  lemma CenteredBound(d: real, w: real)
    ensures -0.5 <= d < 0.5 && w > 0.0 ==> -w / 2.0 <= d * w <= w / 2.0
  {
    if -0.5 <= d < 0.5 && w > 0.0 {
      var below, above := 0.5 - d, d + 0.5;
      assert below > 0.0 && above >= 0.0;
      assert below * w >= 0.0 && above * w >= 0.0;
      assert below * w == 0.5 * w - d * w;
      assert above * w == d * w + 0.5 * w;
    }
  }
}
