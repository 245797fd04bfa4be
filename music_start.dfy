/**
 * The start button's click handler in src/js/audio.js: disable the button,
 * set up the audio graph, start playback, open the curtain, wait for the
 * particle container, capture originals (including velocity) and run the
 * frame loop with the gentle preset and velocity jitter until the exposed
 * stop function clears the `rafRunning` flag.
 *
 * The browser's answers are parameters, as in module CurtainStart. When the
 * page has no `<audio id="bgMusic">`, each run creates a fresh, detached audio
 * element, so there is no "missing audio element" case. When the page has
 * one, every run reuses it, and a media element can feed only one audio
 * graph: `createMediaElementSource` throws on a second run, outside any
 * `try`, after the button was disabled. Whether the page has that element
 * and whether it has a curtain are fixed when the page loads.
 */
module MusicStart {
  import opened Wrappers
  import opened Spectrum
  import opened ParticleSync
  import opened ContainerPoll

  datatype Outcome =
    | Ignored       // the button is disabled or the listener was removed: no click reaches the handler
    | NoAudioApi    // the AudioContext constructor threw
    | SourceFailed  // createMediaElementSource threw: the page's audio element already feeds a graph
    | PlayFailed    // resume() or play() rejected
    | NoContainer   // the particle container never appeared
    | Started       // the frame loop is running

  /**
   * How a handler run ends, by the first check that fails; `sourceBound` says
   * that the audio element this run uses already feeds an earlier run's graph.
   */
  function HandlerOutcome(audioApi: bool, sourceBound: bool, playOk: bool, available: seq<bool>): Outcome {
    if !audioApi then NoAudioApi
    else if sourceBound then SourceFailed
    else if !playOk then PlayFailed
    else if !FoundWithin(available) then NoContainer
    else Started
  }

  /** The button is re-enabled on exactly the two recoverable failures; otherwise it stays disabled. */
  function DisabledAfter(outcome: Outcome): bool
    requires outcome != Ignored
  {
    outcome != PlayFailed && outcome != NoContainer
  }

  /** Random draws as `Math.random()` returns them: in [0, 1), two per array entry. */
  predicate RandomDraws(random: seq<real>, entries: nat) {
    |random| >= 2 * entries && forall k :: 0 <= k < |random| ==> 0.0 <= random[k] < 1.0
  }

  class StartButton {
    /** The page has an `<audio id="bgMusic">` element, which every run reuses. */
    const pageAudio: bool
    /** The page has a curtain element. */
    const curtainPresent: bool
    /** The page's audio element has been connected to an audio graph by an earlier run. */
    var pageAudioBound: bool
    var disabled: bool
    var listening: bool
    var curtainOpen: bool
    var loopStarted: bool
    var rafRunning: bool
    var stopExposed: bool
    var arrayPresent: bool
    ghost var lookups: nat

    /**
     * The loop starts at most once: once it has started, the button is
     * disabled, its listener removed and the stop function exposed; the
     * running flag is only ever set by a start.
     */
    ghost predicate Valid()
      reads this
    {
      && (loopStarted ==> disabled && !listening && stopExposed)
      && (rafRunning ==> loopStarted)
      && (pageAudioBound ==> pageAudio)
    }

    constructor (pageAudio: bool, curtainPresent: bool)
      ensures Valid()
      ensures this.pageAudio == pageAudio && this.curtainPresent == curtainPresent && !pageAudioBound
      ensures !disabled && listening && !curtainOpen && !loopStarted && !rafRunning && !stopExposed
      ensures lookups == 0
    {
      this.pageAudio, this.curtainPresent, pageAudioBound := pageAudio, curtainPresent, false;
      disabled, listening, curtainOpen := false, true, false;
      loopStarted, rafRunning, stopExposed, arrayPresent := false, false, false, false;
      lookups := 0;
    }

    /**
     * One click on the start button. The handler disables the button first;
     * when the Web Audio API is missing it returns with the button still
     * disabled; when the page's audio element already feeds an earlier run's
     * graph, the source-node call throws and the button stays disabled; when
     * playback fails it re-enables the button and returns before the curtain
     * opens or any particle is touched; when the container never appears it
     * re-enables the button; on success the button stays disabled and its
     * listener is removed. The curtain opens only if the page has one.
     */
    method Click(audioApi: bool, playOk: bool, available: seq<bool>,
                 particleArray: Option<seq<Particle?>>, sample: seq<Byte>, random: seq<real>)
      returns (outcome: Outcome)
      requires Valid()
      requires |sample| == BinCount
      requires RandomDraws(random, |particleArray.GetOr([])|)
      modifies this, Members(particleArray.GetOr([]))
      ensures Valid()
      ensures (old(disabled) || !old(listening)) ==> outcome == Ignored && unchanged(this)
      ensures !old(disabled) && old(listening) ==>
        outcome == HandlerOutcome(audioApi, pageAudio && old(pageAudioBound), playOk, available)
      ensures outcome != Ignored ==> disabled == DisabledAfter(outcome)
      ensures listening == (old(listening) && outcome != Started)
      ensures pageAudioBound == (old(pageAudioBound) || (pageAudio && outcome in {PlayFailed, NoContainer, Started}))
      ensures curtainOpen == (old(curtainOpen) || (curtainPresent && outcome in {NoContainer, Started}))
      ensures loopStarted == (old(loopStarted) || outcome == Started)
      ensures rafRunning == (old(rafRunning) || outcome == Started)
      ensures stopExposed == (old(stopExposed) || outcome == Started)
      ensures outcome == Started ==> arrayPresent == particleArray.Some?
      ensures outcome in {Ignored, NoAudioApi, SourceFailed, PlayFailed} ==> lookups == old(lookups)
      ensures old(lookups) <= lookups <= old(lookups) + MaxWaits + 1
      ensures outcome != Started ==> forall p: Particle | p in particleArray.GetOr([]) :: unchanged(p)
      ensures outcome == Started ==> forall p: Particle | p in particleArray.GetOr([]) ::
        && p.origSize == Captured(old(p.origSize), old(p.size))
        && p.origOpacity == Captured(old(p.origOpacity), old(p.opacity))
        && p.origVel == CapturedVelocity(old(p.origVel), old(p.velocity))
        && p.size == WrittenSize(old(p.size), p.origSize, SizeMultiplier(Gentle, BassEnergy(sample)))
        && p.opacity == WrittenOpacity(old(p.opacity), p.origOpacity, OpacityAdd(Gentle, TrebleEnergy(sample)))
        && JitteredWithin(old(p.velocity), p.velocity, BassEnergy(sample), TrebleEnergy(sample))
    {
      if disabled || !listening {
        return Ignored;
      }
      disabled := true;
      if !audioApi {
        return NoAudioApi;
      }
      if pageAudio && pageAudioBound {
        return SourceFailed;
      }
      if pageAudio {
        pageAudioBound := true;
      }
      if !playOk {
        disabled := false;
        return PlayFailed;
      }
      if curtainPresent {
        curtainOpen := true;
      }
      var found, waits, calls := PollContainer(available);
      lookups := lookups + calls;
      if !found {
        disabled := false;
        return NoContainer;
      }
      var ps := particleArray.GetOr([]);
      CaptureOriginals(ps, true);
      arrayPresent := particleArray.Some?;
      rafRunning := true;
      loopStarted := true;
      ApplyFrame(ps, sample, Gentle, random);
      listening := false;
      disabled := true;
      stopExposed := true;
      outcome := Started;
    }

    /**
     * A later call of the loop body, on the engine's array as it is now. After
     * the stop function has run it returns at once: nothing is sampled (the
     * result is false), no particle changes, and no further frame is
     * scheduled.
     */
    method Frame(live: seq<Particle?>, sample: seq<Byte>, random: seq<real>) returns (sampled: bool)
      requires Valid() && loopStarted
      requires |sample| == BinCount
      requires RandomDraws(random, |live|)
      modifies Members(Tracked(arrayPresent, live))
      ensures sampled == rafRunning
      ensures !rafRunning ==> forall p: Particle | p in live :: unchanged(p)
      ensures rafRunning ==> forall p: Particle | p in Tracked(arrayPresent, live) ::
        && p.origSize == old(p.origSize) && p.origOpacity == old(p.origOpacity) && p.origVel == old(p.origVel)
        && p.size == WrittenSize(old(p.size), p.origSize, SizeMultiplier(Gentle, BassEnergy(sample)))
        && p.opacity == WrittenOpacity(old(p.opacity), p.origOpacity, OpacityAdd(Gentle, TrebleEnergy(sample)))
        && JitteredWithin(old(p.velocity), p.velocity, BassEnergy(sample), TrebleEnergy(sample))
    {
      if !rafRunning {
        return false;
      }
      ApplyFrame(Tracked(arrayPresent, live), sample, Gentle, random);
      sampled := true;
    }

    /** `window._rhythmStopAudio`: clears the running flag (pausing the audio is not modelled). */
    method Stop()
      requires Valid() && stopExposed
      modifies this
      ensures Valid()
      ensures !rafRunning
      ensures pageAudioBound == old(pageAudioBound)
      ensures disabled == old(disabled) && listening == old(listening) && curtainOpen == old(curtainOpen)
      ensures loopStarted == old(loopStarted) && stopExposed == old(stopExposed)
      ensures arrayPresent == old(arrayPresent) && lookups == old(lookups)
    {
      rafRunning := false;
    }
  }

  /** Stopping is final: a frame after the stop function touches no particle and schedules nothing. */
  method StopThenFrame(b: StartButton, live: seq<Particle?>, sample: seq<Byte>, random: seq<real>)
    returns (sampled: bool)
    requires b.Valid() && b.stopExposed && b.loopStarted
    requires |sample| == BinCount
    requires RandomDraws(random, |live|)
    modifies b, Members(live)
    ensures !sampled && !b.rafRunning
    ensures forall p: Particle | p in live :: unchanged(p)
  {
    b.Stop();
    sampled := b.Frame(live, sample, random);
  }

  /**
   * With an audio element in the page, a click whose playback fails cannot be
   * retried: the handler re-enables the button, but the retry throws at the
   * source-node call and leaves the button disabled, so every later click is
   * ignored and the loop never starts.
   */
  method RetryWithPageAudio(b: StartButton, available: seq<bool>, particleArray: Option<seq<Particle?>>,
                            sample: seq<Byte>, random: seq<real>, retryPlayOk: bool)
    returns (first: Outcome, second: Outcome, third: Outcome)
    requires b.Valid() && b.pageAudio && !b.pageAudioBound && !b.disabled && b.listening
    requires |sample| == BinCount
    requires RandomDraws(random, |particleArray.GetOr([])|)
    modifies b, Members(particleArray.GetOr([]))
    ensures first == PlayFailed && second == SourceFailed && third == Ignored
    ensures b.disabled && !b.loopStarted && !b.rafRunning
    ensures forall p: Particle | p in particleArray.GetOr([]) :: unchanged(p)
  {
    first := b.Click(true, false, available, particleArray, sample, random);
    second := b.Click(true, retryPlayOk, available, particleArray, sample, random);
    third := b.Click(true, true, available, particleArray, sample, random);
  }
}
