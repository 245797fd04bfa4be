/**
 * The curtain logo's click handler in src/js/app.js: open the curtain first,
 * then try to start the audio, wait for the particle container, capture the
 * particles' originals and start the frame loop with the punchy preset.
 *
 * The browser's answers (is there an `<audio id="bgMusic">`, does the Web
 * Audio API exist, does playback start, when does the container appear, what
 * array does it hold, what does the analyser sample) are parameters.
 */
module CurtainStart {
  import opened Wrappers
  import opened Spectrum
  import opened ParticleSync
  import opened ContainerPoll

  datatype Outcome =
    | Ignored          // the once-only listener is gone
    | NoAudioElement   // no audio element in the page
    | NoAudioApi       // the AudioContext constructor threw
    | NoContainer      // the particle container never appeared
    | Started          // the frame loop is running

  /** How the handler ends, by the first check that fails. */
  function HandlerOutcome(audioElement: bool, audioApi: bool, available: seq<bool>): Outcome {
    if !audioElement then NoAudioElement
    else if !audioApi then NoAudioApi
    else if !FoundWithin(available) then NoContainer
    else Started
  }

  class LogoHandler {
    var listening: bool
    var curtainOpen: bool
    var loopRunning: bool
    var arrayPresent: bool
    ghost var lookups: nat

    /** The loop starts at most once: a running loop means the listener is gone. */
    ghost predicate Valid()
      reads this
    {
      loopRunning ==> !listening
    }

    constructor ()
      ensures Valid()
      ensures listening && !curtainOpen && !loopRunning && lookups == 0
    {
      listening, curtainOpen, loopRunning, arrayPresent := true, false, false, false;
      lookups := 0;
    }

    /**
     * One click on the logo. The listener was registered with `once: true`, so
     * only the first click runs the handler. The curtain opens before anything
     * can fail; a failed `play()` is logged and ignored, so the outcome does
     * not depend on `playOk`.
     */
    method Click(audioElement: bool, audioApi: bool, playOk: bool, available: seq<bool>,
                 particleArray: Option<seq<Particle?>>, sample: seq<Byte>) returns (outcome: Outcome)
      requires Valid()
      requires |sample| == BinCount
      modifies this, Members(particleArray.GetOr([]))
      ensures Valid()
      ensures !old(listening) ==> outcome == Ignored && unchanged(this)
      ensures old(listening) ==> !listening && curtainOpen
      ensures old(listening) ==> outcome == HandlerOutcome(audioElement, audioApi, available)
      ensures loopRunning == (old(loopRunning) || outcome == Started)
      ensures outcome == Started ==> arrayPresent == particleArray.Some?
      ensures outcome in {Ignored, NoAudioElement, NoAudioApi} ==> lookups == old(lookups)
      ensures old(lookups) <= lookups <= old(lookups) + MaxWaits + 1
      ensures outcome != Started ==> forall p: Particle | p in particleArray.GetOr([]) :: unchanged(p)
      ensures outcome == Started ==> forall p: Particle | p in particleArray.GetOr([]) ::
        && p.origSize == Captured(old(p.origSize), old(p.size))
        && p.origOpacity == Captured(old(p.origOpacity), old(p.opacity))
        && p.origVel == old(p.origVel)
        && p.size == WrittenSize(old(p.size), p.origSize, SizeMultiplier(Punchy, BassEnergy(sample)))
        && p.opacity == WrittenOpacity(old(p.opacity), p.origOpacity, OpacityAdd(Punchy, TrebleEnergy(sample)))
        && p.velocity == old(p.velocity)
    {
      if !listening {
        return Ignored;
      }
      listening := false;
      curtainOpen := true;
      if !audioElement {
        return NoAudioElement;
      }
      if !audioApi {
        return NoAudioApi;
      }
      // A rejected resume() or play() is only logged here.
      var found, waits, calls := PollContainer(available);
      lookups := lookups + calls;
      if !found {
        return NoContainer;
      }
      var ps := particleArray.GetOr([]);
      CaptureOriginals(ps, false);
      arrayPresent := particleArray.Some?;
      loopRunning := true;
      ApplyFrame(ps, sample, Punchy, []);
      outcome := Started;
    }

    /** A later frame of the running loop, on the engine's array as it is now. */
    method Frame(live: seq<Particle?>, sample: seq<Byte>)
      requires Valid() && loopRunning
      requires |sample| == BinCount
      modifies Members(Tracked(arrayPresent, live))
      ensures forall p: Particle | p in Tracked(arrayPresent, live) ::
        && p.origSize == old(p.origSize) && p.origOpacity == old(p.origOpacity) && p.origVel == old(p.origVel)
        && p.size == WrittenSize(old(p.size), p.origSize, SizeMultiplier(Punchy, BassEnergy(sample)))
        && p.opacity == WrittenOpacity(old(p.opacity), p.origOpacity, OpacityAdd(Punchy, TrebleEnergy(sample)))
        && p.velocity == old(p.velocity)
    {
      ApplyFrame(Tracked(arrayPresent, live), sample, Punchy, []);
    }
  }
}
