# Rhythm Club: escaping and the audio-reactive particle loop

This project models the sequential logic of the Rhythm Club promotional site, a single-page
web site for a college music club. Most of the site is DOM templating and library
configuration. Three pieces have logic worth stating:

- **The HTML escaper** (`escapeHTML` in `src/js/app.js`). It turns each of `& < > " '`
  into a character reference in the sense of section 13.1.4 "Character references" of the
  HTML Living Standard. The event modal then escapes its description and turns every line
  feed into `<br>`. Module `HtmlEscape` models both as functions over `string`. They are
  proved against an independent decoder (`Unescape`).
- **The audio-reactive frame update.** Each display frame reads the analyser's 128
  frequency bins (0..255). It averages the bass range `[0, max(1, floor(N/4)))` and the
  treble range `[floor(N/2), N)`, then normalises both by 255. From these it derives a size
  multiplier and an opacity offset. It then writes `clamp(orig * mult, 6, 80)` and
  `clamp(origOpacity + add, 0.1, 1)` into every particle that has those fields. Two presets
  exist:
  - *punchy* (`0.5 + 4·bass`, `1.5·treble`) in `src/js/app.js`;
  - *gentle* (`0.9 + 1.8·bass`, `0.9·treble`) in `src/js/audio.js`, which also writes a
    random velocity into each particle that has a velocity.

  Module `Spectrum` holds the arithmetic as functions over `real`. Module `ParticleSync`
  holds the particles. `Particle` is a class with `Option` fields. Capturing originals and
  the frame update are in-place loops over the engine's array.
- **Start-up and control.** Both click handlers poll for the particle container: one lookup,
  then at most 20 rounds of "wait 100 ms, look again" (module `ContainerPoll`, a loop over an
  oracle of answers). The curtain logo's handler in `src/js/app.js` is module `CurtainStart`.
  The start button's handler in `src/js/audio.js` is module `MusicStart`. That handler
  disables and re-enables the button and keeps a `rafRunning` flag that the exposed stop
  function clears.

Inputs the code gets from the browser are parameters of the model:
- whether the page has an `<audio id="bgMusic">` element;
- whether the page has a curtain element (the start button's handler checks; the logo's
  handler is only registered when both the logo and the curtain exist, src/js/app.js:221);
- whether the Web Audio API exists;
- whether playback starts;
- the sequence of container lookup answers;
- the particle array;
- each frame's analyser sample;
- the `Math.random()` draws.

Points where the code does something other than one might expect, and the model follows the code:
- The code makes 21 container lookups with 20 waits between them, not "20 attempts".
- In `src/js/audio.js`, a failed `play()` re-enables the button and returns before the
  curtain opens. Only `src/js/app.js` carries on with the reveal.
- `src/js/audio.js` already has a stop flag (`rafRunning`); `src/js/app.js` has none.
- When the Web Audio API is missing, `src/js/audio.js` returns with the button still
  disabled (line 41). The model keeps that.
- When the page has an `<audio id="bgMusic">` element, the retry that `src/js/audio.js`
  offers by re-enabling the button (lines 59 and 97) can never succeed. The retry reuses
  the same element, and `createMediaElementSource` (line 44) throws for an element that
  already feeds an audio graph. The throw is outside any `try`, after the button was
  disabled, so the button stays disabled for good. Without that element each run creates a
  fresh one, and a retry works. `MusicStart.RetryWithPageAudio` shows the first case.

## Model

| member | source | states |
|---|---|---|
| `HtmlEscape.EscapeHtml` | src/js/app.js:27-38 | A missing or empty argument gives `""`. Any other string gives its character-by-character escape. |
| `HtmlEscape.EscapeHtmlEmptyIff` | src/js/app.js:28 | The result is empty exactly when the argument is missing or empty. So `escapeHTML(x) \|\| fallback` uses the fallback in just those cases. |
| `HtmlEscape.EscapeAppend` | src/js/app.js:29-37 | Escaping works per character and in order: the escape of `a + b` is the escape of `a` followed by the escape of `b`. |
| `HtmlEscape.Escape` | src/js/app.js:29-37 | The output never contains a raw `<`, `>`, `"` or `'`. |
| `HtmlEscape.EscapeLength` | src/js/app.js:29-37 | The output is never shorter than the input. It is strictly longer when the input contains any of the five special characters. |
| `HtmlEscape.EscapeIdentityIffSafe` | src/js/app.js:29-37 | A string is returned unchanged if and only if it contains none of `& < > " '`. |
| `HtmlEscape.UnescapeEscape` | src/js/app.js:30-36 | Decoding the five references `&amp; &lt; &gt; &quot; &#039;` recovers the original string exactly: each character maps to its own reference. |
| `HtmlEscape.EscapeIdempotentIffSafe` | src/js/app.js:29-37 | Escaping twice gives the same as escaping once if and only if the input holds none of `& < > " '`. Otherwise the second pass escapes the `&` the first pass introduced. |
| `HtmlEscape.NewlinesToBr` | src/js/app.js:127 | No line feed is left after the replacement. |
| `HtmlEscape.NewlinesToBrAppend` | src/js/app.js:127 | Replacing line feeds with `<br>` works per character: it distributes over concatenation. |
| `HtmlEscape.NewlinesToBrSafe` | src/js/app.js:127 | A string without line feeds passes through the `<br>` replacement unchanged. |
| `HtmlEscape.ModalDescriptionPerChar` | src/js/app.js:127 | Escaping and then replacing line feeds is one per-character map. A line feed becomes `<br>`, a special character becomes its reference, and anything else is copied. |
| `HtmlEscape.ModalMarkupIsOnlyBr` | src/js/app.js:127 | That per-character map never yields a line feed. Every `<` in its output begins `<br>` and every `>` ends one. |
| `HtmlEscape.ModalDescription` | src/js/app.js:127 | The modal's description is the per-character map above applied to the text (a missing description reads as empty). It has no line feed, and its only markup is `<br>`: every `<` begins one and every `>` ends one. |
| `Spectrum.Sum` | src/js/app.js:296 | The sum of `n` bins, each in 0..255, lies in `[0, 255·n]`. |
| `Spectrum.Average` | src/js/app.js:296 | The mean of a non-empty run of bins lies in [0, 255]. |
| `Spectrum.BandsNonEmpty` | src/js/app.js:301-302 | For N ≥ 1, the bass slice has at least 1 and at most N bins. The treble slice has `N - floor(N/2) ≥ 1` bins. So both averages are defined. |
| `Spectrum.BassEnergy` | src/js/app.js:301-304 | The normalised bass energy lies in [0, 1]. |
| `Spectrum.TrebleEnergy` | src/js/app.js:302-305 | The normalised treble energy lies in [0, 1]. |
| `Spectrum.EnergyOfConstantSample` | src/js/app.js:301-305 | If every bin of a sample holds `v`, both energies are `v/255`. So silence gives 0 and saturation gives 1. |
| `Spectrum.SizeMultiplier` | src/js/app.js:307 | With a non-negative gain and a bass energy in [0, 1], the multiplier lies between the preset's base and base plus gain. |
| `Spectrum.OpacityAdd` | src/js/audio.js:133 | With a non-negative gain and a treble energy in [0, 1], the opacity offset lies between 0 and the gain. |
| `Spectrum.PunchyRanges` | src/js/app.js:307-308 | For energies in [0, 1], the punchy multiplier lies in [0.5, 4.5] and its opacity offset in [0, 1.5]. |
| `Spectrum.GentleRanges` | src/js/audio.js:132-133 | For energies in [0, 1], the gentle multiplier lies in [0.9, 2.7] and its opacity offset in [0, 0.9]. |
| `Spectrum.PresetMonotone` | src/js/app.js:307-308 | With non-negative gains (both presets have them), the multiplier never decreases as bass energy grows. The offset never decreases as treble energy grows. |
| `Spectrum.Clamp` | src/js/app.js:313 | `max(lo, min(x, hi))` lies in `[lo, hi]`. It returns `x` when `x` is in range and the nearer bound otherwise. |
| `Spectrum.SizeTarget` | src/js/app.js:312-313 | The size computed for a particle (its original, or 16, times the multiplier) always lies in [6, 80]. |
| `Spectrum.OpacityTarget` | src/js/app.js:316-317 | The opacity computed for a particle (its original, or 0.6, plus the offset) always lies in [0.1, 1]. |
| `Spectrum.PunchyExamples` | src/js/app.js:307-317 | With the defaults, zero bass gives size 8 and full bass gives 72. Full treble gives opacity 1. |
| `Spectrum.WrittenSize` | src/js/app.js:312-314 | After a frame, a size field exists exactly when it existed before. When it exists, it lies in [6, 80]. |
| `Spectrum.WrittenOpacity` | src/js/app.js:316-318 | After a frame, an opacity field exists exactly when it existed before. When it exists, it lies in [0.1, 1]. |
| `Spectrum.FrameIgnoresPreviousOutput` | src/js/app.js:312-318 | The written values depend only on the original and the sample, never on the previous frame's output. Repeating a frame with the same sample writes the same values. |
| `Spectrum.Jitter` | src/js/audio.js:151-152 | For a draw `r` in [0, 1), the velocity component `(r - 0.5)·(0.2 + 2e)` has magnitude at most `(0.2 + 2e)/2`. |
| `ParticleSync.Captured` | src/js/app.js:292-293 | An original that is already set is kept. An unset one takes the current field value. |
| `ParticleSync.CapturedOnce` | src/js/app.js:292-293 | Once an original is set, no later capture pass changes it. |
| `ParticleSync.OrigVelocityOf` | src/js/audio.js:108-113 | The captured velocity is `{h: 0, v: 0}` when `velocity` is missing. Otherwise each missing component reads as 0. |
| `ParticleSync.CapturedVelocity` | src/js/audio.js:108-113 | `_origVel` is set when unset and never replaced once set. |
| `ParticleSync.CaptureParticle` | src/js/audio.js:104-113 | One particle's originals are captured as above; its size, opacity and velocity are unchanged. |
| `ParticleSync.CaptureOriginals` | src/js/app.js:289-294 | The capture pass skips null entries and sets every particle's originals as `Captured` says. It leaves the visible fields untouched, and it holds when a particle appears twice in the array. |
| `ParticleSync.UpdateParticle` | src/js/audio.js:136-157 | One particle's frame update. Size and opacity are written from the original only where the field exists, and the originals stay unchanged. With jitter, an existing velocity gets exactly the two jitter values, and a missing one stays missing. |
| `ParticleSync.ApplyFrame` | src/js/app.js:310-319 | After a frame, every particle in the array has the size and opacity that the sample and its original determine, or a still-missing field. Its originals are unchanged and null entries are skipped. Velocities are unchanged without jitter and lie within the jitter bound with it. |
| `ContainerPoll.PollContainer` | src/js/app.js:277-287 | At most 20 waits and 21 lookups. The container is found exactly when one of the first 21 lookups finds it, and then at the first such lookup. If none does, the loop stops after exactly 20 waits. |
| `CurtainStart.LogoHandler.Click` | src/js/app.js:222-326 | The handler runs at most once. The curtain opens first. A missing audio element, a missing Web Audio API or a missing container ends it without touching a particle, and a failed `play()` does not. On success it captures originals, runs the first punchy frame and starts the loop. |
| `CurtainStart.LogoHandler.Frame` | src/js/app.js:298-322 | A later frame of the running loop writes the punchy size and opacity into the engine's current array, which is the empty fallback when the array was missing at start. It leaves originals and velocities alone. |
| `MusicStart.StartButton.Click` | src/js/audio.js:19-175 | The outcome of a click is decided by the first failing check. A click on a disabled button is ignored. After a missing Web Audio API the button stays disabled. When the page's audio element already feeds an earlier run's graph, the source-node call throws and the button stays disabled. After a failed play it is re-enabled, before the curtain opens or any particle changes. The curtain opens only if the page has one. After a missing container it is re-enabled with the loop never started. On success it stays disabled, its listener is removed, and the first gentle frame runs. |
| `MusicStart.StartButton.Frame` | src/js/audio.js:120-160 | While running, a frame writes gentle sizes, opacities and bounded velocity jitter, and keeps the originals. Once stopped, it samples nothing, changes no particle and schedules no further frame. |
| `MusicStart.StartButton.Stop` | src/js/audio.js:170-171 | The stop function clears the running flag and changes nothing else in the handler's state. |
| `MusicStart.RetryWithPageAudio` | src/js/audio.js:24-61 | With an audio element in the page, a click whose playback fails re-enables the button, but the retry throws at `createMediaElementSource` and leaves it disabled. Every later click is ignored, the loop never starts and no particle changes. |
| `MusicStart.StopThenFrame` | src/js/audio.js:121 | After the stop function, the next frame call returns without sampling and without modifying any particle. |

## Left out

- DOM templating (`renderTeam`, `renderEvents`), modal show/hide through CSS classes, and the rest of the page set-up (src/js/app.js:41-158). This is presentation over the browser DOM; only the escaper and the modal's description transform are modelled.
- Scroll-triggered animation timelines and the particle library's configuration objects (src/js/app.js:166-215, src/js/script.js, src/script.js). These are declarative configuration for external libraries.
- The 3D background (src/js/app.js:332-381). It is a GPU library wrapper; line 356 refers to an undefined `directional_light`.
- src/js/data.js is static content with no logic.
- Building the Web Audio graph, `resume()`, `play()`, `pause()`, `close()`, `requestAnimationFrame`, the 100 ms sleeps and the curtain's 2-second hide timer. These are asynchronous browser I/O, so only their outcomes enter the model, as parameters. `Stop` does not model pausing the audio or closing the context.
- `Math.random()` and IEEE-754 rounding. Draws are parameters in [0, 1), and all arithmetic is on `real`.
- A bin count of 0. The analyser's transform size is fixed at 256, so N is always 128. With N = 0 the source would divide by zero and get NaN. The band functions require N ≥ 1.
- A particle array that the engine replaces by a new array object after start-up is not modelled. Each later frame is given the engine's current array, or the empty fallback when the array was missing at start.
- Listener bookkeeping is reduced to two flags: whether the button is disabled and whether the listener is attached. Of the Web Audio graph only one fact is kept: whether the page's audio element already feeds a graph. The contexts an abandoned run leaves open are not modelled.
- ParticleSync.ApplyFrame: with jitter it states only the bound on each written velocity and that velocity presence is kept, not which random draw was used. A particle listed twice keeps the draws of its last entry. `UpdateParticle` states the exact values for a single entry.
