# sonografi core, modelled in Dafny

sonografi is a browser music visualiser. This project models the three pieces of its
sequential logic and proves properties about them.

- **Audio analysis** (`src/classes/sound.js`). The `Sound` object owns five uniform
  cells shared with the renderer: an amplitude digest, a frequency digest, two 32-slot
  band arrays and a streak level.
  - Every display frame, an analysis tick turns the analyser's two byte buffers (each
    `fftSize / 2` long) into two means and two band arrays, then ramps the streak
    level one step.
  - Every 133 ms, a timer tick runs the streak detector. It is a hysteresis machine over
    the accumulator `streakStack`, which resets to the reserve on a rising edge.
  - Modules `Uniforms` (the `Cell` class), `Features` (means, slices, band overlays),
    `Streak` (detector and ramp as pure step functions) and `AudioAnalysis` (the `Sound`
    class, whose methods update the cells and arrays in place and are proved equal to
    those functions).
- **Animation registry and loop** (`src/classes/viewport.js`). `_animationList` maps each
  key to the ordered list of functions registered under it. One loop body queues
  `_render` for the next frame, calls every registered function (keys in creation
  order, each list in insertion order), renders, and adds 0.01 to the time cell.
  `stopAnimationLoop` swaps `_render` for a no-op.
  - Module `Animation` holds the registry as a value, with `Add`, `Remove` and
    `Schedule` (the calls of one tick), and the frame queue as a sequence of
    `RenderFn`.
  - Module `Scheduler` holds the `Viewport` class. Its `AnimationList` object is
    updated in place; its `pending` field is the host's animation-frame queue; and
    `Frame` fires the callbacks queued before the frame.
- **Query parameters** (`src/classes/util.js`, `Util.getParams`). Module `QueryParams`
  covers:
  - dropping the leading `?`;
  - decoding the rest;
  - splitting on `&`, then on `=`;
  - folding the pieces left to right into an object.

Registered functions are known only by identity (`Callback(id)`). Calling one appends
it to the viewport's `calls` log.

Where the code and its comments or documentation differ, the model follows the code,
with one exception. For the names every plain object inherits from `Object.prototype`,
`Viewport.AddAnimationFunction` and `Viewport.RemoveAnimationFunctions` follow the
corrected registry of the Findings below. The code as written is modelled beside it
(`AddAsWritten`, `RemoveAsWritten`). Otherwise:
- The streak accumulator is not clamped to `[0, 3000]`. It only stops moving once it is
  at or past a bound, so one tick can overshoot either bound (`StackOvershootsBothBounds`).
- `Float32Array.set` with a shorter slice leaves the later slots as they were; it does
  not zero them (`SmallestWindowKeepsUpperBands`).
- The amplitude digest is a mean of time-domain bytes, whose zero line is 128, so real
  silence publishes 128 and the accumulator then stands still: a streak that is running
  when the music stops keeps running (`SilenceHolds`). Only digests below 128 drain it.
- The comment on `stopAnimationLoop` says two more loop rounds happen. Two more
  *frames* fire, but only the first runs the loop body; the second runs the no-op
  (`StopAfterStartRunsOneMoreBody`, `StopRunsOneMoreBody`).

## Model

| member | source | states |
|---|---|---|
| Uniforms.Cell.constructor | src/classes/sound.js:16 | a shared uniform cell, as each `{type, value}` object of the audio side and the viewport's time cell, starts with the given value |
| Features.BufferLength | src/classes/sound.js:84-85 | both buffers hold half the window; no contract of its own, see AudioAnalysis.Sound.AnalysisTick and DefaultWindowFillsAllBands |
| Features.CutOff | src/classes/sound.js:96 | the number of low bins skipped, a sixty-fourth of the window; no contract of its own, see FrequencyBandsSpec and DefaultWindowFillsAllBands |
| Features.Sum | src/classes/sound.js:93 | `reduce(sum)` over unsigned bytes lies between 0 and 255 times the length |
| Features.Mean | src/classes/sound.js:93-95 | the digest is in [0, 255] and, multiplied by the buffer length `fftSize / 2`, gives back the sum of the samples |
| Features.MeanOfConstant | src/classes/sound.js:93 | a buffer holding one byte value throughout has that value as its digest |
| Features.Slice | src/classes/sound.js:94 | `slice(start, end)` clips `end` to the length, yields `[]` for an empty range, and element `i` is `s[start + i]` |
| Features.AmplitudeBandsSpec | src/classes/sound.js:94 | after a tick the amplitude bands have 32 slots; slot `i` is `timeBuffer[i]` when the buffer reaches it, and keeps its old value otherwise |
| Features.FrequencyBandsSpec | src/classes/sound.js:96-97 | slot `i` of the frequency bands is `freqBuffer[floor(fftSize/64) + i]` when the buffer reaches it, and keeps its old value otherwise |
| Features.DefaultWindowFillsAllBands | src/classes/sound.js:83-97 | with the program's window of 256 the cut-off is 4 and every one of the 32 slots of both band arrays comes from the buffers |
| Features.Overlay | src/classes/sound.js:94-97 | the in-place `set` as a value; no contract of its own, see AmplitudeBandsSpec, FrequencyBandsSpec and AudioAnalysis.SetBands |
| Features.AmplitudeBands | src/classes/sound.js:94 | the amplitude bands after a tick; no contract of its own, see AmplitudeBandsSpec |
| Features.FrequencyBands | src/classes/sound.js:96-97 | the frequency bands after a tick; no contract of its own, see FrequencyBandsSpec |
| Features.SmallestWindowKeepsUpperBands | src/classes/sound.js:84-97 | with a window of 32 the buffers hold 16 samples and slots 16..31 of both band arrays keep their previous values |
| Streak.Accumulate | src/classes/sound.js:51-55 | loud input (above 128) never lowers the stack and quiet input never raises it; loud input at or above the reserve and quiet input at or below 0 leave it unchanged; one step moves it by at most 128 down or 127 up |
| Streak.Detect | src/classes/sound.js:58-64 | the detection step; no contract of its own, see TimerTickTransition |
| Streak.TimerTick | src/classes/sound.js:48-65 | one timer tick, accumulation then detection; no contract of its own, see TimerTickTransition, TimerTickPreservesReachable and AudioAnalysis.Sound.StreakTick |
| Streak.TimerTickTransition | src/classes/sound.js:58-64 | the previous flag is saved, the flag becomes exactly "accumulated stack above 860", and a false-to-true edge resets the stack to 3000 |
| Streak.TimerTickPreservesReachable | src/classes/sound.js:51-64 | on amplitudes in [0, 255] a tick keeps the stack strictly between -128 and 3000 + 127 and keeps an active streak above 860 |
| Streak.RunReachable | src/classes/sound.js:41-65 | every run of timer ticks from the initial state (stack 0, inactive) on amplitudes in [0, 255] stays in those bounds |
| Streak.StackOvershootsBothBounds | src/classes/sound.js:52-54 | the unclamped accumulator goes from 1 to -127 on an all-zero digest (every time-domain byte 0) and from 2999 to 3126 on full-scale input |
| Streak.StreakHolds | src/classes/sound.js:51-64 | a running streak survives any k further ticks while its stack exceeded 860 by more than 128 k, and the stack falls by at most 128 per tick |
| Streak.StreakLastsSixteenTicks | src/classes/sound.js:59-61 | a streak that has just started stays active through any 16 further ticks, whatever the input |
| Streak.SilenceHolds | src/classes/sound.js:51-64 | real silence (time-domain bytes at the zero line 128, a digest of 128) leaves the stack and the flag unchanged for ever: a running streak never ends and none starts |
| Streak.ZeroDigestRun | src/classes/sound.js:54-64 | from a fresh streak, an all-zero digest (every time-domain byte 0) drains 128 per tick and the streak ends exactly on the 17th tick |
| Streak.LoudRun | src/classes/sound.js:41-64 | constant full-scale input from the initial state grows the stack by 127 per tick for 6 ticks; the streak starts exactly on the 7th tick and the stack then stays at 3000 |
| Streak.Ramp | src/classes/sound.js:100-104 | the level moves +1 while active and below 127, -1 while inactive and above 0, and stays put at the bound in its direction |
| Streak.RampKeepsLevel | src/classes/sound.js:100-104 | a whole-number level in [0, 127] stays a whole number in [0, 127] |
| Streak.RampsRise | src/classes/sound.js:100-101 | n active frames raise a level by n, stopping at 127 |
| Streak.RampsFall | src/classes/sound.js:102-103 | n inactive frames lower a level by n, stopping at 0 |
| AudioAnalysis.SetBands | src/classes/sound.js:94 | the in-place `Float32Array.set` copies the slice into the first slots and leaves every later slot unchanged |
| AudioAnalysis.Sound.constructor | src/classes/sound.js:16-20 | five distinct fresh cells at 0, band arrays of 32 zeros, stack 0, both flags false |
| AudioAnalysis.Sound.AnalysisTick | src/classes/sound.js:87-105 | the two digests become the buffer means, the band arrays become the overlays of the slices at 0 and at `fftSize/64`, the streak level ramps, and the cell invariant is kept |
| AudioAnalysis.Sound.RampStreak | src/classes/sound.js:100-104 | the streak cell takes the ramped value for the current flag, and the class invariant (a whole-number level in [0, 127]) is kept |
| AudioAnalysis.Sound.StreakTick | src/classes/sound.js:48-65 | stack and flags become the timer-tick transition of the old state on the published amplitude, keeping them reachable |
| AudioAnalysis.LoudSession | src/classes/sound.js:41-65 | ten analysis frames of full-scale buffers publish 255, and eight timer ticks then leave a streak active with the stack at 3000 |
| Animation.Add | src/classes/viewport.js:109-120 | the corrected `addAnimationFunction` on the registry value; no contract of its own, see AddSpec and AddRemoveRoundTrip |
| Animation.Remove | src/classes/viewport.js:129-142 | the corrected `removeAnimationFunctions` on the registry value; no contract of its own, see RemoveSpec and AddRemoveRoundTrip |
| Animation.Schedule | src/classes/viewport.js:74-79 | the calls of one tick; no contract of its own, see ScheduleBlock, RunsInInsertionOrder and Scheduler.Viewport.RunAnimationFunctions |
| Animation.AddSpec | src/classes/viewport.js:109-120 | adding keeps the registry well formed: an absent key gets `[f]` and joins the key order at its end, a present key gets `f` appended, and every other key is unchanged |
| Animation.Without | src/classes/viewport.js:136 | deleting a key removes exactly that key from the key order |
| Animation.RemoveSpec | src/classes/viewport.js:129-142 | an absent key gives `[]` and an unchanged registry; a present key gives its stored list, is gone afterwards, and every other key is unchanged |
| Animation.AddRemoveRoundTrip | src/classes/viewport.js:112-136 | adding `f` under a fresh key and removing that key returns `[f]` and the original registry |
| Animation.ScheduleBlock | src/classes/viewport.js:74-79 | a key's list runs as one contiguous block of the tick; adding under that key extends the block at its end, and removing the key cuts the block out, leaving the rest in place |
| Animation.RunsAfterLast | src/classes/viewport.js:117 | a function added under a registered key runs right after that key's last function |
| Animation.RunsInInsertionOrder | src/classes/viewport.js:74-79 | two functions added one after the other under one key run in that order, the second right after the first |
| Animation.Bodies | src/classes/viewport.js:70 | a batch of queued callbacks runs at most one loop body per callback, and none exactly when no loop body is queued |
| Animation.Requeue | src/classes/viewport.js:70 | each loop body that runs queues one callback for the next frame, namely what `_render` holds at that time |
| Animation.RunningLoopRunsOncePerFrame | src/classes/viewport.js:67-89 | a started loop keeps exactly one callback queued and runs exactly one body per frame |
| Animation.StoppedLoopDrains | src/classes/viewport.js:94-98 | after stopping, each queued body runs once more and after two frames nothing is queued |
| Animation.StopAfterStartRunsOneMoreBody | src/classes/viewport.js:94-98 | stopping a started loop lets exactly one more body run, over any number of frames |
| Animation.LookupAsWritten | src/classes/viewport.js:112 | what the `typeof` test reads: an own list, an inherited member or undefined; no contract of its own, see InheritedKeyCounterexample and AsWrittenAgreesOnOtherKeys |
| Animation.AddAsWritten | src/classes/viewport.js:109-120 | `addAnimationFunction` as written, throwing on inherited names; no contract of its own, see InheritedKeyCounterexample and AsWrittenAgreesOnOtherKeys |
| Animation.RemoveAsWritten | src/classes/viewport.js:129-142 | `removeAnimationFunctions` as written, returning inherited members; no contract of its own, see InheritedKeyCounterexample and AsWrittenAgreesOnOtherKeys |
| Animation.InheritedKeyCounterexample | src/classes/viewport.js:112-117 | as written, adding under `toString` throws and removing `constructor` returns an inherited member, where the registry of own keys stores `[f]` and returns `[]` |
| Animation.AsWrittenAgreesOnOtherKeys | src/classes/viewport.js:109-142 | on every key that is not an inherited member name, the code as written behaves exactly as the own-key registry |
| Scheduler.AnimationList.constructor | src/classes/viewport.js:37 | the registry starts empty |
| Scheduler.Viewport.constructor | src/classes/viewport.js:23-52 | a fresh empty registry and time cell; starting the loop runs one body (time 0.01) and queues it again |
| Scheduler.Viewport.RunBody | src/classes/viewport.js:67-86 | one body queues `_render`, calls the tick's schedule in order and adds 0.01 to time |
| Scheduler.Viewport.RunAnimationFunctions | src/classes/viewport.js:74-79 | the nested loops over keys and lists call exactly the tick's schedule, in order |
| Scheduler.Viewport.StartAnimationLoop | src/classes/viewport.js:57-90 | `_render` becomes the loop body, which runs once at once and queues itself |
| Scheduler.Viewport.StopAnimationLoop | src/classes/viewport.js:96-99 | `_render` becomes the no-op |
| Scheduler.Viewport.Frame | src/classes/viewport.js:67-89 | one frame fires the queued callbacks: the queue becomes their requeued callbacks, and calls and time grow by one schedule and one step per loop body among them |
| Scheduler.Viewport.FireNext | src/classes/viewport.js:67-89 | firing the next queued callback of a frame extends the queue, the call log and time by what that callback runs: one schedule, one requeued `_render` and one step for a loop body, nothing for the no-op |
| Scheduler.Viewport.AddAnimationFunction | src/classes/viewport.js:109-120 | the registry object becomes `Add` of its old value, stays well formed, and is itself returned |
| Scheduler.Viewport.RemoveAnimationFunctions | src/classes/viewport.js:129-142 | the result and the new registry are `Remove` of the old value, and the registry stays well formed |
| Scheduler.TwoFunctionsOneFrame | src/classes/viewport.js:74-79 | two functions registered under one key are called once each in one frame, the first-added first |
| Scheduler.SpinViewport | src/classes/viewport.js:109-120 | registering two functions under one key on a fresh viewport gives a tick that calls them in that order, with the started loop queued once |
| Scheduler.TimeAfterFrames | src/classes/viewport.js:85 | a running loop holds exactly `(n + 1) * 0.01` after n frames |
| Scheduler.StopRunsOneMoreBody | src/classes/viewport.js:94-98 | stopping a fresh viewport leaves time at two steps and nothing queued after any two or more frames |
| QueryParams.DropFirst | src/classes/util.js:12 | the search string without its first character, empty when it is empty; no contract of its own, see GetParamsSpec and EmptyQuery |
| QueryParams.Split | src/classes/util.js:13 | `split` on one character gives one more piece than there are separators, no piece holds the separator, and joining the pieces gives back the string |
| QueryParams.SplitJoin | src/classes/util.js:13 | splitting a join of separator-free pieces recovers the pieces |
| QueryParams.KeyOf | src/classes/util.js:15-16 | the text of a piece before its first `=`; no contract of its own, see PieceParts |
| QueryParams.ValueOf | src/classes/util.js:15-16 | the text between a piece's first and second `=`, undefined without `=`; no contract of its own, see PieceParts |
| QueryParams.Assign | src/classes/util.js:16 | one step of the fold, skipping `__proto__`; no contract of its own, see CollectKeys and CollectLastWins |
| QueryParams.Collect | src/classes/util.js:14-18 | the left-to-right fold from `{}`; no contract of its own, see CollectKeys, CollectLastWins and CollectSize |
| QueryParams.GetParams | src/classes/util.js:11-19 | the whole of `getParams`; no contract of its own, see GetParamsSpec, EmptyQuery and DecodedSeparatorsSplit |
| QueryParams.PieceParts | src/classes/util.js:15-16 | the key is the text before the first `=`; the value is undefined exactly when there is no `=`, and otherwise is the text between the first `=` and the next `=` or the end |
| QueryParams.PieceSplit | src/classes/util.js:15-16 | a `=`-free key followed by `=` yields that key, and a value running to the next `=` |
| QueryParams.CollectKeys | src/classes/util.js:14-18 | a key is in the result exactly when some piece has it as its key, except `__proto__` |
| QueryParams.CollectLastWins | src/classes/util.js:14-18 | a repeated key takes the value of its last piece |
| QueryParams.CollectSize | src/classes/util.js:13-18 | the result has at most as many keys as there are `&`-pieces |
| QueryParams.GetParamsSpec | src/classes/util.js:11-19 | a failed decode fails the call; otherwise the result's keys are exactly the keys of the `&`-pieces of the decoded text, at most one per piece |
| QueryParams.EmptyQuery | src/classes/util.js:12-17 | an empty or bare `?` query yields exactly one entry, key `""` with an undefined value |
| QueryParams.DecodedSeparatorsSplit | src/classes/util.js:12-16 | decoding happens before splitting: `?a%26b=1=2` yields `a` undefined and `b` = `1`, dropping the text after the second `=` |
| QueryParams.ProtoPieceIgnored | src/classes/util.js:16 | a `__proto__=x` piece contributes no key |

## Left out

- Web Audio plumbing (`AudioContext`, analyser node, media element, `connect`, `play`) and `decode` / `decodeAudioData` are foreign I/O. The buffers the analyser fills are inputs of `AnalysisTick`.
- `requestAnimationFrame` and `setInterval` timing: each analysis tick, timer tick and animation frame is an explicit call. How the analysis chain, the timer and the render chain interleave is not modelled.
- The first analysis tick that `startAnalysis` runs directly is the first `AnalysisTick` call.
- AudioAnalysis.Sound.AnalysisTick: means and band values are exact reals; 32-bit float storage in `Float32Array` and IEEE rounding of the division are not modelled.
- Scheduler.Viewport.RunBody: time advances by exactly 0.01 per body; floating-point accumulation of 0.01 is not modelled.
- AudioAnalysis.Sound.constructor: the window size is a constructor parameter (the program passes 256), so that other valid windows can be reasoned about.
- The `type` tags of the uniform objects (`'f'`, `'fv'`) are carried by the Dafny types rather than stored.
- Rendering, scene, camera, orbit controls and `refit` in viewport.js: the render step does nothing in the model.
- Scheduler.Viewport.RunAnimationFunctions: registered functions are opaque. Their own effects are not modelled, including any change they make to the registry or the viewport while a tick runs.
- `Object.keys` lists integer-like keys first in ascending order. The model uses creation order for every key.
- A plain object's own property named `__proto__` cannot be created by assignment. The corrected registry (`Add`) treats it as an ordinary key.
- The `! success` branch of `removeAnimationFunctions`: `delete` of an own property of a plain object always succeeds, so that branch cannot run.
- Scheduler.Viewport.AddAnimationFunction: follows the corrected registry of the first Findings row. For an inherited name such as `toString` the code as written throws instead (`Animation.AddAsWritten`). On every other key the two agree (`Animation.AsWrittenAgreesOnOtherKeys`).
- Scheduler.Viewport.RemoveAnimationFunctions: follows the corrected registry of the second Findings row. For an inherited name such as `constructor` the code as written returns the inherited member instead of `[]` (`Animation.RemoveAsWritten`). On every other key the two agree (`Animation.AsWrittenAgreesOnOtherKeys`).
- `decodeURIComponent` and `window.location.search` are inputs of `GetParams`. The decoder is a function parameter that returns `None` where it would throw.
- The DOM helpers of util.js (`refitCanvas`, `allowDragging`, `loadFile`) are not part of this model.

## Findings

| source | as written | input that shows it | evidently intended | confidence | as-written member | corrected member |
|---|---|---|---|---|---|---|
| src/classes/viewport.js:112-117 | `typeof this._animationList[key] === 'undefined'` also sees members inherited from `Object.prototype`, so no list is created and `push` is called on the inherited member | `addAnimationFunction(f, "toString")` throws a TypeError instead of registering `f` | any string key gets its own list, and `f` is appended to it | high, not executed | Animation.AddAsWritten, Animation.InheritedKeyCounterexample | Animation.Add, Animation.AddSpec |
| src/classes/viewport.js:132-141 | the same test lets an inherited member through as if it were a stored list | `removeAnimationFunctions("constructor")` on an empty registry returns the `Object` function instead of `[]` | an unregistered key returns `[]` | high, not executed | Animation.RemoveAsWritten, Animation.InheritedKeyCounterexample | Animation.Remove, Animation.RemoveSpec |
