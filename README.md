# Greeting card stage controller

script.js drives a three-stage greeting card: a rose, an envelope, then a
letter. Clicking the rose (or pressing Enter or Space on it) makes it exit
and shows the envelope after 600 ms. Clicking the envelope opens it. After
1000 ms the envelope starts to exit, and after another 500 ms the letter
appears with a burst of 20 hearts. A module-level lock, `isAnimating`, is
meant to keep transitions from overlapping. Hearts rain down the whole time:
ten staggered spawns, then one every 400 ms. A resize of the window is
debounced: each resize cancels the pending cleanup of the falling hearts
and schedules a new one 300 ms later.

The model has five files:

- `timer_queue.dfy` (module `TimerQueue`) is the browser timer list the script talks to.
  - `setTimeout`, `setInterval` and `clearTimeout` are functions on a queue of pending timers.
  - The event loop runs the earliest due timer, and the first registered one among timers due at the same time.
  - A repeating timer is registered again one period later.
- `greeting.dfy` (module `Greeting`) holds the page state and one function per handler and per deferred callback.
  - The state is `currentStage`, `isAnimating`, `resizeTimeout`, the `active`/`exit`/`open` classes of the stage elements, the falling-heart count, the bursts and the timer queue.
  - `Step` applies one event, `Run` applies a sequence of events, and `Reachable` describes every state a page can get into.
- `greeting_proofs.dfy` (module `GreetingProofs`) holds the invariant and the properties.
  - The invariant is a diagram of eight phases that every event keeps.
  - The properties cover the stage order, the lock, the single burst, the rain schedule and the debounce.
  - It also proves the lost envelope click described below.
- `page.dfy` (module `GreetingPage`) is the script as it runs.
  - A class `Page` holds the module variables and classes as fields.
  - Listeners and callbacks are methods that update those fields, with the loops of `startHeartsRain` and `createHeartBurst`.
  - The listeners (`ClickRose`, `ClickEnvelope`, `KeyDownRose`, `KeyDownEnvelope`, `Resize`) and the event loop's `FireNextTimer` and `Wait` are proved to perform the matching `Greeting.Step` and to keep the invariant.
  - The helpers they call (`DomContentLoaded`, `StartHeartsRain`, the two transitions, `CreateHeartBurst`, `RunCallback`) are proved to do what the `Greeting` function of the same name does; `CreateFallingHeart` adds one heart to the count.
- `progress.dfy` (module `GreetingProgress`) proves that the normal path finishes.
  - Once a transition has started, the event loop runs its pending step at exactly the deadline it was registered with, however many heart spawns and cleanups fall due first.
  - The measure is the number of timer runs still due before that deadline; each other timer that runs lowers it by one.
  - From the freshly loaded page, a rose click, some timer runs, an envelope click and more timer runs show the letter with its one burst. The envelope appears 600 ms after the rose click, and the letter 1500 ms after the envelope click.

The click handlers set `currentStage` before the transition function looks
at the lock (script.js:164-176). Suppose the envelope is clicked while the
rose's 600 ms exit is still running. Then `currentStage` becomes `letter`,
but `transitionToLetter` returns at once (script.js:98). The model keeps this
behaviour as written:

- `LockoutReachable` shows that two clicks from a freshly loaded page reach this state.
- `LockoutIsPermanent` shows that from then on the letter is never activated and no burst is ever made.

## Model

| member | source | states |
|---|---|---|
| TimerQueue.NextIndex | script.js:88-119 | the timer that runs next is due no later than any other pending timer, and every timer before it in registration order is due strictly later |
| TimerQueue.FireOrder | script.js:88-119 | the event loop runs the timer at NextIndex, no pending timer is due earlier, timers due at the same moment run in registration order, and the clock moves forward to its deadline |
| TimerQueue.FireRemaining | script.js:74-76 | after a timer runs, every pending timer is an old one or the re-registered copy of a repeating one; counted with multiplicity, the timer that ran is traded for its copy one period later, or for nothing |
| TimerQueue.FireTrade | script.js:88-119 | counted with multiplicity, the queue after a run plus the timer that ran is the queue before plus the re-registered copy |
| TimerQueue.FireKeepsValid | script.js:88-119 | running a timer keeps every pending deadline in the future and every handle one that was handed out |
| TimerQueue.Fire | script.js:88-119 | nothing runs exactly when nothing is pending, and then the queue is unchanged |
| TimerQueue.Without | script.js:227-229 | the timers left are exactly the pending ones whose handle differs from the cancelled one |
| TimerQueue.WithoutAppend | script.js:227-229 | cancelling keeps the registration order: filtering a list is filtering its two halves and joining them |
| TimerQueue.WithoutUnknown | script.js:227-229 | cancelling a handle no pending timer holds gives the list back unchanged |
| TimerQueue.ClearTimeout | script.js:227-229 | clearTimeout removes exactly the timers holding the handle and keeps the clock and the handle counter |
| TimerQueue.ClearTimeoutFacts | script.js:227-229 | clearTimeout of a handle no pending timer holds leaves the queue unchanged, and on any handle the surviving timers keep their registration order |
| GreetingProofs.OneShotOk | script.js:88-94 | registering a transition step or the burst removal keeps the queue healthy and adds one timer of that kind |
| GreetingProofs.ResizeOk | script.js:225-234 | after a resize exactly one cleanup is pending, due 300 ms later under the remembered handle; every earlier cleanup is gone and every other timer stays |
| GreetingProofs.CancelOk | script.js:227-229 | cancelling the remembered cleanup leaves no cleanup pending and every other timer, and how many of each kind, as it was |
| GreetingProofs.FireOk | script.js:88-119 | running a timer keeps the queue healthy, removes one timer of its kind unless it repeats, and adds nothing but the re-registered rain |
| GreetingProofs.FireCounts | script.js:88-119 | running a timer takes exactly one timer of its kind off the queue, unless it repeats |
| GreetingProofs.AdvanceOk | script.js:88-119 | letting time pass keeps the queue healthy |
| GreetingProofs.RainQueueOk | script.js:65-77 | startHeartsRain leaves a healthy queue whose only timers spawn hearts |
| GreetingProofs.BatchFacts | script.js:67-71 | the initial batch holds only one-shot spawns with valid handles and future deadlines |
| GreetingProofs.LoadedInv | script.js:13-14 | the script's initial variables followed by the DOMContentLoaded handler give the first phase: rose active, no lock, no transition step pending |
| GreetingProofs.InitInv | script.js:214-222 | the freshly loaded page satisfies the invariant and is in the first phase |
| GreetingProofs.ClickKeepsInv | script.js:164-176 | a click keeps the invariant and follows the phase diagram |
| GreetingProofs.RoseClickKeepsInv | script.js:164-169 | a click on the shown rose moves from the first phase to the rose's exit |
| GreetingProofs.LockingClickKeepsInv | script.js:171-176 | an envelope click while the rose is leaving moves to the lockout phase |
| GreetingProofs.EnvelopeClickKeepsInv | script.js:171-176 | a click on the shown envelope moves to its opening |
| GreetingProofs.ResizeKeepsInv | script.js:225-234 | a resize keeps the invariant and leaves the phase exactly as it was |
| GreetingProofs.ResizeSignature | script.js:225-234 | a resize keeps the queue healthy and leaves the stage variables, the classes, the pending transition steps and the bursts as they were |
| GreetingProofs.WaitKeepsInv | script.js:88-119 | idle time keeps the invariant and leaves the phase exactly as it was |
| GreetingProofs.ShowEnvelopeKeepsInv | script.js:88-94 | the rose's 600 ms step runs only during the rose's exit or the lockout; from the rose's exit it shows the envelope and releases the lock, and from the lockout it leads to the phase where nothing is pending and the letter never shows |
| GreetingProofs.ExitEnvelopeKeepsInv | script.js:105-108 | the envelope's 1000 ms step runs only while the envelope is opening, and moves to the envelope's exit with the lock held |
| GreetingProofs.ShowLetterKeepsInv | script.js:109-118 | the final step runs only during the envelope's exit, and moves to the letter phase: letter active, lock released, one burst |
| GreetingProofs.OtherCallbackKeepsInv | script.js:68-76 | heart spawns, burst removal and the resize cleanup keep the invariant and leave the phase exactly as it was |
| GreetingProofs.FireKeepsInv | script.js:88-119 | running the next timer keeps the invariant and follows the phase diagram |
| GreetingProofs.StepKeepsInv | script.js:164-199 | every event keeps the invariant, and the phase either stays or takes an edge of the diagram |
| GreetingProofs.RunKeepsInv | script.js:164-199 | any sequence of events keeps the invariant |
| GreetingProofs.ReachableInv | script.js:13-14 | every reachable state satisfies the invariant |
| GreetingProofs.BatchSchedule | script.js:67-71 | the loop registers its i-th timeout as the i-th heart, i*200 ms from now, and nothing else |
| GreetingProofs.RainSchedule | script.js:65-77 | startHeartsRain registers ten spawns at 0, 200, ..., 1800 ms and one spawn repeating every 400 ms, in that order, and nothing else |
| GreetingProofs.CountPositive | script.js:74-76 | a positive count of selected timers means one such timer is pending |
| GreetingProofs.RainNeverStops | script.js:74-76 | in every state under the invariant exactly one repeating timer is pending, and it spawns a heart every 400 ms |
| GreetingProofs.StageMovesForward | script.js:164-199 | one event either keeps currentStage or moves it rose to envelope or envelope to letter; only a click, or Enter or Space, on the wrapper of the stage it leaves does so |
| GreetingProofs.RunStageMonotone | script.js:164-176 | currentStage never goes backward over any sequence of events |
| GreetingProofs.ClickOnlyFromItsStage | script.js:165-175 | a wrapper's click changes the state exactly when currentStage is that wrapper's stage, and then advances it by one |
| GreetingProofs.KeyMirrorsClick | script.js:187-199 | Enter or Space on a wrapper is a click on it; any other key changes nothing |
| GreetingProofs.TransitionsRespectLock | script.js:80-120 | with the lock held both transitions change nothing; without it each takes the lock and registers exactly its first step, at 600 ms or 1000 ms |
| GreetingProofs.OpeningStepSchedulesReveal | script.js:105-119 | the 1000 ms step keeps the lock and the active stage, marks the envelope as exiting and registers the final step 500 ms later |
| GreetingProofs.LockHeldUntilLastStep | script.js:82-118 | while a transition runs, the lock is released exactly by its last step; the rose's step activates the envelope, the envelope's final step activates the letter with one burst, and the 1000 ms step keeps the lock |
| GreetingProofs.LockReleasedBy | script.js:88-118 | a held lock is released by an event exactly when the event loop runs the rose's 600 ms step or the envelope's final step |
| GreetingProofs.LockedPhaseMoves | script.js:88-118 | leaving the lock from the rose's exit shows the envelope, from the envelope's exit shows the letter with one burst, and the opening envelope cannot release it |
| GreetingProofs.LockReleasedOnlyByLastStep | script.js:88-118 | only the timer running a transition's last step releases the lock |
| GreetingProofs.LockTakenOnlyByClick | script.js:164-176 | the lock is taken only by a click or activation key that also advances currentStage |
| GreetingProofs.OneTransitionAtATime | script.js:80-120 | at most one transition step is pending, and the lock is held exactly when one is |
| GreetingProofs.ActiveStageAndBurst | script.js:109-118 | one stage is active, it is never ahead of currentStage, there is at most one burst, it exists exactly when the letter is active, and it holds the 20-heart ring |
| GreetingProofs.BurstOnlyFromFinalStep | script.js:109-118 | the first burst is made only by the envelope's final step, which also releases the lock and activates the letter |
| GreetingProofs.FirstBurst | script.js:109-118 | a move between phases that creates a burst goes from the envelope's exit to the letter |
| GreetingProofs.CleanupKept | script.js:225-234 | an event other than a resize adds no cleanup |
| GreetingProofs.ClickAddsNoCleanup | script.js:164-176 | a click registers no cleanup |
| GreetingProofs.FireAddsNoCleanup | script.js:88-119 | running a timer registers no cleanup |
| GreetingProofs.CallbackAddsNoCleanup | script.js:88-119 | no deferred callback registers a cleanup |
| GreetingProofs.CleanupStays | script.js:225-234 | without a resize, the only cleanup that can be pending is the one already there |
| GreetingProofs.HandleKept | script.js:225 | only a resize changes the remembered resize handle |
| GreetingProofs.LastResizeDecides | script.js:225-234 | after a resize and any events that are not resizes, at most one cleanup is pending; it is the one that last resize registered, due 300 ms after it under the stored handle, and every earlier cleanup is gone |
| GreetingProofs.LockoutFrom | script.js:164-176 | a rose click then an envelope click during the rose's exit sets currentStage to letter with the lock held, the rose still active and no envelope step pending |
| GreetingProofs.RunTwoClicks | script.js:164-176 | running the two clicks as events is applying the two click handlers in turn |
| GreetingProofs.LockoutReachable | script.js:97-98 | that lost envelope click is reachable from the freshly loaded page by two clicks |
| GreetingProofs.LockoutIsPermanent | script.js:97-98 | once the envelope click is lost, no sequence of events ever activates the letter or makes a burst, and currentStage stays letter |
| GreetingProofs.RingAngles | script.js:135-141 | the i-th of the first n burst hearts sits at i*360/20 degrees |
| GreetingProofs.BurstRingEvenlySpaced | script.js:135-141 | the burst has 20 hearts, starting at 0 degrees, 18 degrees apart, all below a full turn |
| GreetingProgress.FireCountsDown | script.js:74-76 | running a timer due by an instant leaves one timer run fewer to make by that instant; the rain's next run moves one period later |
| GreetingProgress.OtherTimer | script.js:65-120 | while a transition step is pending, every other pending timer spawns a heart, removes a burst or clears the hearts |
| GreetingProgress.FireOther | script.js:88-119 | when the event loop runs a timer other than a pending one, that one stays pending and the run count before its deadline drops |
| GreetingProgress.OtherRun | script.js:65-77 | a run of the event loop that is not the pending step keeps the invariant, the phase and the pending step, and lowers the measure |
| GreetingProgress.Progress | script.js:88-119 | after some number of runs of the event loop the pending step is the next timer, with the invariant and the phase kept |
| GreetingProgress.TheStepFires | script.js:88-119 | when the pending step is next, the event loop runs its callback with the clock at its deadline |
| GreetingProgress.RunShowEnvelope | script.js:88-94 | the rose's step, when next, shows the envelope at its deadline, or ends the lockout |
| GreetingProgress.RunExitEnvelope | script.js:105-108 | the envelope's 1000 ms step, when next, starts its exit at its deadline and leaves the final step due 500 ms later |
| GreetingProgress.RunShowLetter | script.js:109-118 | the envelope's final step, when next, shows the letter at its deadline |
| GreetingProgress.RunTheStep | script.js:80-120 | running a pending transition step moves the phase to the one after it, at the step's deadline |
| GreetingProgress.StepRunsAfter | script.js:80-120 | some number of timer runs perform the pending step at its deadline; after the envelope's 1000 ms step the returned final step is pending, due 500 ms later |
| GreetingProgress.StepEventuallyRuns | script.js:80-120 | whatever else is pending, some number of timer runs perform the pending step, exactly at its registered deadline |
| GreetingProgress.RoseClickStarts | script.js:164-169 | a rose click from the first phase starts the rose's exit, with its step due 600 ms later |
| GreetingProgress.EnvelopeClickStarts | script.js:171-176 | an envelope click on the shown envelope starts its opening, with its step due 1000 ms later |
| GreetingProgress.EnvelopeAfterRoseClick | script.js:88-94 | after a rose click, timer runs show the envelope exactly 600 ms later with the lock released |
| GreetingProgress.OpeningCompletes | script.js:105-119 | once the envelope is opening, timer runs show the letter 500 ms after the opening step's deadline |
| GreetingProgress.LetterAfterEnvelopeClick | script.js:97-120 | after an envelope click on the shown envelope, timer runs show the letter exactly 1500 ms later, with the lock released and one burst |
| GreetingProgress.LetterShownFacts | script.js:109-118 | in the letter phase the letter is the only active stage, the lock is free and one burst exists |
| GreetingProgress.NormalPathFrom | script.js:164-176 | from the first phase, the two clicks with timer runs after each show the letter with one burst, 2100 ms later |
| GreetingProgress.NormalPathReachesLetter | script.js:164-176 | from the freshly loaded page, a rose click, timer runs, an envelope click and timer runs reach the letter with one burst, 2100 ms after load |
| GreetingPage.Page.constructor | script.js:13-14 | the new page is the script's initial state after DOMContentLoaded, and satisfies the invariant |
| GreetingPage.Page.DomContentLoaded | script.js:214-222 | the listener starts the rain and activates the rose stage |
| GreetingPage.Page.StartHeartsRain | script.js:65-77 | the loop registers the ten staggered spawns, then the 400 ms interval |
| GreetingPage.Page.CreateFallingHeart | script.js:37-63 | one more heart is counted among those appended since the last cleanup; nothing else changes |
| GreetingPage.Page.TransitionToEnvelope | script.js:80-95 | the method does what transitionToEnvelope does to the state |
| GreetingPage.Page.TransitionToLetter | script.js:97-120 | the method does what transitionToLetter does to the state |
| GreetingPage.Page.CreateHeartBurst | script.js:123-161 | the loop adds the 20 ring hearts; one burst is added and its removal registered 2000 ms later |
| GreetingPage.Page.RunCallback | script.js:88-119 | each deferred callback updates the fields as its function does |
| GreetingPage.Page.ClickRose | script.js:164-169 | the rose listener performs the click step and keeps the invariant |
| GreetingPage.Page.ClickEnvelope | script.js:171-176 | the envelope listener performs the click step and keeps the invariant |
| GreetingPage.Page.KeyDownRose | script.js:187-192 | the rose keydown listener performs the key step and keeps the invariant |
| GreetingPage.Page.KeyDownEnvelope | script.js:194-199 | the envelope keydown listener performs the key step and keeps the invariant |
| GreetingPage.Page.Resize | script.js:226-235 | the resize listener performs the debounce step and keeps the invariant |
| GreetingPage.Page.FireNextTimer | script.js:88-119 | the event loop runs the next timer, reports whether one was pending, and keeps the invariant |
| GreetingPage.Page.Wait | script.js:88-119 | idle time passes and the invariant holds |

## Left out

- DOM lookups, style and opacity changes, and the SVG markup: only the `active`, `exit` and `open` classes are modelled, as sets and a flag.
- Random parameters of each heart: colour, position, size, duration, sway, and the burst distance and duration. They use `Math.random` and floating point.
- Burst geometry: the cosine and sine, the translation and the `requestAnimationFrame` step are left out. The angle of heart i is kept as whole degrees, i*360/20.
- Removal of a falling heart on `animationend`: this is browser event plumbing. `falling` counts the hearts appended since the last cleanup, and the cleanup sets it to zero.
- Removal of the burst container after 2000 ms: the timer is registered, but running it changes no modelled state, since only the creation of bursts is counted.
- Focus and blur outlines, ARIA attributes, `tabindex` and `preventDefault`: all cosmetic.
- The browser's clamping of nested timeouts and the drift of intervals: timers run exactly at their deadline, and a re-registered interval joins the end of the registration order.
- Page load is one step, script evaluation followed by DOMContentLoaded. An event arriving between the two is not modelled.
- Wait: idle time is passed only when no timer falls due before the target instant. Otherwise the event changes nothing, because the event loop would run that timer first.
- The lockout is kept as the code is written, not corrected. Its consequences are proved as lemmas.
- Which events the browser delivers is not constrained: either wrapper may get a click or a key at any moment, whatever stage is shown. Whether a hidden or exiting wrapper still receives clicks depends on the stylesheet (its visibility and opacity rules), which is not part of this model; the reachability of the lockout rests on an envelope click arriving during the rose's 600 ms exit.
- The progress lemmas show one schedule of events that completes (clicks, then timer runs); they do not show that every schedule completes, since an envelope click during the rose's exit leads to the lockout instead.
