/** The stage controller of the greeting card, on values: the module state of
    script.js (currentStage, isAnimating, resizeTimeout), the stage elements'
    `active`/`exit`/`open` classes, the number of falling hearts on screen, the
    bursts created, and the browser timer queue. Each event of the page is a
    function from state to state. */
module Greeting {
  import opened TimerQueue

  datatype Stage = Rose | Envelope | Letter

  /** Position of a stage in the card's forward order. */
  function Rank(s: Stage): nat {
    match s
    case Rose => 0
    case Envelope => 1
    case Letter => 2
  }

  /** The deferred callbacks the script registers. */
  datatype Callback =
    | ShowEnvelope   // the 600 ms step of transitionToEnvelope
    | ExitEnvelope   // the 1000 ms step of transitionToLetter
    | ShowLetter     // the nested 500 ms step of transitionToLetter
    | SpawnHeart     // createFallingHeart, from the rain schedule
    | RemoveBurst    // removal of the burst container
    | ClearHearts    // the debounced resize cleanup

  const RoseExitDelay: nat := 600
  const EnvelopeOpenDelay: nat := 1000
  const EnvelopeExitDelay: nat := 500
  const InitialHearts: nat := 10
  const InitialSpacing: nat := 200
  const RainInterval: nat := 400
  const BurstSize: nat := 20
  const BurstLifetime: nat := 2000
  const ResizeQuiet: nat := 300

  /** stage and animating are currentStage and isAnimating; active and
      exiting are the stages whose element carries the `active` and `exit`
      class; envelopeOpen is the envelope's `open` class; falling counts the
      falling hearts appended since the last resize cleanup; bursts counts
      the bursts created and burstHearts lists the angle, in degrees, of
      every burst heart created. */
  datatype State = State(
    stage: Stage,
    animating: bool,
    active: set<Stage>,
    exiting: set<Stage>,
    envelopeOpen: bool,
    resizeTimeout: Option<nat>,
    falling: nat,
    bursts: nat,
    burstHearts: seq<nat>,
    queue: Queue<Callback>)

  datatype Wrapper = RoseWrapper | EnvelopeWrapper

  /** What can happen to the page: a click or a key press on a wrapper, a
      window resize, the event loop running the next timer, or idle time
      passing up to a given instant. */
  datatype Event =
    | ClickOn(w: Wrapper)
    | KeyOn(w: Wrapper, key: string)
    | WindowResized
    | TimerFires
    | Idle(until: int)

  /** The first n timeouts of the initial rain batch, the i-th at i*200 ms. */
  function ScheduleBatch(q: Queue<Callback>, n: nat): Queue<Callback> {
    if n == 0 then q
    else SetTimeout(ScheduleBatch(q, n - 1), (n - 1) * InitialSpacing, SpawnHeart).0
  }

  /** startHeartsRain: ten staggered spawns, then one spawn every 400 ms. */
  function StartHeartsRain(q: Queue<Callback>): Queue<Callback> {
    SetInterval(ScheduleBatch(q, InitialHearts), RainInterval, SpawnHeart).0
  }

  /** The state once the script itself has run: the module variables at
      their initial values, no stage active yet, no timer registered. */
  function ScriptLoaded(): State {
    State(Rose, false, {}, {}, false, None, 0, 0, [], Empty())
  }

  /** The DOMContentLoaded handler: start the rain, activate the rose stage. */
  function DomContentLoaded(s: State): State {
    s.(queue := StartHeartsRain(s.queue), active := s.active + {Rose})
  }

  function Init(): State {
    DomContentLoaded(ScriptLoaded())
  }

  /** transitionToEnvelope: ignored while a transition runs; otherwise takes
      the lock, starts the rose's exit and schedules the 600 ms step. */
  function TransitionToEnvelope(s: State): State {
    if s.animating then s
    else s.(animating := true, exiting := s.exiting + {Rose},
            queue := SetTimeout(s.queue, RoseExitDelay, ShowEnvelope).0)
  }

  /** transitionToLetter: ignored while a transition runs; otherwise takes
      the lock, opens the envelope and schedules the 1000 ms step. */
  function TransitionToLetter(s: State): State {
    if s.animating then s
    else s.(animating := true, envelopeOpen := true,
            queue := SetTimeout(s.queue, EnvelopeOpenDelay, ExitEnvelope).0)
  }

  /** The rose wrapper's click handler: the stage is advanced before the
      transition looks at the lock. */
  function ClickRose(s: State): State {
    if s.stage == Rose then TransitionToEnvelope(s.(stage := Envelope)) else s
  }

  /** The envelope wrapper's click handler, with the same ordering. */
  function ClickEnvelope(s: State): State {
    if s.stage == Envelope then TransitionToLetter(s.(stage := Letter)) else s
  }

  function Click(s: State, w: Wrapper): State {
    match w
    case RoseWrapper => ClickRose(s)
    case EnvelopeWrapper => ClickEnvelope(s)
  }

  predicate IsActivationKey(key: string) {
    key == "Enter" || key == " "
  }

  /** The wrappers' keydown handlers: Enter and Space click the wrapper. */
  function KeyDown(s: State, w: Wrapper, key: string): State {
    if IsActivationKey(key) then Click(s, w) else s
  }

  /** The window's resize handler: cancel the pending cleanup, if a handle is
      held, and schedule a fresh one 300 ms later. The handle is kept after
      its cleanup has run, so a later resize cancels a handle that is gone. */
  function Resize(s: State): State {
    var q := match s.resizeTimeout
      case None => s.queue
      case Some(r) => ClearTimeout(s.queue, r);
    var (q', id) := SetTimeout(q, ResizeQuiet, ClearHearts);
    s.(resizeTimeout := Some(id), queue := q')
  }

  /** The angles, in degrees, of the first n burst hearts: heart i sits at
      i/20 of a full turn. */
  function Ring(n: nat): seq<nat> {
    if n == 0 then [] else Ring(n - 1) + [(n - 1) * 360 / BurstSize]
  }

  function BurstRing(): seq<nat> {
    Ring(BurstSize)
  }

  /** createHeartBurst: one container of 20 hearts, removed after 2 s. */
  function CreateHeartBurst(s: State): State {
    s.(bursts := s.bursts + 1, burstHearts := s.burstHearts + BurstRing(),
       queue := SetTimeout(s.queue, BurstLifetime, RemoveBurst).0)
  }

  /** What each deferred callback does to the state. */
  function RunCallback(s: State, a: Callback): State {
    match a
    case ShowEnvelope =>
      s.(active := s.active - {Rose} + {Envelope}, exiting := s.exiting - {Rose}, animating := false)
    case ExitEnvelope =>
      s.(exiting := s.exiting + {Envelope},
         queue := SetTimeout(s.queue, EnvelopeExitDelay, ShowLetter).0)
    case ShowLetter =>
      CreateHeartBurst(s.(active := s.active - {Envelope} + {Letter},
                          exiting := s.exiting - {Envelope}, animating := false))
    case SpawnHeart => s.(falling := s.falling + 1)
    case RemoveBurst => s
    case ClearHearts => s.(falling := 0)
  }

  /** The event loop runs the next due timer, if any. */
  function FireNextTimer(s: State): State {
    var (t, q) := Fire(s.queue);
    match t
    case None => s
    case Some(timer) => RunCallback(s.(queue := q), timer.action)
  }

  function Wait(s: State, until: int): State {
    s.(queue := Advance(s.queue, until))
  }

  function Step(s: State, e: Event): State {
    match e
    case ClickOn(w) => Click(s, w)
    case KeyOn(w, key) => KeyDown(s, w, key)
    case WindowResized => Resize(s)
    case TimerFires => FireNextTimer(s)
    case Idle(until) => Wait(s, until)
  }

  function Run(s: State, es: seq<Event>): State
    decreases |es|
  {
    if es == [] then s else Run(Step(s, es[0]), es[1..])
  }

  ghost predicate Reachable(s: State) {
    exists es :: Run(Init(), es) == s
  }
}
