/** The page script as it runs: the module variables and the stage elements'
    classes are fields that the event handlers and the timer callbacks
    update in place. The listeners (the two click handlers, the two keydown
    handlers and the resize handler) and the event loop's FireNextTimer and
    Wait are proved to perform exactly the matching Greeting.Step and to
    keep the controller invariant of GreetingProofs; the helpers they call
    are proved to do what the Greeting function of the same name does, and
    CreateFallingHeart adds one heart to the count. */
module GreetingPage {
  import opened TimerQueue
  import opened Greeting
  import P = GreetingProofs

  class Page {
    var stage: Stage                 // currentStage
    var animating: bool              // isAnimating
    var active: set<Stage>           // stage elements with class `active`
    var exiting: set<Stage>          // stage elements with class `exit`
    var envelopeOpen: bool           // the envelope's class `open`
    var resizeTimeout: Option<nat>   // resizeTimeout, null as None
    var falling: nat                 // falling hearts appended since the last cleanup
    var bursts: nat                  // burst containers created
    var burstHearts: seq<nat>        // angles of the burst hearts created
    var queue: Queue<Callback>       // the browser's pending timers

    function Snapshot(): State
      reads this
    {
      State(stage, animating, active, exiting, envelopeOpen, resizeTimeout, falling, bursts, burstHearts, queue)
    }

    ghost predicate Valid()
      reads this
    {
      P.Inv(Snapshot())
    }

    /** Script evaluation followed by the DOMContentLoaded handler. */
    constructor ()
      ensures Valid() && Snapshot() == Init()
    {
      stage := Rose;
      animating := false;
      active := {};
      exiting := {};
      envelopeOpen := false;
      resizeTimeout := None;
      falling := 0;
      bursts := 0;
      burstHearts := [];
      queue := Empty();
      new;
      assert Snapshot() == ScriptLoaded();
      DomContentLoaded();
      P.InitInv();
    }

    /** The DOMContentLoaded listener. */
    method DomContentLoaded()
      modifies this
      ensures Snapshot() == Greeting.DomContentLoaded(old(Snapshot()))
    {
      StartHeartsRain();
      active := active + {Rose};
    }

    /** Ten staggered one-shot spawns, then the endless 400 ms interval. */
    method StartHeartsRain()
      modifies this
      ensures Snapshot() == old(Snapshot()).(queue := Greeting.StartHeartsRain(old(queue)))
    {
      for i := 0 to InitialHearts
        invariant queue == ScheduleBatch(old(queue), i)
        invariant Snapshot() == old(Snapshot()).(queue := queue)
      {
        queue := SetTimeout(queue, i * InitialSpacing, SpawnHeart).0;
      }
      queue := SetInterval(queue, RainInterval, SpawnHeart).0;
    }

    /** createFallingHeart; its random colour, position, size, duration and
        sway are not part of the state. */
    method CreateFallingHeart()
      modifies this
      ensures Snapshot() == old(Snapshot()).(falling := old(falling) + 1)
    {
      falling := falling + 1;
    }

    method TransitionToEnvelope()
      modifies this
      ensures Snapshot() == Greeting.TransitionToEnvelope(old(Snapshot()))
    {
      if animating {
        return;
      }
      animating := true;
      exiting := exiting + {Rose};
      queue := SetTimeout(queue, RoseExitDelay, ShowEnvelope).0;
    }

    method TransitionToLetter()
      modifies this
      ensures Snapshot() == Greeting.TransitionToLetter(old(Snapshot()))
    {
      if animating {
        return;
      }
      animating := true;
      envelopeOpen := true;
      queue := SetTimeout(queue, EnvelopeOpenDelay, ExitEnvelope).0;
    }

    /** createHeartBurst: a container of 20 hearts, heart i at i/20 of a
        turn, and the container's removal 2 s later. */
    method CreateHeartBurst()
      modifies this
      ensures Snapshot() == Greeting.CreateHeartBurst(old(Snapshot()))
    {
      bursts := bursts + 1;
      for i := 0 to BurstSize
        invariant burstHearts == old(burstHearts) + Ring(i)
        invariant Snapshot() == old(Snapshot()).(bursts := old(bursts) + 1, burstHearts := burstHearts)
      {
        burstHearts := burstHearts + [i * 360 / BurstSize];
      }
      queue := SetTimeout(queue, BurstLifetime, RemoveBurst).0;
    }

    method RunCallback(a: Callback)
      modifies this
      ensures Snapshot() == Greeting.RunCallback(old(Snapshot()), a)
    {
      match a
      case ShowEnvelope =>
        active := active - {Rose} + {Envelope};
        exiting := exiting - {Rose};
        animating := false;
      case ExitEnvelope =>
        exiting := exiting + {Envelope};
        queue := SetTimeout(queue, EnvelopeExitDelay, ShowLetter).0;
      case ShowLetter =>
        active := active - {Envelope} + {Letter};
        exiting := exiting - {Envelope};
        animating := false;
        CreateHeartBurst();
      case SpawnHeart =>
        CreateFallingHeart();
      case RemoveBurst =>
      case ClearHearts =>
        falling := 0;
    }

    /** The rose wrapper's click listener. */
    method ClickRose()
      requires Valid()
      modifies this
      ensures Valid() && Snapshot() == Step(old(Snapshot()), ClickOn(RoseWrapper))
    {
      ghost var s0 := Snapshot();
      if stage == Rose {
        stage := Envelope;
        TransitionToEnvelope();
      }
      P.ClickKeepsInv(s0, RoseWrapper);
    }

    /** The envelope wrapper's click listener. */
    method ClickEnvelope()
      requires Valid()
      modifies this
      ensures Valid() && Snapshot() == Step(old(Snapshot()), ClickOn(EnvelopeWrapper))
    {
      ghost var s0 := Snapshot();
      if stage == Envelope {
        stage := Letter;
        TransitionToLetter();
      }
      P.ClickKeepsInv(s0, EnvelopeWrapper);
    }

    /** The rose wrapper's keydown listener. */
    method KeyDownRose(key: string)
      requires Valid()
      modifies this
      ensures Valid() && Snapshot() == Step(old(Snapshot()), KeyOn(RoseWrapper, key))
    {
      if IsActivationKey(key) {
        ClickRose();
      }
    }

    /** The envelope wrapper's keydown listener. */
    method KeyDownEnvelope(key: string)
      requires Valid()
      modifies this
      ensures Valid() && Snapshot() == Step(old(Snapshot()), KeyOn(EnvelopeWrapper, key))
    {
      if IsActivationKey(key) {
        ClickEnvelope();
      }
    }

    /** The window's resize listener. */
    method Resize()
      requires Valid()
      modifies this
      ensures Valid() && Snapshot() == Step(old(Snapshot()), WindowResized)
    {
      ghost var s0 := Snapshot();
      if resizeTimeout.Some? {
        queue := ClearTimeout(queue, resizeTimeout.value);
      }
      var (q, id) := SetTimeout(queue, ResizeQuiet, ClearHearts);
      queue := q;
      resizeTimeout := Some(id);
      P.ResizeKeepsInv(s0);
    }

    /** The event loop runs the next due timer; false when none is pending. */
    method FireNextTimer() returns (ran: bool)
      requires Valid()
      modifies this
      ensures Valid() && Snapshot() == Step(old(Snapshot()), TimerFires)
      ensures ran <==> old(queue.pending) != []
    {
      ghost var s0 := Snapshot();
      var (t, q) := Fire(queue);
      queue := q;
      match t {
        case None =>
          ran := false;
        case Some(timer) =>
          ran := true;
          RunCallback(timer.action);
      }
      P.FireKeepsInv(s0);
    }

    /** Idle time passes up to `until`, if no timer falls due before then. */
    method Wait(until: int)
      requires Valid()
      modifies this
      ensures Valid() && Snapshot() == Step(old(Snapshot()), Idle(until))
    {
      ghost var s0 := Snapshot();
      queue := Advance(queue, until);
      P.WaitKeepsInv(s0, until);
    }
  }
}
