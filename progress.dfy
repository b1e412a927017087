/** The normal path of the card completes: once a transition has started,
    letting the event loop run timers eventually runs its pending step, at
    exactly the deadline the step was registered with, however many heart
    spawns and cleanups fall due before it. Two clicks and the timers in
    between therefore show the envelope 600 ms after the rose click and the
    letter, with its burst, 1500 ms after the envelope click. */
module GreetingProgress {
  import opened TimerQueue
  import opened Greeting
  import opened GreetingProofs

  /** n runs of the event loop in a row. */
  function Fires(n: nat): seq<Event> {
    seq(n, i => TimerFires)
  }

  /** How often timer t runs at or before instant d, if nothing cancels it.
      The only repeating timer is the rain, every RainInterval ms. */
  function RunsOf(t: Timer<Callback>, d: int): nat {
    if t.due > d then 0
    else if t.period > 0 then 1 + (d - t.due) / RainInterval
    else 1
  }

  /** How many timer runs the event loop has to make at or before d. */
  function RunsUpTo(ts: seq<Timer<Callback>>, d: int): nat {
    if ts == [] then 0 else RunsOf(ts[0], d) + RunsUpTo(ts[1..], d)
  }

  lemma {:induction false} RunsAppend(xs: seq<Timer<Callback>>, ys: seq<Timer<Callback>>, d: int)
    ensures RunsUpTo(xs + ys, d) == RunsUpTo(xs, d) + RunsUpTo(ys, d)
  {
    if xs == [] {
      assert xs + ys == ys;
    } else {
      assert (xs + ys)[1..] == xs[1..] + ys;
      RunsAppend(xs[1..], ys, d);
    }
  }

  lemma RunsRemoveAt(ts: seq<Timer<Callback>>, k: nat, d: int)
    requires k < |ts|
    ensures RunsUpTo(ts[..k] + ts[k + 1..], d) + RunsOf(ts[k], d) == RunsUpTo(ts, d)
  {
    assert ts == ts[..k] + ([ts[k]] + ts[k + 1..]);
    RunsAppend(ts[..k], [ts[k]] + ts[k + 1..], d);
    RunsAppend([ts[k]], ts[k + 1..], d);
    RunsAppend(ts[..k], ts[k + 1..], d);
    assert [ts[k]][1..] == [];
  }

  /** Running a timer due at or before d leaves one run fewer to make before d:
      a one-shot timer is gone, and the rain's next run is one period later. */
  lemma FireCountsDown(q: Queue<Callback>, rt: Option<nat>, d: int)
    requires QueueOk(q, rt) && q.pending != [] && Fire(q).0.value.due <= d
    ensures RunsUpTo(Fire(q).1.pending, d) + 1 == RunsUpTo(q.pending, d)
  {
    var ts := q.pending;
    var k := NextIndex(ts);
    var t := ts[k];
    var rest := ts[..k] + ts[k + 1..];
    var again := Again(t);
    assert Fire(q).1.pending == rest + again;
    assert t in ts;
    RunsRemoveAt(ts, k, d);
    RunsAppend(rest, again, d);
    if t.period > 0 {
      assert t.period == RainInterval;
      assert again[1..] == [];
    }
  }

  lemma {:induction false} CountMember(ts: seq<Timer<Callback>>, t: Timer<Callback>, sel: Selector)
    requires t in ts && Matches(t, sel)
    ensures Count(ts, sel) >= 1
  {
    if ts[0] != t {
      CountMember(ts[1..], t, sel);
    }
  }

  /** With at most one timer of a kind pending, two timers of that kind are the same. */
  lemma {:induction false} CountAtMostOne(ts: seq<Timer<Callback>>, sel: Selector, t: Timer<Callback>, u: Timer<Callback>)
    requires Count(ts, sel) <= 1 && t in ts && u in ts && Matches(t, sel) && Matches(u, sel)
    ensures t == u
  {
    if Matches(ts[0], sel) {
      if t != ts[0] {
        CountMember(ts[1..], t, sel);
      }
      if u != ts[0] {
        CountMember(ts[1..], u, sel);
      }
    } else {
      CountAtMostOne(ts[1..], sel, t, u);
    }
  }

  /** The phases in which a transition step is pending. */
  predicate Waiting(p: Phase) {
    p == RoseLeaving || p == LockedOut || p == Opening || p == EnvelopeLeaving
  }

  /** The step a waiting phase waits for. */
  function StepOf(p: Phase): Callback
    requires Waiting(p)
  {
    match p
    case RoseLeaving => ShowEnvelope
    case LockedOut => ShowEnvelope
    case Opening => ExitEnvelope
    case EnvelopeLeaving => ShowLetter
  }

  /** The phase that running the step leads to. */
  function After(p: Phase): Phase
    requires Waiting(p)
  {
    match p
    case RoseLeaving => EnvelopeShown
    case LockedOut => Stuck
    case Opening => EnvelopeLeaving
    case EnvelopeLeaving => LetterShown
  }

  /** While a step is pending, every other pending timer spawns a heart,
      removes a burst or clears the hearts. */
  lemma OtherTimer(s: State, st: Timer<Callback>, timer: Timer<Callback>)
    requires Inv(s) && Waiting(PhaseOf(s).value)
    requires st in s.queue.pending && st.action == StepOf(PhaseOf(s).value)
    requires timer in s.queue.pending && timer != st
    ensures timer.action in {SpawnHeart, RemoveBurst, ClearHearts}
  {
    var ts := s.queue.pending;
    PhaseSignature(s);
    if timer.action == st.action {
      CountAtMostOne(ts, Of(st.action), timer, st);
    } else if timer.action in {ShowEnvelope, ExitEnvelope, ShowLetter} {
      CountMember(ts, timer, Of(timer.action));
    }
  }

  lemma RunFiresOnce(s: State, n: nat)
    ensures Run(s, Fires(n + 1)) == Run(Step(s, TimerFires), Fires(n))
  {
    assert Fires(n + 1)[0] == TimerFires;
    assert Fires(n + 1)[1..] == Fires(n);
  }

  lemma {:induction false} RunAppend(s: State, a: seq<Event>, b: seq<Event>)
    ensures Run(s, a + b) == Run(Run(s, a), b)
    decreases |a|
  {
    if a == [] {
      assert a + b == b;
    } else {
      assert (a + b)[0] == a[0];
      assert (a + b)[1..] == a[1..] + b;
      RunAppend(Step(s, a[0]), a[1..], b);
    }
  }

  lemma RunFiresLast(s: State, n: nat)
    ensures Run(s, Fires(n + 1)) == Step(Run(s, Fires(n)), TimerFires)
  {
    assert Fires(n + 1) == Fires(n) + [TimerFires];
    RunAppend(s, Fires(n), [TimerFires]);
    assert [TimerFires][1..] == [];
  }

  lemma RunFiresSplit(s: State, m: nat, n: nat)
    ensures Run(s, Fires(m + n)) == Run(Run(s, Fires(m)), Fires(n))
  {
    assert Fires(m + n) == Fires(m) + Fires(n);
    RunAppend(s, Fires(m), Fires(n));
  }

  lemma RunAfterEvent(s: State, e: Event, es: seq<Event>)
    ensures Run(s, [e] + es) == Run(Step(s, e), es)
  {
    assert ([e] + es)[0] == e;
    assert ([e] + es)[1..] == es;
  }

  /** When the event loop runs a timer other than a pending one, that one
      stays pending and one run fewer is left before its deadline. */
  lemma FireOther(q: Queue<Callback>, rt: Option<nat>, st: Timer<Callback>)
    requires QueueOk(q, rt) && st in q.pending && Fire(q).0 != Some(st)
    ensures var (t, q') := Fire(q);
      t.Some? && t.value != st && st in q'.pending && RunsUpTo(q'.pending, st.due) < RunsUpTo(q.pending, st.due)
  {
    assert Fire(q).0.value.due <= st.due by {
      FireNoLater(q, st);
    }
    assert st in Fire(q).1.pending by {
      StillPending(q, st);
    }
    FireCountsDown(q, rt, st.due);
  }

  /** The timer the event loop runs is due no later than any pending timer. */
  lemma FireNoLater<A>(q: Queue<A>, st: Timer<A>)
    requires Valid(q) && st in q.pending
    ensures Fire(q).0.Some? && Fire(q).0.value.due <= st.due
  {
    FireOrder(q);
    var j :| 0 <= j < |q.pending| && q.pending[j] == st;
  }

  /** A pending timer other than the one the event loop runs stays pending. */
  lemma StillPending<A>(q: Queue<A>, st: Timer<A>)
    requires st in q.pending && Fire(q).0 != Some(st)
    ensures st in Fire(q).1.pending
  {
    FireRemaining(q);
    assert st in multiset(Fire(q).1.pending) + multiset{Fire(q).0.value};
  }

  /** The timer the event loop runs when it is not the pending step: a heart
      spawn, a burst removal or a cleanup; the step stays pending and one run
      fewer is left before its deadline. */
  lemma OtherFire(s: State, st: Timer<Callback>)
    requires Inv(s) && Waiting(PhaseOf(s).value)
    requires st in s.queue.pending && st.action == StepOf(PhaseOf(s).value)
    requires Fire(s.queue).0 != Some(st)
    ensures var (t, q) := Fire(s.queue);
      t.Some? && t.value.action in {SpawnHeart, RemoveBurst, ClearHearts} && Ran(s, t.value, q) &&
      st in q.pending && RunsUpTo(q.pending, st.due) < RunsUpTo(s.queue.pending, st.due)
  {
    var (t, q) := Fire(s.queue);
    FireOther(s.queue, s.resizeTimeout, st);
    FireOk(s.queue, s.resizeTimeout);
    OtherTimer(s, st, t.value);
  }

  /** One run of the event loop that is not the pending step: the phase and
      the step stay, and one run fewer is left before the step's deadline. */
  lemma OtherRun(s: State, st: Timer<Callback>)
    requires Inv(s) && Waiting(PhaseOf(s).value)
    requires st in s.queue.pending && st.action == StepOf(PhaseOf(s).value)
    requires Fire(s.queue).0 != Some(st)
    ensures var s' := Step(s, TimerFires);
      Inv(s') && PhaseOf(s') == PhaseOf(s) && st in s'.queue.pending &&
      RunsUpTo(s'.queue.pending, st.due) < RunsUpTo(s.queue.pending, st.due)
  {
    OtherFire(s, st);
    var (t, q) := Fire(s.queue);
    var timer := t.value;
    var s' := RunCallback(s.(queue := q), timer.action);
    assert Step(s, TimerFires) == s' && s'.queue == q by {
      assert FireNextTimer(s) == s';
    }
    OtherCallbackKeepsInv(s, timer, q);
  }

  /** The event loop reaches the pending step after n runs, and the step is
      then the next timer, unchanged since it was registered. */
  lemma {:induction false} Progress(s: State, st: Timer<Callback>) returns (n: nat)
    requires Inv(s) && Waiting(PhaseOf(s).value)
    requires st in s.queue.pending && st.action == StepOf(PhaseOf(s).value)
    ensures var s' := Run(s, Fires(n));
      Inv(s') && PhaseOf(s') == PhaseOf(s) && s'.queue.pending != [] && Fire(s'.queue).0 == Some(st)
    decreases RunsUpTo(s.queue.pending, st.due)
  {
    if Fire(s.queue).0 == Some(st) {
      n := 0;
      assert Run(s, Fires(0)) == s;
    } else {
      var s1 := Step(s, TimerFires);
      assert Inv(s1) && PhaseOf(s1) == PhaseOf(s) && st in s1.queue.pending &&
             RunsUpTo(s1.queue.pending, st.due) < RunsUpTo(s.queue.pending, st.due) by {
        OtherRun(s, st);
      }
      var m := Progress(s1, st);
      n := m + 1;
      assert Run(s, Fires(n)) == Run(s1, Fires(m)) by {
        RunFiresOnce(s, m);
      }
    }
  }

  /** The event loop runs the pending step: the clock is at its deadline and
      the step's callback runs on the queue without it. */
  lemma TheStepFires(s: State, st: Timer<Callback>)
    requires Inv(s) && s.queue.pending != [] && Fire(s.queue).0 == Some(st)
    ensures var q := Fire(s.queue).1;
      Ran(s, st, q) && q.now == st.due && Step(s, TimerFires) == RunCallback(s.(queue := q), st.action)
  {
    var q := Fire(s.queue).1;
    FireOrder(s.queue);
    FireOk(s.queue, s.resizeTimeout);
    assert FireNextTimer(s) == RunCallback(s.(queue := q), st.action);
  }

  lemma RunShowEnvelope(s: State, st: Timer<Callback>)
    requires Inv(s) && s.queue.pending != [] && Fire(s.queue).0 == Some(st) && st.action == ShowEnvelope
    requires PhaseOf(s) == Some(RoseLeaving) || PhaseOf(s) == Some(LockedOut)
    ensures var s' := Step(s, TimerFires);
      Inv(s') && PhaseOf(s') == Some(After(PhaseOf(s).value)) && s'.queue.now == st.due
  {
    TheStepFires(s, st);
    ShowEnvelopeKeepsInv(s, st, Fire(s.queue).1);
  }

  lemma RunExitEnvelope(s: State, st: Timer<Callback>)
    requires Inv(s) && s.queue.pending != [] && Fire(s.queue).0 == Some(st) && st.action == ExitEnvelope
    ensures var s' := Step(s, TimerFires);
      Inv(s') && PhaseOf(s') == Some(EnvelopeLeaving) && s'.queue.now == st.due &&
      Timer(s.queue.nextId, st.due + EnvelopeExitDelay, ShowLetter, 0) in s'.queue.pending
  {
    var q := Fire(s.queue).1;
    var s' := RunCallback(s.(queue := q), ExitEnvelope);
    assert Ran(s, st, q) && q.now == st.due && q.nextId == s.queue.nextId && Step(s, TimerFires) == s' by {
      TheStepFires(s, st);
    }
    assert Inv(s') && PhaseOf(s') == Some(EnvelopeLeaving) by {
      ExitEnvelopeKeepsInv(s, st, q);
    }
    var u := Timer(q.nextId, q.now + EnvelopeExitDelay, ShowLetter, 0);
    assert u in s'.queue.pending && s'.queue.now == q.now by {
      ExitRegistersLetter(s, q);
    }
    assert u == Timer(s.queue.nextId, st.due + EnvelopeExitDelay, ShowLetter, 0);
  }

  /** The envelope's exit step registers the letter step, due 500 ms later. */
  lemma ExitRegistersLetter(s: State, q: Queue<Callback>)
    ensures var s' := RunCallback(s.(queue := q), ExitEnvelope);
      s'.queue.now == q.now && Timer(q.nextId, q.now + EnvelopeExitDelay, ShowLetter, 0) in s'.queue.pending
  {
    var u := Timer(q.nextId, q.now + EnvelopeExitDelay, ShowLetter, 0);
    assert RunCallback(s.(queue := q), ExitEnvelope).queue.pending == q.pending + [u];
  }

  lemma RunShowLetter(s: State, st: Timer<Callback>)
    requires Inv(s) && s.queue.pending != [] && Fire(s.queue).0 == Some(st) && st.action == ShowLetter
    ensures var s' := Step(s, TimerFires);
      Inv(s') && PhaseOf(s') == Some(LetterShown) && s'.queue.now == st.due
  {
    TheStepFires(s, st);
    ShowLetterKeepsInv(s, st, Fire(s.queue).1);
  }

  /** Running the step itself moves the phase on, at the step's deadline; the
      envelope's 1000 ms step leaves its final step due 500 ms later. */
  lemma RunTheStep(s: State, st: Timer<Callback>)
    requires Inv(s) && Waiting(PhaseOf(s).value)
    requires s.queue.pending != [] && Fire(s.queue).0 == Some(st) && st.action == StepOf(PhaseOf(s).value)
    ensures var s' := Step(s, TimerFires);
      Inv(s') && PhaseOf(s') == Some(After(PhaseOf(s).value)) && s'.queue.now == st.due &&
      (PhaseOf(s) == Some(Opening) ==>
         Timer(s.queue.nextId, st.due + EnvelopeExitDelay, ShowLetter, 0) in s'.queue.pending)
  {
    match PhaseOf(s).value
    case RoseLeaving => RunShowEnvelope(s, st);
    case LockedOut => RunShowEnvelope(s, st);
    case Opening => RunExitEnvelope(s, st);
    case EnvelopeLeaving => RunShowLetter(s, st);
  }

  /** From a waiting phase, n runs of the event loop perform the pending step,
      the last of them at the step's deadline; after the envelope's 1000 ms
      step, its final step `next` is pending, due 500 ms later. */
  lemma StepRunsAfter(s: State, st: Timer<Callback>) returns (n: nat, next: Timer<Callback>)
    requires Inv(s) && Waiting(PhaseOf(s).value)
    requires st in s.queue.pending && st.action == StepOf(PhaseOf(s).value)
    ensures var s' := Run(s, Fires(n));
      Inv(s') && PhaseOf(s') == Some(After(PhaseOf(s).value)) && s'.queue.now == st.due &&
      (PhaseOf(s) == Some(Opening) ==>
         next in s'.queue.pending && next.action == ShowLetter && next.due == st.due + EnvelopeExitDelay)
  {
    var m := Progress(s, st);
    var s1 := Run(s, Fires(m));
    RunTheStep(s1, st);
    n := m + 1;
    next := Timer(s1.queue.nextId, st.due + EnvelopeExitDelay, ShowLetter, 0);
    assert Run(s, Fires(n)) == Step(s1, TimerFires) by {
      RunFiresLast(s, m);
    }
  }

  /** Whatever else is pending, the event loop eventually runs the pending
      step of a transition, exactly at the deadline it was registered with. */
  lemma StepEventuallyRuns(s: State, st: Timer<Callback>)
    requires Inv(s) && Waiting(PhaseOf(s).value)
    requires st in s.queue.pending && st.action == StepOf(PhaseOf(s).value)
    ensures exists n: nat :: var s' := Run(s, Fires(n));
      Inv(s') && PhaseOf(s') == Some(After(PhaseOf(s).value)) && s'.queue.now == st.due
  {
    var n, _ := StepRunsAfter(s, st);
    assert var s' := Run(s, Fires(n)); Inv(s') && PhaseOf(s') == Some(After(PhaseOf(s).value)) && s'.queue.now == st.due;
  }

  /** A rose click from the first phase starts the rose's exit, with its step
      due 600 ms from now. */
  lemma RoseClickStarts(s: State)
    requires Inv(s) && PhaseOf(s) == Some(RoseShown)
    ensures var s' := Step(s, ClickOn(RoseWrapper));
      Inv(s') && PhaseOf(s') == Some(RoseLeaving) &&
      Timer(s.queue.nextId, s.queue.now + RoseExitDelay, ShowEnvelope, 0) in s'.queue.pending
  {
    PhaseSignature(s);
    OneShotOk(s.queue, s.resizeTimeout, RoseExitDelay, ShowEnvelope);
    PhaseFromSignature(ClickRose(s), RoseLeaving);
  }

  /** An envelope click once the envelope is shown starts its opening, with
      its step due 1000 ms from now. */
  lemma EnvelopeClickStarts(s: State)
    requires Inv(s) && PhaseOf(s) == Some(EnvelopeShown)
    ensures var s' := Step(s, ClickOn(EnvelopeWrapper));
      Inv(s') && PhaseOf(s') == Some(Opening) &&
      Timer(s.queue.nextId, s.queue.now + EnvelopeOpenDelay, ExitEnvelope, 0) in s'.queue.pending
  {
    PhaseSignature(s);
    OneShotOk(s.queue, s.resizeTimeout, EnvelopeOpenDelay, ExitEnvelope);
    PhaseFromSignature(ClickEnvelope(s), Opening);
  }

  /** After a rose click, n runs of the event loop show the envelope exactly
      600 ms after the click and release the lock. */
  lemma EnvelopeAfterRoseClick(s: State) returns (n: nat)
    requires Inv(s) && PhaseOf(s) == Some(RoseShown)
    ensures var s' := Run(s, [ClickOn(RoseWrapper)] + Fires(n));
      Inv(s') && PhaseOf(s') == Some(EnvelopeShown) && s'.queue.now == s.queue.now + RoseExitDelay &&
      s'.stage == Envelope && s'.active == {Envelope} && !s'.animating
  {
    var s1 := Step(s, ClickOn(RoseWrapper));
    var st := Timer(s.queue.nextId, s.queue.now + RoseExitDelay, ShowEnvelope, 0);
    assert Inv(s1) && PhaseOf(s1) == Some(RoseLeaving) && st in s1.queue.pending by {
      RoseClickStarts(s);
    }
    var next;
    n, next := StepRunsAfter(s1, st);
    var s2 := Run(s1, Fires(n));
    assert Run(s, [ClickOn(RoseWrapper)] + Fires(n)) == s2 by {
      RunAfterEvent(s, ClickOn(RoseWrapper), Fires(n));
    }
    assert s2.stage == Envelope && s2.active == {Envelope} && !s2.animating by {
      PhaseSignature(s2);
    }
  }

  /** Once the envelope is opening, n runs of the event loop start its exit,
      with the letter step `next` due 500 ms after the opening step's deadline. */
  lemma OpeningExits(s: State, st: Timer<Callback>) returns (n: nat, next: Timer<Callback>)
    requires Inv(s) && PhaseOf(s) == Some(Opening) && st in s.queue.pending && st.action == ExitEnvelope
    ensures var s' := Run(s, Fires(n));
      Inv(s') && PhaseOf(s') == Some(EnvelopeLeaving) &&
      next in s'.queue.pending && next.action == ShowLetter && next.due == st.due + EnvelopeExitDelay
  {
    assert Waiting(PhaseOf(s).value) && StepOf(PhaseOf(s).value) == ExitEnvelope;
    n, next := StepRunsAfter(s, st);
  }

  /** Once the envelope is leaving, n runs of the event loop show the letter
      at the letter step's deadline. */
  lemma LeavingShowsLetter(s: State, st: Timer<Callback>) returns (n: nat)
    requires Inv(s) && PhaseOf(s) == Some(EnvelopeLeaving) && st in s.queue.pending && st.action == ShowLetter
    ensures var s' := Run(s, Fires(n));
      Inv(s') && PhaseOf(s') == Some(LetterShown) && s'.queue.now == st.due
  {
    assert Waiting(PhaseOf(s).value) && StepOf(PhaseOf(s).value) == ShowLetter;
    var next;
    n, next := StepRunsAfter(s, st);
  }

  /** Once the envelope is opening, n runs of the event loop show the letter
      500 ms after the opening step's deadline. */
  lemma OpeningCompletes(s: State, st: Timer<Callback>) returns (n: nat)
    requires Inv(s) && PhaseOf(s) == Some(Opening) && st in s.queue.pending && st.action == ExitEnvelope
    ensures var s' := Run(s, Fires(n));
      Inv(s') && PhaseOf(s') == Some(LetterShown) && s'.queue.now == st.due + EnvelopeExitDelay
  {
    var n1, u := OpeningExits(s, st);
    var n2 := LeavingShowsLetter(Run(s, Fires(n1)), u);
    n := n1 + n2;
    RunFiresSplit(s, n1, n2);
  }

  /** After an envelope click, n runs of the event loop show the letter
      exactly 1500 ms after the click, release the lock and make the one burst. */
  lemma LetterAfterEnvelopeClick(s: State) returns (n: nat)
    requires Inv(s) && PhaseOf(s) == Some(EnvelopeShown)
    ensures var s' := Run(s, [ClickOn(EnvelopeWrapper)] + Fires(n));
      Inv(s') && PhaseOf(s') == Some(LetterShown) &&
      s'.queue.now == s.queue.now + EnvelopeOpenDelay + EnvelopeExitDelay &&
      s'.stage == Letter && s'.active == {Letter} && !s'.animating && s'.bursts == 1
  {
    var s1 := Step(s, ClickOn(EnvelopeWrapper));
    var st := Timer(s.queue.nextId, s.queue.now + EnvelopeOpenDelay, ExitEnvelope, 0);
    assert Inv(s1) && PhaseOf(s1) == Some(Opening) && st in s1.queue.pending by {
      EnvelopeClickStarts(s);
    }
    n := OpeningCompletes(s1, st);
    var s3 := Run(s1, Fires(n));
    assert Run(s, [ClickOn(EnvelopeWrapper)] + Fires(n)) == s3 by {
      RunAfterEvent(s, ClickOn(EnvelopeWrapper), Fires(n));
    }
    LetterShownFacts(s3);
  }

  lemma LetterShownFacts(s: State)
    requires PhaseOf(s) == Some(LetterShown)
    ensures s.stage == Letter && s.active == {Letter} && !s.animating && s.bursts == 1
  {
    PhaseSignature(s);
  }

  /** The events of the normal path: a rose click, n1 timer runs, an envelope
      click, n2 timer runs. */
  function NormalPath(n1: nat, n2: nat): seq<Event> {
    [ClickOn(RoseWrapper)] + Fires(n1) + [ClickOn(EnvelopeWrapper)] + Fires(n2)
  }

  lemma InitNow()
    ensures Init().queue.now == 0
  {
    RainSchedule(ScriptLoaded().queue);
  }

  /** From the first phase, the normal path shows the letter, with its one
      burst, 2100 ms later. */
  lemma NormalPathFrom(s: State) returns (n1: nat, n2: nat)
    requires Inv(s) && PhaseOf(s) == Some(RoseShown)
    ensures var s' := Run(s, NormalPath(n1, n2));
      Inv(s') && PhaseOf(s') == Some(LetterShown) && s'.active == {Letter} && s'.bursts == 1 &&
      s'.queue.now == s.queue.now + RoseExitDelay + EnvelopeOpenDelay + EnvelopeExitDelay
  {
    n1 := EnvelopeAfterRoseClick(s);
    var s1 := Run(s, [ClickOn(RoseWrapper)] + Fires(n1));
    n2 := LetterAfterEnvelopeClick(s1);
    var s2 := Run(s1, [ClickOn(EnvelopeWrapper)] + Fires(n2));
    var es := NormalPath(n1, n2);
    assert Run(s, es) == s2 by {
      assert es == ([ClickOn(RoseWrapper)] + Fires(n1)) + ([ClickOn(EnvelopeWrapper)] + Fires(n2));
      RunAppend(s, [ClickOn(RoseWrapper)] + Fires(n1), [ClickOn(EnvelopeWrapper)] + Fires(n2));
    }
  }

  /** The freshly loaded page reaches the letter: clicking the rose, letting
      the timers run, clicking the envelope once it is shown and letting the
      timers run again shows the letter with its one burst at 2100 ms. */
  lemma NormalPathReachesLetter()
    ensures exists n1: nat, n2: nat :: var s := Run(Init(), NormalPath(n1, n2));
      Reachable(s) && PhaseOf(s) == Some(LetterShown) && s.active == {Letter} && s.bursts == 1 &&
      s.queue.now == RoseExitDelay + EnvelopeOpenDelay + EnvelopeExitDelay
  {
    InitInv();
    InitNow();
    var n1, n2 := NormalPathFrom(Init());
    assert Reachable(Run(Init(), NormalPath(n1, n2)));
  }
}
