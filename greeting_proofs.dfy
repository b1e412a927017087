/** What the card promises about itself: the stages only move forward, one
    transition at a time, at most one burst, a single debounced cleanup, and
    the envelope click that is lost during the rose's exit. */
module GreetingProofs {
  import opened TimerQueue
  import opened Greeting

  // ---------------------------------------------------------------------
  // Counting pending timers

  /** Selects the timers running one callback, or the repeating timers. */
  datatype Selector = Of(a: Callback) | Repeating

  predicate Matches(t: Timer<Callback>, sel: Selector) {
    match sel
    case Of(a) => t.action == a
    case Repeating => t.period > 0
  }

  function Count(ts: seq<Timer<Callback>>, sel: Selector): nat {
    if ts == [] then 0 else (if Matches(ts[0], sel) then 1 else 0) + Count(ts[1..], sel)
  }

  lemma {:induction false} CountAppend(xs: seq<Timer<Callback>>, ys: seq<Timer<Callback>>, sel: Selector)
    ensures Count(xs + ys, sel) == Count(xs, sel) + Count(ys, sel)
  {
    if xs == [] {
      assert xs + ys == ys;
    } else {
      assert (xs + ys)[1..] == xs[1..] + ys;
      CountAppend(xs[1..], ys, sel);
    }
  }

  lemma CountOne(t: Timer<Callback>, sel: Selector)
    ensures Count([t], sel) == if Matches(t, sel) then 1 else 0
  {
    assert [t][1..] == [];
  }

  lemma {:induction false} CountNone(ts: seq<Timer<Callback>>, sel: Selector)
    requires forall t :: t in ts ==> !Matches(t, sel)
    ensures Count(ts, sel) == 0
  {
    if ts != [] {
      assert ts[0] in ts;
      CountNone(ts[1..], sel);
    }
  }

  lemma CountRemoveAt(ts: seq<Timer<Callback>>, k: nat, sel: Selector)
    requires k < |ts|
    ensures Count(ts[..k] + ts[k + 1..], sel) + (if Matches(ts[k], sel) then 1 else 0) == Count(ts, sel)
  {
    assert ts == ts[..k] + ([ts[k]] + ts[k + 1..]);
    CountAppend(ts[..k], [ts[k]] + ts[k + 1..], sel);
    CountAppend([ts[k]], ts[k + 1..], sel);
    CountAppend(ts[..k], ts[k + 1..], sel);
    CountOne(ts[k], sel);
  }

  /** Cancelling a handle that no selected timer holds leaves their number alone. */
  lemma {:induction false} CountWithout(ts: seq<Timer<Callback>>, id: nat, sel: Selector)
    requires forall t :: t in ts && Matches(t, sel) ==> t.id != id
    ensures Count(Without(ts, id), sel) == Count(ts, sel)
  {
    if ts != [] {
      assert ts[0] in ts;
      CountWithout(ts[1..], id, sel);
      if ts[0].id != id {
        assert Without(ts, id) == [ts[0]] + Without(ts[1..], id);
        CountAppend([ts[0]], Without(ts[1..], id), sel);
        CountOne(ts[0], sel);
      }
    }
  }

  // ---------------------------------------------------------------------
  // The invariant

  /** The timer queue as the script leaves it: valid; only the rain repeats,
      and it always does; the cleanup timers are exactly those holding the
      remembered resize handle, and there is at most one of them. */
  ghost predicate QueueOk(q: Queue<Callback>, rt: Option<nat>) {
    Valid(q) &&
    (forall t :: t in q.pending && t.period > 0 ==> t.action == SpawnHeart && t.period == RainInterval) &&
    Count(q.pending, Repeating) == 1 &&
    match rt
    case None => forall t :: t in q.pending ==> t.action != ClearHearts
    case Some(r) =>
      r < q.nextId && Count(q.pending, Of(ClearHearts)) <= 1 &&
      forall t :: t in q.pending ==> (t.id == r <==> t.action == ClearHearts)
  }

  /** The phases the controller goes through. LockedOut and Stuck are the
      two phases after an envelope click that landed during the rose's exit. */
  datatype Phase =
    | RoseShown | RoseLeaving | LockedOut | EnvelopeShown | Stuck
    | Opening | EnvelopeLeaving | LetterShown

  /** The controller's observable shape: the stage variables, the classes,
      the pending transition steps of each kind and the bursts made. */
  datatype Signature = Signature(
    stage: Stage, animating: bool, active: set<Stage>, exiting: set<Stage>, envelopeOpen: bool,
    showEnvelope: nat, exitEnvelope: nat, showLetter: nat, bursts: nat)

  ghost function SignatureOf(s: State): Signature {
    var ts := s.queue.pending;
    Signature(s.stage, s.animating, s.active, s.exiting, s.envelopeOpen,
              Count(ts, Of(ShowEnvelope)), Count(ts, Of(ExitEnvelope)), Count(ts, Of(ShowLetter)),
              s.bursts)
  }

  function Expected(p: Phase): Signature {
    match p
    case RoseShown       => Signature(Rose,     false, {Rose},     {},         false, 0, 0, 0, 0)
    case RoseLeaving     => Signature(Envelope, true,  {Rose},     {Rose},     false, 1, 0, 0, 0)
    case LockedOut       => Signature(Letter,   true,  {Rose},     {Rose},     false, 1, 0, 0, 0)
    case EnvelopeShown   => Signature(Envelope, false, {Envelope}, {},         false, 0, 0, 0, 0)
    case Stuck           => Signature(Letter,   false, {Envelope}, {},         false, 0, 0, 0, 0)
    case Opening         => Signature(Letter,   true,  {Envelope}, {},         true,  0, 1, 0, 0)
    case EnvelopeLeaving => Signature(Letter,   true,  {Envelope}, {Envelope}, true,  0, 0, 1, 0)
    case LetterShown     => Signature(Letter,   false, {Letter},   {},         true,  0, 0, 0, 1)
  }

  ghost function PhaseOf(s: State): Option<Phase> {
    var g := SignatureOf(s);
    if g == Expected(RoseShown) then Some(RoseShown)
    else if g == Expected(RoseLeaving) then Some(RoseLeaving)
    else if g == Expected(LockedOut) then Some(LockedOut)
    else if g == Expected(EnvelopeShown) then Some(EnvelopeShown)
    else if g == Expected(Stuck) then Some(Stuck)
    else if g == Expected(Opening) then Some(Opening)
    else if g == Expected(EnvelopeLeaving) then Some(EnvelopeLeaving)
    else if g == Expected(LetterShown) then Some(LetterShown)
    else None
  }

  /** The phases each phase may move to in one event, itself included. */
  function Next(p: Phase): set<Phase> {
    match p
    case RoseShown       => {RoseShown, RoseLeaving}
    case RoseLeaving     => {RoseLeaving, LockedOut, EnvelopeShown}
    case LockedOut       => {LockedOut, Stuck}
    case EnvelopeShown   => {EnvelopeShown, Opening}
    case Stuck           => {Stuck}
    case Opening         => {Opening, EnvelopeLeaving}
    case EnvelopeLeaving => {EnvelopeLeaving, LetterShown}
    case LetterShown     => {LetterShown}
  }

  ghost predicate Inv(s: State) {
    QueueOk(s.queue, s.resizeTimeout) &&
    s.burstHearts == (if s.bursts == 0 then [] else BurstRing()) &&
    PhaseOf(s).Some?
  }

  /** s' is in a phase that s's phase may move to. */
  ghost predicate Moves(s: State, s': State) {
    PhaseOf(s).Some? && PhaseOf(s').Some? && PhaseOf(s').value in Next(PhaseOf(s).value)
  }

  lemma PhaseSignature(s: State)
    requires PhaseOf(s).Some?
    ensures SignatureOf(s) == Expected(PhaseOf(s).value)
  {
  }

  lemma PhaseFromSignature(s: State, p: Phase)
    requires SignatureOf(s) == Expected(p)
    ensures PhaseOf(s) == Some(p)
  {
  }

  // ---------------------------------------------------------------------
  // Timer operations keep the queue healthy

  /** Registering a one-shot timer for anything but the cleanup keeps the
      queue healthy and adds one timer of that kind. */
  lemma OneShotOk(q: Queue<Callback>, rt: Option<nat>, delay: nat, a: Callback)
    requires QueueOk(q, rt) && a != ClearHearts
    ensures QueueOk(SetTimeout(q, delay, a).0, rt)
    ensures forall sel :: Count(SetTimeout(q, delay, a).0.pending, sel)
                          == Count(q.pending, sel) + (if sel == Of(a) then 1 else 0)
  {
    var t := Timer(q.nextId, q.now + delay, a, 0);
    forall sel ensures Count(q.pending + [t], sel) == Count(q.pending, sel) + (if sel == Of(a) then 1 else 0) {
      CountAppend(q.pending, [t], sel);
      CountOne(t, sel);
    }
  }

  /** A resize leaves exactly one cleanup pending, the one it registered
      300 ms from now under the handle it remembers, drops every earlier
      cleanup and leaves all other timers as they were. */
  lemma ResizeOk(s: State)
    requires QueueOk(s.queue, s.resizeTimeout)
    ensures var s' := Resize(s);
      QueueOk(s'.queue, s'.resizeTimeout) &&
      s'.resizeTimeout == Some(s.queue.nextId) &&
      Count(s'.queue.pending, Of(ClearHearts)) == 1 &&
      Timer(s.queue.nextId, s.queue.now + ResizeQuiet, ClearHearts, 0) in s'.queue.pending &&
      (forall t :: t in s'.queue.pending && t.action == ClearHearts ==>
         t == Timer(s.queue.nextId, s.queue.now + ResizeQuiet, ClearHearts, 0)) &&
      (forall t :: t in s.queue.pending && t.action != ClearHearts ==> t in s'.queue.pending) &&
      (forall sel :: sel != Of(ClearHearts) ==> Count(s'.queue.pending, sel) == Count(s.queue.pending, sel))
  {
    var q1 := Cancelled(s);
    var id := s.queue.nextId;
    var c := Timer(id, s.queue.now + ResizeQuiet, ClearHearts, 0);
    assert Resize(s).queue.pending == q1.pending + [c] && Resize(s).queue.nextId == id + 1;
    CancelOk(s);
    forall sel
      ensures Count(q1.pending + [c], sel) == Count(q1.pending, sel) + (if Matches(c, sel) then 1 else 0)
    {
      CountAppend(q1.pending, [c], sel);
      CountOne(c, sel);
    }
    CountNone(q1.pending, Of(ClearHearts));
  }

  /** The queue once a resize has cancelled the cleanup it remembers. */
  ghost function Cancelled(s: State): Queue<Callback> {
    match s.resizeTimeout
    case None => s.queue
    case Some(r) => ClearTimeout(s.queue, r)
  }

  /** Cancelling the remembered cleanup leaves no cleanup pending and every
      other timer, and how many of each kind, as it was. */
  lemma CancelOk(s: State)
    requires QueueOk(s.queue, s.resizeTimeout)
    ensures var q1 := Cancelled(s);
      Valid(q1) && q1.nextId == s.queue.nextId && q1.now == s.queue.now &&
      (forall t :: t in q1.pending ==> t in s.queue.pending && t.action != ClearHearts) &&
      (forall t :: t in s.queue.pending && t.action != ClearHearts ==> t in q1.pending) &&
      (forall sel :: sel != Of(ClearHearts) ==> Count(q1.pending, sel) == Count(s.queue.pending, sel))
  {
    forall sel | sel != Of(ClearHearts)
      ensures Count(Cancelled(s).pending, sel) == Count(s.queue.pending, sel)
    {
      if s.resizeTimeout.Some? {
        CountWithout(s.queue.pending, s.resizeTimeout.value, sel);
      }
    }
  }

  /** Running the next timer keeps the queue healthy and takes one timer of
      its kind off the queue, unless it repeats; the only timer not pending
      before is the re-registered rain. */
  lemma FireOk(q: Queue<Callback>, rt: Option<nat>)
    requires QueueOk(q, rt) && q.pending != []
    ensures var (t, q') := Fire(q);
      t.Some? && t.value in q.pending && QueueOk(q', rt) && q'.now == t.value.due &&
      (forall sel :: Count(q'.pending, sel) + (if Matches(t.value, sel) && t.value.period == 0 then 1 else 0)
                     == Count(q.pending, sel)) &&
      (forall u :: u in q'.pending && u.action != SpawnHeart ==> u in q.pending)
  {
    FireOrder(q);
    FireRemaining(q);
    FireKeepsValid(q);
    FireCounts(q);
    var t := Fire(q).0.value;
    assert t in q.pending;
    if rt.Some? {
      assert Count(Fire(q).1.pending, Of(ClearHearts)) <= Count(q.pending, Of(ClearHearts));
    }
  }

  /** Running a timer takes one timer of its kind off the queue, unless it repeats. */
  lemma FireCounts(q: Queue<Callback>)
    requires q.pending != []
    ensures var t := Fire(q).0.value;
      forall sel :: Count(Fire(q).1.pending, sel) + (if Matches(t, sel) && t.period == 0 then 1 else 0)
                    == Count(q.pending, sel)
  {
    var ts := q.pending;
    var k := NextIndex(ts);
    var t := ts[k];
    var rest := ts[..k] + ts[k + 1..];
    var again := Again(t);
    assert Fire(q).0.value == t && Fire(q).1.pending == rest + again;
    forall sel
      ensures Count(rest + again, sel) + (if Matches(t, sel) && t.period == 0 then 1 else 0) == Count(ts, sel)
    {
      CountRemoveAt(ts, k, sel);
      CountAppend(rest, again, sel);
      if t.period > 0 {
        CountOne(t.(due := t.due + t.period), sel);
      }
    }
  }

  lemma AdvanceOk(q: Queue<Callback>, rt: Option<nat>, until: int)
    requires QueueOk(q, rt)
    ensures QueueOk(Advance(q, until), rt)
  {
    if CanAdvance(q, until) {
      forall t | t in q.pending ensures until <= t.due {
        var j :| 0 <= j < |q.pending| && q.pending[j] == t;
      }
    }
  }

  // ---------------------------------------------------------------------
  // Every event keeps the invariant and moves along the phase diagram

  /** The queue right after startHeartsRain: ten spawns and the rain interval. */
  lemma RainQueueOk(q: Queue<Callback>)
    requires q.pending == [] && 1 <= q.nextId
    ensures QueueOk(StartHeartsRain(q), None)
    ensures forall a :: a != SpawnHeart ==> Count(StartHeartsRain(q).pending, Of(a)) == 0
  {
    var batch := ScheduleBatch(q, InitialHearts);
    BatchSchedule(q, InitialHearts);
    var rain := Timer(batch.nextId, batch.now + RainInterval, SpawnHeart, RainInterval);
    var all := batch.pending + [rain];
    assert StartHeartsRain(q).pending == all;
    BatchFacts(q, batch);
    CountNone(batch.pending, Repeating);
    forall a | a != SpawnHeart
      ensures Count(all, Of(a)) == 0
    {
      CountNone(all, Of(a));
    }
    CountAppend(batch.pending, [rain], Repeating);
    CountOne(rain, Repeating);
  }

  lemma BatchFacts(q: Queue<Callback>, batch: Queue<Callback>)
    requires q.pending == [] && 1 <= q.nextId
    requires batch.now == q.now && batch.nextId == q.nextId + InitialHearts
    requires batch.pending == seq(InitialHearts, i requires 0 <= i < InitialHearts =>
                                    Timer(q.nextId + i, q.now + i * InitialSpacing, SpawnHeart, 0))
    ensures forall t :: t in batch.pending ==>
              t.action == SpawnHeart && t.period == 0 && q.now <= t.due && 1 <= t.id < batch.nextId
  {
    forall t | t in batch.pending
      ensures t.action == SpawnHeart && t.period == 0 && q.now <= t.due && 1 <= t.id < batch.nextId
    {
      var j :| 0 <= j < |batch.pending| && batch.pending[j] == t;
    }
  }

  /** The page after DOMContentLoaded is in the first phase. */
  lemma InitInv()
    ensures Inv(Init()) && PhaseOf(Init()) == Some(RoseShown)
  {
    LoadedInv(ScriptLoaded());
  }

  lemma LoadedInv(s0: State)
    requires s0.stage == Rose && !s0.animating && s0.active == {} && s0.exiting == {} && !s0.envelopeOpen
    requires s0.resizeTimeout == None && s0.bursts == 0 && s0.burstHearts == []
    requires s0.queue.pending == [] && 1 <= s0.queue.nextId
    ensures Inv(DomContentLoaded(s0)) && PhaseOf(DomContentLoaded(s0)) == Some(RoseShown)
  {
    RainQueueOk(s0.queue);
    var s := DomContentLoaded(s0);
    assert s.active == {Rose};
    PhaseFromSignature(s, RoseShown);
  }

  lemma ClickKeepsInv(s: State, w: Wrapper)
    requires Inv(s)
    ensures Inv(Click(s, w)) && Moves(s, Click(s, w))
  {
    match w
    case RoseWrapper =>
      if s.stage == Rose {
        RoseClickKeepsInv(s);
      } else {
        NextHasItself(PhaseOf(s).value);
      }
    case EnvelopeWrapper =>
      if s.stage != Envelope {
        NextHasItself(PhaseOf(s).value);
      } else if s.animating {
        LockingClickKeepsInv(s);
      } else {
        EnvelopeClickKeepsInv(s);
      }
  }

  lemma NextHasItself(p: Phase)
    ensures p in Next(p)
  {
  }

  /** A rose click on the rose starts its exit. */
  lemma RoseClickKeepsInv(s: State)
    requires Inv(s) && s.stage == Rose
    ensures Inv(ClickRose(s)) && PhaseOf(s) == Some(RoseShown) && PhaseOf(ClickRose(s)) == Some(RoseLeaving)
  {
    PhaseSignature(s);
    OneShotOk(s.queue, s.resizeTimeout, RoseExitDelay, ShowEnvelope);
    PhaseFromSignature(ClickRose(s), RoseLeaving);
  }

  /** An envelope click while the rose is still leaving locks the card out. */
  lemma LockingClickKeepsInv(s: State)
    requires Inv(s) && s.stage == Envelope && s.animating
    ensures Inv(ClickEnvelope(s)) && PhaseOf(s) == Some(RoseLeaving) && PhaseOf(ClickEnvelope(s)) == Some(LockedOut)
  {
    PhaseSignature(s);
    PhaseFromSignature(ClickEnvelope(s), LockedOut);
  }

  /** An envelope click on the shown envelope starts its opening. */
  lemma EnvelopeClickKeepsInv(s: State)
    requires Inv(s) && s.stage == Envelope && !s.animating
    ensures Inv(ClickEnvelope(s)) && PhaseOf(s) == Some(EnvelopeShown) && PhaseOf(ClickEnvelope(s)) == Some(Opening)
  {
    PhaseSignature(s);
    OneShotOk(s.queue, s.resizeTimeout, EnvelopeOpenDelay, ExitEnvelope);
    PhaseFromSignature(ClickEnvelope(s), Opening);
  }

  lemma ResizeKeepsInv(s: State)
    requires Inv(s)
    ensures Inv(Resize(s)) && Moves(s, Resize(s))
    ensures PhaseOf(Resize(s)) == PhaseOf(s)
  {
    var s' := Resize(s);
    ResizeSignature(s);
    PhaseSignature(s);
    PhaseFromSignature(s', PhaseOf(s).value);
  }

  lemma ResizeSignature(s: State)
    requires QueueOk(s.queue, s.resizeTimeout)
    ensures QueueOk(Resize(s).queue, Resize(s).resizeTimeout)
    ensures SignatureOf(Resize(s)) == SignatureOf(s)
    ensures Resize(s).burstHearts == s.burstHearts
  {
    var s' := Resize(s);
    ResizeOk(s);
    assert Count(s'.queue.pending, Of(ShowEnvelope)) == Count(s.queue.pending, Of(ShowEnvelope));
    assert Count(s'.queue.pending, Of(ExitEnvelope)) == Count(s.queue.pending, Of(ExitEnvelope));
    assert Count(s'.queue.pending, Of(ShowLetter)) == Count(s.queue.pending, Of(ShowLetter));
  }

  lemma WaitKeepsInv(s: State, until: int)
    requires Inv(s)
    ensures Inv(Wait(s, until)) && Moves(s, Wait(s, until))
    ensures PhaseOf(Wait(s, until)) == PhaseOf(s)
  {
    PhaseSignature(s);
    AdvanceOk(s.queue, s.resizeTimeout, until);
    PhaseFromSignature(Wait(s, until), PhaseOf(s).value);
  }

  /** The callback that ran, and the queue it ran from. */
  ghost predicate Ran(s: State, timer: Timer<Callback>, q: Queue<Callback>) {
    timer in s.queue.pending &&
    QueueOk(q, s.resizeTimeout) &&
    (forall sel :: Count(q.pending, sel) + (if Matches(timer, sel) && timer.period == 0 then 1 else 0)
                   == Count(s.queue.pending, sel))
  }

  lemma ShowEnvelopeKeepsInv(s: State, timer: Timer<Callback>, q: Queue<Callback>)
    requires Inv(s) && Ran(s, timer, q) && timer.action == ShowEnvelope
    ensures Inv(RunCallback(s.(queue := q), ShowEnvelope)) && Moves(s, RunCallback(s.(queue := q), ShowEnvelope))
    ensures PhaseOf(RunCallback(s.(queue := q), ShowEnvelope))
            == Some(if PhaseOf(s) == Some(RoseLeaving) then EnvelopeShown else Stuck)
    ensures PhaseOf(s) == Some(RoseLeaving) || PhaseOf(s) == Some(LockedOut)
  {
    PhaseSignature(s);
    var p := PhaseOf(s).value;
    assert timer.period == 0;
    assert Count(s.queue.pending, Of(ShowEnvelope)) >= 1;
    assert p == RoseLeaving || p == LockedOut;
    assert s.active == {Rose} && s.exiting == {Rose};
    var s' := RunCallback(s.(queue := q), ShowEnvelope);
    assert s'.active == {Envelope} by {
      assert s'.active == s.active - {Rose} + {Envelope};
    }
    assert s'.exiting == {} by {
      assert s'.exiting == s.exiting - {Rose};
    }
    PhaseFromSignature(s', if p == RoseLeaving then EnvelopeShown else Stuck);
  }

  lemma ExitEnvelopeKeepsInv(s: State, timer: Timer<Callback>, q: Queue<Callback>)
    requires Inv(s) && Ran(s, timer, q) && timer.action == ExitEnvelope
    ensures Inv(RunCallback(s.(queue := q), ExitEnvelope)) && Moves(s, RunCallback(s.(queue := q), ExitEnvelope))
    ensures PhaseOf(s) == Some(Opening)
    ensures PhaseOf(RunCallback(s.(queue := q), ExitEnvelope)) == Some(EnvelopeLeaving)
  {
    PhaseSignature(s);
    assert timer.period == 0;
    assert Count(s.queue.pending, Of(ExitEnvelope)) >= 1;
    assert PhaseOf(s).value == Opening;
    assert s.exiting == {};
    var s' := RunCallback(s.(queue := q), ExitEnvelope);
    OneShotOk(q, s.resizeTimeout, EnvelopeExitDelay, ShowLetter);
    assert s'.exiting == {Envelope} by {
      assert s'.exiting == s.exiting + {Envelope};
    }
    PhaseFromSignature(s', EnvelopeLeaving);
  }

  lemma ShowLetterKeepsInv(s: State, timer: Timer<Callback>, q: Queue<Callback>)
    requires Inv(s) && Ran(s, timer, q) && timer.action == ShowLetter
    ensures Inv(RunCallback(s.(queue := q), ShowLetter)) && Moves(s, RunCallback(s.(queue := q), ShowLetter))
    ensures PhaseOf(s) == Some(EnvelopeLeaving)
    ensures PhaseOf(RunCallback(s.(queue := q), ShowLetter)) == Some(LetterShown)
  {
    PhaseSignature(s);
    assert timer.period == 0;
    assert Count(s.queue.pending, Of(ShowLetter)) >= 1;
    assert PhaseOf(s).value == EnvelopeLeaving;
    assert s.active == {Envelope} && s.exiting == {Envelope};
    var s' := RunCallback(s.(queue := q), ShowLetter);
    OneShotOk(q, s.resizeTimeout, BurstLifetime, RemoveBurst);
    assert s'.active == {Letter} by {
      assert s'.active == s.active - {Envelope} + {Letter};
    }
    assert s'.exiting == {} by {
      assert s'.exiting == s.exiting - {Envelope};
    }
    assert s'.burstHearts == BurstRing() by {
      assert s'.burstHearts == s.burstHearts + BurstRing();
      assert s.burstHearts == [];
    }
    PhaseFromSignature(s', LetterShown);
  }

  lemma OtherCallbackKeepsInv(s: State, timer: Timer<Callback>, q: Queue<Callback>)
    requires Inv(s) && Ran(s, timer, q)
    requires timer.action in {SpawnHeart, RemoveBurst, ClearHearts}
    ensures Inv(RunCallback(s.(queue := q), timer.action)) && Moves(s, RunCallback(s.(queue := q), timer.action))
    ensures PhaseOf(RunCallback(s.(queue := q), timer.action)) == PhaseOf(s)
  {
    PhaseSignature(s);
    var p := PhaseOf(s).value;
    var s' := RunCallback(s.(queue := q), timer.action);
    assert Count(q.pending, Of(ShowEnvelope)) == Count(s.queue.pending, Of(ShowEnvelope));
    assert Count(q.pending, Of(ExitEnvelope)) == Count(s.queue.pending, Of(ExitEnvelope));
    assert Count(q.pending, Of(ShowLetter)) == Count(s.queue.pending, Of(ShowLetter));
    assert SignatureOf(s') == SignatureOf(s);
    PhaseFromSignature(s', p);
  }

  lemma FireKeepsInv(s: State)
    requires Inv(s)
    ensures Inv(FireNextTimer(s)) && Moves(s, FireNextTimer(s))
  {
    if s.queue.pending == [] {
      PhaseSignature(s);
      return;
    }
    FireOk(s.queue, s.resizeTimeout);
    var (t, q) := Fire(s.queue);
    var timer := t.value;
    assert Ran(s, timer, q);
    assert FireNextTimer(s) == RunCallback(s.(queue := q), timer.action);
    match timer.action
    case ShowEnvelope => ShowEnvelopeKeepsInv(s, timer, q);
    case ExitEnvelope => ExitEnvelopeKeepsInv(s, timer, q);
    case ShowLetter => ShowLetterKeepsInv(s, timer, q);
    case SpawnHeart => OtherCallbackKeepsInv(s, timer, q);
    case RemoveBurst => OtherCallbackKeepsInv(s, timer, q);
    case ClearHearts => OtherCallbackKeepsInv(s, timer, q);
  }

  /** Every event keeps the invariant, and the phase either stays or takes
      one of the diagram's edges. */
  lemma StepKeepsInv(s: State, e: Event)
    requires Inv(s)
    ensures Inv(Step(s, e)) && Moves(s, Step(s, e))
  {
    match e
    case ClickOn(w) => ClickKeepsInv(s, w);
    case KeyOn(w, key) => if IsActivationKey(key) { ClickKeepsInv(s, w); }
    case WindowResized => ResizeKeepsInv(s);
    case TimerFires => FireKeepsInv(s);
    case Idle(until) => WaitKeepsInv(s, until);
  }

  lemma {:induction false} RunKeepsInv(s: State, es: seq<Event>)
    requires Inv(s)
    ensures Inv(Run(s, es))
    decreases |es|
  {
    if es != [] {
      StepKeepsInv(s, es[0]);
      RunKeepsInv(Step(s, es[0]), es[1..]);
    }
  }

  /** Every state the page can reach satisfies the invariant. */
  lemma ReachableInv(s: State)
    requires Reachable(s)
    ensures Inv(s)
  {
    var es :| Run(Init(), es) == s;
    InitInv();
    RunKeepsInv(Init(), es);
  }

  // ---------------------------------------------------------------------
  // The rain schedule

  /** The loop of startHeartsRain registers its i-th timeout, the i-th heart,
      i*200 ms from now, and nothing else. */
  lemma {:induction false} BatchSchedule(q: Queue<Callback>, n: nat)
    ensures ScheduleBatch(q, n).now == q.now && ScheduleBatch(q, n).nextId == q.nextId + n
    ensures ScheduleBatch(q, n).pending
            == q.pending + seq(n, i requires 0 <= i < n => Timer(q.nextId + i, q.now + i * InitialSpacing, SpawnHeart, 0))
  {
    if n > 0 {
      BatchSchedule(q, n - 1);
      var before := seq(n - 1, i requires 0 <= i < n - 1 => Timer(q.nextId + i, q.now + i * InitialSpacing, SpawnHeart, 0));
      var after := seq(n, i requires 0 <= i < n => Timer(q.nextId + i, q.now + i * InitialSpacing, SpawnHeart, 0));
      assert after == before + [Timer(q.nextId + (n - 1), q.now + (n - 1) * InitialSpacing, SpawnHeart, 0)];
    }
  }

  /** startHeartsRain registers ten one-shot spawns at 0, 200, ..., 1800 ms
      and one spawn repeating every 400 ms, and nothing else. */
  lemma RainSchedule(q: Queue<Callback>)
    ensures var r := StartHeartsRain(q);
      r.now == q.now && r.nextId == q.nextId + InitialHearts + 1 &&
      |r.pending| == |q.pending| + InitialHearts + 1 &&
      r.pending[..|q.pending|] == q.pending &&
      (forall i :: 0 <= i < InitialHearts ==>
         r.pending[|q.pending| + i] == Timer(q.nextId + i, q.now + i * InitialSpacing, SpawnHeart, 0)) &&
      r.pending[|q.pending| + InitialHearts] == Timer(q.nextId + InitialHearts, q.now + RainInterval, SpawnHeart, RainInterval)
  {
    BatchSchedule(q, InitialHearts);
  }

  lemma {:induction false} CountPositive(ts: seq<Timer<Callback>>, sel: Selector)
    requires Count(ts, sel) > 0
    ensures exists t :: t in ts && Matches(t, sel)
  {
    if !Matches(ts[0], sel) {
      CountPositive(ts[1..], sel);
      var t :| t in ts[1..] && Matches(t, sel);
      assert t in ts;
    } else {
      assert ts[0] in ts;
    }
  }

  /** The rain never stops: in every reachable state exactly one repeating
      timer is pending, and it spawns a heart every 400 ms. */
  lemma RainNeverStops(s: State)
    requires Inv(s)
    ensures Count(s.queue.pending, Repeating) == 1
    ensures exists t :: t in s.queue.pending && t.period == RainInterval && t.action == SpawnHeart
    ensures forall t :: t in s.queue.pending && t.period > 0 ==> t.period == RainInterval && t.action == SpawnHeart
  {
    CountPositive(s.queue.pending, Repeating);
  }

  // ---------------------------------------------------------------------
  // The stage controller

  /** currentStage never goes backward and never skips a stage: an event
      either keeps it, or moves rose to envelope, or envelope to letter, and
      only a click (or an activation key) on that stage's wrapper moves it. */
  lemma StageMovesForward(s: State, e: Event)
    ensures var s' := Step(s, e);
      Rank(s.stage) <= Rank(s'.stage) <= Rank(s.stage) + 1 &&
      (s'.stage != s.stage ==>
         (s.stage == Rose && s'.stage == Envelope &&
          (e == ClickOn(RoseWrapper) || (e.KeyOn? && e.w == RoseWrapper && IsActivationKey(e.key)))) ||
         (s.stage == Envelope && s'.stage == Letter &&
          (e == ClickOn(EnvelopeWrapper) || (e.KeyOn? && e.w == EnvelopeWrapper && IsActivationKey(e.key)))))
  {
    if e.TimerFires? && s.queue.pending != [] {
      var (t, q) := Fire(s.queue);
      assert FireNextTimer(s) == RunCallback(s.(queue := q), t.value.action);
    }
  }

  lemma {:induction false} RunStageMonotone(s: State, es: seq<Event>)
    ensures Rank(s.stage) <= Rank(Run(s, es).stage)
    decreases |es|
  {
    if es != [] {
      StageMovesForward(s, es[0]);
      RunStageMonotone(Step(s, es[0]), es[1..]);
    }
  }

  /** A click on a wrapper does anything at all exactly when currentStage is
      that wrapper's stage. */
  lemma ClickOnlyFromItsStage(s: State)
    ensures ClickRose(s) != s <==> s.stage == Rose
    ensures ClickEnvelope(s) != s <==> s.stage == Envelope
    ensures s.stage == Rose ==> ClickRose(s).stage == Envelope
    ensures s.stage == Envelope ==> ClickEnvelope(s).stage == Letter
  {
  }

  /** A keydown with Enter or Space is a click on that wrapper; any other key
      changes nothing. */
  lemma KeyMirrorsClick(s: State, w: Wrapper, key: string)
    ensures IsActivationKey(key) ==> Step(s, KeyOn(w, key)) == Step(s, ClickOn(w))
    ensures !IsActivationKey(key) ==> Step(s, KeyOn(w, key)) == s
    ensures Step(s, KeyOn(w, "Enter")) == Step(s, ClickOn(w)) && Step(s, KeyOn(w, " ")) == Step(s, ClickOn(w))
  {
  }

  /** With the lock held both transitions return at once: no field changes
      and nothing is scheduled. Without it, each takes the lock and
      schedules exactly its first step: the rose's exit after 600 ms, the
      envelope's opening after 1000 ms. */
  lemma TransitionsRespectLock(s: State)
    ensures s.animating ==> TransitionToEnvelope(s) == s && TransitionToLetter(s) == s
    ensures !s.animating ==>
      TransitionToEnvelope(s) == s.(animating := true, exiting := s.exiting + {Rose},
        queue := s.queue.(pending := s.queue.pending + [Timer(s.queue.nextId, s.queue.now + RoseExitDelay, ShowEnvelope, 0)],
                          nextId := s.queue.nextId + 1))
    ensures !s.animating ==>
      TransitionToLetter(s) == s.(animating := true, envelopeOpen := true,
        queue := s.queue.(pending := s.queue.pending + [Timer(s.queue.nextId, s.queue.now + EnvelopeOpenDelay, ExitEnvelope, 0)],
                          nextId := s.queue.nextId + 1))
  {
  }

  /** The envelope's 1000 ms step starts its exit and schedules the final
      step 500 ms later, without releasing the lock. */
  lemma OpeningStepSchedulesReveal(s: State)
    ensures var s' := RunCallback(s, ExitEnvelope);
      s'.animating == s.animating && s'.active == s.active && Envelope in s'.exiting &&
      s'.queue.pending == s.queue.pending + [Timer(s.queue.nextId, s.queue.now + EnvelopeExitDelay, ShowLetter, 0)]
  {
  }

  /** The lock is released only by the last step of a transition: the 600 ms
      step of the rose's exit or the final step of the envelope's. */
  lemma LockReleasedOnlyByLastStep(s: State, e: Event)
    requires s.animating && !Step(s, e).animating
    ensures e == TimerFires && s.queue.pending != []
    ensures Fire(s.queue).0.value.action in {ShowEnvelope, ShowLetter}
  {
    if e.TimerFires? && s.queue.pending != [] {
      var (t, q) := Fire(s.queue);
      assert FireNextTimer(s) == RunCallback(s.(queue := q), t.value.action);
    }
  }

  /** While a transition runs, an event releases the lock exactly when it is
      that transition's last step: the rose's 600 ms step activates the
      envelope, the envelope's 500 ms step activates the letter and makes
      the one burst, and the envelope's 1000 ms step keeps the lock. */
  lemma LockHeldUntilLastStep(s: State, e: Event)
    requires Inv(s) && s.animating
    ensures var s' := Step(s, e);
      !s'.animating <==>
        e == TimerFires && s.queue.pending != [] && Fire(s.queue).0.value.action in {ShowEnvelope, ShowLetter}
    ensures var s' := Step(s, e);
      PhaseOf(s) == Some(RoseLeaving) && !s'.animating ==>
        s'.stage == Envelope && s'.active == {Envelope} && s'.bursts == 0
    ensures var s' := Step(s, e);
      PhaseOf(s) == Some(EnvelopeLeaving) && !s'.animating ==>
        s'.stage == Letter && s'.active == {Letter} && s'.bursts == 1
    ensures PhaseOf(s) == Some(Opening) ==> Step(s, e).animating
  {
    LockReleasedBy(s, e);
    StepKeepsInv(s, e);
    LockedPhaseMoves(s, Step(s, e));
  }

  lemma LockReleasedBy(s: State, e: Event)
    requires s.animating
    ensures !Step(s, e).animating <==>
      e == TimerFires && s.queue.pending != [] && Fire(s.queue).0.value.action in {ShowEnvelope, ShowLetter}
  {
    if e.TimerFires? && s.queue.pending != [] {
      var (t, q) := Fire(s.queue);
      assert FireNextTimer(s) == RunCallback(s.(queue := q), t.value.action);
    }
    if !Step(s, e).animating {
      LockReleasedOnlyByLastStep(s, e);
    }
  }

  lemma LockedPhaseMoves(s: State, s': State)
    requires Inv(s) && Inv(s') && Moves(s, s') && s.animating
    ensures PhaseOf(s) == Some(RoseLeaving) && !s'.animating ==>
      s'.stage == Envelope && s'.active == {Envelope} && s'.bursts == 0
    ensures PhaseOf(s) == Some(EnvelopeLeaving) && !s'.animating ==>
      s'.stage == Letter && s'.active == {Letter} && s'.bursts == 1
    ensures PhaseOf(s) == Some(Opening) ==> s'.animating
  {
    PhaseSignature(s);
    PhaseSignature(s');
  }

  /** The lock is taken only by a click that starts a transition. */
  lemma LockTakenOnlyByClick(s: State, e: Event)
    requires !s.animating && Step(s, e).animating
    ensures e.ClickOn? || (e.KeyOn? && IsActivationKey(e.key))
    ensures Step(s, e).stage != s.stage
  {
    if e.TimerFires? && s.queue.pending != [] {
      var (t, q) := Fire(s.queue);
      assert FireNextTimer(s) == RunCallback(s.(queue := q), t.value.action);
    }
  }

  /** In every reachable state at most one transition is in flight: at most
      one transition step is pending, and the lock is held exactly when one is. */
  lemma OneTransitionAtATime(s: State)
    requires Inv(s)
    ensures var ts := s.queue.pending;
      var n := Count(ts, Of(ShowEnvelope)) + Count(ts, Of(ExitEnvelope)) + Count(ts, Of(ShowLetter));
      n <= 1 && (s.animating <==> n == 1)
  {
    PhaseSignature(s);
  }

  /** One stage is active at a time; the active stage never runs ahead of
      currentStage; there is at most one burst, it exists exactly when the
      letter is active, and it holds the 20 hearts of the ring. */
  lemma ActiveStageAndBurst(s: State)
    requires Inv(s)
    ensures exists st :: s.active == {st}
    ensures forall st :: st in s.active ==> Rank(st) <= Rank(s.stage)
    ensures s.bursts <= 1
    ensures s.bursts == 1 <==> Letter in s.active
    ensures s.bursts == 1 ==> s.burstHearts == BurstRing()
  {
    PhaseSignature(s);
    var p := PhaseOf(s).value;
    match p
    case RoseShown => assert s.active == {Rose};
    case RoseLeaving => assert s.active == {Rose};
    case LockedOut => assert s.active == {Rose};
    case EnvelopeShown => assert s.active == {Envelope};
    case Stuck => assert s.active == {Envelope};
    case Opening => assert s.active == {Envelope};
    case EnvelopeLeaving => assert s.active == {Envelope};
    case LetterShown => assert s.active == {Letter};
  }

  /** The burst is created by the envelope transition's final step and by
      nothing else: that step releases the lock, shows the letter and makes
      exactly one burst. */
  lemma BurstOnlyFromFinalStep(s: State, e: Event)
    requires Inv(s) && s.bursts == 0 && Step(s, e).bursts != 0
    ensures PhaseOf(s) == Some(EnvelopeLeaving)
    ensures PhaseOf(Step(s, e)) == Some(LetterShown)
    ensures var s' := Step(s, e); s'.bursts == 1 && !s'.animating && s'.active == {Letter}
  {
    var s' := Step(s, e);
    StepKeepsInv(s, e);
    FirstBurst(s, s');
  }

  lemma FirstBurst(s: State, s': State)
    requires Inv(s) && Inv(s') && Moves(s, s') && s.bursts == 0 && s'.bursts != 0
    ensures PhaseOf(s) == Some(EnvelopeLeaving) && PhaseOf(s') == Some(LetterShown)
    ensures s'.bursts == 1 && !s'.animating && s'.active == {Letter}
  {
    PhaseSignature(s);
    PhaseSignature(s');
  }

  // ---------------------------------------------------------------------
  // The resize debounce

  /** An event other than a resize adds no cleanup: every cleanup pending
      afterwards was pending before. */
  lemma CleanupKept(s: State, e: Event)
    requires Inv(s) && !e.WindowResized?
    ensures forall t :: t in Step(s, e).queue.pending && t.action == ClearHearts ==> t in s.queue.pending
  {
    match e
    case ClickOn(w) => ClickAddsNoCleanup(s, w);
    case KeyOn(w, key) => ClickAddsNoCleanup(s, w);
    case TimerFires => FireAddsNoCleanup(s);
    case Idle(until) =>
  }

  lemma ClickAddsNoCleanup(s: State, w: Wrapper)
    ensures forall t :: t in Click(s, w).queue.pending && t.action == ClearHearts ==> t in s.queue.pending
  {
  }

  lemma FireAddsNoCleanup(s: State)
    requires Inv(s)
    ensures forall t :: t in FireNextTimer(s).queue.pending && t.action == ClearHearts ==> t in s.queue.pending
  {
    if s.queue.pending != [] {
      var (t, q) := Fire(s.queue);
      FireRemaining(s.queue);
      assert t.value in s.queue.pending by {
        FireOrder(s.queue);
      }
      assert forall u :: u in q.pending && u.action == ClearHearts ==> u in s.queue.pending;
      CallbackAddsNoCleanup(s.(queue := q), t.value.action);
      assert FireNextTimer(s) == RunCallback(s.(queue := q), t.value.action);
    }
  }

  lemma CallbackAddsNoCleanup(s: State, a: Callback)
    ensures forall u :: u in RunCallback(s, a).queue.pending && u.action == ClearHearts ==> u in s.queue.pending
  {
  }

  lemma {:induction false} CleanupStays(s: State, es: seq<Event>, c: Timer<Callback>)
    requires Inv(s)
    requires forall t :: t in s.queue.pending && t.action == ClearHearts ==> t == c
    requires forall i :: 0 <= i < |es| ==> !es[i].WindowResized?
    ensures forall t :: t in Run(s, es).queue.pending && t.action == ClearHearts ==> t == c
    decreases |es|
  {
    if es != [] {
      CleanupKept(s, es[0]);
      StepKeepsInv(s, es[0]);
      CleanupStays(Step(s, es[0]), es[1..], c);
    }
  }

  /** However many events follow a resize, as long as none of them is a
      resize: at most one cleanup is pending, and it is the one that resize
      registered, due 300 ms after it under the handle it stored; every
      cleanup pending before that resize is gone. */
  lemma LastResizeDecides(s: State, es: seq<Event>)
    requires Inv(s)
    requires forall i :: 0 <= i < |es| ==> !es[i].WindowResized?
    ensures var c := Timer(s.queue.nextId, s.queue.now + ResizeQuiet, ClearHearts, 0);
      var s' := Run(Resize(s), es);
      Count(s'.queue.pending, Of(ClearHearts)) <= 1 &&
      s'.resizeTimeout == Some(c.id) &&
      (forall t :: t in s'.queue.pending && t.action == ClearHearts ==> t == c) &&
      (forall t :: t in s.queue.pending && t.action == ClearHearts ==> t !in s'.queue.pending)
  {
    var c := Timer(s.queue.nextId, s.queue.now + ResizeQuiet, ClearHearts, 0);
    ResizeOk(s);
    ResizeKeepsInv(s);
    CleanupStays(Resize(s), es, c);
    RunKeepsInv(Resize(s), es);
    HandleKept(Resize(s), es);
    forall t | t in s.queue.pending && t.action == ClearHearts
      ensures t != c
    {
      assert t.id < s.queue.nextId;
    }
  }

  lemma {:induction false} HandleKept(s: State, es: seq<Event>)
    requires forall i :: 0 <= i < |es| ==> !es[i].WindowResized?
    ensures Run(s, es).resizeTimeout == s.resizeTimeout
    decreases |es|
  {
    if es != [] {
      var s1 := Step(s, es[0]);
      if es[0].TimerFires? && s.queue.pending != [] {
        var (t, q) := Fire(s.queue);
        assert FireNextTimer(s) == RunCallback(s.(queue := q), t.value.action);
      }
      assert s1.resizeTimeout == s.resizeTimeout;
      HandleKept(s1, es[1..]);
    }
  }

  // ---------------------------------------------------------------------
  // The envelope click lost during the rose's exit

  /** Clicking the rose and then, before its 600 ms step runs, the envelope:
      currentStage becomes letter, but transitionToLetter returned at once,
      so no envelope step is pending. */
  lemma LockoutFrom(s: State)
    requires Inv(s) && PhaseOf(s) == Some(RoseShown)
    ensures var s' := ClickEnvelope(ClickRose(s));
      Inv(s') && PhaseOf(s') == Some(LockedOut) &&
      s'.stage == Letter && s'.animating && s'.active == {Rose} &&
      Count(s'.queue.pending, Of(ExitEnvelope)) == 0 && Count(s'.queue.pending, Of(ShowLetter)) == 0
  {
    PhaseSignature(s);
    var s1 := ClickRose(s);
    OneShotOk(s.queue, s.resizeTimeout, RoseExitDelay, ShowEnvelope);
    PhaseFromSignature(s1, RoseLeaving);
    var s2 := ClickEnvelope(s1);
    assert s2 == s1.(stage := Letter);
    PhaseFromSignature(s2, LockedOut);
  }

  lemma RunTwoClicks(s: State)
    ensures Run(s, [ClickOn(RoseWrapper), ClickOn(EnvelopeWrapper)]) == ClickEnvelope(ClickRose(s))
  {
    var es := [ClickOn(RoseWrapper), ClickOn(EnvelopeWrapper)];
    assert es[1..] == [ClickOn(EnvelopeWrapper)];
    assert es[1..][1..] == [];
  }

  /** The lockout is reachable from the freshly loaded page by two clicks. */
  lemma LockoutReachable()
    ensures var s := Run(Init(), [ClickOn(RoseWrapper), ClickOn(EnvelopeWrapper)]);
      Reachable(s) && PhaseOf(s) == Some(LockedOut) && s.stage == Letter && s.animating
  {
    InitInv();
    var s0 := Init();
    LockoutFrom(s0);
    RunTwoClicks(s0);
  }

  /** Once locked out, the card stays so for the rest of the page's life:
      whatever happens, the letter never becomes active and no burst is made. */
  lemma {:induction false} LockoutIsPermanent(s: State, es: seq<Event>)
    requires Inv(s) && PhaseOf(s).value in {LockedOut, Stuck}
    ensures var s' := Run(s, es);
      Inv(s') && PhaseOf(s').value in {LockedOut, Stuck} &&
      s'.stage == Letter && Letter !in s'.active && s'.bursts == 0
    decreases |es|
  {
    if es == [] {
      PhaseSignature(s);
    } else {
      var s1 := Step(s, es[0]);
      StepKeepsInv(s, es[0]);
      assert PhaseOf(s1).value in Next(PhaseOf(s).value);
      assert PhaseOf(s1).value in {LockedOut, Stuck};
      LockoutIsPermanent(s1, es[1..]);
      assert Run(s, es) == Run(s1, es[1..]);
    }
  }

  // ---------------------------------------------------------------------
  // The burst ring

  lemma {:induction false} RingAngles(n: nat)
    ensures |Ring(n)| == n
    ensures forall i :: 0 <= i < n ==> Ring(n)[i] == i * 360 / BurstSize
  {
    if n > 0 {
      RingAngles(n - 1);
    }
  }

  /** The burst's 20 hearts are spread evenly over a full turn, 18 degrees
      apart, starting at 0. */
  lemma BurstRingEvenlySpaced()
    ensures |BurstRing()| == BurstSize
    ensures BurstRing()[0] == 0
    ensures forall i :: 0 <= i < BurstSize ==> BurstRing()[i] == 18 * i < 360
    ensures forall i :: 0 < i < BurstSize ==> BurstRing()[i] - BurstRing()[i - 1] == 18
  {
    RingAngles(BurstSize);
  }
}
