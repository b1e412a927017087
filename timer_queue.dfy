/** The browser's timer list as the page script sees it: setTimeout, setInterval
    and clearTimeout register and cancel callbacks, and the event loop runs the
    due callbacks one at a time, earliest deadline first and, among equal
    deadlines, in registration order. */
module TimerQueue {

  datatype Option<T> = None | Some(value: T)

  /** One registered callback. A period of 0 marks a one-shot timer
      (setTimeout); a positive period marks a repeating one (setInterval). */
  datatype Timer<A> = Timer(id: nat, due: int, action: A, period: nat)

  /** The pending timers in registration order, the next handle to hand out
      and the current time in milliseconds. Handles start at 1, so every
      handle is truthy in the script. */
  datatype Queue<A> = Queue(pending: seq<Timer<A>>, nextId: nat, now: int)

  function Empty<A>(): Queue<A> {
    Queue([], 1, 0)
  }

  /** Nothing pending is overdue and every pending handle was handed out. */
  ghost predicate Valid<A>(q: Queue<A>) {
    1 <= q.nextId &&
    forall t :: t in q.pending ==> q.now <= t.due && 1 <= t.id < q.nextId
  }

  /** setTimeout(action, delay): returns the new queue and the handle. */
  function SetTimeout<A>(q: Queue<A>, delay: nat, a: A): (Queue<A>, nat) {
    (q.(pending := q.pending + [Timer(q.nextId, q.now + delay, a, 0)], nextId := q.nextId + 1), q.nextId)
  }

  /** setInterval(action, delay): first run after delay, then every delay. */
  function SetInterval<A>(q: Queue<A>, delay: nat, a: A): (Queue<A>, nat)
    requires delay > 0
  {
    (q.(pending := q.pending + [Timer(q.nextId, q.now + delay, a, delay)], nextId := q.nextId + 1), q.nextId)
  }

  /** The timers of ts whose handle is not id, in their order. */
  function Without<A>(ts: seq<Timer<A>>, id: nat): (r: seq<Timer<A>>)
    ensures |r| <= |ts|
    ensures forall t :: t in r ==> t in ts && t.id != id
    ensures forall t :: t in ts && t.id != id ==> t in r
  {
    if ts == [] then []
    else if ts[0].id == id then Without(ts[1..], id)
    else [ts[0]] + Without(ts[1..], id)
  }

  /** Cancelling keeps the registration order: filtering a list is filtering
      its two halves and joining the results. */
  lemma {:induction false} WithoutAppend<A>(a: seq<Timer<A>>, b: seq<Timer<A>>, id: nat)
    ensures Without(a + b, id) == Without(a, id) + Without(b, id)
  {
    if a == [] {
      assert a + b == b;
    } else {
      assert (a + b)[0] == a[0];
      assert (a + b)[1..] == a[1..] + b;
      WithoutAppend(a[1..], b, id);
    }
  }

  /** Filtering out a handle no timer holds gives the list back unchanged. */
  lemma {:induction false} WithoutUnknown<A>(ts: seq<Timer<A>>, id: nat)
    requires forall t :: t in ts ==> t.id != id
    ensures Without(ts, id) == ts
  {
    if ts != [] {
      assert ts[0] in ts;
      WithoutUnknown(ts[1..], id);
      assert [ts[0]] + ts[1..] == ts;
    }
  }

  /** clearTimeout(id): a handle that is no longer pending is ignored. */
  function ClearTimeout<A>(q: Queue<A>, id: nat): (r: Queue<A>)
    ensures r.nextId == q.nextId && r.now == q.now
    ensures forall t :: t in r.pending ==> t in q.pending && t.id != id
    ensures forall t :: t in q.pending && t.id != id ==> t in r.pending
  {
    q.(pending := Without(q.pending, id))
  }
  /** clearTimeout on a handle that no pending timer holds (one that already
      ran, or was never handed out) leaves the queue as it was; on any handle
      the surviving timers keep their registration order. */
  lemma ClearTimeoutFacts<A>(q: Queue<A>, id: nat)
    ensures (forall t :: t in q.pending ==> t.id != id) ==> ClearTimeout(q, id) == q
    ensures forall a, b :: q.pending == a + b ==>
      ClearTimeout(q, id).pending == Without(a, id) + Without(b, id)
  {
    if forall t :: t in q.pending ==> t.id != id {
      WithoutUnknown(q.pending, id);
    }
    forall a, b | q.pending == a + b
      ensures ClearTimeout(q, id).pending == Without(a, id) + Without(b, id)
    {
      WithoutAppend(a, b, id);
    }
  }


  /** The position of the timer that runs next: the earliest deadline, and
      the first registered among timers sharing that deadline. */
  function NextIndex<A>(ts: seq<Timer<A>>): (k: nat)
    requires |ts| > 0
    ensures k < |ts|
    ensures forall j :: 0 <= j < |ts| ==> ts[k].due <= ts[j].due
    ensures forall j :: 0 <= j < k ==> ts[k].due < ts[j].due
  {
    if |ts| == 1 then 0
    else
      var k := NextIndex(ts[..|ts| - 1]);
      if ts[|ts| - 1].due < ts[k].due then |ts| - 1 else k
  }

  /** What running timer t puts back on the list: its copy one period later
      when it repeats, nothing when it is a one-shot timer. */
  function Again<A>(t: Timer<A>): seq<Timer<A>> {
    if t.period > 0 then [t.(due := t.due + t.period)] else []
  }

  /** The event loop runs the next timer: the clock moves to its deadline,
      it leaves the list, and a repeating timer is registered again one
      period later. Returns the timer that ran, None when nothing is pending. */
  function Fire<A>(q: Queue<A>): (r: (Option<Timer<A>>, Queue<A>))
    ensures r.0.None? <==> q.pending == []
    ensures r.0.None? ==> r.1 == q
    ensures r.1.nextId == q.nextId
  {
    if q.pending == [] then (None, q)
    else
      var k := NextIndex(q.pending);
      var t := q.pending[k];
      var rest := q.pending[..k] + q.pending[k + 1..];
      var again := Again(t);
      (Some(t), Queue(rest + again, q.nextId, t.due))
  }

  /** Idle time may pass up to `until` only while no timer falls due before it. */
  predicate CanAdvance<A>(q: Queue<A>, until: int) {
    q.now <= until && forall j :: 0 <= j < |q.pending| ==> until <= q.pending[j].due
  }

  function Advance<A>(q: Queue<A>, until: int): Queue<A> {
    if CanAdvance(q, until) then q.(now := until) else q
  }

  /** The timer that runs is the one at NextIndex: no pending timer is due
      earlier, every timer due at the same time was registered after it, and
      the clock moves forward to its deadline. */
  lemma FireOrder<A>(q: Queue<A>)
    requires Valid(q) && q.pending != []
    ensures Fire(q).0 == Some(q.pending[NextIndex(q.pending)])
    ensures forall j :: 0 <= j < |q.pending| ==> Fire(q).0.value.due <= q.pending[j].due
    ensures forall j :: 0 <= j < |q.pending| && q.pending[j].due == Fire(q).0.value.due ==> NextIndex(q.pending) <= j
    ensures q.now <= Fire(q).1.now == Fire(q).0.value.due
  {
    var k := NextIndex(q.pending);
    assert q.pending[k] in q.pending;
  }

  /** What is left after a timer runs: every other pending timer, and the
      re-registered copy of a repeating one; counted with multiplicity, the
      timer that ran is traded for its copy, or for nothing. */
  lemma FireRemaining<A>(q: Queue<A>)
    requires q.pending != []
    ensures var t := Fire(q).0.value;
      forall u :: u in Fire(q).1.pending ==> u in q.pending || (t.period > 0 && u == t.(due := t.due + t.period))
    ensures var t := Fire(q).0.value;
      multiset(Fire(q).1.pending) + multiset{t}
        == multiset(q.pending) + multiset(Again(t))
  {
    FireTrade(q);
    var (r, q') := Fire(q);
    var t := r.value;
    var again := Again(t);
    forall u | u in q'.pending
      ensures u in q.pending || u in again
    {
      assert u in multiset(q'.pending) + multiset{t};
    }
  }

  lemma FireTrade<A>(q: Queue<A>)
    requires q.pending != []
    ensures var t := Fire(q).0.value;
      multiset(Fire(q).1.pending) + multiset{t}
        == multiset(q.pending) + multiset(Again(t))
  {
    var ts := q.pending;
    var k := NextIndex(ts);
    var t := ts[k];
    var again := Again(t);
    var rest := ts[..k] + ts[k + 1..] + again;
    TradeAt(ts, k, again);
    assert Fire(q) == (Some(t), Queue(rest, q.nextId, t.due));
  }

  /** Taking the k-th element out of a list and appending others trades the
      one for the others. */
  lemma TradeAt<T>(ts: seq<T>, k: nat, again: seq<T>)
    requires k < |ts|
    ensures multiset(ts[..k] + ts[k + 1..] + again) + multiset{ts[k]} == multiset(ts) + multiset(again)
  {
    RemoveAtMultiset(ts, k);
    TradeAppend(ts[..k] + ts[k + 1..], again, ts, ts[k]);
  }

  lemma TradeAppend<T>(rest: seq<T>, again: seq<T>, ts: seq<T>, t: T)
    requires multiset(rest) + multiset{t} == multiset(ts)
    ensures multiset(rest + again) + multiset{t} == multiset(ts) + multiset(again)
  {
    assert multiset(rest + again) == multiset(rest) + multiset(again);
  }

  lemma RemoveAtMultiset<T>(ts: seq<T>, k: nat)
    requires k < |ts|
    ensures multiset(ts[..k] + ts[k + 1..]) + multiset{ts[k]} == multiset(ts)
  {
    assert ts == ts[..k] + [ts[k]] + ts[k + 1..];
  }

  /** Running a timer keeps the queue valid. */
  lemma FireKeepsValid<A>(q: Queue<A>)
    requires Valid(q) && q.pending != []
    ensures Valid(Fire(q).1)
  {
    var ts := q.pending;
    var k := NextIndex(ts);
    var t := ts[k];
    FireRemaining(q);
    forall u | u in Fire(q).1.pending
      ensures t.due <= u.due && 1 <= u.id < q.nextId
    {
      if u in ts {
        var j :| 0 <= j < |ts| && ts[j] == u;
      }
    }
  }
}
