/** The simulated clock: one tick counts the time of day up and the interval
    timer down, then runs every event that has come due.  Callbacks may schedule
    further events while their own event still heads the queue. */
module SystemBuses {
  import opened Words
  import opened EventQueues

  /** A callback's wish for another callback after `delay` ticks. */
  datatype Request<C> = Request(delay: nat, callback: C)

  /** What running a callback does: the new world and, in order, its requests. */
  datatype Outcome<W, C> = Outcome(world: W, requests: seq<Request<C>>)

  type Handler<!W(!new), !C(!new)> = (W, C, nat) -> Outcome<W, C>

  /** Delays pass through a 32-bit parameter on their way to the queue. */
  function Truncate(delay: nat): Word {
    delay % WORD_SIZE
  }

  function Due<C>(tod: nat, r: Request<C>): Entry<C> {
    Entry(tod + Truncate(r.delay), r.callback)
  }

  function DueAll<C>(tod: nat, rs: seq<Request<C>>): (es: seq<Entry<C>>)
    ensures |es| == |rs|
    ensures forall i :: 0 <= i < |rs| ==> es[i] == Due(tod, rs[i])
  {
    seq(|rs|, i requires 0 <= i < |rs| => Due(tod, rs[i]))
  }

  ghost predicate AllPrompt<C>(rs: seq<Request<C>>) {
    forall i :: 0 <= i < |rs| ==> Truncate(rs[i].delay) > 0
  }

  /** No callback ever asks for a delay of zero ticks. */
  ghost predicate Prompt<W(!new), C(!new)>(h: Handler<W, C>) {
    forall w, c, t :: AllPrompt(h(w, c, t).requests)
  }

  ghost predicate AllAfter<C>(q: seq<Entry<C>>, t: nat) {
    forall i :: 0 <= i < |q| ==> t < q[i].deadline
  }

  ghost function InsertAll<C>(q: seq<Entry<C>>, es: seq<Entry<C>>): seq<Entry<C>>
    decreases |es|
  {
    if es == [] then q else InsertAll(Insert(q, es[0]), es[1..])
  }

  /** Inserting an event later than `t` does not disturb what is due at `t`. */
  lemma InsertLater<C>(q: seq<Entry<C>>, e: Entry<C>, t: nat)
    requires t < e.deadline
    ensures Upto(Insert(q, e), t) == Upto(q, t)
    ensures Insert(q, e)[..Upto(q, t)] == q[..Upto(q, t)]
  {
    var k, p := Upto(q, t), Place(q, e.deadline);
    assert k <= p;
    UptoIs(Insert(q, e), t, k);
  }

  lemma {:induction false} InsertAllLater<C>(q: seq<Entry<C>>, es: seq<Entry<C>>, t: nat)
    requires Sorted(q) && AllAfter(es, t)
    ensures var r := InsertAll(q, es);
            && Sorted(r) && multiset(r) == multiset(q) + multiset(es)
            && Upto(r, t) == Upto(q, t) && r[..Upto(q, t)] == q[..Upto(q, t)]
    decreases |es|
  {
    hide Insert, Sorted, Upto;
    if es == [] {
      assert InsertAll(q, es) == q;
    } else {
      InsertLater(q, es[0], t);
      InsertKeeps(q, es[0]);
      var r, rest := Insert(q, es[0]), es[1..];
      InsertAllLater(r, rest, t);
      assert es == [es[0]] + rest;
      assert multiset(es) == multiset{es[0]} + multiset(rest);
    }
  }

  /** The result of draining the queue at one instant. */
  datatype Drained<W, C> = Drained(world: W, queue: seq<Entry<C>>, fired: seq<Entry<C>>, added: seq<Entry<C>>)

  /** One turn of the drain loop: run the head's callback, put its requests in
      the queue, and only then unlink whatever heads the queue. */
  ghost function AfterCallback<C>(q: seq<Entry<C>>, es: seq<Entry<C>>): seq<Entry<C>>
    requires q != []
  {
    var s := InsertAll(q, es);
    if s == [] then [] else s[1..]
  }

  lemma SortedTail<C>(q: seq<Entry<C>>)
    requires Sorted(q) && q != []
    ensures Sorted(q[1..])
  {
  }

  /** With requests later than `t`, a turn at `t` retires exactly the event it
      ran: the rest of what is due stays in place and every request is kept. */
  lemma AfterCallbackKeeps<C>(q: seq<Entry<C>>, es: seq<Entry<C>>, t: nat)
    requires Sorted(q) && q != [] && q[0].deadline <= t && AllAfter(es, t)
    ensures var r := AfterCallback(q, es); var k := Upto(q, t);
            && k > 0 && Sorted(r) && multiset(r) + multiset{q[0]} == multiset(q) + multiset(es)
            && Upto(r, t) == k - 1 && r[..k - 1] == q[1..k]
  {
    hide Upto, Insert, InsertAll, Sorted;
    var s, k := InsertAll(q, es), Upto(q, t);
    InsertAllLater(q, es, t);
    SortedTail(s);
    assert s[0] == s[..k][0] == q[..k][0] == q[0];
    assert s == [s[0]] + s[1..];
    assert s[1..][..k - 1] == s[..k][1..] == q[..k][1..] == q[1..k];
  }

  /** The exact condition for a turn to retire the event it ran: the request is
      due strictly later, or cannot be told from that event. */
  lemma RetiresIff<C>(q: seq<Entry<C>>, e: Entry<C>)
    requires Sorted(q) && q != []
    ensures multiset(AfterCallback(q, [e])) + multiset{q[0]} == multiset(q) + multiset{e}
       <==> q[0].deadline < e.deadline || e == q[0]
  {
    var r := AfterCallback(q, [e]);
    assert InsertAll(q, [e]) == InsertAll(Insert(q, e), []) by { assert [e][1..] == []; }
    if q[0].deadline < e.deadline {
      AfterCallbackKeeps(q, [e], q[0].deadline);
    } else {
      assert r == q;
      assert (multiset(r) + multiset{q[0]})[e] == multiset(q)[e] + multiset{q[0]}[e];
    }
  }

  /** A zero delay at the head's own deadline undoes the removal: the queue is
      unchanged and the same event is next again. */
  lemma ZeroDelayRepeats<C>(q: seq<Entry<C>>, r: Request<C>)
    requires Sorted(q) && q != [] && r.delay % WORD_SIZE == 0
    ensures AfterCallback(q, [Due(q[0].deadline, r)]) == q
  {
    var e := Due(q[0].deadline, r);
    assert InsertAll(q, [e]) == InsertAll(Insert(q, e), []) by { assert [e][1..] == []; }
  }

  /** Runs everything due at `tod`; each turn leaves one fewer event due. */
  ghost function Drain<W(!new), C(!new)>(h: Handler<W, C>, w: W, q: seq<Entry<C>>, tod: nat): Drained<W, C>
    requires Sorted(q) && Prompt(h)
    decreases Upto(q, tod)
  {
    if q == [] || tod < q[0].deadline then Drained(w, q, [], [])
    else
      var o := h(w, q[0].callback, tod);
      var es := DueAll(tod, o.requests);
      AfterCallbackKeeps(q, es, tod);
      var d := Drain(h, o.world, AfterCallback(q, es), tod);
      d.(fired := [q[0]] + d.fired, added := es + d.added)
  }

  /** Draining fires the due events, all of them, in order, once; what remains,
      and what was added, is later than `tod`. */
  lemma {:induction false} DrainFires<W(!new), C(!new)>(h: Handler<W, C>, w: W, q: seq<Entry<C>>, tod: nat)
    requires Sorted(q) && Prompt(h)
    ensures var d := Drain(h, w, q, tod);
            d.fired == q[..Upto(q, tod)] && Sorted(d.queue) && AllAfter(d.queue, tod)
    decreases Upto(q, tod)
  {
    if q == [] || tod < q[0].deadline {
      hide Drain;
      NothingDrains(h, w, q, tod);
    } else {
      hide AfterCallback, Sorted, AllAfter, DueAll, Prompt, Upto;
      var o := h(w, q[0].callback, tod);
      var es := DueAll(tod, o.requests);
      PromptIsLater(h, w, q[0].callback, tod);
      AfterCallbackKeeps(q, es, tod);
      var r, k := AfterCallback(q, es), Upto(q, tod);
      DrainFires(h, o.world, r, tod);
      assert Drain(h, w, q, tod).fired == [q[0]] + Drain(h, o.world, r, tod).fired;
      assert q[..k] == [q[0]] + q[1..k];
    }
  }

  lemma PromptIsLater<W(!new), C(!new)>(h: Handler<W, C>, w: W, c: C, tod: nat)
    requires Prompt(h)
    ensures AllAfter(DueAll(tod, h(w, c, tod).requests), tod)
  {
  }

  lemma NothingDrains<W(!new), C(!new)>(h: Handler<W, C>, w: W, q: seq<Entry<C>>, tod: nat)
    requires Sorted(q) && Prompt(h) && (q == [] || tod < q[0].deadline)
    ensures Drain(h, w, q, tod) == Drained(w, q, [], []) && Upto(q, tod) == 0 && AllAfter(q, tod)
  {
  }

  /** No entry is lost or made up on the way. */
  lemma {:induction false} DrainConserves<W(!new), C(!new)>(h: Handler<W, C>, w: W, q: seq<Entry<C>>, tod: nat,
      e: Entry<C>)
    requires Sorted(q) && Prompt(h)
    ensures var d := Drain(h, w, q, tod);
            multiset(d.queue)[e] + multiset(d.fired)[e] == multiset(q)[e] + multiset(d.added)[e]
    decreases Upto(q, tod)
  {
    if q != [] && q[0].deadline <= tod {
      var o := h(w, q[0].callback, tod);
      var es := DueAll(tod, o.requests);
      AfterCallbackKeeps(q, es, tod);
      var r := AfterCallback(q, es);
      DrainConserves(h, o.world, r, tod, e);
      assert (multiset(r) + multiset{q[0]})[e] == (multiset(q) + multiset(es))[e];
    }
  }

  /** An invariant of the world that every callback keeps survives a drain. */
  lemma {:induction false} DrainKeeps<W(!new), C(!new)>(h: Handler<W, C>, inv: W -> bool, w: W, q: seq<Entry<C>>,
      tod: nat)
    requires Sorted(q) && Prompt(h) && inv(w)
    requires forall w', c, t :: inv(w') ==> inv(h(w', c, t).world)
    ensures inv(Drain(h, w, q, tod).world)
    decreases Upto(q, tod)
  {
    hide AfterCallback;
    if q != [] && q[0].deadline <= tod {
      var o := h(w, q[0].callback, tod);
      var es := DueAll(tod, o.requests);
      AfterCallbackKeeps(q, es, tod);
      DrainKeeps(h, inv, o.world, AfterCallback(q, es), tod);
    }
  }

  ghost predicate AllBefore<C>(q: seq<Entry<C>>, t: nat) {
    forall i :: 0 <= i < |q| ==> q[i].deadline < t
  }

  /** Requests reach no further than a 32-bit delay. */
  lemma {:induction false} DrainBound<W(!new), C(!new)>(h: Handler<W, C>, w: W, q: seq<Entry<C>>, tod: nat)
    requires Sorted(q) && Prompt(h) && AllBefore(q, tod + WORD_SIZE)
    ensures AllBefore(Drain(h, w, q, tod).queue, tod + WORD_SIZE)
    decreases Upto(q, tod)
  {
    hide AfterCallback;
    if q != [] && q[0].deadline <= tod {
      var o := h(w, q[0].callback, tod);
      var es := DueAll(tod, o.requests);
      AfterCallbackKeeps(q, es, tod);
      var r := AfterCallback(q, es);
      forall i | 0 <= i < |r| ensures r[i].deadline < tod + WORD_SIZE {
        assert r[i] in multiset(r);
        assert r[i] in multiset(q) + multiset(es);
      }
      DrainBound(h, o.world, r, tod);
    }
  }

  /** The bus as a value.  `world` is everything the callbacks act on. */
  datatype BusState<W, C> = BusState(tod: nat, timer: Word, queue: seq<Entry<C>>, world: W)

  /** What events do, and what the interval timer does when it runs out. */
  datatype Laws<!W(!new), !C(!new)> = Laws(onEvent: Handler<W, C>, onUnderflow: W -> W)

  ghost predicate BusOk<W(!new), C(!new)>(b: BusState<W, C>) {
    Sorted(b.queue) && AllAfter(b.queue, b.tod)
  }

  /** Interval timer and clock advance first; the queue is drained last. */
  ghost function TickDrain<W(!new), C(!new)>(l: Laws<W, C>, b: BusState<W, C>): Drained<W, C>
    requires Sorted(b.queue) && Prompt(l.onEvent)
  {
    Drain(l.onEvent, if b.timer == 0 then l.onUnderflow(b.world) else b.world, b.queue, b.tod + 1)
  }

  ghost function Tick<W(!new), C(!new)>(l: Laws<W, C>, b: BusState<W, C>): BusState<W, C>
    requires Sorted(b.queue) && Prompt(l.onEvent)
  {
    var d := TickDrain(l, b);
    BusState(b.tod + 1, (b.timer + WORD_SIZE - 1) % WORD_SIZE, d.queue, d.world)
  }

  function IdleCycles<W, C>(b: BusState<W, C>): Word {
    if b.queue == [] then b.timer
    else if b.tod < b.queue[0].deadline then Min(b.timer, (b.queue[0].deadline - b.tod - 1) % WORD_SIZE)
    else 0
  }

  function Skip<W, C>(b: BusState<W, C>, c: Word): BusState<W, C> {
    b.(tod := b.tod + c, timer := (b.timer + WORD_SIZE - c) % WORD_SIZE)
  }

  /** Everything that can happen to the bus: a tick, a legal skip, a request from
      outside the queue, a store to the timer or to the world. */
  datatype Action<W, C> =
    | DoTick
    | DoSkip(cycles: Word)
    | DoSchedule(request: Request<C>)
    | DoStore(timer: Word, world: W)

  /** The time at which an entry was taken off the queue and run. */
  datatype Firing<C> = Firing(entry: Entry<C>, at: nat)

  /** A run so far: the bus, every entry ever scheduled, every entry run and when. */
  datatype History<W, C(==)> =
    History(bus: BusState<W, C>, scheduled: multiset<Entry<C>>, fired: seq<Entry<C>>, times: seq<nat>)

  /** Whatever ran, ran on its deadline; whatever has not run is still to come. */
  ghost predicate Timely<W(!new), C(!new)>(x: History<W, C>) {
    && BusOk(x.bus)
    && |x.times| == |x.fired|
    && forall i :: 0 <= i < |x.fired| ==> x.times[i] == x.fired[i].deadline <= x.bus.tod
  }

  /** `e` was scheduled as often as it is queued and was run, taken together. */
  ghost predicate Conserved<W(!new), C(!new)>(x: History<W, C>, e: Entry<C>) {
    x.scheduled[e] == multiset(x.bus.queue)[e] + multiset(x.fired)[e]
  }

  ghost predicate Legal<W(!new), C(!new)>(b: BusState<W, C>, a: Action<W, C>) {
    match a
    case DoSkip(c) => c <= IdleCycles(b)
    case DoSchedule(r) => Truncate(r.delay) > 0
    case _ => true
  }

  ghost function Step<W(!new), C(!new)>(l: Laws<W, C>, x: History<W, C>, a: Action<W, C>): History<W, C>
    requires BusOk(x.bus) && Prompt(l.onEvent)
  {
    match a
    case DoTick =>
      var d := TickDrain(l, x.bus);
      History(Tick(l, x.bus), x.scheduled + multiset(d.added), x.fired + d.fired,
              x.times + seq(|d.fired|, _ => x.bus.tod + 1))
    case DoSkip(c) => x.(bus := Skip(x.bus, c))
    case DoSchedule(r) =>
      var e := Due(x.bus.tod, r);
      x.(bus := x.bus.(queue := Insert(x.bus.queue, e)), scheduled := x.scheduled + multiset{e})
    case DoStore(timer, world) => x.(bus := x.bus.(timer := timer, world := world))
  }

  lemma StepBusOk<W(!new), C(!new)>(l: Laws<W, C>, x: History<W, C>, a: Action<W, C>)
    requires BusOk(x.bus) && Prompt(l.onEvent) && Legal(x.bus, a)
    ensures BusOk(Step(l, x, a).bus)
  {
    hide Drain, Upto, Splice, Place;
    match a
    case DoTick =>
      var w := if x.bus.timer == 0 then l.onUnderflow(x.bus.world) else x.bus.world;
      DrainFires(l.onEvent, w, x.bus.queue, x.bus.tod + 1);
    case DoSkip(c) =>
    case DoSchedule(r) => InsertKeeps(x.bus.queue, Due(x.bus.tod, r));
    case DoStore(_, _) =>
  }

  lemma StepTimely<W(!new), C(!new)>(l: Laws<W, C>, x: History<W, C>, a: Action<W, C>)
    requires Timely(x) && Prompt(l.onEvent) && Legal(x.bus, a)
    ensures Timely(Step(l, x, a))
  {
    hide Drain, Upto, Insert, BusOk;
    StepBusOk(l, x, a);
    if a.DoTick? {
      TimelyQueue(x);
      var d, w := TickDrain(l, x.bus), if x.bus.timer == 0 then l.onUnderflow(x.bus.world) else x.bus.world;
      DrainFires(l.onEvent, w, x.bus.queue, x.bus.tod + 1);
      assert forall i :: 0 <= i < |d.fired| ==> d.fired[i] == x.bus.queue[i] && d.fired[i].deadline == x.bus.tod + 1;
    }
  }

  lemma TimelyQueue<W(!new), C(!new)>(x: History<W, C>)
    requires BusOk(x.bus)
    ensures Sorted(x.bus.queue) && AllAfter(x.bus.queue, x.bus.tod)
  {
  }

  lemma StepConserves<W(!new), C(!new)>(l: Laws<W, C>, x: History<W, C>, a: Action<W, C>, e: Entry<C>)
    requires Timely(x) && Conserved(x, e) && Prompt(l.onEvent) && Legal(x.bus, a)
    ensures Conserved(Step(l, x, a), e)
  {
    hide Drain, Insert;
    match a
    case DoTick =>
      var w := if x.bus.timer == 0 then l.onUnderflow(x.bus.world) else x.bus.world;
      DrainConserves(l.onEvent, w, x.bus.queue, x.bus.tod + 1, e);
    case DoSkip(c) =>
    case DoSchedule(r) => InsertKeeps(x.bus.queue, Due(x.bus.tod, r));
    case DoStore(_, _) =>
  }

  ghost predicate LegalRun<W(!new), C(!new)>(l: Laws<W, C>, x: History<W, C>, acts: seq<Action<W, C>>)
    requires Prompt(l.onEvent) && BusOk(x.bus)
    decreases |acts|
  {
    acts == [] || (Legal(x.bus, acts[0]) && (StepBusOk(l, x, acts[0]); LegalRun(l, Step(l, x, acts[0]), acts[1..])))
  }

  ghost function Run<W(!new), C(!new)>(l: Laws<W, C>, x: History<W, C>, acts: seq<Action<W, C>>): History<W, C>
    requires Prompt(l.onEvent) && BusOk(x.bus) && LegalRun(l, x, acts)
    decreases |acts|
  {
    if acts == [] then x else (StepBusOk(l, x, acts[0]); Run(l, Step(l, x, acts[0]), acts[1..]))
  }

  /** Over every run each scheduled event fires at most once and exactly on its
      deadline, and once the clock has reached a deadline its events have fired. */
  lemma {:induction false} EachEventFiresOnce<W(!new), C(!new)>(l: Laws<W, C>, x: History<W, C>,
      acts: seq<Action<W, C>>, e: Entry<C>)
    requires Prompt(l.onEvent) && Timely(x) && Conserved(x, e) && LegalRun(l, x, acts)
    ensures var y := Run(l, x, acts);
            && Timely(y) && Conserved(y, e)
            && multiset(y.fired)[e] == if e.deadline <= y.bus.tod then y.scheduled[e] else 0
    decreases |acts|
  {
    hide Step, Legal;
    if acts != [] {
      StepTimely(l, x, acts[0]);
      StepConserves(l, x, acts[0], e);
      EachEventFiresOnce(l, Step(l, x, acts[0]), acts[1..], e);
    } else if e.deadline <= x.bus.tod {
      assert e !in multiset(x.bus.queue);
    } else {
      assert e !in x.fired;
    }
  }

  /** A bus that has just been switched on has a history that is timely and
      complete. */
  lemma PowerOnHistory<W(!new), C(!new)>(world: W, e: Entry<C>)
    ensures var x := History(BusState(0, WORD_SIZE - 1, [], world), multiset{}, [], []); Timely(x) && Conserved(x, e)
  {
  }

  /** The bus as the object its clients tick, skip and schedule on. */
  class SystemBus<W(!new), C(!new)> {
    const laws: Laws<W, C>
    var tod: nat
    var timer: Word
    var world: W
    const eventQ: EventQueue<C>

    ghost predicate Valid()
      reads this, eventQ, eventQ.repr
    {
      eventQ.Valid() && Prompt(laws.onEvent)
    }

    ghost function State(): BusState<W, C>
      reads this, eventQ
    {
      BusState(tod, timer, eventQ.Contents(), world)
    }

    constructor (laws: Laws<W, C>, world: W)
      requires Prompt(laws.onEvent)
      ensures Valid() && this.laws == laws
      ensures State() == BusState(0, WORD_SIZE - 1, [], world)
      ensures fresh(eventQ) && eventQ.repr == {}
    {
      this.laws, this.world := laws, world;
      tod, timer := 0, WORD_SIZE - 1;
      eventQ := new EventQueue();
    }

    method ScheduleEvent(delay: nat, callback: C) returns (deadline: nat)
      requires Valid()
      modifies eventQ, eventQ.repr
      ensures Valid()
      ensures fresh(eventQ.repr - old(eventQ.repr))
      ensures deadline == tod + Truncate(delay)
      ensures State() == old(State()).(queue := Insert(old(eventQ.Contents()), Due(tod, Request(delay, callback))))
    {
      hide Insert;
      deadline := eventQ.InsertQ(tod, delay % WORD_SIZE, callback);
    }

    /** Schedules a series of requests in order. */
    method ScheduleAll(requests: seq<Request<C>>)
      requires Valid()
      modifies eventQ, eventQ.repr
      ensures Valid() && fresh(eventQ.repr - old(eventQ.repr))
      ensures State() == old(State()).(queue := InsertAll(old(eventQ.Contents()), DueAll(tod, requests)))
    {
      hide Insert, EventQueue.Linked;
      ghost var es := DueAll(tod, requests);
      var i := 0;
      assert es[0..] == es;
      while i < |requests|
        invariant 0 <= i <= |requests|
        invariant Valid()
        invariant fresh(eventQ.repr - old(eventQ.repr))
        invariant InsertAll(eventQ.Contents(), es[i..]) == InsertAll(old(eventQ.Contents()), es)
      {
        assert es[i..][1..] == es[i + 1..] && es[i..][0] == Due(tod, requests[i]);
        var _ := ScheduleEvent(requests[i].delay, requests[i].callback);
        i := i + 1;
      }
    }

    /** Runs one callback: its effect on the world, then each of its requests. */
    method RunCallback(c: C)
      requires Valid()
      modifies this`world, eventQ, eventQ.repr
      ensures Valid() && fresh(eventQ.repr - old(eventQ.repr))
      ensures var o := laws.onEvent(old(world), c, tod);
              State() == old(State()).(world := o.world,
                                       queue := InsertAll(old(eventQ.Contents()), DueAll(tod, o.requests)))
    {
      hide InsertAll, EventQueue.Linked;
      var o := laws.onEvent(world, c, tod);
      world := o.world;
      ScheduleAll(o.requests);
    }

    /** The loop of the tick: run and unlink the head while it is due. */
    method DrainQueue()
      requires Valid()
      modifies this`world, eventQ, eventQ.repr
      ensures Valid() && fresh(eventQ.repr - old(eventQ.repr))
      ensures var d := Drain(laws.onEvent, old(world), old(eventQ.Contents()), tod);
              world == d.world && eventQ.Contents() == d.queue
    {
      hide InsertAll, Insert, EventQueue.Linked, Prompt, DueAll;
      ghost var d := Drain(laws.onEvent, world, eventQ.Contents(), tod);
      while !eventQ.IsEmpty() && eventQ.NextDeadline() <= tod
        invariant Valid() && tod == old(tod)
        invariant fresh(eventQ.repr - old(eventQ.repr))
        invariant var e := Drain(laws.onEvent, world, eventQ.Contents(), tod); e.world == d.world && e.queue == d.queue
        decreases Upto(eventQ.Contents(), tod)
      {
        ghost var q, o := eventQ.Contents(), laws.onEvent(world, eventQ.NextCallback(), tod);
        PromptIsLater(laws.onEvent, world, q[0].callback, tod);
        AfterCallbackKeeps(q, DueAll(tod, o.requests), tod);
        RunCallback(eventQ.NextCallback());
        eventQ.RemoveHead();
      }
    }

    method ClockTick()
      requires Valid()
      modifies this, eventQ, eventQ.repr
      ensures Valid() && fresh(eventQ.repr - old(eventQ.repr))
      ensures State() == Tick(laws, old(State()))
    {
      hide Drain;
      tod := tod + 1;
      if timer < 1 {
        world := laws.onUnderflow(world);
      }
      timer := (timer + WORD_SIZE - 1) % WORD_SIZE;
      DrainQueue();
    }

    method CountIdleCycles() returns (c: Word)
      requires Valid()
      ensures c == IdleCycles(State())
    {
      if eventQ.IsEmpty() {
        return timer;
      }
      var et := eventQ.NextDeadline();
      if et > tod {
        return Min(timer, (et - tod - 1) % WORD_SIZE);
      } else {
        return 0;
      }
    }

    method SkipCycles(cycles: Word)
      modifies this`tod, this`timer
      ensures State() == Skip(old(State()), cycles)
    {
      tod := tod + cycles;
      timer := (timer + WORD_SIZE - cycles) % WORD_SIZE;
    }
  }
}
