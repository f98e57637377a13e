/** One device's completions in the event queue, among the events of everybody
    else, counted deadline by deadline. */
module DeviceEvents {
  import opened Words
  import opened EventQueues
  import opened SystemBuses

  /** The device's own completion, or somebody else's event. */
  datatype Callback = Done | Other(id: nat)

  function Requests(delays: seq<nat>): (r: seq<Request<Callback>>)
    ensures |r| == |delays|
    ensures forall i :: 0 <= i < |r| ==> r[i] == Request(delays[i], Done)
  {
    seq(|delays|, i requires 0 <= i < |delays| => Request(delays[i], Done))
  }

  function Elsewhere(rs: seq<Request<nat>>): (r: seq<Request<Callback>>)
    ensures |r| == |rs|
    ensures forall i :: 0 <= i < |r| ==> r[i] == Request(rs[i].delay, Other(rs[i].callback))
  {
    seq(|rs|, i requires 0 <= i < |rs| => Request(rs[i].delay, Other(rs[i].callback)))
  }

  ghost function One(b: bool): nat { if b then 1 else 0 }

  /** How many of the device's completions are queued for `d`. */
  ghost function Queued(q: seq<Entry<Callback>>, d: nat): nat {
    multiset(q)[Entry(d, Done)]
  }

  lemma QueuedIsIn(q: seq<Entry<Callback>>, d: nat)
    ensures Queued(q, d) > 0 <==> Entry(d, Done) in q
  {
    assert Entry(d, Done) in multiset(q) <==> Entry(d, Done) in q;
  }

  /** Delays of the completions a step schedules: at most one, at least a tick. */
  predicate SaneDelays(delays: seq<nat>) {
    |delays| <= 1 && forall i :: 0 <= i < |delays| ==> 0 < delays[i] < WORD_SIZE
  }

  ghost function Added(delays: seq<nat>, tod: nat, d: nat): nat {
    One(delays != [] && tod + delays[0] == d)
  }

  lemma DueCounts(delays: seq<nat>, tod: nat, d: nat)
    requires SaneDelays(delays)
    ensures AllAfter(DueAll(tod, Requests(delays)), tod)
    ensures Queued(DueAll(tod, Requests(delays)), d) == Added(delays, tod, d)
  {
    var es := DueAll(tod, Requests(delays));
    if delays == [] {
      assert es == [];
    } else {
      assert es == [Entry(tod + delays[0], Done)];
    }
  }

  lemma NoneFromElsewhere(tod: nat, rs: seq<Request<nat>>, d: nat)
    ensures Queued(DueAll(tod, Elsewhere(rs)), d) == 0
  {
    QueuedIsIn(DueAll(tod, Elsewhere(rs)), d);
  }

  /** What a turn of the drain loop does to the number of completions at `d`. */
  lemma TurnCounts(q: seq<Entry<Callback>>, es: seq<Entry<Callback>>, t: nat, d: nat)
    requires Sorted(q) && q != [] && q[0].deadline <= t && AllAfter(es, t)
    ensures Queued(AfterCallback(q, es), d) + One(q[0] == Entry(d, Done)) == Queued(q, d) + Queued(es, d)
  {
    hide AfterCallback, Sorted;
    AfterCallbackKeeps(q, es, t);
    var e: Entry<Callback>, r := Entry(d, Done), AfterCallback(q, es);
    assert (multiset(r) + multiset{q[0]})[e] == (multiset(q) + multiset(es))[e];
  }

  ghost predicate NoneBefore(q: seq<Entry<Callback>>, t: nat) {
    forall i :: 0 <= i < |q| ==> t <= q[i].deadline
  }

  /** A turn puts nothing in front of the clock. */
  lemma TurnKeepsNoneBefore(q: seq<Entry<Callback>>, es: seq<Entry<Callback>>, t: nat)
    requires Sorted(q) && q != [] && q[0].deadline <= t && AllAfter(es, t) && NoneBefore(q, t)
    ensures NoneBefore(AfterCallback(q, es), t)
  {
    hide AfterCallback, Sorted;
    AfterCallbackKeeps(q, es, t);
    var r := AfterCallback(q, es);
    forall i | 0 <= i < |r| ensures t <= r[i].deadline {
      assert r[i] in multiset(r);
      assert r[i] in multiset(q) + multiset(es);
    }
  }

  lemma {:induction false} InsertAllCounts(q: seq<Entry<Callback>>, es: seq<Entry<Callback>>, t: nat)
    requires Sorted(q) && AllAfter(q, t) && AllAfter(es, t)
    ensures var r := InsertAll(q, es);
            Sorted(r) && AllAfter(r, t) && forall d :: Queued(r, d) == Queued(q, d) + Queued(es, d)
    decreases |es|
  {
    hide Place;
    if es == [] {
    } else {
      InsertKeeps(q, es[0]);
      InsertAllCounts(Insert(q, es[0]), es[1..], t);
      assert es == [es[0]] + es[1..];
    }
  }

  /** Somebody else's event goes into the queue. */
  lemma InsertOther(q: seq<Entry<Callback>>, tod: nat, delay: nat, id: nat)
    requires Sorted(q) && AllAfter(q, tod) && Truncate(delay) > 0
    ensures var r := Insert(q, Due(tod, Request(delay, Other(id))));
            Sorted(r) && AllAfter(r, tod) && forall d :: Queued(r, d) == Queued(q, d)
  {
    hide Place;
    InsertKeeps(q, Due(tod, Request(delay, Other(id))));
  }
}
