/** The queue of pending events: a linked list kept in deadline order, with a
    `lastIns` pointer that shortens the search for an insertion point. */
module EventQueues {
  import opened Words

  /** What the list says about one pending event. */
  datatype Entry<C> = Entry(deadline: nat, callback: C)

  ghost predicate Sorted<C>(q: seq<Entry<C>>) {
    forall i, j :: 0 <= i < j < |q| ==> q[i].deadline <= q[j].deadline
  }

  /** Length of the longest prefix of `q` whose deadlines are at most `d`. */
  function Upto<C>(q: seq<Entry<C>>, d: nat): (k: nat)
    ensures k <= |q|
    ensures forall i :: 0 <= i < k ==> q[i].deadline <= d
    ensures k < |q| ==> d < q[k].deadline
  {
    if q == [] || d < q[0].deadline then 0 else 1 + Upto(q[1..], d)
  }

  /** Where a scan from the head puts an entry due at `d`: in front of a head
      that is not earlier, otherwise behind every entry that is not later. */
  function Place<C>(q: seq<Entry<C>>, d: nat): (k: nat)
    ensures k <= |q|
    ensures forall i :: 0 <= i < k ==> q[i].deadline <= d
    ensures k < |q| ==> d <= q[k].deadline
  {
    if q == [] || d <= q[0].deadline then 0 else Upto(q, d)
  }

  ghost function Insert<C>(q: seq<Entry<C>>, e: Entry<C>): seq<Entry<C>> {
    Splice(q, Place(q, e.deadline), e)
  }

  /** The prefix found from any place known not to be later is the same. */
  lemma {:induction false} UptoIs<C>(q: seq<Entry<C>>, d: nat, k: nat)
    requires k <= |q|
    requires forall i :: 0 <= i < k ==> q[i].deadline <= d
    requires k < |q| ==> d < q[k].deadline
    ensures Upto(q, d) == k
  {
    if k > 0 {
      UptoIs(q[1..], d, k - 1);
    }
  }

  /** `q` with `e` put at position `k`. */
  ghost function Splice<T>(q: seq<T>, k: nat, e: T): (r: seq<T>)
    requires k <= |q|
    ensures |r| == |q| + 1 && r[k] == e
    ensures forall i :: 0 <= i < k ==> r[i] == q[i]
    ensures forall i :: k < i < |r| ==> r[i] == q[i - 1]
    ensures multiset(r) == multiset(q) + multiset{e}
  {
    assert q == q[..k] + q[k..];
    q[..k] + [e] + q[k..]
  }

  lemma SortedAt<C>(q: seq<Entry<C>>, k: nat, e: Entry<C>)
    requires Sorted(q) && k <= |q|
    requires forall i :: 0 <= i < k ==> q[i].deadline <= e.deadline
    requires k < |q| ==> e.deadline <= q[k].deadline
    ensures Sorted(Splice(q, k, e))
  {
    var r := Splice(q, k, e);
    forall i, j | 0 <= i < j < |r| ensures r[i].deadline <= r[j].deadline {
      var i', j' := if i < k then i else i - 1, if j < k then j else j - 1;
      if j == k {
        assert r[i] == q[i];
      } else if i == k {
        assert r[j] == q[j'] && k <= j';
        assert q[k].deadline <= q[j'].deadline;
      } else {
        assert r[i] == q[i'] && r[j] == q[j'];
      }
    }
  }

  /** Insertion keeps the order and adds exactly the new entry. */
  lemma InsertKeeps<C>(q: seq<Entry<C>>, e: Entry<C>)
    requires Sorted(q)
    ensures Sorted(Insert(q, e))
    ensures multiset(Insert(q, e)) == multiset(q) + multiset{e}
  {
    SortedAt(q, Place(q, e.deadline), e);
  }

  /** A tie with the head jumps the queue, a tie further back does not. */
  lemma InsertTie<C>(q: seq<Entry<C>>, e: Entry<C>, i: nat)
    requires Sorted(q) && i < |q| && q[i].deadline == e.deadline
    ensures q[0].deadline == e.deadline ==> Insert(q, e)[0] == e && Insert(q, e)[i + 1] == q[i]
    ensures q[0].deadline < e.deadline ==> Insert(q, e)[i] == q[i] && Insert(q, e)[Upto(q, e.deadline)] == e
  {
  }

  class Event<C> {
    const deadline: nat
    const callback: C
    var next: Event?<C>

    constructor (ts: nat, inc: Word, callback: C)
      ensures deadline == ts + inc && this.callback == callback && next == null
    {
      this.deadline := ts + inc;
      this.callback := callback;
      next := null;
    }
  }

  ghost function Entries<C>(nodes: seq<Event<C>>): (q: seq<Entry<C>>)
    ensures |q| == |nodes|
    ensures forall i :: 0 <= i < |q| ==> q[i] == Entry(nodes[i].deadline, nodes[i].callback)
  {
    seq(|nodes|, i requires 0 <= i < |nodes| => Entry(nodes[i].deadline, nodes[i].callback))
  }

  lemma EntriesSplice<C>(nodes: seq<Event<C>>, k: nat, ins: Event<C>)
    requires k <= |nodes|
    ensures Entries(Splice(nodes, k, ins)) == Splice(Entries(nodes), k, Entry(ins.deadline, ins.callback))
  {
    var s, t := Splice(nodes, k, ins), Splice(Entries(nodes), k, Entry(ins.deadline, ins.callback));
    forall i | 0 <= i < |s| ensures Entries(s)[i] == t[i] {
      assert i != k ==> s[i] == nodes[if i < k then i else i - 1];
    }
  }

  class EventQueue<C> {
    var head: Event?<C>
    var lastIns: Event?<C>
    ghost var nodes: seq<Event<C>>
    ghost var repr: set<Event<C>>

    ghost predicate Linked()
      reads this, repr
    {
      && (forall i :: 0 <= i < |nodes| ==> nodes[i] in repr)
      && (forall i, j :: 0 <= i < j < |nodes| ==> nodes[i] != nodes[j])
      && head == (if nodes == [] then null else nodes[0])
      && (forall i {:trigger nodes[i].next} :: 0 <= i < |nodes| - 1 ==> nodes[i].next == nodes[i + 1])
      && (nodes != [] ==> nodes[|nodes| - 1].next == null)
      && (lastIns == null || lastIns in nodes)
    }

    /** The entries in list order. */
    ghost function Contents(): (q: seq<Entry<C>>)
      reads this
      ensures |q| == |nodes|
    {
      Entries(nodes)
    }

    ghost predicate Valid()
      reads this, repr
    {
      Linked() && Sorted(Contents())
    }

    constructor ()
      ensures Valid() && Contents() == [] && repr == {}
    {
      head, lastIns, nodes, repr := null, null, [], {};
    }

    predicate IsEmpty()
      requires Valid()
      reads this, repr
      ensures IsEmpty() <==> Contents() == []
    {
      head == null
    }

    function NextDeadline(): (d: nat)
      requires Valid() && !IsEmpty()
      reads this, repr
      ensures d == Contents()[0].deadline
    {
      head.deadline
    }

    function NextCallback(): (c: C)
      requires Valid() && !IsEmpty()
      reads this, repr
      ensures c == Contents()[0].callback
    {
      head.callback
    }

    /** The pointer walk: from `lastIns` when that node is strictly earlier than
        `d`, from the head otherwise, to the node an event due at `d` goes behind. */
    method FindPredecessor(d: nat) returns (q: Event<C>, ghost k: nat)
      requires Valid() && !IsEmpty() && head.deadline < d
      ensures 0 < k <= |nodes| && q == nodes[k - 1]
      ensures k == Place(Contents(), d)
    {
      hide Upto;
      ghost var s := Contents();
      var p: Event?<C> := if lastIns != null && !(d <= lastIns.deadline) then lastIns else head;
      q := p;
      k :| 0 <= k < |nodes| && nodes[k] == p;
      assert s[k].deadline < d;
      while p != null && p.deadline <= d
        invariant 0 <= k <= |nodes|
        invariant p == if k < |nodes| then nodes[k] else null
        invariant if q == p then q.deadline < d else k > 0 && q == nodes[k - 1]
        invariant forall i :: 0 <= i < k ==> s[i].deadline <= d
        decreases |nodes| - k
      {
        assert k < |nodes| - 1 ==> nodes[k].next == nodes[k + 1];
        q := p;
        p := p.next;
        k := k + 1;
      }
      UptoIs(s, d, k);
    }

    /** Links `ins` behind `q`, or in front of the head when there is no `q`. */
    method Link(q: Event?<C>, ins: Event<C>, ghost k: nat)
      requires Linked() && ins !in repr && ins.next == null
      requires k <= |nodes| && q == if k == 0 then null else nodes[k - 1]
      modifies this, repr, ins
      ensures Linked()
      ensures nodes == Splice(old(nodes), k, ins) && repr == old(repr) + {ins}
    {
      hide Splice;
      ghost var was := nodes;
      assert 0 < k < |was| ==> was[k - 1].next == was[k];
      if q == null {
        ins.next := head;
        head := ins;
      } else {
        ins.next := q.next;
        q.next := ins;
      }
      lastIns := ins;
      nodes, repr := Splice(was, k, ins), repr + {ins};
      forall i {:trigger nodes[i].next} | 0 <= i < |nodes| - 1 ensures nodes[i].next == nodes[i + 1] {
        if i + 1 < k {
          assert nodes[i] == was[i] && was[i].next == was[i + 1];
        } else if k < i {
          assert nodes[i] == was[i - 1] && was[i - 1].next == was[i];
        }
      }
    }

    /** Inserts an event `delay` ticks after `tod`. */
    method InsertQ(tod: nat, delay: Word, callback: C)
      returns (deadline: nat)
      requires Valid()
      modifies this, repr
      ensures Valid()
      ensures deadline == tod + delay
      ensures Contents() == Insert(old(Contents()), Entry(deadline, callback))
      ensures fresh(repr - old(repr))
    {
      hide Splice, Entries, Upto;
      ghost var s, k := Contents(), 0;
      var e := new Event(tod, delay, callback);
      deadline := e.deadline;
      var q: Event?<C> := null;
      if head != null && head.deadline < deadline {
        q, k := FindPredecessor(deadline);
      }
      EntriesSplice(nodes, k, e);
      InsertKeeps(s, Entry(deadline, callback));
      Link(q, e, k);
    }

    /** Unlinks the head; a `lastIns` that pointed at it moves to the new head. */
    method RemoveHead()
      requires Valid()
      modifies this
      ensures Valid() && repr == old(repr)
      ensures Contents() == if old(Contents()) == [] then [] else old(Contents())[1..]
    {
      if head != null {
        var p := head;
        assert |nodes| > 1 ==> nodes[0].next == nodes[1];
        head := head.next;
        if p == lastIns {
          lastIns := head;
        }
        nodes := nodes[1..];
        assert Contents() == old(Contents())[1..];
      }
    }
  }
}
