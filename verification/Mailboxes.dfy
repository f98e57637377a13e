/** Inter-processor messages: one unread message per sender in every mailbox,
    read in the order in which they were accepted. */
module Mailboxes {
  import opened Words
  import opened Arch
  import opened Bits
  import opened Interrupts
  import Processors

  /** Senders are processors, payloads are bytes, no sender occurs twice. */
  ghost predicate BoxOk(box: seq<Ipi>, n: nat) {
    && (forall i :: 0 <= i < |box| ==> box[i].origin < n && box[i].msg < 256)
    && (forall i, j :: 0 <= i < j < |box| ==> box[i].origin != box[j].origin)
  }

  ghost predicate BoxesOk(s: Irq) {
    Shape(s) && forall c :: 0 <= c < |s.ctl| ==> BoxOk(s.ctl[c].inbox, |s.ctl|)
  }

  ghost function Origins(box: seq<Ipi>): set<nat> {
    set i | 0 <= i < |box| :: box[i].origin
  }

  ghost function Below(n: nat): (r: set<nat>)
    ensures |r| == n && forall i: nat :: i in r <==> i < n
  {
    if n == 0 then {} else Below(n - 1) + {n - 1}
  }

  /** Distinct senders below `n` are at most `n` many. */
  lemma BoxFits(box: seq<Ipi>, n: nat)
    requires BoxOk(box, n)
    ensures |box| <= n
  {
    OriginsCount(box);
    assert Below(n) == Origins(box) + (Below(n) - Origins(box));
  }

  lemma {:induction false} OriginsCount(box: seq<Ipi>)
    requires forall i, j :: 0 <= i < j < |box| ==> box[i].origin != box[j].origin
    ensures |Origins(box)| == |box|
  {
    if box != [] {
      var k := |box| - 1;
      OriginsCount(box[..k]);
      assert Origins(box) == Origins(box[..k]) + {box[k].origin};
    }
  }

  /** What processor `c` accepts, and what it takes out, in one operation. */
  ghost function AcceptedNow(s: Irq, op: Op, c: nat): seq<Ipi>
    requires c < |s.ctl|
  {
    match op
    case Deliver(origin, outbox) =>
      if Reaches(s.ctl[c], c, origin, outbox) then [Ipi(origin, outbox % 0x100)] else []
    case _ => []
  }

  ghost function TakenNow(s: Irq, op: Op, c: nat): seq<Ipi>
    requires c < |s.ctl|
  {
    match op
    case Ack(d) => if d == c && s.ctl[c].inbox != [] then [s.ctl[c].inbox[0]] else []
    case _ => []
  }

  ghost function Accepted(s: Irq, ops: seq<Op>, c: nat): seq<Ipi>
    requires Shape(s) && ValidOps(|s.ctl|, ops) && c < |s.ctl|
    decreases |ops|
  {
    if ops == [] then [] else AcceptedNow(s, ops[0], c) + Accepted(Step(s, ops[0]), ops[1..], c)
  }

  ghost function Taken(s: Irq, ops: seq<Op>, c: nat): seq<Ipi>
    requires Shape(s) && ValidOps(|s.ctl|, ops) && c < |s.ctl|
    decreases |ops|
  {
    if ops == [] then [] else TakenNow(s, ops[0], c) + Taken(Step(s, ops[0]), ops[1..], c)
  }

  /** A delivery appends at most one message, an acknowledgement takes the oldest,
      and nothing else touches a mailbox. */
  lemma StepInbox(s: Irq, op: Op, c: nat)
    requires Shape(s) && ValidOp(|s.ctl|, op) && c < |s.ctl|
    ensures s.ctl[c].inbox + AcceptedNow(s, op, c) == TakenNow(s, op, c) + Step(s, op).ctl[c].inbox
  {
    hide Bit, Scan, DeliverFrom;
    if op.Deliver? {
      DeliverIs(s, op.origin, op.outbox, 0);
    }
  }

  lemma SuffixOk(t: seq<Ipi>, next: seq<Ipi>, n: nat)
    requires BoxOk(t + next, n)
    ensures BoxOk(next, n)
  {
    var all := t + next;
    forall i, j | 0 <= i < j < |next| ensures next[i].origin != next[j].origin {
      assert next[i] == all[|t| + i] && next[j] == all[|t| + j];
    }
    assert forall i :: 0 <= i < |next| ==> next[i] == all[|t| + i];
  }

  lemma StepKeepsBoxes(s: Irq, op: Op)
    requires BoxesOk(s) && ValidOp(|s.ctl|, op)
    ensures BoxesOk(Step(s, op))
  {
    hide Step, Bit;
    var r := Step(s, op);
    forall c | 0 <= c < |r.ctl| ensures BoxOk(r.ctl[c].inbox, |r.ctl|) {
      var was, a := s.ctl[c].inbox, AcceptedNow(s, op, c);
      assert BoxOk(was + a, |s.ctl|) by {
        assert BoxOk(was, |s.ctl|);
      }
      StepInbox(s, op, c);
      SuffixOk(TakenNow(s, op, c), r.ctl[c].inbox, |s.ctl|);
    }
  }

  /** At all times senders are distinct, so no mailbox outgrows the processors. */
  lemma {:induction false} BoxesStayOk(s: Irq, ops: seq<Op>, c: nat)
    requires BoxesOk(s) && ValidOps(|s.ctl|, ops) && c < |s.ctl|
    ensures var r := Run(s, ops); BoxesOk(r) && |r.ctl[c].inbox| <= |r.ctl|
    decreases |ops|
  {
    hide Step, BoxOk, Bit;
    if ops == [] {
      BoxFits(s.ctl[c].inbox, |s.ctl|);
    } else {
      StepKeepsBoxes(s, ops[0]);
      BoxesStayOk(Step(s, ops[0]), ops[1..], c);
    }
  }

  /** First in, first out, with nothing lost on the way: what was there and what
      was accepted is, in this order, what was taken and what is left. */
  lemma {:induction false} MailIsFifo(s: Irq, ops: seq<Op>, c: nat)
    requires Shape(s) && ValidOps(|s.ctl|, ops) && c < |s.ctl|
    ensures s.ctl[c].inbox + Accepted(s, ops, c) == Taken(s, ops, c) + Run(s, ops).ctl[c].inbox
    decreases |ops|
  {
    hide Step, AcceptedNow, TakenNow;
    if ops != [] {
      StepInbox(s, ops[0], c);
      var s', rest := Step(s, ops[0]), ops[1..];
      MailIsFifo(s', rest, c);
      Regroup(s.ctl[c].inbox, AcceptedNow(s, ops[0], c), Accepted(s', rest, c), TakenNow(s, ops[0], c),
              s'.ctl[c].inbox, Taken(s', rest, c), Run(s', rest).ctl[c].inbox);
    }
  }

  lemma Regroup(was: seq<Ipi>, a: seq<Ipi>, as': seq<Ipi>, t: seq<Ipi>, next: seq<Ipi>, ts: seq<Ipi>, left: seq<Ipi>)
    requires was + a == t + next && next + as' == ts + left
    ensures was + (a + as') == (t + ts) + left
  {
    assert was + (a + as') == (was + a) + as';
    assert (t + next) + as' == t + (next + as');
    assert t + (ts + left) == (t + ts) + left;
  }

  /** A sender with an unread message changes nothing at that processor. */
  lemma SecondMessageIsDropped(s: Irq, origin: nat, outbox: Word, c: nat)
    requires Shape(s) && c < |s.ctl| && origin < |s.ctl| && !HasSlot(s.ctl[c].inbox, origin)
    ensures var r := Step(s, Deliver(origin, outbox)); r.ctl[c] == s.ctl[c] && r.cpus[c] == s.cpus[c]
  {
    hide Bit, DeliverFrom;
    DeliverIs(s, origin, outbox, 0);
  }

  /** What a sender writes is what the receiver reads: into an empty mailbox the low
      byte of the outbox register arrives, below the sender's number, if and only if
      the register names the processor. */
  lemma DeliveryReads(s: Irq, origin: nat, outbox: Word, c: nat)
    requires Shape(s) && c < |s.ctl| && origin < |s.ctl| && s.ctl[c].inbox == []
    ensures var r := Step(s, Deliver(origin, outbox)); var named := outbox / 0x100 / Pow2(c) % 2 == 1;
            && (IL_IPI in r.cpus[c].mip <==> named || IL_IPI in s.cpus[c].mip)
            && (r.ctl[c].inbox != [] <==> named)
            && ReadInbox(r.ctl[c]) == if named then outbox % 0x100 + 0x100 * origin else 0
  {
    hide Bit, DeliverFrom, Pow2;
    DeliverIs(s, origin, outbox, 0);
  }

  /** The oldest message reads back with its exact sender and payload. */
  lemma MessageReadsBack(s: Irq, c: nat)
    requires BoxesOk(s) && c < |s.ctl| && s.ctl[c].inbox != []
    ensures var v := ReadInbox(s.ctl[c]);
            v % 256 == s.ctl[c].inbox[0].msg && v / 256 % 16 == s.ctl[c].inbox[0].origin
  {
    assert BoxOk(s.ctl[c].inbox, |s.ctl|);
  }

  lemma InitialBoxes(cpus: seq<Processors.Cpu>)
    requires 0 < |cpus| <= MAX_CPUS
    ensures BoxesOk(Initial(cpus))
  {
  }
}
