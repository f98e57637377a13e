/** Dynamic routing: which processor wins, and why it is fair. */
module InterruptArbitration {
  import opened Words
  import opened Interrupts

  /** How many steps the rotating index needs from `arbiter` to reach `id`. */
  function Distance(arbiter: nat, id: nat, n: nat): nat
    requires arbiter < n && id < n
  {
    if id >= arbiter then id - arbiter else id + n - arbiter
  }

  predicate Candidate(ctl: seq<CpuData>, mask: Word, c: nat) {
    c < |ctl| && Bit(mask, c)
  }

  /** A candidate that no candidate outranks. */
  ghost predicate Top(ctl: seq<CpuData>, mask: Word, c: nat) {
    Candidate(ctl, mask, c) &&
    forall d: nat :: Candidate(ctl, mask, d) ==> ctl[d].taskPriority <= ctl[c].taskPriority
  }

  /** The winner: of the top candidates, the one the index reaches first. */
  ghost predicate Winner(ctl: seq<CpuData>, mask: Word, arbiter: nat, t: nat)
    requires arbiter < |ctl|
  {
    Top(ctl, mask, t) &&
    forall d: nat :: Top(ctl, mask, d) ==> Distance(arbiter, t, |ctl|) <= Distance(arbiter, d, |ctl|)
  }

  /** Best among the candidates the loop has passed, first come first. */
  ghost predicate BestSoFar(ctl: seq<CpuData>, mask: Word, arbiter: nat, i: nat, target: Option<nat>)
    requires arbiter < |ctl|
  {
    match target
    case None => forall d: nat :: Candidate(ctl, mask, d) ==> Distance(arbiter, d, |ctl|) >= i
    case Some(t) =>
      && Candidate(ctl, mask, t) && Distance(arbiter, t, |ctl|) < i
      && forall d: nat :: Candidate(ctl, mask, d) && Distance(arbiter, d, |ctl|) < i ==>
           ctl[d].taskPriority < ctl[t].taskPriority ||
           (ctl[d].taskPriority == ctl[t].taskPriority && Distance(arbiter, t, |ctl|) <= Distance(arbiter, d, |ctl|))
  }

  /** `x % n` for an index that has passed the end at most once. */
  function Wrap(x: nat, n: nat): nat {
    if x < n then x else x - n
  }

  lemma ModIsWrap(x: nat, n: nat)
    requires 0 < n && x < 2 * n
    ensures x % n == Wrap(x, n)
  {
    var q, r := x / n, x % n;
    assert x == q * n + r;
    if q >= 2 { Times2(q, n); }
    assert q == 0 || q == 1;
  }

  lemma Times2(q: nat, n: nat)
    requires q >= 2
    ensures q * n >= 2 * n
  {
    assert q * n == 2 * n + (q - 2) * n;
  }

  lemma StepAt(arbiter: nat, i: nat, n: nat)
    requires arbiter < n && i < n
    ensures (arbiter + i) % n < n && Distance(arbiter, (arbiter + i) % n, n) == i
    ensures forall d :: 0 <= d < n && Distance(arbiter, d, n) == i ==> d == (arbiter + i) % n
  {
    ModIsWrap(arbiter + i, n);
  }

  /** One turn of the loop, at the processor `i` steps from the index. */
  lemma ScanStep(ctl: seq<CpuData>, mask: Word, arbiter: nat, i: nat, target: Option<nat>, id: nat)
    requires arbiter < |ctl| && id < |ctl| && Distance(arbiter, id, |ctl|) == i
    requires target.Some? ==> target.value < |ctl|
    requires BestSoFar(ctl, mask, arbiter, i, target)
    requires forall d :: 0 <= d < |ctl| && Distance(arbiter, d, |ctl|) == i ==> d == id
    ensures var better := Candidate(ctl, mask, id) &&
                          (target.None? || ctl[id].taskPriority > ctl[target.value].taskPriority);
            BestSoFar(ctl, mask, arbiter, i + 1, if better then Some(id) else target)
  {
    hide Distance;
    assert forall d: nat :: Candidate(ctl, mask, d) && Distance(arbiter, d, |ctl|) < i + 1 ==>
                              Distance(arbiter, d, |ctl|) < i || d == id;
    hide Bit;
  }

  lemma {:induction false} ScanFindsBest(ctl: seq<CpuData>, mask: Word, arbiter: nat, i: nat, target: Option<nat>)
    requires arbiter < |ctl| && i <= |ctl|
    requires target.Some? ==> target.value < |ctl|
    requires BestSoFar(ctl, mask, arbiter, i, target)
    ensures BestSoFar(ctl, mask, arbiter, |ctl|, Scan(ctl, mask, arbiter, i, target))
    decreases |ctl| - i
  {
    hide Bit, BestSoFar, Distance;
    if i < |ctl| {
      StepAt(arbiter, i, |ctl|);
      var id := (arbiter + i) % |ctl|;
      ScanStep(ctl, mask, arbiter, i, target, id);
      var better := Bit(mask, id) && (target.None? || ctl[id].taskPriority > ctl[target.value].taskPriority);
      ScanFindsBest(ctl, mask, arbiter, i + 1, if better then Some(id) else target);
    }
  }

  /** The loop returns the winner, and nothing only when there is no candidate. */
  lemma SelectIsWinner(s: Irq, mask: Word, t: nat)
    requires Shape(s)
    ensures Select(s, Dynamic(mask)) == Some(t) <==> Winner(s.ctl, mask, s.arbiter, t)
    ensures Select(s, Dynamic(mask)).None? <==> forall c: nat :: !Candidate(s.ctl, mask, c)
  {
    hide Bit, Scan;
    ScanFindsBest(s.ctl, mask, s.arbiter, 0, None);
    var r := Select(s, Dynamic(mask));
    if r.Some? {
      assert forall d: nat :: Candidate(s.ctl, mask, d) ==> Distance(s.arbiter, d, |s.ctl|) < |s.ctl|;
      assert Candidate(s.ctl, mask, r.value) && Top(s.ctl, mask, r.value);
      assert Winner(s.ctl, mask, s.arbiter, r.value);
      if Winner(s.ctl, mask, s.arbiter, t) {
        assert Distance(s.arbiter, t, |s.ctl|) == Distance(s.arbiter, r.value, |s.ctl|);
      }
    }
  }

  ghost function TopSet(ctl: seq<CpuData>, mask: Word): (r: set<nat>)
    ensures forall c: nat :: c in r <==> Top(ctl, mask, c)
  {
    set c | 0 <= c < |ctl| && Top(ctl, mask, c)
  }

  /** The top candidates fewer than `d` steps from `arbiter`. */
  ghost function Near(ctl: seq<CpuData>, mask: Word, arbiter: nat, d: nat): (r: set<nat>)
    requires arbiter < |ctl|
    ensures forall c: nat :: c in r <==> Top(ctl, mask, c) && Distance(arbiter, c, |ctl|) < d
    ensures r <= TopSet(ctl, mask)
  {
    set c | 0 <= c < |ctl| && Top(ctl, mask, c) && Distance(arbiter, c, |ctl|) < d
  }

  /** The operation is a request routed dynamically over `mask`. */
  predicate Counts(s: Irq, op: Op, mask: Word)
    requires Shape(s)
  {
    op.Start? && ValidLine(op.line) && s.sources[Slot(op.line)].route == Dynamic(mask)
  }

  /** It changes no route and no priority, and if it is a request it goes by a fixed
      route or over `mask`. */
  predicate Steady(s: Irq, op: Op, mask: Word)
    requires Shape(s)
  {
    && ValidOp(|s.ctl|, op) && !op.SetRoute? && !op.SetPriority?
    && (op.Start? ==> s.sources[Slot(op.line)].route.Fixed? || Counts(s, op, mask))
  }

  /** A series of operations with fixed routes and priorities: requests,
      acknowledgements, mail, in any order. */
  ghost predicate AllSteady(s: Irq, ops: seq<Op>, mask: Word)
    requires Shape(s)
  {
    && (forall i :: 0 <= i < |ops| ==> Steady(s, ops[i], mask))
    && exists c: nat :: Candidate(s.ctl, mask, c)
  }

  /** Who takes each dynamic request of the series. */
  ghost function Targets(s: Irq, ops: seq<Op>, mask: Word): seq<nat>
    requires Shape(s) && AllSteady(s, ops, mask)
    decreases |ops|
  {
    if ops == [] then []
    else
      StepKeepsRouting(s, ops, mask);
      (if Counts(s, ops[0], mask) then [Select(s, Dynamic(mask)).value] else []) +
      Targets(Step(s, ops[0]), ops[1..], mask)
  }

  /** A steady operation changes no route and no priority, and moves the index only
      if it is a dynamic request. */
  lemma StepKeepsPolicy(s: Irq, op: Op, mask: Word)
    requires Shape(s) && Steady(s, op, mask)
    ensures var r := Step(s, op);
            && (forall c :: 0 <= c < |s.ctl| ==> r.ctl[c].taskPriority == s.ctl[c].taskPriority)
            && (forall i :: 0 <= i < N_SOURCES ==> r.sources[i].route == s.sources[i].route)
            && r.arbiter == if Counts(s, op, mask) && Select(s, Dynamic(mask)).Some?
                            then (Select(s, Dynamic(mask)).value + 1) % |s.ctl| else s.arbiter
  {
    hide Bit, Scan;
    match op
    case Deliver(origin, outbox) => DeliverIs(s, origin, outbox, 0);
    case _ =>
  }

  /** So it keeps the top candidates, and the rest of the series is steady. */
  lemma StepKeepsRouting(s: Irq, ops: seq<Op>, mask: Word)
    requires Shape(s) && AllSteady(s, ops, mask) && ops != []
    ensures var r, t := Step(s, ops[0]), Select(s, Dynamic(mask));
            && AllSteady(r, ops[1..], mask)
            && (forall c: nat :: Top(r.ctl, mask, c) <==> Top(s.ctl, mask, c))
            && t.Some? && Winner(s.ctl, mask, s.arbiter, t.value)
            && r.arbiter == if Counts(s, ops[0], mask) then (t.value + 1) % |s.ctl| else s.arbiter
  {
    hide Bit, Scan, Winner, Step;
    var r, t := Step(s, ops[0]), Select(s, Dynamic(mask));
    StepKeepsPolicy(s, ops[0], mask);
    SelectIsWinner(s, mask, if t.Some? then t.value else 0);
    assert forall c: nat :: Candidate(r.ctl, mask, c) <==> Candidate(s.ctl, mask, c);
    assert forall i :: 0 <= i < |ops| - 1 ==> ops[1..][i] == ops[i + 1];
  }

  lemma DistanceShift(a: nat, d: nat, x: nat, n: nat)
    requires a < n && d < n && x < n
    ensures var e := Distance(a, x, n);
            && Distance(Wrap(a + d, n), x, n) == (if e >= d then e - d else e + n - d)
            && Wrap(x + 1, n) == Wrap(Wrap(a + e, n) + 1, n)
  {
  }

  /** When the index stands `d` steps past `a` and the top candidates before it
      have been served, the winner is the nearest of those not yet served. */
  lemma NextIsNearest(ctl: seq<CpuData>, mask: Word, a: nat, d: nat, t: nat)
    requires a < |ctl| && d < |ctl| && Near(ctl, mask, a, d) < TopSet(ctl, mask)
    requires Winner(ctl, mask, Wrap(a + d, |ctl|), t)
    ensures t < |ctl| && t !in Near(ctl, mask, a, d)
    ensures Near(ctl, mask, a, Distance(a, t, |ctl|) + 1) == Near(ctl, mask, a, d) + {t}
  {
    var n := |ctl|;
    var u :| u in TopSet(ctl, mask) && u !in Near(ctl, mask, a, d);
    assert forall c: nat :: Top(ctl, mask, c) ==> c < n;
    hide Top;
    DistanceShift(a, d, t, n);
    DistanceShift(a, d, u, n);
    var e := Distance(a, t, n);
    assert e >= d;
    forall c: nat | Top(ctl, mask, c) && Distance(a, c, n) >= d ensures e <= Distance(a, c, n) {
      DistanceShift(a, d, c, n);
    }
    forall c: nat | Top(ctl, mask, c) && Distance(a, c, n) == e ensures c == t {
      DistanceShift(a, e, c, n);
      DistanceShift(a, e, t, n);
    }
  }

  /** Completed rounds in a series of `m`, and whether one is under way. */
  ghost function Rounds(m: nat, k: nat): nat
    requires k > 0
  {
    if m < k then 0 else 1 + Rounds(m - k, k)
  }

  ghost function Partial(m: nat, k: nat): nat
    requires k > 0
  {
    if m < k then Min(m, 1) else Partial(m - k, k)
  }

  /** How often `c` occurs in `s`. */
  ghost function Times(s: seq<nat>, c: nat): nat {
    if s == [] then 0 else (if s[0] == c then 1 else 0) + Times(s[1..], c)
  }

  lemma TimesCons(t: nat, s: seq<nat>, c: nat)
    ensures Times([t] + s, c) == Served({t}, c) + Times(s, c)
  {
    assert ([t] + s)[1..] == s;
  }

  ghost function Served(v: set<nat>, c: nat): nat {
    if c in v then 1 else 0
  }

  /** With `near` served already this round, `n` services of `c` in `m` requests
      keep the totals level, and go to top candidates only. */
  ghost predicate Even(top: set<nat>, near: set<nat>, m: nat, n: nat, c: nat)
    requires top != {}
  {
    if c in top
    then Rounds(|near| + m, |top|) <= Served(near, c) + n <= Rounds(|near| + m, |top|) + Partial(|near| + m, |top|)
    else n == 0
  }

  lemma EvenStep(top: set<nat>, near: set<nat>, t: nat, m: nat, n: nat, c: nat)
    requires near < top && t in top - near
    requires Even(top, if near + {t} == top then {} else near + {t}, m, n, c)
    ensures Even(top, near, m + 1, Served({t}, c) + n, c)
  {
    SmallerSet(near, top);
    assert |near + {t}| == |near| + 1;
    if near + {t} != top {
      SmallerSet(near + {t}, top);
    }
  }

  /** One delivery mid-round: it serves an unserved top candidate and leaves the
      index right behind it. */
  lemma NextServed(s: Irq, ops: seq<Op>, mask: Word, a: nat, d: nat) returns (t: nat, e: nat)
    requires Shape(s) && AllSteady(s, ops, mask) && ops != [] && Steady(s, ops[0], mask) && Counts(s, ops[0], mask)
    requires a < |s.ctl| && d < |s.ctl| && s.arbiter == Wrap(a + d, |s.ctl|)
    requires Near(s.ctl, mask, a, d) < TopSet(s.ctl, mask)
    ensures var r, top, near := Step(s, ops[0]), TopSet(s.ctl, mask), Near(s.ctl, mask, a, d);
            && AllSteady(r, ops[1..], mask) && |r.ctl| == |s.ctl|
            && Targets(s, ops, mask) == [t] + Targets(r, ops[1..], mask)
            && TopSet(r.ctl, mask) == top && t in top - near
            && Near(r.ctl, mask, a, e) == near + {t} && Near(r.ctl, mask, r.arbiter, 0) == {}
            && r.arbiter == Wrap(a + e, |s.ctl|) && (near + {t} != top ==> e < |s.ctl|)
  {
    hide Bit, Scan, Step, Top, Winner, AllSteady;
    var r := Step(s, ops[0]);
    StepKeepsRouting(s, ops, mask);
    t := Select(s, Dynamic(mask)).value;
    NextIsNearest(s.ctl, mask, a, d, t);
    DistanceShift(a, d, t, |s.ctl|);
    ModIsWrap(t + 1, |s.ctl|);
    e := Distance(a, t, |s.ctl|) + 1;
    assert TopSet(r.ctl, mask) == TopSet(s.ctl, mask) && t in TopSet(s.ctl, mask);
    assert Near(r.ctl, mask, a, e) == Near(s.ctl, mask, a, d) + {t};
    assert Near(r.ctl, mask, r.arbiter, 0) == {};
  }

  lemma HeadIsSteady(s: Irq, ops: seq<Op>, mask: Word)
    requires Shape(s) && AllSteady(s, ops, mask) && ops != []
    ensures Steady(s, ops[0], mask) && ValidOp(|s.ctl|, ops[0])
  {
  }

  /** Any other operation leaves the index and the candidates where they are. */
  lemma OtherServed(s: Irq, ops: seq<Op>, mask: Word, a: nat, d: nat)
    requires Shape(s) && AllSteady(s, ops, mask) && ops != [] && Steady(s, ops[0], mask) && !Counts(s, ops[0], mask)
    requires a < |s.ctl|
    ensures var r := Step(s, ops[0]);
            && AllSteady(r, ops[1..], mask) && |r.ctl| == |s.ctl| && r.arbiter == s.arbiter
            && Targets(s, ops, mask) == Targets(r, ops[1..], mask)
            && TopSet(r.ctl, mask) == TopSet(s.ctl, mask) && Near(r.ctl, mask, a, d) == Near(s.ctl, mask, a, d)
  {
    hide Bit, Scan, Step, Top, Winner, AllSteady;
    StepKeepsRouting(s, ops, mask);
  }

  /** Mid-round, with the candidates nearer than `d` to `a` already served, the
      totals of all top candidates stay level and nobody else is served. */
  lemma {:induction false} Level(s: Irq, ops: seq<Op>, mask: Word, a: nat, d: nat, c: nat)
    requires Shape(s) && AllSteady(s, ops, mask)
    requires a < |s.ctl| && d < |s.ctl| && s.arbiter == Wrap(a + d, |s.ctl|)
    requires Near(s.ctl, mask, a, d) < TopSet(s.ctl, mask)
    ensures var ts := Targets(s, ops, mask); Even(TopSet(s.ctl, mask), Near(s.ctl, mask, a, d), |ts|, Times(ts, c), c)
    decreases |ops|
  {
    hide Step, Even, Near, TopSet, Select, Counts, AllSteady, Steady, Targets, Times, Served;
    var top, near, ts := TopSet(s.ctl, mask), Near(s.ctl, mask, a, d), Targets(s, ops, mask);
    if ops == [] {
      NoTargets(s, mask, c);
      EvenStart(top, near, c);
    } else {
      HeadIsSteady(s, ops, mask);
      var r := Step(s, ops[0]);
      if Counts(s, ops[0], mask) {
        var t, e := NextServed(s, ops, mask, a, d);
        var rest := Targets(r, ops[1..], mask);
        TimesCons(t, rest, c);
        assert |ts| == |rest| + 1;
        if near + {t} == top {
          Level(r, ops[1..], mask, r.arbiter, 0, c);
        } else {
          Level(r, ops[1..], mask, a, e, c);
        }
        EvenStep(top, near, t, |rest|, Times(rest, c), c);
      } else {
        OtherServed(s, ops, mask, a, d);
        Level(r, ops[1..], mask, a, d, c);
      }
    }
  }

  lemma NoTargets(s: Irq, mask: Word, c: nat)
    requires Shape(s) && AllSteady(s, [], mask)
    ensures Targets(s, [], mask) == [] && Times([], c) == 0
  {
  }

  lemma EvenStart(top: set<nat>, near: set<nat>, c: nat)
    requires near < top
    ensures Even(top, near, 0, 0, c)
  {
    SmallerSet(near, top);
  }

  lemma SmallerSet(a: set<nat>, b: set<nat>)
    requires a < b
    ensures |a| < |b|
  {
    assert b == a + (b - a);
  }

  /** Round robin: in any run with fixed routes and priorities, whatever
      acknowledgements and mail fall between, the requests routed dynamically over
      one mask serve only top candidates, as many requests as there are top
      candidates serve each of them exactly once, and the totals of two top
      candidates never differ by more than one. */
  lemma RoundRobin(s: Irq, ops: seq<Op>, mask: Word, c: nat, d: nat)
    requires Shape(s) && AllSteady(s, ops, mask)
    ensures var top, ts := TopSet(s.ctl, mask), Targets(s, ops, mask);
            && (c !in top ==> Times(ts, c) == 0)
            && (c in top && |ts| == |top| ==> Times(ts, c) == 1)
            && (c in top && d in top ==> Times(ts, c) <= Times(ts, d) + 1)
  {
    hide Bit, Scan, Top, Targets, Step, Select;
    var top, ts := TopSet(s.ctl, mask), Targets(s, ops, mask);
    assert Near(s.ctl, mask, s.arbiter, 0) == {};
    TopExists(s, ops, mask);
    Level(s, ops, mask, s.arbiter, 0, c);
    Level(s, ops, mask, s.arbiter, 0, d);
    assert |ts| == |top| ==> Rounds(|ts|, |top|) == 1 && Partial(|ts|, |top|) == 0 by {
      assert Rounds(0, |top|) == 0 && Partial(0, |top|) == 0;
    }
    PartialBound(|ts|, |top|);
  }

  lemma TopExists(s: Irq, ops: seq<Op>, mask: Word)
    requires Shape(s) && AllSteady(s, ops, mask)
    ensures TopSet(s.ctl, mask) != {}
  {
    hide Bit, Scan;
    var t := Select(s, Dynamic(mask));
    SelectIsWinner(s, mask, if t.Some? then t.value else 0);
    assert t.value in TopSet(s.ctl, mask);
  }

  /** One target for each dynamic request of the series. */
  lemma {:induction false} TargetsCount(s: Irq, ops: seq<Op>, mask: Word)
    requires Shape(s) && AllSteady(s, ops, mask)
    ensures |Targets(s, ops, mask)| == |DynamicRequests(s, ops, mask)|
    decreases |ops|
  {
    hide Bit, Scan, Select, Step, Top, Winner, Candidate;
    if ops != [] {
      StepKeepsRouting(s, ops, mask);
      StepKeepsPolicy(s, ops[0], mask);
      var r := Step(s, ops[0]);
      SameRequests(s, r, ops[1..], mask);
      TargetsCount(r, ops[1..], mask);
    }
  }

  /** The dynamic requests of a series, told by the routes at its start. */
  ghost function DynamicRequests(s: Irq, ops: seq<Op>, mask: Word): seq<Op>
    requires Shape(s)
    decreases |ops|
  {
    if ops == [] then []
    else (if Counts(s, ops[0], mask) then [ops[0]] else []) + DynamicRequests(s, ops[1..], mask)
  }

  lemma {:induction false} SameRequests(s: Irq, r: Irq, ops: seq<Op>, mask: Word)
    requires Shape(s) && Shape(r) && forall i :: 0 <= i < N_SOURCES ==> r.sources[i].route == s.sources[i].route
    ensures DynamicRequests(r, ops, mask) == DynamicRequests(s, ops, mask)
    decreases |ops|
  {
    if ops != [] {
      SameRequests(s, r, ops[1..], mask);
    }
  }

  lemma {:induction false} PartialBound(m: nat, k: nat)
    requires k > 0
    ensures Partial(m, k) <= 1
  {
    if m >= k {
      PartialBound(m - k, k);
    }
  }
}
