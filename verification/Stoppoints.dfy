/** Stoppoints as values: disjoint address ranges, in the order they were added. */
module Stoppoints {
  import opened Words

  datatype Range = Range(asid: Word, start: Word, end: Word)

  /** Ranges are ordered by where they start; their ends do not matter. */
  predicate Less(a: Range, b: Range) {
    a.asid < b.asid || (a.asid == b.asid && a.start < b.start)
  }

  predicate Overlaps(a: Range, b: Range) {
    !(a.asid != b.asid || b.end < a.start || b.start > a.end)
  }

  predicate Contains(r: Range, asid: Word, addr: Word) {
    asid == r.asid && r.start <= addr <= r.end
  }

  datatype Mode = Exec | Write | Read

  datatype Stop = Stop(id: nat, enabled: bool, range: Range, mode: set<Mode>)

  predicate Matches(s: Stop, asid: Word, addr: Word, mode: set<Mode>) {
    s.enabled && Contains(s.range, asid, addr) && s.mode * mode != {}
  }

  /** Ranges are not empty and pairwise disjoint, and ids go up. */
  ghost predicate WellFormed(ps: seq<Stop>) {
    && (forall i :: 0 <= i < |ps| ==> ps[i].range.start <= ps[i].range.end)
    && (forall i, k :: 0 <= i < k < |ps| ==> !Overlaps(ps[i].range, ps[k].range))
    && (forall i, k :: 0 <= i < k < |ps| ==> ps[i].id < ps[k].id)
  }

  predicate CanInsert(ps: seq<Stop>, r: Range) {
    forall i :: 0 <= i < |ps| ==> !Overlaps(ps[i].range, r)
  }

  /** One more than the highest id. */
  function NextId(ps: seq<Stop>): nat {
    if ps == [] then 0 else Max(NextId(ps[..|ps| - 1]), ps[|ps| - 1].id + 1)
  }

  function Added(ps: seq<Stop>, r: Range, mode: set<Mode>, id: nat, enabled: bool): seq<Stop> {
    if CanInsert(ps, r) then ps + [Stop(Max(id, NextId(ps)), enabled, r, mode)] else ps
  }

  function Removed(ps: seq<Stop>, i: nat): seq<Stop>
    requires i < |ps|
  {
    ps[..i] + ps[i + 1..]
  }

  function Switched(ps: seq<Stop>, i: nat, setting: bool): seq<Stop>
    requires i < |ps|
  {
    ps[i := ps[i].(enabled := setting)]
  }

  /** The first stoppoint that matches. */
  function Scan(ps: seq<Stop>, asid: Word, addr: Word, mode: set<Mode>): (r: Option<nat>)
    ensures r.Some? ==> r.value < |ps| && Matches(ps[r.value], asid, addr, mode)
    ensures r.None? ==> forall i :: 0 <= i < |ps| ==> !Matches(ps[i], asid, addr, mode)
  {
    if ps == [] then None
    else
      var n := |ps| - 1;
      var r := Scan(ps[..n], asid, addr, mode);
      if r.Some? then r else if Matches(ps[n], asid, addr, mode) then Some(n) else None
  }

  /** An enabled stoppoint for such an access covers the address. */
  ghost predicate Hits(p: Stop, asid: Word, addr: Word, mode: set<Mode>) {
    p.enabled && p.range.asid == asid && p.range.start <= addr <= p.range.end && exists x :: x in p.mode && x in mode
  }

  /** In disjoint ranges a scan finds the one stoppoint hit, or none if none is. */
  lemma ScanIs(ps: seq<Stop>, asid: Word, addr: Word, mode: set<Mode>, i: nat)
    requires WellFormed(ps) && i < |ps|
    ensures Hits(ps[i], asid, addr, mode) <==> Scan(ps, asid, addr, mode) == Some(i)
  {
    var r := Scan(ps, asid, addr, mode);
    if r.Some? { HitsIs(ps[r.value], asid, addr, mode); }
    HitsIs(ps[i], asid, addr, mode);
  }

  lemma HitsIs(p: Stop, asid: Word, addr: Word, mode: set<Mode>)
    ensures Hits(p, asid, addr, mode) <==> Matches(p, asid, addr, mode)
  {
    if x :| x in p.mode && x in mode { assert x in p.mode * mode; }
  }

  // ---------------------------------------------------------------- what every operation keeps

  lemma {:induction false} NextIdIsAbove(ps: seq<Stop>)
    ensures forall i :: 0 <= i < |ps| ==> ps[i].id < NextId(ps)
    ensures ps != [] ==> exists i :: 0 <= i < |ps| && NextId(ps) == ps[i].id + 1
  {
    if ps != [] {
      var n := |ps| - 1;
      NextIdIsAbove(ps[..n]);
      if NextId(ps[..n]) > ps[n].id + 1 {
        var i :| 0 <= i < n && NextId(ps[..n]) == ps[..n][i].id + 1;
        assert NextId(ps) == ps[i].id + 1;
      } else {
        assert NextId(ps) == ps[n].id + 1;
      }
    }
  }

  /** An id that is free at its place in the order is kept. */
  lemma IdIsKeptIff(ps: seq<Stop>, r: Range, mode: set<Mode>, id: nat, enabled: bool)
    requires WellFormed(ps) && CanInsert(ps, r)
    ensures Added(ps, r, mode, id, enabled)[|ps|].id == id <==> forall i :: 0 <= i < |ps| ==> ps[i].id < id
  {
    NextIdIsAbove(ps);
  }

  lemma AddKeeps(ps: seq<Stop>, r: Range, mode: set<Mode>, id: nat, enabled: bool)
    requires WellFormed(ps) && r.start <= r.end
    ensures WellFormed(Added(ps, r, mode, id, enabled))
  {
    NextIdIsAbove(ps);
  }

  lemma RemoveKeeps(ps: seq<Stop>, i: nat)
    requires WellFormed(ps) && i < |ps|
    ensures WellFormed(Removed(ps, i))
  {
    var q := Removed(ps, i);
    assert forall k :: 0 <= k < |q| ==> q[k] == ps[if k < i then k else k + 1];
  }

  /** At most one stoppoint covers an address. */
  lemma CoverIsUnique(ps: seq<Stop>, asid: Word, addr: Word, i: nat, k: nat)
    requires WellFormed(ps) && i < |ps| && k < |ps|
    requires Contains(ps[i].range, asid, addr) && Contains(ps[k].range, asid, addr)
    ensures i == k
  {
    assert Overlaps(ps[i].range, ps[k].range) && Overlaps(ps[k].range, ps[i].range);
  }

  /** So at most one matches. */
  lemma MatchIsUnique(ps: seq<Stop>, asid: Word, addr: Word, mode: set<Mode>, i: nat)
    requires WellFormed(ps) && i < |ps| && Matches(ps[i], asid, addr, mode)
    ensures Scan(ps, asid, addr, mode) == Some(i)
  {
    var r := Scan(ps, asid, addr, mode);
    CoverIsUnique(ps, asid, addr, i, r.value);
  }

  // ---------------------------------------------------------------- runs

  datatype Op =
    | Add(range: Range, mode: set<Mode>)
    | AddAs(range: Range, mode: set<Mode>, id: nat, enabled: bool)
    | Remove(at: nat)
    | Clear
    | SetEnabled(at: nat, setting: bool)

  predicate Allowed(ps: seq<Stop>, op: Op) {
    match op
    case Add(r, _) => r.start <= r.end
    case AddAs(r, _, _, _) => r.start <= r.end
    case Remove(i) => i < |ps|
    case Clear => true
    case SetEnabled(i, _) => i < |ps|
  }

  function Step(ps: seq<Stop>, op: Op): seq<Stop>
    requires Allowed(ps, op)
  {
    match op
    case Add(r, mode) => Added(ps, r, mode, NextId(ps), true)
    case AddAs(r, mode, id, enabled) => Added(ps, r, mode, id, enabled)
    case Remove(i) => Removed(ps, i)
    case Clear => []
    case SetEnabled(i, setting) => Switched(ps, i, setting)
  }

  lemma StepKeeps(ps: seq<Stop>, op: Op)
    requires WellFormed(ps) && Allowed(ps, op)
    ensures WellFormed(Step(ps, op))
  {
    match op
    case Add(r, mode) => AddKeeps(ps, r, mode, NextId(ps), true);
    case AddAs(r, mode, id, enabled) => AddKeeps(ps, r, mode, id, enabled);
    case Remove(i) => RemoveKeeps(ps, i);
    case Clear =>
    case SetEnabled(i, setting) =>
  }

  predicate LegalRun(ps: seq<Stop>, ops: seq<Op>)
    decreases |ops|
  {
    ops == [] || (Allowed(ps, ops[0]) && LegalRun(Step(ps, ops[0]), ops[1..]))
  }

  function Run(ps: seq<Stop>, ops: seq<Op>): seq<Stop>
    requires LegalRun(ps, ops)
    decreases |ops|
  {
    if ops == [] then ps else Run(Step(ps, ops[0]), ops[1..])
  }

  /** Whatever was added, removed and switched before. */
  lemma {:induction false} RunsStayWellFormed(ps: seq<Stop>, ops: seq<Op>)
    requires WellFormed(ps) && LegalRun(ps, ops)
    ensures WellFormed(Run(ps, ops))
    decreases |ops|
  {
    if ops != [] {
      StepKeeps(ps, ops[0]);
      RunsStayWellFormed(Step(ps, ops[0]), ops[1..]);
    }
  }
}
