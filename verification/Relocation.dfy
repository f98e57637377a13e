/** Moving stoppoints along with the symbols they stand in when a new symbol table
    is loaded. */
module Relocation {
  import opened Words
  import opened Stoppoints
  import opened StoppointSets
  import opened SymbolTables

  /** Where a range goes: with its symbol if that has exactly one namesake in the
      new table, nowhere otherwise. */
  function Moved(was: Table, now: Table, r: Range): Range {
    match Probe(was, r.asid, r.start)
    case None => r
    case Some(symbol) =>
      var dest := Lookup(now, symbol.name, symbol.kind);
      if |dest| != 1 then r
      else
        var start := (dest[0].start + Offset(symbol, r.start) + WORD_SIZE) % WORD_SIZE;
        Range(r.asid, start, (start + (r.end - r.start + WORD_SIZE) % WORD_SIZE) % WORD_SIZE)
  }

  /** A moved range that runs past the end of memory is none; the code asserts that
      there is none. */
  predicate Moves(was: Table, now: Table, ps: seq<Stop>) {
    forall i :: 0 <= i < |ps| ==> Moved(was, now, ps[i].range).start <= Moved(was, now, ps[i].range).end
  }

  function MovedStop(was: Table, now: Table, p: Stop): Stop {
    p.(range := Moved(was, now, p.range))
  }

  /** One by one, each under its own id, leaving out those with no room. */
  function Relocated(was: Table, now: Table, ps: seq<Stop>): seq<Stop> {
    if ps == [] then []
    else
      var n := |ps| - 1;
      var p := ps[n];
      Added(Relocated(was, now, ps[..n]), Moved(was, now, p.range), p.mode, p.id, p.enabled)
  }

  /** `q` is `p` moved: same id, mode, setting and length; at the old offset from the
      one namesake of the symbol it stood in, if there is exactly one, and else where
      it was. */
  ghost predicate Follows(was: Table, now: Table, p: Stop, q: Stop) {
    && q == p.(range := q.range)
    && q.range.asid == p.range.asid && q.range.end - q.range.start == p.range.end - p.range.start
    && match Probe(was, p.range.asid, p.range.start)
       case None => q.range == p.range
       case Some(a) =>
         var namesakes := Lookup(now, a.name, a.kind);
         if |namesakes| == 1
         then (q.range.start - namesakes[0].start) % WORD_SIZE == (p.range.start - a.start) % WORD_SIZE
         else q.range == p.range
  }

  lemma MovedFollows(was: Table, now: Table, p: Stop)
    requires p.range.start <= p.range.end && Moved(was, now, p.range).start <= Moved(was, now, p.range).end
    ensures Follows(was, now, p, MovedStop(was, now, p))
  {
    hide Probe, Lookup;
    var r := p.range;
    match Probe(was, r.asid, r.start)
    case None =>
    case Some(symbol) =>
      var dest := Lookup(now, symbol.name, symbol.kind);
      if |dest| == 1 {
        SameOffset(dest[0].start, r.start, symbol.start);
        SameLength(Moved(was, now, r).start, r.end - r.start);
      }
  }

  lemma SameOffset(to: Word, pos: Word, from: Word)
    ensures ((to + (pos - from) + WORD_SIZE) % WORD_SIZE - to) % WORD_SIZE == (pos - from) % WORD_SIZE
  {
    var s := to + (pos - from) + WORD_SIZE;
    assert s % WORD_SIZE == s || s % WORD_SIZE == s - WORD_SIZE || s % WORD_SIZE == s - 2 * WORD_SIZE;
  }

  lemma SameLength(start: Word, length: Word)
    requires start <= (start + (length + WORD_SIZE) % WORD_SIZE) % WORD_SIZE
    ensures (start + (length + WORD_SIZE) % WORD_SIZE) % WORD_SIZE - start == length
  {
    assert (length + WORD_SIZE) % WORD_SIZE == length;
    var s := start + length;
    var q, m := s / WORD_SIZE, s % WORD_SIZE;
    assert s == WORD_SIZE * q + m && m < WORD_SIZE;
  }

  /** Every stoppoint kept is an old one, moved. */
  ghost predicate ComeFrom(was: Table, now: Table, ps: seq<Stop>, qs: seq<Stop>) {
    forall k :: 0 <= k < |qs| ==> exists i :: 0 <= i < |ps| && qs[k] == MovedStop(was, now, ps[i])
  }

  lemma PrefixOk(was: Table, now: Table, ps: seq<Stop>)
    requires WellFormed(ps) && Moves(was, now, ps) && ps != []
    ensures WellFormed(ps[..|ps| - 1]) && Moves(was, now, ps[..|ps| - 1])
    ensures forall i :: 0 <= i < |ps| - 1 ==> ps[i].id < ps[|ps| - 1].id
  {
    hide Moved, Overlaps;
  }

  /** What comes from the stoppoints before the last has lower ids than the last. */
  lemma ComeBelow(was: Table, now: Table, ps: seq<Stop>, qs: seq<Stop>)
    requires WellFormed(ps) && ps != [] && ComeFrom(was, now, ps[..|ps| - 1], qs)
    ensures ComeFrom(was, now, ps, qs) && forall k :: 0 <= k < |qs| ==> qs[k].id < ps[|ps| - 1].id
  {
    hide Moved, Overlaps;
    var n := |ps| - 1;
    forall k | 0 <= k < |qs|
      ensures qs[k].id < ps[n].id && exists i :: 0 <= i < |ps| && qs[k] == MovedStop(was, now, ps[i])
    {
      var i :| 0 <= i < n && qs[k] == MovedStop(was, now, ps[..n][i]);
      assert ps[i].id < ps[n].id && qs[k] == MovedStop(was, now, ps[i]);
    }
  }

  lemma ComeToo(was: Table, now: Table, ps: seq<Stop>, qs: seq<Stop>, i: nat)
    requires ComeFrom(was, now, ps, qs) && i < |ps|
    ensures ComeFrom(was, now, ps, qs + [MovedStop(was, now, ps[i])])
  {
    hide Moved, MovedStop;
  }

  /** The id survives because ids go up: the next free one is never above it. */
  lemma RelocatedStep(was: Table, now: Table, ps: seq<Stop>, before: seq<Stop>)
    requires WellFormed(ps) && Moves(was, now, ps) && ps != []
    requires before == Relocated(was, now, ps[..|ps| - 1]) && WellFormed(before)
    requires ComeFrom(was, now, ps[..|ps| - 1], before)
    ensures var p := ps[|ps| - 1];
            && Relocated(was, now, ps) ==
               (if CanInsert(before, Moved(was, now, p.range)) then before + [MovedStop(was, now, p)] else before)
            && (forall k :: 0 <= k < |before| ==> before[k].id < p.id)
            && WellFormed(Relocated(was, now, ps)) && ComeFrom(was, now, ps, Relocated(was, now, ps))
  {
    hide Moved, ComeFrom, WellFormed, CanInsert;
    var n := |ps| - 1;
    var p := ps[n];
    var r := Moved(was, now, p.range);
    ComeBelow(was, now, ps, before);
    LastMoves(was, now, ps);
    AddKeeps(before, r, p.mode, p.id, p.enabled);
    if CanInsert(before, r) { IdIsKeptIff(before, r, p.mode, p.id, p.enabled); }
    ComeToo(was, now, ps, before, n);
  }

  lemma LastMoves(was: Table, now: Table, ps: seq<Stop>)
    requires Moves(was, now, ps) && ps != []
    ensures var r := Moved(was, now, ps[|ps| - 1].range); r.start <= r.end
  {
    hide Moved;
  }

  lemma {:induction false} RelocatedKeeps(was: Table, now: Table, ps: seq<Stop>)
    requires WellFormed(ps) && Moves(was, now, ps)
    ensures WellFormed(Relocated(was, now, ps)) && ComeFrom(was, now, ps, Relocated(was, now, ps))
    decreases |ps|
  {
    if ps != [] {
      RelocatedKeeps(was, now, ps[..|ps| - 1]);
      RelocatedStep(was, now, ps, Relocated(was, now, ps[..|ps| - 1]));
    }
  }

  /** The relocated set is well formed, and every stoppoint in it is an old one that
      followed its symbol. */
  lemma RelocationIsFaithful(was: Table, now: Table, ps: seq<Stop>)
    requires WellFormed(ps) && Moves(was, now, ps)
    ensures var rs := Relocated(was, now, ps);
            && WellFormed(rs)
            && forall k :: 0 <= k < |rs| ==> exists i :: 0 <= i < |ps| && Follows(was, now, ps[i], rs[k])
  {
    hide Moved, Follows;
    RelocatedKeeps(was, now, ps);
    var rs := Relocated(was, now, ps);
    forall k | 0 <= k < |rs| ensures exists i :: 0 <= i < |ps| && Follows(was, now, ps[i], rs[k]) {
      var i :| 0 <= i < |ps| && rs[k] == MovedStop(was, now, ps[i]);
      MovedFollows(was, now, ps[i]);
    }
  }

  /** A stoppoint survives exactly when its new range is clear of those kept before
      it. */
  lemma {:induction false} SurvivesIff(was: Table, now: Table, ps: seq<Stop>, i: nat)
    requires WellFormed(ps) && Moves(was, now, ps) && i < |ps|
    ensures MovedStop(was, now, ps[i]) in Relocated(was, now, ps) <==>
            CanInsert(Relocated(was, now, ps[..i]), Moved(was, now, ps[i].range))
    decreases |ps|
  {
    hide Moved, Overlaps, CanInsert, WellFormed, Moves, ComeFrom, Added;
    PrefixOk(was, now, ps);
    var n := |ps| - 1;
    var before := Relocated(was, now, ps[..n]);
    RelocatedKeeps(was, now, ps[..n]);
    RelocatedStep(was, now, ps, before);
    if i < n {
      SurvivesIff(was, now, ps[..n], i);
      assert ps[..n][..i] == ps[..i] && ps[i].id < ps[n].id;
    }
  }

  /** If no two of the moved ranges meet, nothing is lost and the order stays. */
  lemma {:induction false} NothingIsLost(was: Table, now: Table, ps: seq<Stop>)
    requires WellFormed(ps) && Moves(was, now, ps)
    requires forall i, k :: 0 <= i < k < |ps| ==> !Overlaps(Moved(was, now, ps[i].range), Moved(was, now, ps[k].range))
    ensures |Relocated(was, now, ps)| == |ps|
    ensures forall i :: 0 <= i < |ps| ==> Relocated(was, now, ps)[i] == MovedStop(was, now, ps[i])
    decreases |ps|
  {
    hide Moved, Overlaps, WellFormed, Moves, ComeFrom, Relocated;
    if ps == [] {
      NoneRelocated(was, now);
    } else {
      PrefixOk(was, now, ps);
      var n := |ps| - 1;
      NothingIsLost(was, now, ps[..n]);
      RelocatedKeeps(was, now, ps[..n]);
      var before := Relocated(was, now, ps[..n]);
      forall i | 0 <= i < n ensures before[i] == MovedStop(was, now, ps[i]) {
        assert ps[..n][i] == ps[i];
      }
      assert CanInsert(before, Moved(was, now, ps[n].range));
      RelocatedStep(was, now, ps, before);
    }
  }

  lemma NoneRelocated(was: Table, now: Table)
    ensures Relocated(was, now, []) == []
  {
  }

  /** The debugger's loop: a new set, filled in the order of the old one. */
  method RelocateStoppoints(was: Table, now: Table, points: StoppointSet) returns (rset: StoppointSet)
    requires points.Valid() && TableOk(was) && Moves(was, now, points.View())
    ensures fresh(rset) && rset.Valid() && rset.View() == Relocated(was, now, points.View())
  {
    hide Moved, Overlaps, Added, WellFormed, Sorted;
    rset := new StoppointSet();
    for k := 0 to |points.points|
      invariant points.Valid() && points.View() == old(points.View()) && fresh(rset) && rset.Valid()
      invariant forall p :: p in rset.points ==> fresh(p)
      invariant rset.View() == Relocated(was, now, points.View()[..k])
    {
      var sp := points.points[k];
      ghost var ps := points.View()[..k + 1];
      assert ps[..k] == points.View()[..k] && ps[k] == sp.Value();
      var range := MoveRange(was, now, sp.range);
      var _ := rset.Add(range, sp.accessMode, sp.id, sp.enabled);
    }
    assert points.View()[..|points.points|] == points.View();
  }

  method MoveRange(was: Table, now: Table, origin: Range) returns (r: Range)
    requires TableOk(was)
    ensures r == Moved(was, now, origin)
  {
    var symbol := ProbeTable(was, origin.asid, origin.start);
    if symbol.Some? {
      var dest := Lookup(now, symbol.value.name, symbol.value.kind);
      if |dest| == 1 {
        var start := (dest[0].start + Offset(symbol.value, origin.start) + WORD_SIZE) % WORD_SIZE;
        var end := (start + (origin.end - origin.start + WORD_SIZE) % WORD_SIZE) % WORD_SIZE;
        return Range(origin.asid, start, end);
      }
    }
    r := origin;
  }
}
