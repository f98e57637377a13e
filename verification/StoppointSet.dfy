/** The set of stoppoints: the list in order of adding, and the map by address that
    lookups use, sharing their elements. */
module StoppointSets {
  import opened Words
  import opened Stoppoints

  class Stoppoint {
    const id: nat
    const range: Range
    var enabled: bool
    var accessMode: set<Mode>

    constructor (id: nat, range: Range, mode: set<Mode>)
      ensures this.id == id && this.range == range && enabled && accessMode == mode
    {
      this.id, this.range, enabled, accessMode := id, range, true, mode;
    }

    ghost function Value(): Stop
      reads this
    {
      Stop(id, enabled, range, accessMode)
    }
  }

  /** The map, as its elements in key order. */
  ghost predicate Ordered(entries: seq<Stoppoint>) {
    forall i, k :: 0 <= i < k < |entries| ==> Less(entries[i].range, entries[k].range)
  }

  /** Place of the first element not below a key. */
  function LowerBound(entries: seq<Stoppoint>, r: Range): (k: nat)
    ensures k <= |entries| && (forall i :: 0 <= i < k ==> Less(entries[i].range, r))
    ensures k < |entries| ==> !Less(entries[k].range, r)
  {
    if entries == [] || !Less(entries[0].range, r) then 0 else 1 + LowerBound(entries[1..], r)
  }

  function Inserted(entries: seq<Stoppoint>, p: Stoppoint): seq<Stoppoint> {
    var k := LowerBound(entries, p.range);
    entries[..k] + [p] + entries[k..]
  }

  function Erased(entries: seq<Stoppoint>, k: nat): seq<Stoppoint>
    requires k < |entries|
  {
    entries[..k] + entries[k + 1..]
  }

  ghost predicate Distinct(points: seq<Stoppoint>) {
    forall i, k :: 0 <= i < k < |points| ==> points[i] != points[k]
  }

  lemma InsertKeepsOrder(entries: seq<Stoppoint>, p: Stoppoint)
    requires Ordered(entries) && forall e :: e in entries ==> Less(e.range, p.range) || Less(p.range, e.range)
    ensures Ordered(Inserted(entries, p))
  {
    var k := LowerBound(entries, p.range);
    var r := Inserted(entries, p);
    forall i | k <= i < |entries| ensures Less(p.range, entries[i].range) {
      assert entries[i] in entries;
    }
    assert forall i :: 0 <= i < |r| ==> r[i] == if i < k then entries[i] else if i == k then p else entries[i - 1];
  }

  lemma InsertAdds(entries: seq<Stoppoint>, p: Stoppoint)
    ensures forall e :: e in Inserted(entries, p) <==> e == p || e in entries
  {
    var k := LowerBound(entries, p.range);
    assert entries == entries[..k] + entries[k..];
  }

  lemma EraseKeepsOrder(entries: seq<Stoppoint>, k: nat)
    requires Ordered(entries) && k < |entries|
    ensures Ordered(Erased(entries, k))
    ensures forall e :: e in Erased(entries, k) <==> e in entries && e != entries[k]
  {
    var r := Erased(entries, k);
    assert forall i :: 0 <= i < |r| ==> r[i] == entries[if i < k then i else i + 1];
    assert entries == entries[..k] + [entries[k]] + entries[k + 1..];
    assert forall i :: 0 <= i < |entries| && i != k ==> entries[i] != entries[k];
  }

  class StoppointSet {
    var points: seq<Stoppoint>
    var addressMap: seq<Stoppoint>

    ghost function View(): (v: seq<Stop>)
      reads this, points
      ensures |v| == |points| && forall i :: 0 <= i < |v| ==> v[i] == points[i].Value()
    {
      seq(|points|, i requires 0 <= i < |points| reads this, points => points[i].Value())
    }

    /** Both structures hold the same stoppoints. */
    ghost predicate Valid()
      reads this, points
    {
      && Distinct(points) && WellFormed(View()) && Ordered(addressMap)
      && (forall p :: p in points ==> p in addressMap) && (forall p :: p in addressMap ==> p in points)
    }

    constructor ()
      ensures Valid() && View() == [] && points == []
    {
      points, addressMap := [], [];
    }

    method CanInsert(range: Range) returns (ok: bool)
      requires Valid()
      ensures ok == Stoppoints.CanInsert(View(), range)
    {
      for i := 0 to |points|
        invariant forall k :: 0 <= k < i ==> !Overlaps(points[k].range, range)
      {
        if Overlaps(points[i].range, range) {
          assert View()[i].range == points[i].range;
          return false;
        }
      }
      ok := true;
    }

    method NextId() returns (id: nat)
      requires Valid()
      ensures id == Stoppoints.NextId(View())
    {
      id := 0;
      for i := 0 to |points|
        invariant id == Stoppoints.NextId(View()[..i])
      {
        assert View()[..i + 1][..i] == View()[..i] && View()[..i + 1][i] == points[i].Value();
        id := Max(id, points[i].id + 1);
      }
      assert View()[..|points|] == View();
    }

    method Add(range: Range, mode: set<Mode>, id: nat, enabled: bool) returns (ok: bool)
      requires Valid() && range.start <= range.end
      modifies this
      ensures Valid() && ok == Stoppoints.CanInsert(old(View()), range)
      ensures View() == Added(old(View()), range, mode, id, enabled)
      ensures forall p :: p in points ==> p in old(points) || fresh(p)
    {
      hide Less, Overlaps, WellFormed, Ordered, Distinct, Stoppoints.CanInsert, Stoppoints.NextId;
      ok := CanInsert(range);
      if !ok { return; }
      var next := NextId();
      var p := new Stoppoint(Max(id, next), range, mode);
      p.enabled := enabled;
      AddKeeps(View(), range, mode, id, enabled);
      KeysDiffer(range);
      Link(p);
    }

    /** Enters a new element in both structures. */
    method Link(p: Stoppoint)
      requires Valid() && p !in points && WellFormed(View() + [p.Value()])
      requires forall e :: e in addressMap ==> Less(e.range, p.range) || Less(p.range, e.range)
      modifies this
      ensures Valid() && points == old(points) + [p] && View() == old(View()) + [p.Value()]
    {
      InsertKeepsOrder(addressMap, p);
      InsertAdds(addressMap, p);
      hide Inserted, Less, Overlaps, WellFormed;
      points := points + [p];
      addressMap := Inserted(addressMap, p);
      assert View() == old(View()) + [p.Value()];
    }

    /** A range that can be inserted starts where no other does. */
    lemma KeysDiffer(range: Range)
      requires Valid() && range.start <= range.end && Stoppoints.CanInsert(View(), range)
      ensures forall e :: e in addressMap ==> Less(e.range, range) || Less(range, e.range)
    {
      forall e | e in addressMap ensures Less(e.range, range) || Less(range, e.range) {
        assert e in points;
        var i :| 0 <= i < |points| && points[i] == e;
        assert View()[i].range == e.range;
      }
    }

    method Remove(index: nat)
      requires Valid() && index < |points|
      modifies this
      ensures Valid() && View() == Removed(old(View()), index)
    {
      var p := points[index];
      var k := LowerBound(addressMap, p.range);
      assert p in addressMap;
      ghost var j :| 0 <= j < |addressMap| && addressMap[j] == p;
      assert k == j;
      EraseKeepsOrder(addressMap, k);
      RemoveKeeps(View(), index);
      DropKeepsOthers(points, index);
      addressMap := Erased(addressMap, k);
      points := points[..index] + points[index + 1..];
      assert View() == Removed(old(View()), index);
    }

    method Clear()
      modifies this
      ensures Valid() && View() == []
    {
      addressMap := [];
      points := [];
    }

    method SetEnabled(index: nat, setting: bool)
      requires Valid() && index < |points|
      modifies points[index]
      ensures Valid() && View() == Switched(old(View()), index, setting)
      ensures View()[index].enabled == setting && View() == old(View())[index := View()[index]]
    {
      if points[index].enabled != setting {
        points[index].enabled := setting;
      }
      assert View() == Switched(old(View()), index, setting);
    }

    /** The stoppoint that starts at an address. */
    method Find(asid: Word, addr: Word) returns (p: Stoppoint?)
      requires Valid()
      ensures p != null ==> p in points && p.range.asid == asid && p.range.start == addr
      ensures p == null ==> forall q :: q in points ==> !(q.range.asid == asid && q.range.start == addr)
    {
      var r := Range(asid, addr, addr);
      var k := LowerBound(addressMap, r);
      if k < |addressMap| && !Less(r, addressMap[k].range) {
        p := addressMap[k];
      } else {
        forall q | q in points ensures !(q.range.asid == asid && q.range.start == addr) {
          assert q in addressMap;
          var i :| 0 <= i < |addressMap| && addressMap[i] == q;
        }
        p := null;
      }
    }

    /** One ordered lookup and at most one step back find what a scan of the whole
        list would. */
    method Probe(asid: Word, addr: Word, mode: set<Mode>) returns (index: Option<nat>)
      requires Valid()
      ensures index == Scan(View(), asid, addr, mode)
    {
      if points == [] { return None; }
      assert points[0] in addressMap;
      var range := Range(asid, addr, addr);
      var it := LowerBound(addressMap, range);
      if it == |addressMap| || (Less(range, addressMap[it].range) && it != 0) {
        it := it - 1;
      }
      var p := addressMap[it];
      ProbeLooksAt(it, asid, addr);
      if p.enabled && Contains(p.range, asid, addr) && p.accessMode * mode != {} {
        assert p in points;
        var i := 0;
        while i < |points| && points[i] != p
          invariant i <= |points| && forall k :: 0 <= k < i ==> points[k] != p
        {
          i := i + 1;
        }
        assert Matches(View()[i], asid, addr, mode);
        MatchIsUnique(View(), asid, addr, mode, i);
        return Some(i);
      } else {
        forall i | 0 <= i < |points| ensures !Matches(View()[i], asid, addr, mode) {
          assert points[i] in addressMap;
        }
        return None;
      }
    }

    /** If any stoppoint covers the address, it is the one looked at. */
    lemma ProbeLooksAt(it: nat, asid: Word, addr: Word)
      requires Valid() && addressMap != []
      requires var range := Range(asid, addr, addr);
               var k := LowerBound(addressMap, range);
               it == if k == |addressMap| || (Less(range, addressMap[k].range) && k != 0) then k - 1 else k
      ensures it < |addressMap|
      ensures forall q :: q in addressMap && Contains(q.range, asid, addr) ==> q == addressMap[it]
    {
      var range := Range(asid, addr, addr);
      var k := LowerBound(addressMap, range);
      forall q | q in addressMap && Contains(q.range, asid, addr) ensures q == addressMap[it] {
        var j :| 0 <= j < |addressMap| && addressMap[j] == q;
        if j != it { DisjointRanges(q, addressMap[it]); }
      }
    }

    lemma DisjointRanges(p: Stoppoint, q: Stoppoint)
      requires Valid() && p in addressMap && q in addressMap && p != q
      ensures !Overlaps(p.range, q.range) && p.range.start <= p.range.end && q.range.start <= q.range.end
    {
      assert p in points && q in points;
      var i :| 0 <= i < |points| && points[i] == p;
      var k :| 0 <= k < |points| && points[k] == q;
      assert View()[i].range == p.range && View()[k].range == q.range;
      assert !Overlaps(View()[if i < k then i else k].range, View()[if i < k then k else i].range);
    }
  }

  lemma DropKeepsOthers(points: seq<Stoppoint>, i: nat)
    requires Distinct(points) && i < |points|
    ensures var r := points[..i] + points[i + 1..];
            Distinct(r) && forall p :: p in r <==> p in points && p != points[i]
  {
    var r := points[..i] + points[i + 1..];
    assert forall k :: 0 <= k < |r| ==> r[k] == points[if k < i then k else k + 1];
    assert points == points[..i] + [points[i]] + points[i + 1..];
  }
}
