/** Symbols by address: sorted tables searched by halving. */
module SymbolTables {
  import opened Words

  const WORD_BYTES := 4

  datatype Kind = Function | Object

  datatype Symbol = Symbol(name: string, kind: Kind, start: Word, size: Word)

  /** Below, in, or above the symbol, as the code compares: the end is a 32-bit sum. */
  function Contains(s: Symbol, pos: Word): int {
    if s.start > pos then -1 else if pos >= (s.start + s.size) % WORD_SIZE then 1 else 0
  }

  function Offset(s: Symbol, pos: Word): int {
    pos - s.start
  }

  /** Each symbol ends before the next starts. */
  ghost predicate Sorted(table: seq<Symbol>) {
    forall i, k :: 0 <= i < k < |table| ==> table[i].start + table[i].size <= table[k].start
  }

  /** The first symbol that contains a position, entry by entry. */
  function Scan(table: seq<Symbol>, pos: Word): (r: Option<nat>)
    ensures r.Some? ==> r.value < |table| && Contains(table[r.value], pos) == 0
    ensures r.None? ==> forall i :: 0 <= i < |table| ==> Contains(table[i], pos) != 0
  {
    if table == [] then None
    else
      var n := |table| - 1;
      var r := Scan(table[..n], pos);
      if r.Some? then r else if Contains(table[n], pos) == 0 then Some(n) else None
  }

  /** In a sorted table a position is in one symbol at most, above all before it and
      below all after it. */
  lemma ContainsOrders(table: seq<Symbol>, pos: Word, b: nat)
    requires Sorted(table) && b < |table|
    ensures Contains(table[b], pos) == 0 ==> forall i :: 0 <= i < |table| && i != b ==> Contains(table[i], pos) != 0
    ensures Contains(table[b], pos) > 0 ==> forall i :: 0 <= i < b ==> Contains(table[i], pos) != 0
    ensures Contains(table[b], pos) < 0 ==> forall i :: b < i < |table| ==> Contains(table[i], pos) != 0
  {
  }

  /** Halving finds what scanning would. */
  method Search(table: seq<Symbol>, pos: Word) returns (r: Option<nat>)
    requires Sorted(table)
    ensures r == Scan(table, pos)
  {
    if table == [] { return None; }
    var a, c := 0, |table| - 1;
    var b, found := 0, false;
    var first := true;
    while first || (!found && a <= c)
      invariant 0 <= a && c < |table| && (first ==> a <= c && !found)
      invariant found ==> 0 <= b < |table| && Contains(table[b], pos) == 0
      invariant !found ==> forall i :: 0 <= i < |table| && !(a <= i <= c) ==> Contains(table[i], pos) != 0
      decreases first, !found, c - a
    {
      first := false;
      b := (a + c) / 2;
      var res := Contains(table[b], pos);
      ContainsOrders(table, pos, b);
      if res == 0 {
        found := true;
      } else if res > 0 {
        a := b + 1;
      } else {
        c := b - 1;
      }
    }
    if found { ContainsOrders(table, pos, b); }
    r := if found then Some(b) else None;
  }

  datatype Table = Table(asid: Word, functions: seq<Symbol>, objects: seq<Symbol>)

  ghost predicate TableOk(t: Table) {
    Sorted(t.functions) && Sorted(t.objects)
  }

  /** Functions first, then objects. */
  function Probe(t: Table, asid: Word, addr: Word): Option<Symbol> {
    if asid != t.asid then None
    else
      match Scan(t.functions, addr)
      case Some(i) => Some(t.functions[i])
      case None =>
        match Scan(t.objects, addr)
        case Some(i) => Some(t.objects[i])
        case None => None
  }

  /** The bytes of a symbol, if its end does not pass the end of memory. */
  predicate In(s: Symbol, pos: Word) {
    s.start <= pos < (s.start + s.size) % 0x1_0000_0000
  }

  /** A probe in the table's own address space finds a function that has the address,
      or, if no function has it, an object that has it, and nothing only if there is
      neither. */
  lemma ProbeIs(t: Table, asid: Word, addr: Word)
    ensures var r := Probe(t, asid, addr);
            && (r.Some? ==> asid == t.asid && In(r.value, addr))
            && (r.Some? ==>
                  r.value in t.functions || (r.value in t.objects && forall f :: f in t.functions ==> !In(f, addr)))
            && (r.None? && asid == t.asid ==> forall f :: f in t.functions || f in t.objects ==> !In(f, addr))
  {
    forall f: Symbol ensures Contains(f, addr) == 0 <==> In(f, addr) {
    }
    hide Contains, In;
  }

  method ProbeTable(t: Table, asid: Word, addr: Word) returns (r: Option<Symbol>)
    requires TableOk(t)
    ensures r == Probe(t, asid, addr)
  {
    if asid != t.asid { return None; }
    var i := Search(t.functions, addr);
    if i.Some? { return Some(t.functions[i.value]); }
    i := Search(t.objects, addr);
    if i.Some? { return Some(t.objects[i.value]); }
    r := None;
  }

  function Named(symbols: seq<Symbol>, name: string, kind: Kind): (r: seq<Symbol>)
    ensures forall s :: s in r <==> s in symbols && s.name == name && s.kind == kind
  {
    if symbols == [] then []
    else
      var n := |symbols| - 1;
      Named(symbols[..n], name, kind) + if symbols[n].name == name && symbols[n].kind == kind then [symbols[n]] else []
  }

  /** All symbols of a name and kind. */
  function Lookup(t: Table, name: string, kind: Kind): seq<Symbol> {
    Named(t.functions + t.objects, name, kind)
  }

  /** Function symbols recorded with no size to speak of are stretched to the next
      symbol when a table is built. */
  function Backpatched(table: seq<Symbol>): (r: seq<Symbol>)
    ensures |r| == |table|
  {
    seq(|table|, i requires 0 <= i < |table| =>
      if i + 1 < |table| && table[i].size == WORD_BYTES then
        table[i].(size := (table[i + 1].start + WORD_SIZE - table[i].start) % WORD_SIZE)
      else table[i])
  }

  /** Stretching keeps a table sorted, and every position found stays found in the
      same symbol. */
  lemma BackpatchKeeps(table: seq<Symbol>, pos: Word)
    requires Sorted(table)
    ensures Sorted(Backpatched(table))
    ensures Scan(table, pos).Some? ==> Scan(Backpatched(table), pos) == Scan(table, pos)
  {
    hide Contains;
    BackpatchSorted(table);
    var r := Scan(table, pos);
    if r.Some? {
      StretchKeeps(table, pos, r.value);
      ContainsOrders(Backpatched(table), pos, r.value);
    }
  }

  /** A symbol of one word gets all the room up to the next symbol; no other changes. */
  lemma BackpatchFills(table: seq<Symbol>, pos: Word, i: nat)
    requires Sorted(table) && i < |table|
    ensures var s, r := table[i], Backpatched(table);
            if i + 1 < |table| && s.size == 4
            then (s.start <= pos < table[i + 1].start ==> Scan(r, pos) == Some(i)) && r[i] == s.(size := r[i].size)
            else r[i] == s
  {
    var s, r := table[i], Backpatched(table);
    if i + 1 < |table| && s.size == 4 && s.start <= pos < table[i + 1].start {
      assert s.start + s.size <= table[i + 1].start;
      assert Contains(r[i], pos) == 0;
      BackpatchSorted(table);
      ContainsOrders(r, pos, i);
    }
  }

  lemma BackpatchSorted(table: seq<Symbol>)
    requires Sorted(table)
    ensures Sorted(Backpatched(table))
  {
    var t := Backpatched(table);
    forall i | 0 <= i < |t| - 1 ensures t[i].start + t[i].size <= t[i + 1].start {
      assert table[i].start + table[i].size <= table[i + 1].start;
    }
    SortedByNeighbours(t);
  }

  lemma StretchKeeps(table: seq<Symbol>, pos: Word, i: nat)
    requires Sorted(table) && i < |table| && Contains(table[i], pos) == 0
    ensures Contains(Backpatched(table)[i], pos) == 0
  {
    if i + 1 < |table| { assert table[i].start + table[i].size <= table[i + 1].start; }
  }

  lemma {:induction false} SortedByNeighbours(t: seq<Symbol>)
    requires forall i :: 0 <= i < |t| - 1 ==> t[i].start + t[i].size <= t[i + 1].start
    ensures Sorted(t)
  {
    if t != [] {
      var n := |t| - 1;
      SortedByNeighbours(t[..n]);
      forall i | 0 <= i < n ensures t[i].start + t[i].size <= t[n].start {
        if i < n - 1 { assert t[..n][i].start + t[..n][i].size <= t[..n][n - 1].start; }
      }
    }
  }
}
