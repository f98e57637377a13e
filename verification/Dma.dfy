/** Block transfers between a device buffer and memory, word by word, stopping at
    the first address that does not answer. */
module Dma {
  import opened Words

  const BLOCKSIZE := 1024
  const MAXWORD: Word := 0xFFFF_FFFF

  /** Memory as the bus sees it: which word addresses answer a read, with what,
      and which of them accept a write.  Device registers are not targets. */
  datatype Memory = Memory(cells: map<Word, Word>, writable: set<Word>)

  type Block = b: seq<Word> | |b| == BLOCKSIZE witness seq(BLOCKSIZE, _ => 0)

  function Address(start: Word, ofs: nat): Word {
    (start + 4 * ofs) % WORD_SIZE
  }

  /** Memory to buffer, from word `ofs` on; an address that does not answer
      leaves all ones in its word and ends the transfer. */
  function FetchFrom(m: Memory, start: Word, buf: Block, ofs: nat): (Block, bool)
    requires ofs <= BLOCKSIZE
    decreases BLOCKSIZE - ofs
  {
    if ofs == BLOCKSIZE then (buf, false)
    else if Address(start, ofs) in m.cells then
      FetchFrom(m, start, buf[ofs := m.cells[Address(start, ofs)]], ofs + 1)
    else (buf[ofs := MAXWORD], true)
  }

  /** Buffer to memory; words before the failing one have been stored. */
  function StoreFrom(m: Memory, start: Word, buf: Block, ofs: nat): (Memory, bool)
    requires ofs <= BLOCKSIZE
    decreases BLOCKSIZE - ofs
  {
    if ofs == BLOCKSIZE then (m, false)
    else if Address(start, ofs) in m.writable then
      StoreFrom(m.(cells := m.cells[Address(start, ofs) := buf[ofs]]), start, buf, ofs + 1)
    else (m, true)
  }

  function Fetch(m: Memory, start: Word, buf: Block): (Block, bool) {
    if start % 4 != 0 then (buf, true) else FetchFrom(m, start, buf, 0)
  }

  function Store(m: Memory, start: Word, buf: Block): (Memory, bool) {
    if start % 4 != 0 then (m, true) else StoreFrom(m, start, buf, 0)
  }

  /** The 1024 words of memory from `start` on. */
  ghost predicate Readable(m: Memory, start: Word) {
    start % 4 == 0 && forall i :: 0 <= i < BLOCKSIZE ==> Address(start, i) in m.cells
  }

  lemma {:induction false} FetchFromIs(m: Memory, start: Word, buf: Block, ofs: nat)
    requires ofs <= BLOCKSIZE
    ensures var (r, error) := FetchFrom(m, start, buf, ofs);
            && (error <==> exists i :: ofs <= i < BLOCKSIZE && Address(start, i) !in m.cells)
            && r[..ofs] == buf[..ofs]
            && (!error ==> forall i :: ofs <= i < BLOCKSIZE ==> r[i] == m.cells[Address(start, i)])
    decreases BLOCKSIZE - ofs
  {
    hide Address;
    if ofs < BLOCKSIZE && Address(start, ofs) in m.cells {
      var buf' := buf[ofs := m.cells[Address(start, ofs)]];
      FetchFromIs(m, start, buf', ofs + 1);
      var r := FetchFrom(m, start, buf', ofs + 1).0;
      assert r[ofs] == r[..ofs + 1][ofs] == buf'[..ofs + 1][ofs];
      assert r[..ofs] == r[..ofs + 1][..ofs] == buf'[..ofs + 1][..ofs] == buf[..ofs];
    }
  }

  /** A fetch succeeds exactly when the whole block answers, and then what the
      buffer held before no longer matters. */
  lemma FetchIs(m: Memory, start: Word, buf: Block, other: Block)
    ensures Fetch(m, start, buf).1 <==> !Readable(m, start)
    ensures Readable(m, start) ==> Fetch(m, start, buf).0 == Fetch(m, start, other).0
    ensures Readable(m, start) ==>
              forall i :: 0 <= i < BLOCKSIZE ==> Fetch(m, start, buf).0[i] == m.cells[Address(start, i)]
  {
    hide FetchFrom, Address;
    FetchFromIs(m, start, buf, 0);
    FetchFromIs(m, start, other, 0);
  }

  /** The first word of the block that does not answer. */
  ghost predicate StopsAt(m: Memory, start: Word, k: nat) {
    k < BLOCKSIZE && Address(start, k) !in m.cells && forall i :: 0 <= i < k ==> Address(start, i) in m.cells
  }

  lemma {:induction false} FetchFromStops(m: Memory, start: Word, buf: Block, ofs: nat, k: nat)
    requires ofs <= k && StopsAt(m, start, k)
    ensures var (r, error) := FetchFrom(m, start, buf, ofs);
            error && forall i :: 0 <= i < BLOCKSIZE ==>
              r[i] == if i < ofs || k < i then buf[i] else if i == k then MAXWORD else m.cells[Address(start, i)]
    decreases k - ofs
  {
    hide Address;
    if ofs < k {
      FetchFromStops(m, start, buf[ofs := m.cells[Address(start, ofs)]], ofs + 1, k);
    }
  }

  /** What a fetch that fails leaves behind: memory up to the first word that does
      not answer, all ones there, and beyond it what the buffer held before; a
      misaligned fetch leaves the buffer as it was. */
  lemma FetchStops(m: Memory, start: Word, buf: Block, k: nat)
    requires start % 4 == 0 ==> StopsAt(m, start, k)
    ensures var (r, error) := Fetch(m, start, buf);
            && error
            && (start % 4 != 0 ==> r == buf)
            && (start % 4 == 0 ==> forall i :: 0 <= i < BLOCKSIZE ==>
                 r[i] == if i < k then m.cells[Address(start, i)] else if i == k then MAXWORD else buf[i])
  {
    hide Address, FetchFrom;
    if start % 4 == 0 {
      FetchFromStops(m, start, buf, 0, k);
    }
  }

  /** The words of a block are a word apart, round the end of memory, and none of
      them coincide. */
  lemma AddressesApart(start: Word, i: nat, j: nat)
    requires i < j < BLOCKSIZE
    ensures Address(start, 0) == start
    ensures Address(start, i + 1) == if Address(start, i) < WORD_SIZE - 4 then Address(start, i) + 4
                                     else Address(start, i) + 4 - WORD_SIZE
    ensures Address(start, i) != Address(start, j)
  {
  }

  /** Words `from` up to `to` of the block are in memory, and all else is as it was. */
  ghost predicate Stored(m: Memory, m': Memory, start: Word, buf: Block, from: nat, to: nat) {
    && m'.writable == m.writable
    && (forall i :: from <= i < to && i < BLOCKSIZE ==>
          Address(start, i) in m'.cells && m'.cells[Address(start, i)] == buf[i])
    && (forall a: Word :: (forall i :: from <= i < to ==> a != Address(start, i)) ==>
          (a in m'.cells <==> a in m.cells) && (a in m.cells ==> m'.cells[a] == m.cells[a]))
  }

  ghost predicate Writable(m: Memory, start: Word) {
    start % 4 == 0 && forall i :: 0 <= i < BLOCKSIZE ==> Address(start, i) in m.writable
  }

  /** The first word from `ofs` on that memory refuses. */
  ghost predicate RefusesAt(m: Memory, start: Word, ofs: nat, k: nat) {
    && ofs <= k <= BLOCKSIZE && (k < BLOCKSIZE ==> Address(start, k) !in m.writable)
    && forall i :: ofs <= i < k ==> Address(start, i) in m.writable
  }

  lemma {:induction false} StoreFromIs(m: Memory, start: Word, buf: Block, ofs: nat, k: nat)
    requires RefusesAt(m, start, ofs, k)
    ensures var (m', error) := StoreFrom(m, start, buf, ofs);
            (error <==> k < BLOCKSIZE) && Stored(m, m', start, buf, ofs, k)
    decreases k - ofs
  {
    hide Address;
    if ofs < k {
      var m1 := m.(cells := m.cells[Address(start, ofs) := buf[ofs]]);
      StoreFromIs(m1, start, buf, ofs + 1, k);
      var m' := StoreFrom(m1, start, buf, ofs + 1).0;
      forall i | ofs < i < k ensures Address(start, ofs) != Address(start, i) {
        AddressesApart(start, ofs, i);
      }
      assert m'.cells[Address(start, ofs)] == buf[ofs];
    }
  }

  lemma {:induction false} FirstRefused(m: Memory, start: Word, ofs: nat) returns (k: nat)
    requires ofs <= BLOCKSIZE
    ensures RefusesAt(m, start, ofs, k)
    decreases BLOCKSIZE - ofs
  {
    if ofs == BLOCKSIZE || Address(start, ofs) !in m.writable {
      k := ofs;
    } else {
      k := FirstRefused(m, start, ofs + 1);
    }
  }

  /** A store succeeds exactly when it is aligned and memory accepts every word; then
      the block is in memory, word for word.  Otherwise the words before the first
      refused one are, and of a misaligned one none.  Nothing else changes. */
  lemma StoreIs(m: Memory, start: Word, buf: Block)
    ensures var (m', error) := Store(m, start, buf);
            && (!error <==> Writable(m, start))
            && (!error ==> Stored(m, m', start, buf, 0, BLOCKSIZE))
            && (start % 4 != 0 ==> m' == m)
            && forall k :: start % 4 == 0 && RefusesAt(m, start, 0, k) ==> Stored(m, m', start, buf, 0, k)
  {
    hide Address, StoreFrom, Stored;
    if start % 4 == 0 {
      var k := FirstRefused(m, start, 0);
      StoreFromIs(m, start, buf, 0, k);
      forall l | RefusesAt(m, start, 0, l) ensures l == k {
        assert l < k ==> Address(start, l) in m.writable;
        assert k < l ==> Address(start, k) in m.writable;
      }
    }
  }

  class Bus {
    var memory: Memory

    constructor (m: Memory)
      ensures memory == m
    {
      memory := m;
    }

    method DmaFetch(block: array<Word>, start: Word) returns (error: bool)
      requires block.Length == BLOCKSIZE
      modifies block
      ensures (block[..], error) == Fetch(memory, start, old(block[..]))
    {
      if start % 4 != 0 {
        return true;
      }
      error := false;
      var ofs := 0;
      ghost var goal := FetchFrom(memory, start, block[..], 0);
      while ofs < BLOCKSIZE && !error
        invariant 0 <= ofs <= BLOCKSIZE
        invariant if error then (block[..], true) == goal else FetchFrom(memory, start, block[..], ofs) == goal
      {
        var a := Address(start, ofs);
        ghost var was := block[..];
        error := a !in memory.cells;
        block[ofs] := if error then MAXWORD else memory.cells[a];
        assert block[..] == was[ofs := block[ofs]];
        ofs := ofs + 1;
      }
    }

    method DmaStore(block: array<Word>, start: Word) returns (error: bool)
      requires block.Length == BLOCKSIZE
      modifies this
      ensures (memory, error) == Store(old(memory), start, block[..])
    {
      if start % 4 != 0 {
        return true;
      }
      error := false;
      var ofs := 0;
      ghost var goal := StoreFrom(memory, start, block[..], 0);
      while ofs < BLOCKSIZE && !error
        invariant 0 <= ofs <= BLOCKSIZE
        invariant if error then (memory, true) == goal else StoreFrom(memory, start, block[..], ofs) == goal
      {
        var a := Address(start, ofs);
        error := a !in memory.writable;
        if !error {
          memory := memory.(cells := memory.cells[a := block[ofs]]);
        }
        ofs := ofs + 1;
      }
    }
  }
}
