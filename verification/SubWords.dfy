/** Loads and stores of bytes, halfwords and words over a memory of words, against a
    flat little-endian memory of bytes. */
module SubWords {
  import opened Words

  /** A word shifted right by `p` bytes. */
  function Down(w: Word, p: nat): Word
    requires p < 4
  {
    if p == 0 then w else Down(w / 0x100, p - 1)
  }

  /** A number shifted left by `p` bytes. */
  function Up(v: nat, p: nat): nat
    requires p < 4
  {
    if p == 0 then v else if p == 1 then v * 0x100 else if p == 2 then v * 0x1_0000 else v * 0x100_0000
  }

  function ByteOf(w: Word, p: nat): (b: nat)
    requires p < 4
    ensures b < 256
  {
    Down(w, p) % 256
  }

  function Pack(b0: nat, b1: nat, b2: nat, b3: nat): Word
    requires b0 < 256 && b1 < 256 && b2 < 256 && b3 < 256
  {
    b0 + 0x100 * b1 + 0x1_0000 * b2 + 0x100_0000 * b3
  }

  // ---------------------------------------------------------------- the processor's helpers

  /** The shifted word with its upper bits all set to bit 7. */
  function SignExtByte(val: Word, bytep: nat): Word
    requires bytep < 4
  {
    var v := Down(val, bytep);
    if v / 0x80 % 2 == 1 then 0xFFFF_FF80 + v % 0x80 else v % 0x80
  }

  function ZExtByte(val: Word, bytep: nat): Word
    requires bytep < 4
  {
    Down(val, bytep) % 0x100
  }

  /** Clears the byte in place and puts the new one there. */
  function MergeByte(dest: Word, src: Word, bytep: nat): (r: Word)
    requires bytep < 4
    ensures ByteOf(r, 0) == ByteOf(if bytep == 0 then src else dest, 0)
    ensures ByteOf(r, 1) == if bytep == 1 then ByteOf(src, 0) else ByteOf(dest, 1)
    ensures ByteOf(r, 2) == if bytep == 2 then ByteOf(src, 0) else ByteOf(dest, 2)
    ensures ByteOf(r, 3) == if bytep == 3 then ByteOf(src, 0) else ByteOf(dest, 3)
  {
    MergedByte(dest, src % 0x100, bytep);
    dest - Up(ByteOf(dest, bytep), bytep) + Up(src % 0x100, bytep)
  }

  /** The code's sign extension of a halfword returns the word as it is. */
  function SignExtHWord(val: Word, hwp: nat): Word
    requires hwp < 2
  {
    val
  }

  function ZExtHWord(val: Word, hwp: nat): Word
    requires hwp < 2
  {
    Down(val, 2 * hwp) % 0x1_0000
  }

  function MergeHWord(dest: Word, src: Word, hwp: nat): (r: Word)
    requires hwp < 2
    ensures ByteOf(r, 0) == ByteOf(if hwp == 0 then src else dest, 0)
    ensures ByteOf(r, 1) == ByteOf(if hwp == 0 then src else dest, 1)
    ensures ByteOf(r, 2) == if hwp == 0 then ByteOf(dest, 2) else ByteOf(src, 0)
    ensures ByteOf(r, 3) == if hwp == 0 then ByteOf(dest, 3) else ByteOf(src, 1)
  {
    MergedHWord(dest, src, hwp);
    dest - Up(ZExtHWord(dest, hwp), 2 * hwp) + Up(src % 0x1_0000, 2 * hwp)
  }

  lemma LowByte(low: nat, high: nat)
    requires low < 0x100
    ensures (low + 0x100 * high) / 0x100 == high && (low + 0x100 * high) % 0x100 == low
  {
  }

  lemma Unpack(b0: nat, b1: nat, b2: nat, b3: nat)
    requires b0 < 256 && b1 < 256 && b2 < 256 && b3 < 256
    ensures var w := Pack(b0, b1, b2, b3);
            ByteOf(w, 0) == b0 && ByteOf(w, 1) == b1 && ByteOf(w, 2) == b2 && ByteOf(w, 3) == b3
  {
    var w3 := b3;
    var w2 := b2 + 0x100 * w3;
    var w1 := b1 + 0x100 * w2;
    var w := b0 + 0x100 * w1;
    LowByte(b0, w1);
    LowByte(b1, w2);
    LowByte(b2, w3);
    assert w == Pack(b0, b1, b2, b3);
    assert Down(w, 1) == w1;
    assert Down(w, 2) == Down(w1, 1) == w2;
    assert Down(w, 3) == Down(w1, 2) == Down(w2, 1) == w3;
  }

  lemma Packed(w: Word)
    ensures w == Pack(ByteOf(w, 0), ByteOf(w, 1), ByteOf(w, 2), ByteOf(w, 3))
  {
    var w1 := w / 0x100;
    var w2 := w1 / 0x100;
    var w3 := w2 / 0x100;
    assert Down(w, 1) == Down(w1, 0) == w1;
    assert Down(w, 2) == Down(w1, 1) == Down(w2, 0) == w2;
    assert Down(w, 3) == Down(w1, 2) == Down(w2, 1) == Down(w3, 0) == w3;
    assert w3 < 0x100 && ByteOf(w, 3) == w3;
    hide Down;
    assert w == ByteOf(w, 0) + 0x100 * w1 && w1 == ByteOf(w, 1) + 0x100 * w2 && w2 == ByteOf(w, 2) + 0x100 * w3;
  }

  lemma MergedByte(dest: Word, b: nat, p: nat)
    requires p < 4 && b < 0x100
    ensures var r := dest - Up(ByteOf(dest, p), p) + Up(b, p);
            && 0 <= r < WORD_SIZE
            && ByteOf(r, 0) == (if p == 0 then b else ByteOf(dest, 0))
            && ByteOf(r, 1) == (if p == 1 then b else ByteOf(dest, 1))
            && ByteOf(r, 2) == (if p == 2 then b else ByteOf(dest, 2))
            && ByteOf(r, 3) == (if p == 3 then b else ByteOf(dest, 3))
  {
    hide ByteOf;
    Packed(dest);
    var b0, b1, b2, b3 := ByteOf(dest, 0), ByteOf(dest, 1), ByteOf(dest, 2), ByteOf(dest, 3);
    if p == 0 {
      Unpack(b, b1, b2, b3);
    } else if p == 1 {
      Unpack(b0, b, b2, b3);
    } else if p == 2 {
      Unpack(b0, b1, b, b3);
    } else {
      Unpack(b0, b1, b2, b);
    }
  }

  lemma LowHalf(low: nat, high: nat)
    requires low < 0x1_0000
    ensures (low + 0x1_0000 * high) % 0x1_0000 == low
  {
  }

  lemma Halves(w: Word)
    ensures ZExtHWord(w, 0) == ByteOf(w, 0) + 0x100 * ByteOf(w, 1) == w % 0x1_0000
    ensures ZExtHWord(w, 1) == ByteOf(w, 2) + 0x100 * ByteOf(w, 3)
  {
    Packed(w);
    var b0, b1, b2, b3 := ByteOf(w, 0), ByteOf(w, 1), ByteOf(w, 2), ByteOf(w, 3);
    var w2 := b2 + 0x100 * b3;
    var w1 := b1 + 0x100 * w2;
    LowByte(b0, w1);
    LowByte(b1, w2);
    assert Down(w, 1) == w1 && Down(w, 2) == Down(w1, 1) == w2;
    LowHalf(b0 + 0x100 * b1, w2);
    LowHalf(w2, 0);
  }

  lemma MergedHWord(dest: Word, src: Word, h: nat)
    requires h < 2
    ensures var r := dest - Up(ZExtHWord(dest, h), 2 * h) + Up(src % 0x1_0000, 2 * h);
            && 0 <= r < WORD_SIZE
            && ByteOf(r, 0) == ByteOf(if h == 0 then src else dest, 0)
            && ByteOf(r, 1) == ByteOf(if h == 0 then src else dest, 1)
            && ByteOf(r, 2) == (if h == 0 then ByteOf(dest, 2) else ByteOf(src, 0))
            && ByteOf(r, 3) == (if h == 0 then ByteOf(dest, 3) else ByteOf(src, 1))
  {
    hide ByteOf, ZExtHWord;
    Packed(dest);
    Halves(dest);
    Halves(src);
    if h == 0 {
      Unpack(ByteOf(src, 0), ByteOf(src, 1), ByteOf(dest, 2), ByteOf(dest, 3));
    } else {
      Unpack(ByteOf(dest, 0), ByteOf(dest, 1), ByteOf(src, 0), ByteOf(src, 1));
    }
  }

  // ---------------------------------------------------------------- the flat memory

  /** A memory of words seen as bytes, lowest byte first. */
  function Flat(mem: seq<Word>): (bytes: seq<nat>)
    ensures |bytes| == 4 * |mem|
  {
    seq(4 * |mem|, a requires 0 <= a < 4 * |mem| => ByteOf(mem[a / 4], a % 4))
  }

  /** A value of `bits` bits as a 32-bit word in two's complement. */
  function SignExtend(v: nat, size: nat): Word
    requires v < size && size <= 0x1_0000
  {
    if v < size / 2 then v else WORD_SIZE - size + v
  }

  datatype Store = SB(addr: nat, value: Word) | SH(addr: nat, value: Word) | SW(addr: nat, value: Word)

  /** In range, and a word at a word's address: what reaches the memory. */
  predicate Fits(s: Store, size: nat) {
    match s
    case SB(a, _) => a < size
    case SH(a, _) => a / 2 * 2 + 1 < size
    case SW(a, _) => a % 4 == 0 && a + 3 < size
  }

  /** In a whole number of words no byte in range has its half or word cut off. */
  lemma FitsIff(a: nat, v: Word, words: nat)
    ensures Fits(SH(a, v), 4 * words) <==> a < 4 * words
    ensures Fits(SW(a, v), 4 * words) <==> a < 4 * words && a % 4 == 0
  {
    HalfFits(a / 2, a % 2, words);
    if a % 4 == 0 { WordFits(a / 4, words); }
  }

  lemma HalfFits(half: nat, rest: nat, words: nat)
    requires rest < 2
    ensures 2 * half + 1 < 4 * words <==> 2 * half + rest < 4 * words
  {
  }

  lemma WordFits(word: nat, words: nat)
    ensures 4 * word + 3 < 4 * words <==> 4 * word < 4 * words
  {
  }

  /** One store as the processor does it: read the word, merge, write it back. */
  function Stored(mem: seq<Word>, s: Store): (r: seq<Word>)
    requires Fits(s, 4 * |mem|)
    ensures |r| == |mem|
  {
    var i := s.addr / 4;
    match s
    case SB(a, v) => mem[i := MergeByte(mem[i], v, a % 4)]
    case SH(a, v) => mem[i := MergeHWord(mem[i], v, a % 4 / 2)]
    case SW(a, v) => mem[i := v]
  }

  /** The same store on the flat memory; an odd halfword address loses its last
      bit. */
  function FlatStored(bytes: seq<nat>, s: Store): (r: seq<nat>)
    requires Fits(s, |bytes|)
    ensures |r| == |bytes|
  {
    match s
    case SB(a, v) => bytes[a := ByteOf(v, 0)]
    case SH(a, v) => bytes[a / 2 * 2 := ByteOf(v, 0)][a / 2 * 2 + 1 := ByteOf(v, 1)]
    case SW(a, v) => bytes[a := ByteOf(v, 0)][a + 1 := ByteOf(v, 1)][a + 2 := ByteOf(v, 2)][a + 3 := ByteOf(v, 3)]
  }

  /** Writing a word writes its four bytes. */
  lemma FlatUpdate(mem: seq<Word>, i: nat, w: Word)
    requires i < |mem|
    ensures Flat(mem[i := w]) ==
            Flat(mem)[4 * i := ByteOf(w, 0)][4 * i + 1 := ByteOf(w, 1)]
                     [4 * i + 2 := ByteOf(w, 2)][4 * i + 3 := ByteOf(w, 3)]
  {
    hide ByteOf;
    var f := Flat(mem[i := w]);
    forall a | 0 <= a < |f| && a / 4 == i ensures f[a] == ByteOf(w, a - 4 * i) {
      assert a % 4 == a - 4 * i;
    }
    forall a | 0 <= a < |f| && a / 4 != i ensures f[a] == Flat(mem)[a] {
    }
  }

  /** A store changes exactly its bytes. */
  lemma StoreRefines(mem: seq<Word>, s: Store)
    requires Fits(s, 4 * |mem|)
    ensures Flat(Stored(mem, s)) == FlatStored(Flat(mem), s)
  {
    hide Flat, FlatStored, Stored, ByteOf;
    match s
    case SB(a, v) => ByteStores(mem, a, v);
    case SH(a, v) => HalfStores(mem, a, v);
    case SW(a, v) => WordStores(mem, a, v);
  }

  lemma FlatAt(mem: seq<Word>, i: nat)
    requires i < |mem|
    ensures forall q :: 0 <= q < 4 ==> Flat(mem)[4 * i + q] == ByteOf(mem[i], q)
  {
    hide ByteOf;
    forall q | 0 <= q < 4 ensures Flat(mem)[4 * i + q] == ByteOf(mem[i], q) {
      assert (4 * i + q) / 4 == i && (4 * i + q) % 4 == q;
    }
  }

  lemma ByteStores(mem: seq<Word>, a: nat, v: Word)
    requires a < 4 * |mem|
    ensures Flat(Stored(mem, SB(a, v))) == FlatStored(Flat(mem), SB(a, v))
  {
    hide ByteOf, Flat;
    var i, p := a / 4, a % 4;
    var w := MergeByte(mem[i], v, p);
    hide MergeByte;
    FlatUpdate(mem, i, w);
    FlatAt(mem, i);
    var f := Flat(mem);
    assert f[4 * i + 0] == ByteOf(mem[i], 0) && f[4 * i + 1] == ByteOf(mem[i], 1);
    assert f[4 * i + 2] == ByteOf(mem[i], 2) && f[4 * i + 3] == ByteOf(mem[i], 3);
    assert a == 4 * i + p;
  }

  lemma HalfStores(mem: seq<Word>, a: nat, v: Word)
    requires Fits(SH(a, v), 4 * |mem|)
    ensures Flat(Stored(mem, SH(a, v))) == FlatStored(Flat(mem), SH(a, v))
  {
    hide ByteOf, Flat, MergeHWord;
    var i, h := HalfAddress(a);
    if h == 0 {
      LowHalfStores(mem, i, v);
    } else {
      HighHalfStores(mem, i, v);
    }
  }

  /** Word and half an address falls in; its last bit is lost. */
  lemma HalfAddress(a: nat) returns (i: nat, h: nat)
    ensures i == a / 4 && h == a % 4 / 2 && (h == 0 || h == 1) && a / 2 * 2 == 4 * i + 2 * h
  {
    i, h := a / 4, a % 4 / 2;
    var r := a % 4;
    assert a == 4 * i + r;
    assert a / 2 == 2 * i + r / 2;
  }

  lemma LowHalfStores(mem: seq<Word>, i: nat, v: Word)
    requires i < |mem|
    ensures Flat(mem[i := MergeHWord(mem[i], v, 0)]) == Flat(mem)[4 * i := ByteOf(v, 0)][4 * i + 1 := ByteOf(v, 1)]
  {
    hide ByteOf, Flat;
    var w := MergeHWord(mem[i], v, 0);
    hide MergeHWord;
    FlatUpdate(mem, i, w);
    FlatAt(mem, i);
    assert Flat(mem)[4 * i + 2] == ByteOf(mem[i], 2) && Flat(mem)[4 * i + 3] == ByteOf(mem[i], 3);
  }

  lemma HighHalfStores(mem: seq<Word>, i: nat, v: Word)
    requires i < |mem|
    ensures Flat(mem[i := MergeHWord(mem[i], v, 1)]) == Flat(mem)[4 * i + 2 := ByteOf(v, 0)][4 * i + 3 := ByteOf(v, 1)]
  {
    hide ByteOf, Flat;
    var w := MergeHWord(mem[i], v, 1);
    hide MergeHWord;
    FlatUpdate(mem, i, w);
    FlatAt(mem, i);
    assert Flat(mem)[4 * i + 0] == ByteOf(mem[i], 0) && Flat(mem)[4 * i + 1] == ByteOf(mem[i], 1);
  }

  lemma WordStores(mem: seq<Word>, a: nat, v: Word)
    requires Fits(SW(a, v), 4 * |mem|)
    ensures Flat(Stored(mem, SW(a, v))) == FlatStored(Flat(mem), SW(a, v))
  {
    hide ByteOf, Flat;
    FlatUpdate(mem, a / 4, v);
  }

  lemma {:induction false} RunRefines(mem: seq<Word>, stores: seq<Store>)
    requires forall s :: s in stores ==> Fits(s, 4 * |mem|)
    ensures Flat(StoreAll(mem, stores)) == FlatStoreAll(Flat(mem), stores)
    decreases |stores|
  {
    if stores != [] {
      StoreRefines(mem, stores[0]);
      RunRefines(Stored(mem, stores[0]), stores[1..]);
    }
  }

  function StoreAll(mem: seq<Word>, stores: seq<Store>): (r: seq<Word>)
    requires forall s :: s in stores ==> Fits(s, 4 * |mem|)
    ensures |r| == |mem|
    decreases |stores|
  {
    if stores == [] then mem else StoreAll(Stored(mem, stores[0]), stores[1..])
  }

  function FlatStoreAll(bytes: seq<nat>, stores: seq<Store>): (r: seq<nat>)
    requires forall s :: s in stores ==> Fits(s, |bytes|)
    ensures |r| == |bytes|
    decreases |stores|
  {
    if stores == [] then bytes else FlatStoreAll(FlatStored(bytes, stores[0]), stores[1..])
  }

  // ---------------------------------------------------------------- loads

  function LoadByte(mem: seq<Word>, a: nat): Word
    requires a < 4 * |mem|
  {
    SignExtByte(mem[a / 4], a % 4)
  }

  function LoadByteUnsigned(mem: seq<Word>, a: nat): Word
    requires a < 4 * |mem|
  {
    ZExtByte(mem[a / 4], a % 4)
  }

  function LoadHalf(mem: seq<Word>, a: nat): Word
    requires a < 4 * |mem|
  {
    SignExtHWord(mem[a / 4], a % 4 / 2)
  }

  function LoadHalfUnsigned(mem: seq<Word>, a: nat): Word
    requires a < 4 * |mem|
  {
    ZExtHWord(mem[a / 4], a % 4 / 2)
  }

  function LoadWord(mem: seq<Word>, a: nat): Word
    requires a < 4 * |mem| && a % 4 == 0
  {
    mem[a / 4]
  }

  lemma SignExtByteIs(val: Word, p: nat)
    requires p < 4
    ensures SignExtByte(val, p) == SignExtend(ByteOf(val, p), 256)
  {
    var v := Down(val, p);
    assert v % 256 == v % 0x80 + 0x80 * (v / 0x80 % 2);
  }

  /** Byte loads return the byte at their address, extended as they should. */
  lemma ByteLoads(mem: seq<Word>, a: nat)
    requires a < 4 * |mem|
    ensures LoadByteUnsigned(mem, a) == Flat(mem)[a]
    ensures LoadByte(mem, a) == SignExtend(Flat(mem)[a], 256)
  {
    SignExtByteIs(mem[a / 4], a % 4);
  }

  /** A halfword load returns its two bytes, lowest first. */
  lemma HalfLoads(mem: seq<Word>, a: nat)
    requires a < 4 * |mem|
    ensures var e := a / 2 * 2;
            e + 1 < 4 * |mem| && LoadHalfUnsigned(mem, a) == Flat(mem)[e] + 0x100 * Flat(mem)[e + 1]
  {
    hide ByteOf, ZExtHWord;
    var i, h := HalfAddress(a);
    Halves(mem[i]);
    FlatAt(mem, i);
    assert Flat(mem)[4 * i + 0] == ByteOf(mem[i], 0) && Flat(mem)[4 * i + 1] == ByteOf(mem[i], 1);
    assert Flat(mem)[4 * i + 2] == ByteOf(mem[i], 2) && Flat(mem)[4 * i + 3] == ByteOf(mem[i], 3);
  }

  /** A word load returns its four bytes, lowest first. */
  lemma WordLoads(mem: seq<Word>, a: nat)
    requires a < 4 * |mem| && a % 4 == 0
    ensures LoadWord(mem, a) == Pack(Flat(mem)[a], Flat(mem)[a + 1], Flat(mem)[a + 2], Flat(mem)[a + 3])
  {
    hide ByteOf;
    Packed(mem[a / 4]);
    FlatAt(mem, a / 4);
    assert Flat(mem)[4 * (a / 4) + 0] == ByteOf(mem[a / 4], 0) && Flat(mem)[4 * (a / 4) + 1] == ByteOf(mem[a / 4], 1);
    assert Flat(mem)[4 * (a / 4) + 2] == ByteOf(mem[a / 4], 2) && Flat(mem)[4 * (a / 4) + 3] == ByteOf(mem[a / 4], 3);
  }

  /** The signed halfword load is right exactly when the rest of the word already
      extends the halfword: in the low half, when the high half repeats its sign;
      in the high half, when the whole word is 0 or all ones. */
  lemma HalfLoadIff(mem: seq<Word>, a: nat)
    requires a < 4 * |mem|
    ensures var w := mem[a / 4];
            LoadHalf(mem, a) == SignExtend(LoadHalfUnsigned(mem, a), 0x1_0000) <==>
            if a % 4 < 2 then w < 0x8000 || w >= 0xFFFF_8000 else w == 0 || w == 0xFFFF_FFFF
  {
    hide ByteOf, ZExtHWord;
    var w := mem[a / 4];
    Packed(w);
    Halves(w);
    var l, u := ByteOf(w, 0) + 0x100 * ByteOf(w, 1), ByteOf(w, 2) + 0x100 * ByteOf(w, 3);
    assert w == l + 0x1_0000 * u;
    assert a % 4 / 2 == if a % 4 < 2 then 0 else 1;
  }

  // ---------------------------------------------------------------- the stores as they run

  class Ram {
    const ram: array<Word>

    constructor (size: nat)
      ensures fresh(ram) && ram.Length == size
    {
      ram := new Word[size];
    }

    method StoreByte(addr: nat, value: Word)
      requires addr < 4 * ram.Length
      modifies ram
      ensures Flat(ram[..]) == FlatStored(old(Flat(ram[..])), SB(addr, value))
    {
      ghost var was := ram[..];
      var word := ram[addr / 4];
      word := MergeByte(word, value, addr % 4);
      ram[addr / 4] := word;
      assert ram[..] == Stored(was, SB(addr, value));
      StoreRefines(was, SB(addr, value));
    }

    method StoreHalf(addr: nat, value: Word)
      requires Fits(SH(addr, value), 4 * ram.Length)
      modifies ram
      ensures Flat(ram[..]) == FlatStored(old(Flat(ram[..])), SH(addr, value))
    {
      ghost var was := ram[..];
      var word := ram[addr / 4];
      word := MergeHWord(word, value, addr % 4 / 2);
      ram[addr / 4] := word;
      assert ram[..] == Stored(was, SH(addr, value));
      StoreRefines(was, SH(addr, value));
    }

    method StoreWord(addr: nat, value: Word)
      requires Fits(SW(addr, value), 4 * ram.Length)
      modifies ram
      ensures Flat(ram[..]) == FlatStored(old(Flat(ram[..])), SW(addr, value))
    {
      ghost var was := ram[..];
      ram[addr / 4] := value;
      assert ram[..] == Stored(was, SW(addr, value));
      StoreRefines(was, SW(addr, value));
    }
  }
}
