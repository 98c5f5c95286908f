/**
  The checksum of the radio frames: CRC-16 with generator 0x1021 and initial register
  0xFFFF, unreflected and without a final exclusive or (the generator is the one of the
  16-bit FCS in Appendix C of RFC 1662).
*/
module LoraCrc {
  import opened LoraNumbers

  type Register = bv16

  const INITIAL: Register := 0xFFFF
  const GENERATOR: Register := 0x1021

  // One step of the register: multiply by x modulo the generator.
  function Shift(c: Register): Register {
    if c & 0x8000 == 0 then c << 1 else (c << 1) ^ GENERATOR
  }

  function Shifts(c: Register, n: nat): Register {
    if n == 0 then c else Shift(Shifts(c, n - 1))
  }

  function Feed(c: Register, b: Byte): Register {
    Shifts(c ^ ((b as bv16) << 8), 8)
  }

  function CrcFrom(c: Register, data: seq<Byte>): Register {
    if data == [] then c else Feed(CrcFrom(c, data[..|data| - 1]), data[|data| - 1])
  }

  function Crc(data: seq<Byte>): Register {
    CrcFrom(INITIAL, data)
  }

  method Crc16(data: seq<Byte>) returns (c: Register)
    ensures c == Crc(data)
  {
    c := INITIAL;
    for i := 0 to |data|
      invariant c == Crc(data[..i])
    {
      assert data[..i + 1][..i] == data[..i];
      c := c ^ ((data[i] as bv16) << 8);
      ghost var loaded := c;
      for k := 0 to 8
        invariant c == Shifts(loaded, k)
      {
        c := if c & 0x8000 != 0 then ((c << 1) ^ GENERATOR) & 0xFFFF else (c << 1) & 0xFFFF;
      }
    }
    assert data[..|data|] == data;
  }

  // ---------------------------------------------------------------- the check value

  lemma FeedIsEightShifts(c: Register, b: Byte)
    ensures Feed(c, b) == Shift(Shift(Shift(Shift(Shift(Shift(Shift(Shift(c ^ ((b as bv16) << 8)))))))))
  {
    hide Shift;
    var loaded := c ^ ((b as bv16) << 8);
    TwoShifts(loaded, 0);
    TwoShifts(loaded, 2);
    TwoShifts(loaded, 4);
    TwoShifts(loaded, 6);
    assert Shifts(loaded, 0) == loaded;
  }

  lemma TwoShifts(c: Register, n: nat)
    ensures Shifts(c, n + 2) == Shift(Shift(Shifts(c, n)))
  {
    hide Shift;
    assert Shifts(c, n + 1) == Shift(Shifts(c, n));
  }

  lemma CheckRegisters()
    ensures Feed(0xFFFF, 49) == 0xC782 && Feed(0xC782, 50) == 0x3DBA && Feed(0x3DBA, 51) == 0x5BCE
    ensures Feed(0x5BCE, 52) == 0x5349 && Feed(0x5349, 53) == 0x4560 && Feed(0x4560, 54) == 0x2EF4
    ensures Feed(0x2EF4, 55) == 0x7718 && Feed(0x7718, 56) == 0xA12B && Feed(0xA12B, 57) == 0x29B1
  {
    FeedIsEightShifts(0xFFFF, 49);
    FeedIsEightShifts(0xC782, 50);
    FeedIsEightShifts(0x3DBA, 51);
    FeedIsEightShifts(0x5BCE, 52);
    FeedIsEightShifts(0x5349, 53);
    FeedIsEightShifts(0x4560, 54);
    FeedIsEightShifts(0x2EF4, 55);
    FeedIsEightShifts(0x7718, 56);
    FeedIsEightShifts(0xA12B, 57);
  }

  lemma {:induction false} CrcGrows(data: seq<Byte>, b: Byte)
    ensures Crc(data + [b]) == Feed(Crc(data), b)
  {
    hide Feed;
    assert (data + [b])[..|data|] == data;
  }

  /** The checksum of the ASCII digits 1 to 9 is 0x29B1, the check value of this CRC. */
  lemma CheckValue()
    ensures Crc([49, 50, 51, 52, 53, 54, 55, 56, 57]) == 0x29B1
  {
    hide Feed, Crc;
    CheckRegisters();
    assert Crc([]) == 0xFFFF by { EmptyCrc(); }
    var digits: seq<Byte> := [49, 50, 51, 52, 53, 54, 55, 56, 57];
    assert digits[..0] == [] && digits[..9] == digits;
    NextRegister(digits, 0);
    NextRegister(digits, 1);
    NextRegister(digits, 2);
    NextRegister(digits, 3);
    NextRegister(digits, 4);
    NextRegister(digits, 5);
    NextRegister(digits, 6);
    NextRegister(digits, 7);
    NextRegister(digits, 8);
  }

  lemma NextRegister(data: seq<Byte>, n: nat)
    requires n < |data|
    ensures Crc(data[..n + 1]) == Feed(Crc(data[..n]), data[n])
  {
    hide Feed;
    assert data[..n + 1] == data[..n] + [data[n]];
    CrcGrows(data[..n], data[n]);
  }

  lemma EmptyCrc()
    ensures Crc([]) == 0xFFFF
  {
  }

  // ---------------------------------------------------------------- a step loses nothing

  function Unshift(c: Register): Register {
    if c & 1 == 0 then c >> 1 else ((c ^ GENERATOR) >> 1) | 0x8000
  }

  lemma LowBitTells(c: Register)
    ensures c & 0x8000 == 0 ==> (c << 1) & 1 == 0 && (c << 1) >> 1 == c
    ensures ((c << 1) ^ GENERATOR) & 1 != 0
  {
  }

  lemma HighBitReturns(c: Register)
    requires c & 0x8000 != 0
    ensures ((c << 1) >> 1) | 0x8000 == c
  {
  }

  lemma XorTwice(c: Register, d: Register)
    ensures (c ^ d) ^ d == c
  {
  }

  lemma ShiftIsInjective(c: Register)
    ensures Unshift(Shift(c)) == c
  {
    LowBitTells(c);
    XorTwice(c << 1, GENERATOR);
    if c & 0x8000 != 0 { HighBitReturns(c); }
  }

  lemma {:induction false} ShiftsAreInjective(c: Register, d: Register, n: nat)
    requires Shifts(c, n) == Shifts(d, n)
    ensures c == d
  {
    if n > 0 {
      ShiftIsInjective(Shifts(c, n - 1));
      ShiftIsInjective(Shifts(d, n - 1));
      ShiftsAreInjective(c, d, n - 1);
    }
  }

  // ---------------------------------------------------------------- steps are linear

  lemma SumOfHighBits(c: Register, d: Register)
    ensures (c ^ d) << 1 == (c << 1) ^ (d << 1)
    ensures (c ^ d) & 0x8000 == (c & 0x8000) ^ (d & 0x8000)
  {
  }

  lemma HighBit(c: Register)
    ensures c & 0x8000 == 0 || c & 0x8000 == 0x8000
  {
  }

  lemma XorLaws(a: Register, b: Register, g: Register)
    ensures (a ^ g) ^ b == (a ^ b) ^ g && a ^ (b ^ g) == (a ^ b) ^ g && (a ^ g) ^ (b ^ g) == a ^ b
  {
  }

  lemma ShiftIsLinear(c: Register, d: Register)
    ensures Shift(c ^ d) == Shift(c) ^ Shift(d)
  {
    SumOfHighBits(c, d);
    HighBit(c);
    HighBit(d);
    XorLaws(c << 1, d << 1, GENERATOR);
  }

  lemma {:induction false} ShiftsAreLinear(c: Register, d: Register, n: nat)
    ensures Shifts(c ^ d, n) == Shifts(c, n) ^ Shifts(d, n)
  {
    if n > 0 {
      ShiftsAreLinear(c, d, n - 1);
      ShiftIsLinear(Shifts(c, n - 1), Shifts(d, n - 1));
    }
  }

  lemma {:induction false} ShiftsAdd(c: Register, m: nat, n: nat)
    ensures Shifts(Shifts(c, m), n) == Shifts(c, m + n)
  {
    if n > 0 { ShiftsAdd(c, m, n - 1); }
  }

  function Up(c: Register): Register {
    c << 1
  }

  predicate Clear(c: Register) {
    c & 0x8000 == 0
  }

  lemma ClearShift(c: Register)
    requires Clear(c)
    ensures Shift(c) == Up(c)
  {
  }

  lemma ByteIsClear(b: Byte)
    ensures var r := b as bv16;
            Clear(r) && Clear(Up(r)) && Clear(Up(Up(r))) && Clear(Up(Up(Up(r))))
  {
  }

  lemma RaisedByteIsClear(b: Byte)
    ensures var r := (b as bv16) << 4;
            Clear(r) && Clear(Up(r)) && Clear(Up(Up(r))) && Clear(Up(Up(Up(r))))
  {
  }

  lemma FourUp(r: Register)
    requires Clear(r) && Clear(Up(r)) && Clear(Up(Up(r))) && Clear(Up(Up(Up(r))))
    ensures Shifts(r, 4) == r << 4
  {
    assert Up(Up(Up(Up(r)))) == r << 4;
    hide Up, Clear, Shift;
    ClearShift(r);
    ClearShift(Up(r));
    ClearShift(Up(Up(r)));
    ClearShift(Up(Up(Up(r))));
    assert Shifts(r, 1) == Up(r);
    assert Shifts(r, 2) == Up(Up(r));
    assert Shifts(r, 3) == Up(Up(Up(r)));
  }

  lemma NibbleTwice(b: Byte)
    ensures ((b as bv16) << 4) << 4 == (b as bv16) << 8
  {
  }

  // A byte in the low half only moves up: no step reduces it.
  lemma ByteRises(b: Byte)
    ensures Shifts(b as bv16, 8) == (b as bv16) << 8
  {
    hide Up, Clear, Shifts;
    ByteIsClear(b);
    RaisedByteIsClear(b);
    FourUp(b as bv16);
    FourUp((b as bv16) << 4);
    ShiftsAdd(b as bv16, 4, 4);
    NibbleTwice(b);
  }

  // ---------------------------------------------------------------- errors in a window of 16 bits

  lemma CrcLast(c: Register, data: seq<Byte>, b: Byte)
    ensures CrcFrom(c, data + [b]) == Feed(CrcFrom(c, data), b)
  {
    hide Feed;
    assert (data + [b])[..|data|] == data;
  }

  lemma CrcNothing(c: Register)
    ensures CrcFrom(c, []) == c
  {
  }

  lemma {:induction false} CrcSplit(c: Register, left: seq<Byte>, right: seq<Byte>)
    ensures CrcFrom(c, left + right) == CrcFrom(CrcFrom(c, left), right)
  {
    hide Feed, CrcFrom;
    if right == [] {
      assert left + right == left;
      CrcNothing(CrcFrom(c, left));
    } else {
      var n := |right| - 1;
      CrcSplit(c, left, right[..n]);
      assert left + right == (left + right[..n]) + [right[n]] && right == right[..n] + [right[n]];
      CrcLast(c, left + right[..n], right[n]);
      CrcLast(CrcFrom(c, left), right[..n], right[n]);
    }
  }

  lemma FeedIsInjective(c: Register, d: Register, b: Byte)
    requires Feed(c, b) == Feed(d, b)
    ensures c == d
  {
    hide Shifts;
    var load := (b as bv16) << 8;
    ShiftsAreInjective(c ^ load, d ^ load, 8);
    SameLoad(c, d, load);
  }

  lemma SameLoad(c: Register, d: Register, load: Register)
    requires c ^ load == d ^ load
    ensures c == d
  {
  }

  lemma {:induction false} CrcIsInjective(c: Register, d: Register, data: seq<Byte>)
    requires CrcFrom(c, data) == CrcFrom(d, data)
    ensures c == d
  {
    hide Feed;
    if data != [] {
      var n := |data| - 1;
      FeedIsInjective(CrcFrom(c, data[..n]), CrcFrom(d, data[..n]), data[n]);
      CrcIsInjective(c, d, data[..n]);
    }
  }

  lemma FoldedLoads(x: Register, y: Register, load: Register)
    requires Shifts(y, 8) == load
    ensures Shifts(Shifts(x, 8) ^ load, 8) == Shifts(x ^ y, 16)
  {
    hide Shifts;
    ShiftsAreLinear(x, y, 8);
    ShiftsAdd(x ^ y, 8, 8);
  }

  // Two bytes enter the register as one 16-bit word.
  lemma TwoBytes(c: Register, a: Byte, b: Byte)
    ensures Feed(Feed(c, a), b) == Shifts((c ^ ((a as bv16) << 8)) ^ (b as bv16), 16)
  {
    hide Shifts;
    ByteRises(b);
    FoldedLoads(c ^ ((a as bv16) << 8), b as bv16, (b as bv16) << 8);
  }

  lemma WordTells(c: Register, a: Byte, b: Byte, a': Byte, b': Byte)
    requires (c ^ ((a as bv16) << 8)) ^ (b as bv16) == (c ^ ((a' as bv16) << 8)) ^ (b' as bv16)
    ensures a == a' && b == b'
  {
  }

  lemma PairIsDetected(c: Register, a: Byte, b: Byte, a': Byte, b': Byte)
    requires a != a' || b != b'
    ensures Feed(Feed(c, a), b) != Feed(Feed(c, a'), b')
  {
    hide Shifts, Feed;
    TwoBytes(c, a, b);
    TwoBytes(c, a', b');
    var word, word' := (c ^ ((a as bv16) << 8)) ^ (b as bv16), (c ^ ((a' as bv16) << 8)) ^ (b' as bv16);
    if word == word' { WordTells(c, a, b, a', b'); }
    if Shifts(word, 16) == Shifts(word', 16) { ShiftsAreInjective(word, word', 16); }
  }

  lemma ByteIsDetected(c: Register, a: Byte, a': Byte)
    requires a != a'
    ensures Feed(c, a) != Feed(c, a')
  {
    hide Shifts;
    LoadTells(c, a, a');
    var load, load' := c ^ ((a as bv16) << 8), c ^ ((a' as bv16) << 8);
    if Shifts(load, 8) == Shifts(load', 8) { ShiftsAreInjective(load, load', 8); }
  }

  lemma LoadTells(c: Register, a: Byte, a': Byte)
    requires a != a'
    ensures c ^ ((a as bv16) << 8) != c ^ ((a' as bv16) << 8)
  {
  }

  // Equal length, and equal outside positions i and i + 1.
  predicate DiffersAt(data: seq<Byte>, corrupted: seq<Byte>, i: nat) {
    |corrupted| == |data| && i < |data| && corrupted != data &&
    forall k :: 0 <= k < |data| && k != i && k != i + 1 ==> corrupted[k] == data[k]
  }

  /** Two inputs of one length that differ in one byte, or in two adjacent bytes, have different checksums. */
  lemma BurstIsDetected(data: seq<Byte>, corrupted: seq<Byte>, i: nat)
    requires DiffersAt(data, corrupted, i)
    ensures Crc(corrupted) != Crc(data)
  {
    hide Feed;
    var n := if i + 1 < |data| then i + 2 else i + 1;
    var c := CrcFrom(INITIAL, data[..i]);
    assert corrupted[..i] == data[..i] && corrupted[n..] == data[n..];
    assert data[..i] + data[i..n] + data[n..] == data && data[..i] + corrupted[i..n] + data[n..] == corrupted;
    CrcSplit(INITIAL, data[..i], data[i..n]);
    CrcSplit(INITIAL, data[..i] + data[i..n], data[n..]);
    CrcSplit(INITIAL, data[..i], corrupted[i..n]);
    CrcSplit(INITIAL, data[..i] + corrupted[i..n], data[n..]);
    assert corrupted[i..n] != data[i..n];
    WindowIsDetected(c, data[i..n], corrupted[i..n]);
    var d, d' := CrcFrom(c, data[i..n]), CrcFrom(c, corrupted[i..n]);
    if CrcFrom(d, data[n..]) == CrcFrom(d', data[n..]) { CrcIsInjective(d, d', data[n..]); }
  }

  lemma CrcOfTwo(c: Register, window: seq<Byte>)
    requires |window| == 2
    ensures CrcFrom(c, window) == Feed(Feed(c, window[0]), window[1])
  {
    hide Feed;
    assert window[..1][..0] == [];
    assert CrcFrom(c, window[..1]) == Feed(c, window[0]);
  }

  lemma WindowIsDetected(c: Register, window: seq<Byte>, window': seq<Byte>)
    requires 1 <= |window| <= 2 && |window'| == |window| && window' != window
    ensures CrcFrom(c, window) != CrcFrom(c, window')
  {
    hide Feed;
    assert window[..1][..0] == [] && window'[..1][..0] == [];
    if |window| == 1 {
      assert window[..1] == window && window'[..1] == window';
      ByteIsDetected(c, window[0], window'[0]);
    } else {
      CrcOfTwo(c, window);
      CrcOfTwo(c, window');
      PairIsDetected(c, window[0], window[1], window'[0], window'[1]);
    }
  }
}
