/** The Ogg page checksum: the 256-entry lookup table, the table-driven loop,
    and the bit-at-a-time polynomial division both are measured against. */
module OggCrc {
  import opened Bytes

  const POLY: bv32 := 0x04C11DB7
  const TOP: bv32 := 0x80000000

  function Xor(x: bv32, y: bv32): bv32 {
    x ^ y
  }

  /** One step of the shift register: multiply by x, reduce by the generator. */
  function Step(r: bv32): bv32 {
    if r & TOP != 0 then (r << 1) ^ POLY else r << 1
  }

  function Steps(r: bv32, n: nat): bv32
    decreases n
  {
    if n == 0 then r else Steps(Step(r), n - 1)
  }

  function BitValue(bit: bool): bv32 {
    if bit then 1 else 0
  }

  /** Long division, one message bit at a time: the bit enters at the low end. */
  function Divide(r: bv32, bits: seq<bool>): bv32
    decreases |bits|
  {
    if bits == [] then r else Divide(Xor(Step(r), BitValue(bits[0])), bits[1..])
  }

  /** The bits of a byte, most significant first. */
  function BitsOf(b: bv8): seq<bool> {
    [b & 0x80 != 0, b & 0x40 != 0, b & 0x20 != 0, b & 0x10 != 0,
     b & 0x08 != 0, b & 0x04 != 0, b & 0x02 != 0, b & 0x01 != 0]
  }

  function MessageBits(data: seq<byte>): seq<bool> {
    if data == [] then [] else MessageBits(data[..|data| - 1]) + BitsOf(data[|data| - 1] as bv8)
  }

  function Zeros(n: nat): seq<bool> {
    seq(n, _ => false)
  }

  /** The remainder of message * x^32 modulo the generator. */
  function Remainder(data: seq<byte>): bv32 {
    Divide(0, MessageBits(data) + Zeros(32))
  }

  function Low(b: bv8): bv32 {
    b as bv32
  }

  function High(b: bv8): bv32 {
    (b as bv32) << 24
  }

  /** Entry i of the lookup table. */
  function TableEntry(i: bv8): bv32 {
    Steps(High(i), 8)
  }

  /** The table index for the next byte. */
  function Index(crc: bv32, b: bv8): bv8 {
    ((crc >> 24) as bv8) ^ b
  }

  /** One byte through the table. */
  function CrcByte(crc: bv32, b: bv8): bv32 {
    Xor(crc << 8, TableEntry(Index(crc, b)))
  }

  /** What the table-driven loop leaves in the register after data. */
  function Crc(data: seq<byte>): bv32 {
    if data == [] then 0 else CrcByte(Crc(data[..|data| - 1]), data[|data| - 1] as bv8)
  }

  // ---- The register is linear over exclusive or ----

  lemma ShiftLinear(x: bv32, y: bv32)
    ensures (x ^ y) << 1 == (x << 1) ^ (y << 1)
    ensures (x ^ y) & TOP == (x & TOP) ^ (y & TOP)
    ensures x & TOP == 0 || x & TOP == TOP
  {
  }

  lemma XorMoves(x: bv32, y: bv32, p: bv32)
    ensures (x ^ p) ^ (y ^ p) == x ^ y
    ensures (x ^ p) ^ y == (x ^ y) ^ p == x ^ (y ^ p)
  {
  }

  lemma XorAssoc(x: bv32, y: bv32, z: bv32)
    ensures Xor(Xor(x, y), z) == Xor(x, Xor(y, z))
    ensures Xor(x, 0) == x
  {
  }

  lemma StepLinear(x: bv32, y: bv32)
    ensures Step(Xor(x, y)) == Xor(Step(x), Step(y))
  {
    ShiftLinear(x, y);
    ShiftLinear(y, x);
    XorMoves(x << 1, y << 1, POLY);
  }

  lemma {:induction false} StepsLinear(x: bv32, y: bv32, n: nat)
    ensures Steps(Xor(x, y), n) == Xor(Steps(x, n), Steps(y, n))
    decreases n
  {
    hide Step, Xor;
    if n > 0 {
      StepLinear(x, y);
      StepsLinear(Step(x), Step(y), n - 1);
    }
  }

  lemma {:induction false} StepsAdd(r: bv32, m: nat, n: nat)
    ensures Steps(r, m + n) == Steps(Steps(r, m), n)
    decreases m
  {
    hide Step;
    if m > 0 { StepsAdd(Step(r), m - 1, n); }
  }

  lemma {:induction false} DivideConcat(r: bv32, a: seq<bool>, b: seq<bool>)
    ensures Divide(r, a + b) == Divide(Divide(r, a), b)
    decreases |a|
  {
    hide Step, Xor, BitValue;
    if a == [] {
      assert a + b == b;
    } else {
      assert (a + b)[1..] == a[1..] + b;
      DivideConcat(Xor(Step(r), BitValue(a[0])), a[1..], b);
    }
  }

  lemma {:induction false} DivideZeros(r: bv32, n: nat)
    ensures Divide(r, Zeros(n)) == Steps(r, n)
    decreases n
  {
    hide Step, Xor;
    if n > 0 {
      assert Zeros(n)[1..] == Zeros(n - 1);
      XorAssoc(Step(r), 0, 0);
      DivideZeros(Step(r), n - 1);
    }
  }

  // ---- A byte through the table is eight steps of the register ----

  /** Four steps do not reduce while the top four bits are clear. */
  lemma FourBits(r: bv32)
    requires r & 0xF0000000 == 0
    ensures Step(r) == r << 1
    ensures Step(r << 1) == r << 2
    ensures Step(r << 2) == r << 3
    ensures Step(r << 3) == r << 4
  {
  }

  lemma FourSteps(r: bv32, n: nat)
    requires r & 0xF0000000 == 0
    ensures Steps(r, n + 4) == Steps(r << 4, n)
  {
    hide Step;
    FourBits(r);
    assert Steps(r, n + 4) == Steps(r << 1, n + 3) == Steps(r << 2, n + 2) == Steps(r << 3, n + 1);
  }

  lemma EightBits(r: bv32)
    requires r & 0xFF000000 == 0
    ensures r & 0xF0000000 == 0 && (r << 4) & 0xF0000000 == 0
    ensures r << 4 << 4 == r << 8
  {
  }

  lemma EightSteps(r: bv32, n: nat)
    requires r & 0xFF000000 == 0
    ensures Steps(r, n + 8) == Steps(r << 8, n)
  {
    hide Step;
    EightBits(r);
    FourSteps(r, n + 4);
    FourSteps(r << 4, n);
  }

  lemma HighXor(x: bv8, y: bv8)
    ensures High(x ^ y) == Xor(High(x), High(y))
  {
  }

  lemma TopPart(crc: bv32)
    ensures crc == Xor(High((crc >> 24) as bv8), crc & 0x00FFFFFF)
  {
  }

  lemma SplitRegister(crc: bv32, b: bv8)
    ensures Xor(crc, High(b)) == Xor(High(Index(crc, b)), crc & 0x00FFFFFF)
  {
    hide Xor, High;
    var top, low := High((crc >> 24) as bv8), crc & 0x00FFFFFF;
    TopPart(crc);
    HighXor((crc >> 24) as bv8, b);
    XorAssoc(top, low, High(b));
    XorCommutes(low, High(b));
    XorAssoc(top, High(b), low);
  }

  lemma LowPart(crc: bv32)
    ensures (crc & 0x00FFFFFF) << 8 == crc << 8
    ensures (crc & 0x00FFFFFF) & 0xFF000000 == 0
  {
  }

  lemma XorCommutes(x: bv32, y: bv32)
    ensures Xor(x, y) == Xor(y, x)
  {
  }

  lemma CrcByteIsEightSteps(crc: bv32, b: bv8)
    ensures CrcByte(crc, b) == Steps(Xor(crc, High(b)), 8)
  {
    hide Step, Xor, High;
    var high := High(Index(crc, b));
    var low := crc & 0x00FFFFFF;
    SplitRegister(crc, b);
    LowPart(crc);
    StepsLinear(high, low, 8);
    EightSteps(low, 0);
    assert Steps(low << 8, 0) == low << 8;
    XorCommutes(crc << 8, Steps(high, 8));
  }

  lemma ByteShifts(b: bv8)
    ensures Low(b) & 0xFF000000 == 0
    ensures (Low(b) << 8) & 0xFF000000 == 0
    ensures (Low(b) << 16) & 0xFF000000 == 0
    ensures Low(b) << 8 << 8 == Low(b) << 16
    ensures Low(b) << 16 << 8 == High(b)
  {
  }

  lemma LateByte(b: bv8)
    ensures Steps(Low(b), 32) == Steps(High(b), 8)
  {
    hide Step, Low, High;
    ByteShifts(b);
    EightSteps(Low(b), 24);
    EightSteps(Low(b) << 8, 16);
    EightSteps(Low(b) << 16, 8);
  }

  // ---- Dividing by one whole byte ----

  lemma PushBit(r: bv32, v: bv32, bit: bool)
    requires v & TOP == 0
    ensures Xor(Step(Xor(r, v)), BitValue(bit)) == Xor(Step(r), Xor(v << 1, BitValue(bit)))
  {
    hide Xor, BitValue;
    StepLinear(r, v);
    XorAssoc(Step(r), v << 1, BitValue(bit));
  }

  /** A byte read back from its bits, one prefix at a time. */
  lemma HighPrefixes(b: bv8)
    ensures var v := Low(b); var bits := BitsOf(b);
            && v >> 8 == 0
            && v >> 7 == Xor(v >> 8 << 1, BitValue(bits[0]))
            && v >> 6 == Xor(v >> 7 << 1, BitValue(bits[1]))
            && v >> 5 == Xor(v >> 6 << 1, BitValue(bits[2]))
            && v >> 4 == Xor(v >> 5 << 1, BitValue(bits[3]))
  {
  }

  lemma LowPrefixes(b: bv8)
    ensures var v := Low(b); var bits := BitsOf(b);
            && v >> 3 == Xor(v >> 4 << 1, BitValue(bits[4]))
            && v >> 2 == Xor(v >> 3 << 1, BitValue(bits[5]))
            && v >> 1 == Xor(v >> 2 << 1, BitValue(bits[6]))
            && v == Xor(v >> 1 << 1, BitValue(bits[7]))
  {
  }

  lemma PrefixesFit(b: bv8)
    ensures var v := Low(b);
            && (v >> 8) & TOP == 0 && (v >> 7) & TOP == 0 && (v >> 6) & TOP == 0 && (v >> 5) & TOP == 0
            && (v >> 4) & TOP == 0 && (v >> 3) & TOP == 0 && (v >> 2) & TOP == 0 && (v >> 1) & TOP == 0
  {
  }

  lemma DivideStep(r: bv32, bits: seq<bool>, r0: bv32, v: bv32)
    requires bits != [] && r == Xor(r0, v) && v & TOP == 0
    ensures Divide(r, bits) == Divide(Xor(Step(r0), Xor(v << 1, BitValue(bits[0]))), bits[1..])
  {
    hide Step, Xor, BitValue;
    PushBit(r0, v, bits[0]);
  }

  /** From the k-th bit of a byte to the next: w is the prefix v with one bit more. */
  lemma DivideNext(r: bv32, bits: seq<bool>, k: nat, v: bv32, w: bv32)
    requires k < |bits| && v & TOP == 0 && w == Xor(v << 1, BitValue(bits[k]))
    ensures Divide(Xor(Steps(r, k), v), bits[k..]) == Divide(Xor(Steps(r, k + 1), w), bits[k + 1..])
  {
    hide Step, Xor, BitValue, Divide;
    DivideStep(Xor(Steps(r, k), v), bits[k..], Steps(r, k), v);
    assert bits[k..][1..] == bits[k + 1..];
    StepsLast(r, k);
  }

  lemma DivideByte(r: bv32, b: bv8)
    ensures Divide(r, BitsOf(b)) == Xor(Steps(r, 8), Low(b))
  {
    hide Step, Steps, Xor, BitValue, Low, BitsOf, Divide;
    var v, bits := Low(b), BitsOf(b);
    HighPrefixes(b);
    LowPrefixes(b);
    PrefixesFit(b);
    BitCount(b);
    DivideNext(r, bits, 0, v >> 8, v >> 7);
    DivideNext(r, bits, 1, v >> 7, v >> 6);
    DivideNext(r, bits, 2, v >> 6, v >> 5);
    DivideNext(r, bits, 3, v >> 5, v >> 4);
    DivideNext(r, bits, 4, v >> 4, v >> 3);
    DivideNext(r, bits, 5, v >> 3, v >> 2);
    DivideNext(r, bits, 6, v >> 2, v >> 1);
    DivideNext(r, bits, 7, v >> 1, v);
    DivideEnds(r, bits, Xor(Steps(r, 8), v));
  }

  lemma DivideEnds(r: bv32, bits: seq<bool>, s: bv32)
    ensures Divide(Xor(Steps(r, 0), 0), bits[0..]) == Divide(r, bits)
    ensures Divide(s, bits[|bits|..]) == s
  {
    XorAssoc(r, 0, 0);
    assert bits[0..] == bits;
  }

  lemma BitCount(b: bv8)
    ensures |BitsOf(b)| == 8
  {
  }

  lemma StepsLast(r: bv32, n: nat)
    ensures Step(Steps(r, n)) == Steps(r, n + 1)
  {
    hide Step;
    StepsAdd(r, n, 1);
    assert Steps(Steps(r, n), 1) == Steps(Step(Steps(r, n)), 0);
  }

  // ---- The table-driven loop is polynomial division ----

  lemma {:induction false} CrcIsDivision(data: seq<byte>)
    ensures Crc(data) == Steps(Divide(0, MessageBits(data)), 32)
  {
    hide Step, Xor, BitsOf, Low, High;
    if data == [] {
      ZeroSteps(32);
    } else {
      var init, b := data[..|data| - 1], data[|data| - 1] as bv8;
      CrcIsDivision(init);
      var n := Divide(0, MessageBits(init));
      calc {
        Steps(Divide(0, MessageBits(data)), 32);
        { DivideConcat(0, MessageBits(init), BitsOf(b)); DivideByte(n, b); }
        Steps(Xor(Steps(n, 8), Low(b)), 32);
        { StepsLinear(Steps(n, 8), Low(b), 32); LateByte(b); }
        Xor(Steps(Steps(n, 8), 32), Steps(High(b), 8));
        { StepsAdd(n, 8, 32); StepsAdd(n, 32, 8); }
        Xor(Steps(Crc(init), 8), Steps(High(b), 8));
        { StepsLinear(Crc(init), High(b), 8); CrcByteIsEightSteps(Crc(init), b); }
        Crc(data);
      }
    }
  }

  lemma {:induction false} ZeroSteps(n: nat)
    ensures Steps(0, n) == 0
    decreases n
  {
    if n > 0 { ZeroSteps(n - 1); }
  }

  lemma CrcIsRemainder(data: seq<byte>)
    ensures Crc(data) == Remainder(data)
  {
    hide Step, Xor;
    CrcIsDivision(data);
    DivideConcat(0, MessageBits(data), Zeros(32));
    DivideZeros(Divide(0, MessageBits(data)), 32);
  }

  // ---- The program ----

  ghost predicate IsTable(t: array<bv32>)
    reads t
  {
    t.Length == 256 && forall i :: 0 <= i < 256 ==> t[i] == TableEntry(i as bv8)
  }

  method BuildTable() returns (t: array<bv32>)
    ensures IsTable(t)
  {
    hide Step, High;
    t := new bv32[256];
    for i := 0 to 256
      invariant forall k :: 0 <= k < i ==> t[k] == TableEntry(k as bv8)
    {
      var r := (i as bv32) << 24;
      HighOfIndex(i);
      for j := 0 to 8
        invariant TableEntry(i as bv8) == Steps(r, 8 - j)
        invariant forall k :: 0 <= k < i ==> t[k] == TableEntry(k as bv8)
      {
        StepUnfolds(r);
        assert Steps(r, 8 - j) == Steps(Step(r), 7 - j);
        if r & TOP != 0 {
          r := (r << 1) ^ POLY;
        } else {
          r := r << 1;
        }
      }
      t[i] := r;
    }
  }

  lemma StepUnfolds(r: bv32)
    ensures r & TOP != 0 ==> Step(r) == (r << 1) ^ POLY
    ensures r & TOP == 0 ==> Step(r) == r << 1
  {
  }

  lemma HighOfIndex(i: nat)
    requires i < 256
    ensures (i as bv32) << 24 == High(i as bv8)
  {
    assert (i as bv8) as bv32 == i as bv32;
  }

  method OggCrc(table: array<bv32>, data: seq<byte>) returns (crc: bv32)
    requires IsTable(table)
    ensures crc == Remainder(data)
  {
    hide Xor, TableEntry, Step, Remainder, Index;
    crc := 0;
    for i := 0 to |data|
      invariant crc == Crc(data[..i])
    {
      assert data[..i + 1][..i] == data[..i];
      var index := Index(crc, data[i] as bv8);
      var entry := table[index as int];
      assert entry == TableEntry(index) by { IndexOfByte(index); }
      crc := Xor(crc << 8, entry);
    }
    assert data[..|data|] == data;
    CrcIsRemainder(data);
  }

  lemma IndexOfByte(b: bv8)
    ensures 0 <= b as int < 256 && (b as int) as bv8 == b
  {
  }
}
