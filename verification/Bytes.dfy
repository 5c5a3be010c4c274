/** Bytes, fixed-width integers and the growing and consumed byte streams that
    the remuxer's writers and readers work on. */
module Bytes {
  type byte = x: int | 0 <= x < 256

  datatype Option<+T> = None | Some(value: T)

  datatype Result<+T, +E> = Ok(value: T) | Err(error: E)

  /** ASCII lower case. */
  function Lower(s: string): (l: string)
    ensures |l| == |s|
  {
    seq(|s|, i requires 0 <= i < |s| => if 'A' <= s[i] <= 'Z' then s[i] - 'A' + 'a' else s[i])
  }

  /** The bytes of an ASCII string. */
  function Ascii(s: string): (bs: seq<byte>)
    ensures |bs| == |s|
  {
    seq(|s|, i requires 0 <= i < |s| => s[i] as int % 256)
  }

  /** Letter case does not tell folded strings apart, and nothing else is folded. */
  lemma LowerFolds(s: string)
    ensures Lower(Lower(s)) == Lower(s)
    ensures Lower("AMZ-@[09") == "amz-@[09"
  {
  }

  const TWO_31 := 0x8000_0000
  const TWO_32 := 0x1_0000_0000
  const TWO_63 := 0x8000_0000_0000_0000
  const TWO_64 := 0x1_0000_0000_0000_0000

  predicate IsInt64(x: int) {
    -TWO_63 <= x < TWO_63
  }

  /** The int64 that an exact result wraps to. */
  function Wrap64(x: int): (r: int)
    ensures IsInt64(r) && (IsInt64(x) ==> r == x)
  {
    (x + TWO_63) % TWO_64 - TWO_63
  }

  /** The conversion from int64 to uint64 and back. */
  function Unsigned64(x: int): (u: nat)
    ensures u < TWO_64
    ensures IsInt64(x) ==> Signed64(u) == x
  {
    x % TWO_64
  }

  function Signed64(u: nat): (x: int)
    requires u < TWO_64
    ensures IsInt64(x)
  {
    if u < TWO_63 then u else u - TWO_64
  }

  function Pow256(width: nat): (p: nat)
    ensures p > 0
  {
    if width == 0 then 1 else 256 * Pow256(width - 1)
  }

  /** Little-endian encoding; a value too wide for the field loses its high bytes. */
  function LittleEndian(n: nat, width: nat): (bs: seq<byte>)
    ensures |bs| == width
  {
    if width == 0 then [] else [n % 256] + LittleEndian(n / 256, width - 1)
  }

  function FromLittleEndian(bs: seq<byte>): (n: nat)
    ensures n < Pow256(|bs|)
  {
    if bs == [] then 0 else bs[0] + 256 * FromLittleEndian(bs[1..])
  }

  /** Big-endian encoding, with the same truncation. */
  function BigEndian(n: nat, width: nat): (bs: seq<byte>)
    ensures |bs| == width
  {
    if width == 0 then [] else BigEndian(n / 256, width - 1) + [n % 256]
  }

  function FromBigEndian(bs: seq<byte>): (n: nat)
    ensures n < Pow256(|bs|)
  {
    if bs == [] then 0 else FromBigEndian(bs[..|bs| - 1]) * 256 + bs[|bs| - 1]
  }

  /** Low byte first, and high byte first. */
  lemma ByteOrder()
    ensures LittleEndian(0x01020304, 4) == [4, 3, 2, 1]
    ensures BigEndian(0x01020304, 4) == [1, 2, 3, 4]
  {
    assert LittleEndian(0x0102, 2) == [2, 1] && BigEndian(0x0102, 2) == [1, 2];
    assert LittleEndian(0x010203, 3) == [3] + LittleEndian(0x0102, 2);
    assert BigEndian(0x010203, 3) == BigEndian(0x0102, 2) + [3];
  }

  lemma {:induction false} LittleEndianInverse(n: nat, width: nat)
    requires n < Pow256(width)
    ensures FromLittleEndian(LittleEndian(n, width)) == n
  {
    if width > 0 {
      LittleEndianInverse(n / 256, width - 1);
      assert LittleEndian(n, width)[1..] == LittleEndian(n / 256, width - 1);
    }
  }

  lemma {:induction false} BigEndianInverse(n: nat, width: nat)
    requires n < Pow256(width)
    ensures FromBigEndian(BigEndian(n, width)) == n
  {
    if width > 0 {
      BigEndianInverse(n / 256, width - 1);
      assert BigEndian(n, width)[..width - 1] == BigEndian(n / 256, width - 1);
    }
  }

  lemma Widths()
    ensures Pow256(2) == 0x1_0000 && Pow256(4) == TWO_32 && Pow256(8) == TWO_64
  {
    assert Pow256(1) == 256;
    assert Pow256(3) == 0x100_0000;
    assert Pow256(5) == 0x100_0000_0000;
    assert Pow256(6) == 0x1_0000_0000_0000;
    assert Pow256(7) == 0x100_0000_0000_0000;
  }

  function Concat<T>(parts: seq<seq<T>>): seq<T> {
    if parts == [] then [] else parts[0] + Concat(parts[1..])
  }

  lemma {:induction false} ConcatSplit<T>(a: seq<seq<T>>, b: seq<seq<T>>)
    ensures Concat(a + b) == Concat(a) + Concat(b)
  {
    if a == [] {
      assert a + b == b;
    } else {
      assert (a + b)[1..] == a[1..] + b;
      ConcatSplit(a[1..], b);
    }
  }

  lemma ConcatOne<T>(part: seq<T>)
    ensures Concat([part]) == part
  {
    assert [part][1..] == [];
  }

  /** A growing output buffer. */
  class ByteBuffer {
    var data: seq<byte>

    constructor ()
      ensures data == []
    {
      data := [];
    }

    method Write(bs: seq<byte>)
      modifies this
      ensures data == old(data) + bs
    {
      data := data + bs;
    }
  }

  /** A read cursor over a fixed input. */
  class ByteReader {
    const input: seq<byte>
    var pos: nat

    ghost predicate Valid()
      reads this
    {
      pos <= |input|
    }

    function Remaining(): seq<byte>
      reads this
      requires Valid()
    {
      input[pos..]
    }

    constructor (input: seq<byte>)
      ensures Valid() && Remaining() == input
    {
      this.input := input;
      pos := 0;
    }

    /** All of the next n bytes, or none of them with the input used up. */
    method ReadFull(n: nat) returns (ok: bool, bs: seq<byte>)
      requires Valid()
      modifies this
      ensures Valid()
      ensures ok == (n <= |old(Remaining())|)
      ensures ok ==> bs == old(Remaining())[..n] && Remaining() == old(Remaining())[n..]
      ensures !ok ==> Remaining() == []
    {
      if pos + n <= |input| {
        ok, bs := true, input[pos..pos + n];
        pos := pos + n;
      } else {
        ok, bs := false, [];
        pos := |input|;
      }
    }

    /** Skips n bytes, or to the end. */
    method Discard(n: nat)
      requires Valid()
      modifies this
      ensures Valid()
      ensures Remaining() == old(Remaining())[if n <= |old(Remaining())| then n else |old(Remaining())|..]
    {
      pos := if pos + n <= |input| then pos + n else |input|;
    }
  }
}
