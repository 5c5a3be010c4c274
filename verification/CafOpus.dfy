/** Opus in Apple's Core Audio Format: the variable-length sizes of the packet
    table, the chunk writer and the chunk parser. */
module CafOpus {
  import opened Bytes
  import opened OggFraming
  import opened OggOpus

  // ---- Variable-length quantities ----

  /** The leading groups of seven bits, each with its continuation bit. */
  function Groups(u: nat): seq<byte> {
    if u == 0 then [] else Groups(u / 128) + [u % 128 + 128]
  }

  function Vlq(value: int): seq<byte> {
    if value <= 0 then [0] else Groups(value / 128) + [value % 128]
  }

  function Pow128(k: nat): nat {
    if k == 0 then 1 else 128 * Pow128(k - 1)
  }

  lemma {:induction false} GroupCount(u: nat, k: nat)
    requires u < Pow128(k)
    ensures |Groups(u)| <= k
  {
    if u > 0 { GroupCount(u / 128, k - 1); }
  }

  lemma VlqLength(value: int)
    requires IsInt64(value)
    ensures |Vlq(value)| <= 9
  {
    if value > 0 {
      assert Pow128(4) == 128 * (128 * (128 * (128 * Pow128(0))));
      assert Pow128(8) == 128 * (128 * (128 * (128 * Pow128(4))));
      assert value / 128 < Pow128(8);
      GroupCount(value / 128, 8);
    }
  }

  /** Moving one group from the number still to be written into the bytes written. */
  lemma MoveGroup(rest: nat, written: seq<byte>)
    requires rest > 0
    ensures |Groups(rest) + written| > |written|
    ensures Groups(rest / 128) + ([rest % 128 + 128] + written) == Groups(rest) + written
  {
    LastGroup(rest);
    hide Groups;
    Regroup(Groups(rest / 128), rest % 128 + 128, written);
  }

  lemma LastGroup(rest: nat)
    requires rest > 0
    ensures Groups(rest) == Groups(rest / 128) + [rest % 128 + 128]
  {
  }

  lemma Regroup<T>(a: seq<T>, x: T, b: seq<T>)
    ensures a + ([x] + b) == a + [x] + b
  {
  }

  lemma VlqParts(value: int)
    ensures value > 0 ==> Vlq(value) == Groups(value / 128) + [value % 128]
    ensures Groups(0) == []
  {
  }

  /** The ten-byte scratch buffer is filled from its end and never underruns. */
  method CafVlq(value: int) returns (code: seq<byte>)
    requires IsInt64(value)
    ensures code == Vlq(value)
  {
    if value <= 0 { return [0]; }
    hide Groups, Vlq;
    VlqLength(value);
    VlqParts(value);
    var tmp := new byte[10];
    var i := tmp.Length - 1;
    tmp[i] := value % 128;
    var rest := value / 128;
    assert tmp[i..] == [value % 128];
    while rest > 0
      invariant 0 <= i < 10 && rest >= 0
      invariant Groups(rest) + tmp[i..] == Vlq(value)
    {
      MoveGroup(rest, tmp[i..]);
      i := PutBefore(tmp, i, rest % 128 + 128);
      rest := rest / 128;
    }
    assert [] + tmp[i..] == tmp[i..];
    return tmp[i..];
  }

  method PutBefore(tmp: array<byte>, i: nat, b: byte) returns (at: nat)
    requires 0 < i <= tmp.Length
    modifies tmp
    ensures at == i - 1 && tmp[at..] == [b] + old(tmp[i..])
  {
    at := i - 1;
    tmp[at] := b;
  }

  /** One quantity off the front of the data; int64 arithmetic wraps. */
  function ReadVlq(data: seq<byte>, val: int): (r: (int, seq<byte>))
    ensures |r.1| <= |data| && (data != [] ==> |r.1| < |data|)
  {
    if data == [] then (val, [])
    else
      var v := Wrap64(val * 128) + data[0] % 128;
      if data[0] < 128 then (v, data[1..]) else ReadVlq(data[1..], v)
  }

  function SkipVlq(data: seq<byte>): (r: seq<byte>)
    ensures |r| <= |data|
  {
    if data == [] then [] else if data[0] < 128 then data[1..] else SkipVlq(data[1..])
  }

  function DecodeSizes(data: seq<byte>, n: nat, hasFrameSize: bool): seq<int>
    decreases n
  {
    if n == 0 || data == [] then []
    else
      var (val, rest) := ReadVlq(data, 0);
      [val] + DecodeSizes(if hasFrameSize then SkipVlq(rest) else rest, n - 1, hasFrameSize)
  }

  lemma DecodeNext(data: seq<byte>, n: nat, hasFrameSize: bool)
    requires data != [] && n > 0
    ensures var (val, rest) := ReadVlq(data, 0);
      DecodeSizes(data, n, hasFrameSize)
      == [val] + DecodeSizes(if hasFrameSize then SkipVlq(rest) else rest, n - 1, hasFrameSize)
  {
  }

  lemma DecodeEnds(data: seq<byte>, n: nat, hasFrameSize: bool)
    requires data == [] || n == 0
    ensures DecodeSizes(data, n, hasFrameSize) == []
  {
  }

  method DecodeCafPacketSizes(data: seq<byte>, n: nat, hasFrameSize: bool) returns (sizes: seq<int>)
    ensures sizes == DecodeSizes(data, n, hasFrameSize)
  {
    hide ReadVlq, SkipVlq, DecodeSizes;
    sizes := [];
    var pos, i := 0, 0;
    assert data[0..] == data;
    while i < n && pos < |data|
      invariant 0 <= i <= n && 0 <= pos <= |data|
      invariant sizes + DecodeSizes(data[pos..], n - i, hasFrameSize) == DecodeSizes(data, n, hasFrameSize)
    {
      ghost var start := pos;
      var val;
      val, pos := ScanVlq(data, pos);
      DecodeNext(data[start..], n - i, hasFrameSize);
      ghost var before := sizes;
      sizes := sizes + [val];
      if hasFrameSize {
        pos := PassVlq(data, pos);
      }
      i := i + 1;
      Regroup(before, val, DecodeSizes(data[pos..], n - i, hasFrameSize));
    }
    DecodeEnds(data[pos..], n - i, hasFrameSize);
    assert sizes + [] == sizes;
  }

  method ScanVlq(data: seq<byte>, start: nat) returns (val: int, pos: nat)
    requires start <= |data|
    ensures pos <= |data| && ReadVlq(data[start..], 0) == (val, data[pos..])
  {
    pos, val := start, 0;
    while pos < |data|
      invariant pos <= |data|
      invariant ReadVlq(data[start..], 0) == ReadVlq(data[pos..], val)
    {
      var b := data[pos];
      assert data[pos..][1..] == data[pos + 1..];
      pos := pos + 1;
      val := Wrap64(val * 128) + b % 128;
      if b < 128 { break; }
    }
  }

  method PassVlq(data: seq<byte>, start: nat) returns (pos: nat)
    requires start <= |data|
    ensures pos <= |data| && SkipVlq(data[start..]) == data[pos..]
  {
    pos := start;
    while pos < |data|
      invariant pos <= |data|
      invariant SkipVlq(data[start..]) == SkipVlq(data[pos..])
    {
      var b := data[pos];
      assert data[pos..][1..] == data[pos + 1..];
      pos := pos + 1;
      if b < 128 { break; }
    }
  }

  lemma {:induction false} ReadGroups(u: nat, tail: seq<byte>)
    requires u < TWO_63
    ensures ReadVlq(Groups(u) + tail, 0) == ReadVlq(tail, u)
    ensures SkipVlq(Groups(u) + tail) == SkipVlq(tail)
  {
    if u == 0 {
      assert Groups(u) + tail == tail;
    } else {
      var next := [u % 128 + 128] + tail;
      assert Groups(u) + tail == Groups(u / 128) + next;
      ReadGroups(u / 128, next);
      assert next[1..] == tail;
    }
  }

  /** A code is self-delimiting: it reads back whatever follows it. */
  lemma ReadOneVlq(value: int, tail: seq<byte>)
    requires 0 <= value < TWO_63
    ensures ReadVlq(Vlq(value) + tail, 0) == (value, tail)
    ensures SkipVlq(Vlq(value) + tail) == tail
  {
    var last := [value % 128] + tail;
    assert Vlq(value) == Groups(value / 128) + [value % 128] by { VlqEnds(value); }
    hide Groups, Vlq, Wrap64;
    assert Vlq(value) + tail == Groups(value / 128) + last;
    ReadGroups(value / 128, last);
    assert last[1..] == tail && last != [] && last[0] == value % 128;
    LastByte(value);
  }

  lemma VlqEnds(value: int)
    requires value >= 0
    ensures Vlq(value) == Groups(value / 128) + [value % 128]
  {
  }

  lemma LastByte(value: int)
    requires 0 <= value < TWO_63
    ensures Wrap64(value / 128 * 128) + value % 128 == value
  {
  }

  /** No code is a prefix of another. */
  lemma VlqPrefixFree(v: int, w: int)
    requires 0 <= v < TWO_63 && 0 <= w < TWO_63
    ensures Vlq(v) <= Vlq(w) <==> v == w
  {
    if Vlq(v) <= Vlq(w) {
      var rest := Vlq(w)[|Vlq(v)|..];
      assert Vlq(w) == Vlq(v) + rest && Vlq(w) + [] == Vlq(w);
      ReadOneVlq(v, rest);
      ReadOneVlq(w, []);
    }
  }

  function SizeTable(sizes: seq<int>): seq<byte> {
    if sizes == [] then [] else Vlq(sizes[0]) + SizeTable(sizes[1..])
  }

  /** A table whose entries carry a frame count after each size. */
  function SizeAndFrameTable(sizes: seq<int>, frames: seq<int>): seq<byte>
    requires |sizes| == |frames|
  {
    if sizes == [] then [] else Vlq(sizes[0]) + Vlq(frames[0]) + SizeAndFrameTable(sizes[1..], frames[1..])
  }

  ghost predicate Quantities(values: seq<int>) {
    forall i :: 0 <= i < |values| ==> 0 <= values[i] < TWO_63
  }

  lemma VlqNonEmpty(value: int)
    ensures |Vlq(value)| >= 1
  {
  }

  lemma {:induction false} DecodeSizeTable(sizes: seq<int>, trailing: seq<byte>)
    requires Quantities(sizes)
    ensures DecodeSizes(SizeTable(sizes) + trailing, |sizes|, false) == sizes
  {
    hide Vlq, ReadVlq;
    if sizes != [] {
      var tail := SizeTable(sizes[1..]) + trailing;
      assert SizeTable(sizes) + trailing == Vlq(sizes[0]) + tail;
      VlqNonEmpty(sizes[0]);
      ReadOneVlq(sizes[0], tail);
      DecodeSizeTable(sizes[1..], trailing);
    }
  }

  lemma {:induction false} DecodeSizeAndFrameTable(sizes: seq<int>, frames: seq<int>, trailing: seq<byte>)
    requires |sizes| == |frames| && Quantities(sizes) && Quantities(frames)
    ensures DecodeSizes(SizeAndFrameTable(sizes, frames) + trailing, |sizes|, true) == sizes
  {
    hide Vlq, ReadVlq, SkipVlq;
    if sizes != [] {
      var tail := SizeAndFrameTable(sizes[1..], frames[1..]) + trailing;
      assert SizeAndFrameTable(sizes, frames) + trailing == Vlq(sizes[0]) + (Vlq(frames[0]) + tail);
      VlqNonEmpty(sizes[0]);
      ReadOneVlq(sizes[0], Vlq(frames[0]) + tail);
      ReadOneVlq(frames[0], tail);
      DecodeSizeAndFrameTable(sizes[1..], frames[1..], trailing);
    }
  }

  // ---- The writer ----

  const CAFF: seq<byte> := [0x63, 0x61, 0x66, 0x66]  // "caff"
  const DESC: seq<byte> := [0x64, 0x65, 0x73, 0x63]  // "desc"
  const MAGC: seq<byte> := [0x6D, 0x61, 0x67, 0x63]  // "magc"
  const PAKT: seq<byte> := [0x70, 0x61, 0x6B, 0x74]  // "pakt"
  const DATA: seq<byte> := [0x64, 0x61, 0x74, 0x61]  // "data"
  const OPUS: seq<byte> := [0x6F, 0x70, 0x75, 0x73]  // "opus"
  const RATE: seq<byte> := [0x40, 0xE7, 0x70, 0, 0, 0, 0, 0]  // 48000.0 as a big-endian double

  function ChunkBytes(kind: seq<byte>, body: seq<byte>): seq<byte> {
    kind + BigEndian(|body| % TWO_64, 8) + body
  }

  function Sizes(packets: seq<Packet>): (sizes: seq<int>)
    ensures |sizes| == |packets|
    ensures forall i :: 0 <= i < |packets| ==> sizes[i] == Wrap64(|packets[i]|)
  {
    seq(|packets|, i requires 0 <= i < |packets| => Wrap64(|packets[i]|))
  }

  function DescBody(frames: nat, channels: int): seq<byte> {
    RATE + OPUS + BigEndian(0, 4) + BigEndian(0, 4) + BigEndian(frames % TWO_32, 4)
    + BigEndian(channels % TWO_32, 4) + BigEndian(0, 4)
  }

  function ValidFrames(info: OpusInfo): int
    requires info.packets != []
  {
    var frames := Wrap64(info.granulePos - info.preSkip);
    if frames <= 0 then Wrap64(|info.packets| * OpusPacketFrames(info.packets[0])) else frames
  }

  function PaktHeader(info: OpusInfo): seq<byte>
    requires info.packets != []
  {
    BigEndian(|info.packets| % TWO_64, 8) + BigEndian(Unsigned64(ValidFrames(info)), 8)
    + BigEndian(info.preSkip % TWO_32, 4) + BigEndian(0, 4)
  }

  function CafBytes(info: OpusInfo): seq<byte>
    requires info.packets != []
  {
    CAFF + [0, 1] + [0, 0]
    + ChunkBytes(DESC, DescBody(OpusPacketFrames(info.packets[0]), info.channels))
    + ChunkBytes(MAGC, info.opusHead)
    + ChunkBytes(PAKT, PaktHeader(info) + SizeTable(Sizes(info.packets)))
    + ChunkBytes(DATA, [0, 0, 0, 0] + Concat(info.packets))
  }

  method CafWriteChunk(buf: ByteBuffer, kind: seq<byte>, body: seq<byte>)
    modifies buf
    ensures buf.data == old(buf.data) + ChunkBytes(kind, body)
  {
    hide BigEndian;
    var size := BigEndian(|body| % TWO_64, 8);
    JoinThree(buf.data, kind, size, body);
    buf.Write(kind);
    buf.Write(size);
    buf.Write(body);
  }

  lemma JoinThree(a: seq<byte>, b: seq<byte>, c: seq<byte>, d: seq<byte>)
    ensures a + b + c + d == a + (b + c + d)
  {
  }

  method WriteCafOpus(info: OpusInfo) returns (r: Result<seq<byte>, WriteError>)
    ensures r == if info.packets == [] then Err(NoPackets) else Ok(CafBytes(info))
  {
    hide ChunkBytes, DescBody, OpusPacketFrames, SizeTable, Sizes, Wrap64, Unsigned64, BigEndian;
    if |info.packets| == 0 { return Err(NoPackets); }
    var framesPerPacket := OpusPacketFrames(info.packets[0]);
    var validFrames := Wrap64(info.granulePos - info.preSkip);
    if validFrames <= 0 {
      validFrames := Wrap64(|info.packets| * framesPerPacket);
    }
    var buf := new ByteBuffer();
    buf.Write(CAFF + [0, 1] + [0, 0]);
    CafWriteChunk(buf, DESC, DescBody(framesPerPacket, info.channels));
    CafWriteChunk(buf, MAGC, info.opusHead);
    var table := WriteSizes(info.packets);
    var pakt := BigEndian(|info.packets| % TWO_64, 8) + BigEndian(Unsigned64(validFrames), 8)
                + BigEndian(info.preSkip % TWO_32, 4) + BigEndian(0, 4);
    CafWriteChunk(buf, PAKT, pakt + table);
    var audio := BuildPayload(info.packets);
    CafWriteChunk(buf, DATA, [0, 0, 0, 0] + audio);
    assert PaktHeader(info) == pakt;
    assert buf.data == CafBytes(info);
    return Ok(buf.data);
  }

  method WriteSizes(packets: seq<Packet>) returns (table: seq<byte>)
    ensures table == SizeTable(Sizes(packets))
  {
    hide Vlq;
    table := [];
    ghost var sizes := Sizes(packets);
    assert sizes[0..] == sizes;
    for i := 0 to |packets|
      invariant table + SizeTable(sizes[i..]) == SizeTable(sizes)
    {
      assert sizes[i..][1..] == sizes[i + 1..];
      var code := CafVlq(Wrap64(|packets[i]|));
      table := table + code;
    }
  }

  // ---- The parser as a function ----

  datatype CafError = CafTooShort | NotCaf | DescTooSmall | NotOpusFormat | PaktTooSmall | Truncated
                    | NoPacketTable | OutOfRange

  datatype CafState = CafState(opusHead: Option<seq<byte>>, channels: int, preSkip: int, bytesPerPacket: int,
                               framesPerPacket: int, validFrames: int, primingFrames: int, numPackets: int,
                               vlqData: Option<seq<byte>>, audioData: seq<byte>)

  const BLANK := CafState(None, 0, 0, 0, 0, 0, 0, 0, None, [])

  function Drop(data: seq<byte>, n: nat): seq<byte> {
    if n <= |data| then data[n..] else []
  }

  function Signed32(u: nat): int {
    if u < TWO_31 then u else u - TWO_32
  }

  function ReadDesc(data: seq<byte>, st: CafState): Result<CafState, CafError>
    requires |data| == 32
  {
    if data[8..12] != OPUS then Err(NotOpusFormat)
    else Ok(st.(bytesPerPacket := FromBigEndian(data[16..20]),
                framesPerPacket := FromBigEndian(data[20..24]),
                channels := FromBigEndian(data[24..28])))
  }

  function ReadCookie(cookie: seq<byte>, st: CafState): CafState {
    if |cookie| >= 12 && cookie[..8] == OPUS_HEAD then
      st.(opusHead := Some(cookie),
          preSkip := FromLittleEndian(cookie[10..12]),
          channels := if cookie[9] > 0 then cookie[9] else st.channels)
    else st
  }

  function ReadPaktHeader(data: seq<byte>, st: CafState): CafState
    requires |data| == 24
  {
    Widths();
    st.(numPackets := Signed64(FromBigEndian(data[0..8])),
        validFrames := Signed64(FromBigEndian(data[8..16])),
        primingFrames := Signed32(FromBigEndian(data[16..20])))
  }

  /** One chunk body off the front of the data. Making a slice of negative length is a
      run-time fault, kept as an error. */
  function ReadChunk(kind: seq<byte>, size: int, data: seq<byte>, st: CafState)
    : (r: Result<(CafState, seq<byte>), CafError>)
    ensures r.Ok? ==> |r.value.1| <= |data|
  {
    if kind == DESC then
      if size < 32 then Err(DescTooSmall)
      else if |data| < 32 then Err(Truncated)
      else
        match ReadDesc(data[..32], st)
        case Err(e) => Err(e)
        case Ok(st') => Ok((st', Drop(data[32..], size - 32)))
    else if kind == MAGC then
      if size < 0 then Err(OutOfRange)
      else if |data| < size then Err(Truncated)
      else Ok((ReadCookie(data[..size], st), data[size..]))
    else if kind == PAKT then
      if size < 24 then Err(PaktTooSmall)
      else if |data| < 24 || |data[24..]| < size - 24 then Err(Truncated)
      else Ok((ReadPaktHeader(data[..24], st).(vlqData := Some(data[24..][..size - 24])), data[24..][size - 24..]))
    else if kind == DATA then
      if size == -1 then Ok((st.(audioData := SkipEditCount(data)), []))
      else if size < 0 then Err(OutOfRange)
      else if |data| < size then Err(Truncated)
      else Ok((st.(audioData := SkipEditCount(data[..size])), data[size..]))
    else Ok((st, if size > 0 then Drop(data, size) else data))
  }

  function SkipEditCount(audio: seq<byte>): seq<byte> {
    if |audio| >= 4 then audio[4..] else audio
  }

  function ChunkSize(field: seq<byte>): int
    requires |field| == 8
  {
    Widths();
    Signed64(FromBigEndian(field))
  }

  function ReadChunks(data: seq<byte>, st: CafState): Result<CafState, CafError>
    decreases |data|
  {
    if |data| < 12 then Ok(st)
    else
      match ReadChunk(data[..4], ChunkSize(data[4..12]), data[12..], st)
      case Err(e) => Err(e)
      case Ok((st', rest)) => ReadChunks(rest, st')
  }

  function BuildOpusHead(channels: int, preSkip: int): seq<byte> {
    OPUS_HEAD + [1, channels % 256] + LittleEndian(preSkip % 0x1_0000, 2) + LittleEndian(48000, 4) + [0, 0, 0]
  }

  function PacketSizes(st: CafState): Result<seq<int>, CafError> {
    if st.bytesPerPacket > 0 then
      if st.numPackets < 0 then Err(OutOfRange) else Ok(seq(st.numPackets, _ => st.bytesPerPacket))
    else
      match st.vlqData
      case None => Err(NoPacketTable)
      case Some(table) =>
        if st.numPackets < 0 then Err(OutOfRange)
        else Ok(DecodeSizes(table, st.numPackets, st.framesPerPacket == 0))
  }

  /** Cuts packets off the audio while they fit; slicing below the offset faults. */
  function SplitPackets(sizes: seq<int>, audio: seq<byte>, offset: nat): Result<seq<Packet>, CafError>
    requires offset <= |audio|
    decreases |sizes|
  {
    if sizes == [] then Ok([])
    else
      var end := Wrap64(offset + sizes[0]);
      if end > |audio| then Ok([])
      else if end < offset then Err(OutOfRange)
      else
        match SplitPackets(sizes[1..], audio, end)
        case Err(e) => Err(e)
        case Ok(packets) => Ok([audio[offset..end]] + packets)
  }

  /** Whatever the table says, the packets are the audio from the offset on, in order and
      without gaps, up to the first that does not fit. */
  lemma {:induction false} SplitConserves(sizes: seq<int>, audio: seq<byte>, offset: nat)
    requires offset <= |audio| && SplitPackets(sizes, audio, offset).Ok?
    ensures var packets := SplitPackets(sizes, audio, offset).value; var end := offset + |Concat(packets)|;
      && |packets| <= |sizes| && end <= |audio| && Concat(packets) == audio[offset..end]
      && (|packets| < |sizes| ==> Wrap64(end + sizes[|packets|]) > |audio|)
    decreases |sizes|
  {
    hide Wrap64;
    if sizes != [] {
      var end := Wrap64(offset + sizes[0]);
      if end <= |audio| {
        SplitConserves(sizes[1..], audio, end);
        var rest := SplitPackets(sizes[1..], audio, end).value;
        FirstPacket(audio[offset..end], rest);
        Adjacent(audio, offset, end, end + |Concat(rest)|);
      }
    }
  }

  lemma FirstPacket(first: Packet, rest: seq<Packet>)
    ensures Concat([first] + rest) == first + Concat(rest)
  {
    assert ([first] + rest)[1..] == rest;
  }

  lemma Adjacent(audio: seq<byte>, a: nat, b: nat, c: nat)
    requires a <= b <= c <= |audio|
    ensures audio[a..b] + audio[b..c] == audio[a..c]
  {
  }

  /** Each packet is as long as the table says. */
  lemma {:induction false} SplitSizes(sizes: seq<int>, audio: seq<byte>, offset: nat, i: nat)
    requires offset <= |audio| && SplitPackets(sizes, audio, offset).Ok?
    requires i < |SplitPackets(sizes, audio, offset).value| && i < |sizes| && IsInt64(sizes[i])
    ensures |SplitPackets(sizes, audio, offset).value[i]| == sizes[i]
    decreases |sizes|
  {
    if i > 0 { SplitSizes(sizes[1..], audio, Wrap64(offset + sizes[0]), i - 1); }
  }

  function Finish(st: CafState): Result<OpusInfo, CafError> {
    var channels := if st.channels == 0 then 1 else st.channels;
    var opusHead := match st.opusHead case Some(h) => h case None => BuildOpusHead(channels, st.preSkip);
    match PacketSizes(st)
    case Err(e) => Err(e)
    case Ok(sizes) =>
      var framesPerPacket := if st.framesPerPacket == 0 then 960 else st.framesPerPacket;
      match SplitPackets(sizes, st.audioData, 0)
      case Err(e) => Err(e)
      case Ok(packets) =>
        var granule := Wrap64(st.validFrames + st.primingFrames);
        Ok(OpusInfo(channels, st.preSkip, opusHead, packets,
                    if granule <= 0 then Wrap64(|packets| * framesPerPacket) else granule))
  }

  function ParseCaf(data: seq<byte>): Result<OpusInfo, CafError> {
    if |data| < 8 then Err(CafTooShort)
    else if data[..4] != CAFF then Err(NotCaf)
    else
      match ReadChunks(data[8..], BLANK)
      case Err(e) => Err(e)
      case Ok(st) => Finish(st)
  }

  // ---- The parser as a program ----

  method ParseCafOpus(data: seq<byte>) returns (r: Result<OpusInfo, CafError>)
    ensures r == ParseCaf(data)
  {
    hide ReadChunk, ChunkSize, Finish;
    if |data| < 8 { return Err(CafTooShort); }
    if data[..4] != CAFF { return Err(NotCaf); }
    var reader := new ByteReader(data[8..]);
    var st := BLANK;
    while true
      invariant reader.Valid() && fresh(reader)
      invariant ReadChunks(reader.Remaining(), st) == ReadChunks(data[8..], BLANK)
      decreases |reader.Remaining()|
    {
      ghost var before := reader.Remaining();
      var ok, kind := reader.ReadFull(4);
      if !ok { break; }
      var field;
      ok, field := reader.ReadFull(8);
      if !ok { break; }
      assert field == before[4..12] && reader.Remaining() == before[12..];
      var chunk := ReadOneChunk(reader, kind, ChunkSize(field), st);
      match chunk {
        case Err(e) => return Err(e);
        case Ok(next) => st := next;
      }
    }
    r := FinishParse(st);
  }

  method ReadOneChunk(reader: ByteReader, kind: seq<byte>, size: int, st: CafState)
    returns (r: Result<CafState, CafError>)
    requires reader.Valid()
    modifies reader
    ensures reader.Valid()
    ensures match ReadChunk(kind, size, old(reader.Remaining()), st)
            case Err(e) => r == Err(e)
            case Ok((st', rest)) => r == Ok(st') && reader.Remaining() == rest
  {
    hide ReadDesc, ReadCookie, ReadPaktHeader;
    var ok;
    ghost var all := reader.Remaining();
    assert all[|all|..] == [] && all[..|all|] == all;
    if kind == DESC {
      if size < 32 { return Err(DescTooSmall); }
      var desc;
      ok, desc := reader.ReadFull(32);
      if !ok { return Err(Truncated); }
      r := ReadDesc(desc, st);
      if r.Err? { return; }
      ghost var rest := reader.Remaining();
      assert rest[|rest|..] == [] && rest[0..] == rest;
      if size > 32 { reader.Discard(size - 32); }
    } else if kind == MAGC {
      if size < 0 { return Err(OutOfRange); }
      var cookie;
      ok, cookie := reader.ReadFull(size);
      if !ok { return Err(Truncated); }
      return Ok(ReadCookie(cookie, st));
    } else if kind == PAKT {
      if size < 24 { return Err(PaktTooSmall); }
      var header, table;
      ok, header := reader.ReadFull(24);
      if !ok { return Err(Truncated); }
      ok, table := reader.ReadFull(size - 24);
      if !ok { return Err(Truncated); }
      return Ok(ReadPaktHeader(header, st).(vlqData := Some(table)));
    } else if kind == DATA {
      var audio;
      if size == -1 {
        ok, audio := reader.ReadFull(|reader.Remaining()|);
      } else {
        if size < 0 { return Err(OutOfRange); }
        ok, audio := reader.ReadFull(size);
        if !ok { return Err(Truncated); }
      }
      return Ok(st.(audioData := if |audio| >= 4 then audio[4..] else audio));
    } else {
      if size > 0 { reader.Discard(size); }
      assert reader.Remaining() == if size > 0 then Drop(all, size) else all;
      return Ok(st);
    }
  }

  method FinishParse(st: CafState) returns (r: Result<OpusInfo, CafError>)
    ensures r == Finish(st)
  {
    hide DecodeSizes;
    var channels := st.channels;
    if channels == 0 { channels := 1; }
    var opusHead;
    if st.opusHead.None? { opusHead := BuildOpusHead(channels, st.preSkip); } else { opusHead := st.opusHead.value; }
    var sizes: seq<int>;
    if st.bytesPerPacket > 0 {
      if st.numPackets < 0 { return Err(OutOfRange); }
      sizes := seq(st.numPackets, _ => st.bytesPerPacket);
    } else if st.vlqData.Some? {
      if st.numPackets < 0 { return Err(OutOfRange); }
      sizes := DecodeCafPacketSizes(st.vlqData.value, st.numPackets, st.framesPerPacket == 0);
    } else {
      return Err(NoPacketTable);
    }
    var framesPerPacket := st.framesPerPacket;
    if framesPerPacket == 0 { framesPerPacket := 960; }
    var split := SplitAudio(sizes, st.audioData);
    if split.Err? { return Err(split.error); }
    var packets := split.value;
    var granulePos := Wrap64(st.validFrames + st.primingFrames);
    if granulePos <= 0 { granulePos := Wrap64(|packets| * framesPerPacket); }
    return Ok(OpusInfo(channels, st.preSkip, opusHead, packets, granulePos));
  }

  method SplitAudio(sizes: seq<int>, audio: seq<byte>) returns (r: Result<seq<Packet>, CafError>)
    ensures r == SplitPackets(sizes, audio, 0)
  {
    hide Wrap64;
    var packets: seq<Packet> := [];
    var offset := 0;
    assert sizes[0..] == sizes;
    ghost var whole := SplitPackets(sizes, audio, 0);
    assert whole.Ok? ==> packets + whole.value == whole.value;
    for i := 0 to |sizes|
      invariant 0 <= offset <= |audio|
      invariant SplitPackets(sizes, audio, 0)
             == match SplitPackets(sizes[i..], audio, offset)
                case Err(e) => Err(e)
                case Ok(more) => Ok(packets + more)
    {
      assert sizes[i..][1..] == sizes[i + 1..];
      var end := Wrap64(offset + sizes[i]);
      assert packets + [] == packets;
      if end > |audio| { return Ok(packets); }
      if end < offset { return Err(OutOfRange); }
      ghost var more := SplitPackets(sizes[i + 1..], audio, end);
      assert more.Ok? ==> packets + ([audio[offset..end]] + more.value) == packets + [audio[offset..end]] + more.value;
      packets := packets + [audio[offset..end]];
      offset := end;
    }
    assert packets + [] == packets;
    return Ok(packets);
  }
}
