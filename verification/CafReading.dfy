/** What the CAF parser makes of files the writer did not write: unknown chunks, long and
    open-ended ones, constant packet sizes, frame counts in the table, no cookie. */
module CafReading {
  import opened Bytes
  import opened OggFraming
  import opened OggOpus
  import opened CafOpus
  import opened Remux

  // ---- Chunk by chunk ----

  datatype Chunk = Chunk(kind: seq<byte>, body: seq<byte>)

  function AllBytes(cs: seq<Chunk>): seq<byte> {
    if cs == [] then [] else ChunkBytes(cs[0].kind, cs[0].body) + AllBytes(cs[1..])
  }

  ghost predicate WellFormed(cs: seq<Chunk>) {
    forall i :: 0 <= i < |cs| ==> |cs[i].kind| == 4 && |cs[i].body| < TWO_63
  }

  predicate IsKnown(kind: seq<byte>) {
    kind == Ascii("desc") || kind == Ascii("magc") || kind == Ascii("pakt") || kind == Ascii("data")
  }

  function Known(cs: seq<Chunk>): seq<Chunk> {
    if cs == [] then [] else (if IsKnown(cs[0].kind) then [cs[0]] else []) + Known(cs[1..])
  }

  /** The names the format gives its chunks. */
  lemma Names()
    ensures CAFF == Ascii("caff") && OPUS == Ascii("opus")
    ensures DESC == Ascii("desc") && MAGC == Ascii("magc") && PAKT == Ascii("pakt") && DATA == Ascii("data")
  {
  }

  lemma Prefix(body: seq<byte>, rest: seq<byte>, n: nat)
    requires n <= |body|
    ensures (body + rest)[..n] == body[..n] && (body + rest)[n..] == body[n..] + rest
    ensures (body + rest)[..|body|] == body && (body + rest)[|body|..] == rest
  {
  }

  /** A chunk is read from its own body, and reading goes on right behind it. */
  lemma ReadOwnBody(kind: seq<byte>, body: seq<byte>, rest: seq<byte>, st: CafState)
    requires |body| < TWO_63
    ensures ReadChunk(kind, |body|, body + rest, st)
         == match ReadChunk(kind, |body|, body, st)
            case Err(e) => Err(e)
            case Ok((st', _)) => Ok((st', rest))
  {
    hide ReadDesc, ReadCookie, ReadPaktHeader, SkipEditCount;
    Prefix(body, rest, |body|);
    assert body + [] == body && body[..|body|] == body;
    if |body| >= 32 { Prefix(body, rest, 32); }
    if |body| >= 24 {
      Prefix(body, rest, 24);
      Prefix(body[24..], rest, |body| - 24);
      assert body[24..][..|body| - 24] == body[24..];
    }
  }

  lemma UnknownChunkSkipped(kind: seq<byte>, body: seq<byte>, rest: seq<byte>, st: CafState)
    requires |kind| == 4 && !IsKnown(kind) && |body| < TWO_63
    ensures ReadChunks(ChunkBytes(kind, body) + rest, st) == ReadChunks(rest, st)
  {
    hide ReadChunks, ChunkBytes;
    Names();
    ChunkStep(kind, body, rest, st);
    Prefix(body, rest, |body|);
  }

  /** What two files say after a chunk they share. */
  lemma SharedChunk(c: Chunk, one: seq<byte>, two: seq<byte>, st: CafState)
    requires |c.kind| == 4 && |c.body| < TWO_63
    requires forall next :: ReadChunks(one, next) == ReadChunks(two, next)
    ensures ReadChunks(ChunkBytes(c.kind, c.body) + one, st) == ReadChunks(ChunkBytes(c.kind, c.body) + two, st)
  {
    hide ReadChunks, ReadChunk, ChunkBytes;
    ChunkStep(c.kind, c.body, one, st);
    ChunkStep(c.kind, c.body, two, st);
    ReadOwnBody(c.kind, c.body, one, st);
    ReadOwnBody(c.kind, c.body, two, st);
  }

  /** Chunks of unknown kind are invisible, wherever they stand. */
  lemma {:induction false} UnknownInvisible(cs: seq<Chunk>, rest: seq<byte>, st: CafState)
    requires WellFormed(cs)
    ensures ReadChunks(AllBytes(cs) + rest, st) == ReadChunks(AllBytes(Known(cs)) + rest, st)
    decreases |cs|
  {
    hide ReadChunks, ChunkBytes, IsKnown;
    if cs != [] {
      var c, tail, shown := cs[0], AllBytes(cs[1..]) + rest, AllBytes(Known(cs[1..])) + rest;
      assert AllBytes(cs) + rest == ChunkBytes(c.kind, c.body) + tail;
      forall next ensures ReadChunks(tail, next) == ReadChunks(shown, next) {
        UnknownInvisible(cs[1..], rest, next);
      }
      if IsKnown(c.kind) {
        assert Known(cs) == [c] + Known(cs[1..]) && Known(cs)[1..] == Known(cs[1..]);
        hide Known;
        assert AllBytes(Known(cs)) + rest == ChunkBytes(c.kind, c.body) + shown;
        SharedChunk(c, tail, shown, st);
      } else {
        assert Known(cs) == Known(cs[1..]);
        UnknownChunkSkipped(c.kind, c.body, tail, st);
      }
    }
  }

  /** The four chunks of a written file. */
  function Written(info: OpusInfo): seq<Chunk>
    requires info.packets != []
  {
    [Chunk(DESC, DescBody(OpusPacketFrames(info.packets[0]), info.channels)), Chunk(MAGC, info.opusHead),
     Chunk(PAKT, PaktHeader(info) + SizeTable(Sizes(info.packets))), Chunk(DATA, [0, 0, 0, 0] + Concat(info.packets))]
  }

  lemma FourChunks(a: Chunk, b: Chunk, c: Chunk, d: Chunk)
    ensures AllBytes([a, b, c, d])
         == ChunkBytes(a.kind, a.body) + ChunkBytes(b.kind, b.body)
             + ChunkBytes(c.kind, c.body) + ChunkBytes(d.kind, d.body)
  {
    hide ChunkBytes;
    assert [a, b, c, d][1..] == [b, c, d] && [b, c, d][1..] == [c, d] && [c, d][1..] == [d] && [d][1..] == [];
    assert AllBytes([d]) == ChunkBytes(d.kind, d.body) + [];
    assert AllBytes([c, d]) == ChunkBytes(c.kind, c.body) + AllBytes([d]);
    assert AllBytes([b, c, d]) == ChunkBytes(b.kind, b.body) + AllBytes([c, d]);
  }

  /** A written file parses alike with unknown chunks at any of its chunk boundaries. */
  lemma PaddedFileParsesAlike(info: OpusInfo, cs: seq<Chunk>)
    requires info.packets != [] && WellFormed(cs) && Known(cs) == Written(info)
    ensures ParseCaf(Ascii("caff") + [0, 1] + [0, 0] + AllBytes(cs)) == ParseCaf(CafBytes(info))
  {
    hide ReadChunks, ChunkBytes, AllBytes, DescBody, PaktHeader, SizeTable, Sizes, Concat, OpusPacketFrames, Finish;
    Names();
    var lead := CAFF + [0, 1] + [0, 0];
    UnknownInvisible(cs, [], BLANK);
    var w := Written(info);
    FourChunks(w[0], w[1], w[2], w[3]);
    assert w == [w[0], w[1], w[2], w[3]];
    assert CafBytes(info) == lead + AllBytes(w);
    assert AllBytes(cs) + [] == AllBytes(cs) && AllBytes(w) + [] == AllBytes(w);
    Prefix(lead, AllBytes(cs), 8);
    Prefix(lead, AllBytes(w), 8);
    assert (lead + AllBytes(cs))[..4] == CAFF && (lead + AllBytes(w))[..4] == CAFF;
  }

  // ---- One chunk of each kind ----

  /** A description of 32 bytes or more: three fields count, what follows is passed over. */
  lemma DescRead32(body: seq<byte>, rest: seq<byte>, st: CafState)
    requires 32 <= |body| < TWO_63
    ensures ReadChunks(ChunkBytes(Ascii("desc"), body) + rest, st)
         == if body[8..12] != Ascii("opus") then Err(NotOpusFormat)
            else ReadChunks(rest, st.(bytesPerPacket := FromBigEndian(body[16..20]),
                                      framesPerPacket := FromBigEndian(body[20..24]),
                                      channels := FromBigEndian(body[24..28])))
  {
    hide ReadChunks, ChunkBytes, FromBigEndian;
    Names();
    ChunkStep(DESC, body, rest, st);
    Prefix(body, rest, 32);
    Prefix(body[32..], rest, |body| - 32);
    var d := body[..32];
    assert d[8..12] == body[8..12] && d[16..20] == body[16..20];
    assert d[20..24] == body[20..24] && d[24..28] == body[24..28];
  }

  /** A cookie that is short or no OpusHead is passed over; one that is says the pre-skip,
      and the channels if it names any. */
  lemma CookieRead(body: seq<byte>, rest: seq<byte>, st: CafState)
    requires |body| < TWO_63
    ensures ReadChunks(ChunkBytes(Ascii("magc"), body) + rest, st)
         == if |body| < 12 || body[..8] != Ascii("OpusHead") then ReadChunks(rest, st)
            else ReadChunks(rest, st.(opusHead := Some(body), preSkip := body[10] as int + 256 * body[11] as int,
                                      channels := if body[9] == 0 then st.channels else body[9]))
  {
    hide ReadChunks, ChunkBytes;
    Names();
    assert OPUS_HEAD == Ascii("OpusHead");
    ChunkStep(MAGC, body, rest, st);
    Prefix(body, rest, |body|);
    if |body| >= 12 { TwoBytes(body[10..12]); }
  }

  lemma TwoBytes(bs: seq<byte>)
    requires |bs| == 2
    ensures FromLittleEndian(bs) == bs[0] as int + 256 * bs[1] as int
  {
    assert bs[1..][1..] == [];
    assert FromLittleEndian(bs[1..]) == bs[1];
  }

  /** A packet table of 24 bytes or more: count, valid and priming frames, then the codes. */
  lemma PaktRead24(body: seq<byte>, rest: seq<byte>, st: CafState)
    requires 24 <= |body| < TWO_63
    ensures FromBigEndian(body[0..8]) < TWO_64 && FromBigEndian(body[8..16]) < TWO_64
    ensures ReadChunks(ChunkBytes(Ascii("pakt"), body) + rest, st)
         == ReadChunks(rest, st.(numPackets := Signed64(FromBigEndian(body[0..8])),
                                 validFrames := Signed64(FromBigEndian(body[8..16])),
                                 primingFrames := Signed32(FromBigEndian(body[16..20])),
                                 vlqData := Some(body[24..])))
  {
    hide ReadChunks, ChunkBytes, FromBigEndian;
    Widths();
    Names();
    ChunkStep(PAKT, body, rest, st);
    Prefix(body, rest, 24);
    Prefix(body[24..], rest, |body| - 24);
    assert body[24..][..|body| - 24] == body[24..];
    var d := body[..24];
    assert d[0..8] == body[0..8] && d[8..16] == body[8..16] && d[16..20] == body[16..20];
  }

  /** Audio behind its four-byte edit count; audio shorter than that is kept whole. */
  lemma DataRead(edits: seq<byte>, audio: seq<byte>, rest: seq<byte>, st: CafState)
    requires |edits| + |audio| < TWO_63 && (|edits| == 4 || (|edits| < 4 && audio == []))
    ensures ReadChunks(ChunkBytes(Ascii("data"), edits + audio) + rest, st)
         == ReadChunks(rest, st.(audioData := if |edits| == 4 then audio else edits))
  {
    hide ReadChunks, ChunkBytes;
    Names();
    var body := edits + audio;
    ChunkStep(DATA, body, rest, st);
    Prefix(body, rest, |body|);
    assert |edits| == 4 ==> body[4..] == audio;
    assert audio == [] ==> body == edits;
  }

  /** A data chunk of size -1 runs to the end of the file, as if it gave its length. */
  lemma OpenDataRead(edits: seq<byte>, audio: seq<byte>, st: CafState)
    requires |edits| == 4 && 4 + |audio| < TWO_63
    ensures ReadChunks(Ascii("data") + [255, 255, 255, 255, 255, 255, 255, 255] + (edits + audio), st)
         == ReadChunks(ChunkBytes(Ascii("data"), edits + audio), st)
         == Ok(st.(audioData := audio))
  {
    hide ReadChunk, ChunkBytes;
    Names();
    var field: seq<byte> := [255, 255, 255, 255, 255, 255, 255, 255];
    var data := DATA + field + (edits + audio);
    OpenSize();
    assert data[..4] == DATA && data[4..12] == field && data[12..] == edits + audio;
    OpenChunk(edits, audio, st);
    DataRead(edits, audio, [], st);
    assert ChunkBytes(DATA, edits + audio) + [] == ChunkBytes(DATA, edits + audio);
    NoRoom();
  }

  lemma OpenChunk(edits: seq<byte>, audio: seq<byte>, st: CafState)
    requires |edits| == 4
    ensures ReadChunk(DATA, -1, edits + audio, st) == Ok((st.(audioData := audio), []))
  {
    assert (edits + audio)[4..] == audio;
  }

  lemma OpenSize()
    ensures ChunkSize([255, 255, 255, 255, 255, 255, 255, 255]) == -1
  {
    var field: seq<byte> := [255, 255, 255, 255, 255, 255, 255, 255];
    hide FromBigEndian;
    AllOnes(field);
    Widths();
  }

  lemma {:induction false} AllOnes(bs: seq<byte>)
    requires forall i :: 0 <= i < |bs| ==> bs[i] == 255
    ensures FromBigEndian(bs) == Pow256(|bs|) - 1
  {
    if bs != [] { AllOnes(bs[..|bs| - 1]); }
  }

  // ---- What the chunks add up to ----

  /** With a constant packet size the audio is cut into as many packets of that size as
      are announced, or as fit. */
  lemma {:induction false} ConstantSizes(size: nat, n: nat, audio: seq<byte>, offset: nat)
    requires 0 < size && offset <= |audio| && |audio| + size < TWO_63
    ensures var r := SplitPackets(seq(n, _ => size as int), audio, offset);
      && r.Ok? && |r.value| <= n
      && |r.value| * size <= |audio| - offset
      && (|r.value| < n ==> |audio| - offset < (|r.value| + 1) * size)
      && forall i :: 0 <= i < |r.value| ==> |r.value[i]| == size
    decreases n
  {
    var sizes := seq(n, _ => size as int);
    if n > 0 && offset + size <= |audio| {
      assert sizes[1..] == seq(n - 1, _ => size as int);
      ConstantSizes(size, n - 1, audio, offset + size);
      var more := SplitPackets(sizes[1..], audio, offset + size).value;
      assert (|more| + 1) * size == |more| * size + size;
      assert (|more| + 2) * size == (|more| + 1) * size + size;
    }
  }

  lemma ConstantPackets(st: CafState)
    requires 0 < st.bytesPerPacket && 0 <= st.numPackets && |st.audioData| + st.bytesPerPacket < TWO_63
    ensures Finish(st).Ok?
    ensures var packets := Finish(st).value.packets;
      && |packets| <= st.numPackets && |packets| * st.bytesPerPacket <= |st.audioData|
      && (|packets| < st.numPackets ==> |st.audioData| < (|packets| + 1) * st.bytesPerPacket)
      && forall i :: 0 <= i < |packets| ==> |packets[i]| == st.bytesPerPacket
  {
    hide SplitPackets, Wrap64;
    ConstantSizes(st.bytesPerPacket, st.numPackets, st.audioData, 0);
  }

  /** Which files are refused at the start. */
  lemma NotCafRefused(data: seq<byte>)
    ensures ParseCaf(data) == Err(CafTooShort) <==> |data| < 8
    ensures |data| >= 8 ==> (ParseCaf(data) == Err(NotCaf) <==> data[..4] != Ascii("caff"))
  {
    hide ReadChunks, Finish;
    assert CAFF == Ascii("caff");
    if |data| >= 8 && data[..4] == CAFF { NeverNotCaf(data[8..], BLANK); }
  }

  lemma {:induction false} NeverNotCaf(data: seq<byte>, st: CafState)
    ensures ReadChunks(data, st) !in {Err(CafTooShort), Err(NotCaf)}
    ensures ReadChunks(data, st).Ok? ==> Finish(ReadChunks(data, st).value) !in {Err(CafTooShort), Err(NotCaf)}
    decreases |data|
  {
    if |data| >= 12 {
      var r := ReadChunk(data[..4], ChunkSize(data[4..12]), data[12..], st);
      hide ReadChunk;
      if r.Ok? { NeverNotCaf(r.value.1, r.value.0); }
    }
    if ReadChunks(data, st).Ok? { FinishErrors(ReadChunks(data, st).value); }
  }

  lemma FinishErrors(st: CafState)
    ensures Finish(st).Err? ==> Finish(st).error in {OutOfRange, NoPacketTable}
  {
    hide BuildOpusHead, DecodeSizes;
    var sizes := PacketSizes(st);
    if sizes.Ok? { SplitErrors(sizes.value, st.audioData, 0); }
  }

  lemma {:induction false} SplitErrors(sizes: seq<int>, audio: seq<byte>, offset: nat)
    requires offset <= |audio|
    ensures SplitPackets(sizes, audio, offset).Err? ==> SplitPackets(sizes, audio, offset).error == OutOfRange
    decreases |sizes|
  {
    hide Wrap64;
    if sizes != [] {
      var end := Wrap64(offset + sizes[0]);
      if offset <= end <= |audio| { SplitErrors(sizes[1..], audio, end); }
    }
  }

  /** When a chunk is refused, and why: sizes below the fixed part, bytes that end too soon, a
      format other than Opus, and negative sizes other than the audio's minus one. */
  lemma ChunkRefusedFor(kind: seq<byte>, size: int, data: seq<byte>, st: CafState, e: CafError)
    ensures ReadChunk(kind, size, data, st) == Err(e) <==>
      || (kind == Ascii("desc") && size < 32 && e == DescTooSmall)
      || (kind == Ascii("desc") && size >= 32 && |data| < 32 && e == Truncated)
      || (kind == Ascii("desc") && size >= 32 && |data| >= 32 && data[8..12] != Ascii("opus") && e == NotOpusFormat)
      || (kind == Ascii("pakt") && size < 24 && e == PaktTooSmall)
      || (kind == Ascii("pakt") && size >= 24 && |data| < size && e == Truncated)
      || (kind == Ascii("magc") && size < 0 && e == OutOfRange)
      || (kind == Ascii("data") && size < -1 && e == OutOfRange)
      || (kind in {Ascii("magc"), Ascii("data")} && size >= 0 && |data| < size && e == Truncated)
  {
    hide ReadCookie, ReadPaktHeader;
    Names();
  }

  /** A negative number of packets is refused before any is cut. */
  lemma NegativeCountRefused(st: CafState)
    requires st.numPackets < 0 && (st.bytesPerPacket > 0 || st.vlqData.Some?)
    ensures Finish(st) == Err(OutOfRange)
  {
  }

  /** Without a packet table and a constant size there is no parse. */
  lemma NoTableNoParse(st: CafState)
    requires st.bytesPerPacket <= 0 && st.vlqData == None
    ensures Finish(st) == Err(NoPacketTable)
  {
  }

  /** Without a cookie the parser builds the OpusHead of section 5.1 of RFC 7845 that says
      what the file says. */
  lemma BuiltHeadAgrees(st: CafState)
    requires st.opusHead == None && 0 <= st.channels < 256 && 0 <= st.preSkip < 0x1_0000 && Finish(st).Ok?
    ensures var info := Finish(st).value; var h := info.opusHead;
      && HeadAgrees(info) && |h| == 19
      && info.channels == (if st.channels == 0 then 1 else st.channels) && info.preSkip == st.preSkip
      && h[8] == 1 && h[12..16] == [0x80, 0xBB, 0, 0] && h[16..19] == [0, 0, 0]
  {
    hide PacketSizes, SplitPackets, Wrap64, LittleEndian, FromLittleEndian;
    var channels := if st.channels == 0 then 1 else st.channels;
    var skip, rate := LittleEndian(st.preSkip, 2), LittleEndian(48000, 4);
    Widths();
    LittleEndianInverse(st.preSkip, 2);
    RateBytes();
    var h := OPUS_HEAD + [1, channels] + skip + rate + [0, 0, 0];
    assert BuildOpusHead(channels, st.preSkip) == h;
    assert h[..8] == OPUS_HEAD && h[8] == 1 && h[9] == channels;
    assert h[10..12] == skip && h[12..16] == rate && h[16..19] == [0, 0, 0];
  }

  lemma RateBytes()
    ensures LittleEndian(48000, 4) == [0x80, 0xBB, 0, 0]
  {
    assert LittleEndian(0, 2) == [0, 0];
    assert LittleEndian(187, 3) == [187] + LittleEndian(0, 2);
  }

  // ---- Frame counts in the table ----

  function PaktHead(count: nat, valid: int, priming: nat): (head: seq<byte>)
    ensures |head| == 24
  {
    BigEndian(count, 8) + BigEndian(Unsigned64(valid), 8) + BigEndian(priming, 4) + [0, 0, 0, 0]
  }

  /** A file that leaves the frames per packet open and counts them in its table. */
  function Framed(info: OpusInfo, frames: seq<int>, valid: int): seq<Chunk>
    requires |frames| == |info.packets|
    requires info.channels >= 0 && info.preSkip >= 0
  {
    [Chunk(Ascii("desc"), DescBody(0, info.channels)), Chunk(Ascii("magc"), info.opusHead),
     Chunk(Ascii("pakt"),
           PaktHead(|info.packets|, valid, info.preSkip) + SizeAndFrameTable(Sizes(info.packets), frames)),
     Chunk(Ascii("data"), [0, 0, 0, 0] + Concat(info.packets))]
  }

  ghost predicate FramedInRange(info: OpusInfo, frames: seq<int>, valid: int) {
    && HeadAgrees(info) && |info.opusHead| < TWO_63 && |info.packets| < TWO_63 && IsInt64(valid)
    && |frames| == |info.packets| && Quantities(frames) && 4 + |Concat(info.packets)| < TWO_63
    && 0 <= info.preSkip < TWO_31 && 0 <= info.channels < TWO_32
    && 24 + |SizeAndFrameTable(Sizes(info.packets), frames)| < TWO_63
  }

  lemma PaktHeadRead(count: nat, valid: int, priming: nat, table: seq<byte>)
    requires count < TWO_63 && IsInt64(valid) && priming < TWO_31
    ensures var body := PaktHead(count, valid, priming) + table;
      && FromBigEndian(body[0..8]) == count && FromBigEndian(body[8..16]) == Unsigned64(valid)
      && FromBigEndian(body[16..20]) == priming && body[24..] == table
  {
    hide BigEndian, FromBigEndian, Unsigned64;
    var c, v, p := BigEndian(count, 8), BigEndian(Unsigned64(valid), 8), BigEndian(priming, 4);
    var body := PaktHead(count, valid, priming) + table;
    assert body[0..8] == c && body[8..16] == v && body[16..20] == p && body[24..] == table;
    Widths();
    BigEndianInverse(count, 8);
    BigEndianInverse(Unsigned64(valid), 8);
    BigEndianInverse(priming, 4);
  }

  lemma OpenDesc(channels: nat)
    requires channels < TWO_32
    ensures var d := DescBody(0, channels);
      && |d| == 32 && d[8..12] == Ascii("opus") && FromBigEndian(d[16..20]) == 0
      && FromBigEndian(d[20..24]) == 0 && FromBigEndian(d[24..28]) == channels
  {
    hide BigEndian, FromBigEndian;
    Names();
    var zero, c := BigEndian(0, 4), BigEndian(channels, 4);
    DescSlices(RATE, OPUS, zero, zero, c);
    Widths();
    BigEndianInverse(0, 4);
    BigEndianInverse(channels, 4);
  }

  function FramedState(info: OpusInfo, frames: seq<int>, valid: int): CafState
    requires |frames| == |info.packets|
  {
    BLANK.(bytesPerPacket := 0, framesPerPacket := 0, channels := info.channels, opusHead := Some(info.opusHead),
           preSkip := info.preSkip, numPackets := |info.packets|, validFrames := valid, primingFrames := info.preSkip,
           vlqData := Some(SizeAndFrameTable(Sizes(info.packets), frames)), audioData := Concat(info.packets))
  }

  lemma HeadBytes(info: OpusInfo)
    requires HeadAgrees(info)
    ensures info.opusHead[..8] == Ascii("OpusHead") && info.channels == info.opusHead[9]
    ensures info.preSkip == info.opusHead[10] as int + 256 * info.opusHead[11] as int
  {
    assert OPUS_HEAD == Ascii("OpusHead");
    TwoBytes(info.opusHead[10..12]);
  }

  lemma FramedChunks(info: OpusInfo, frames: seq<int>, valid: int)
    requires FramedInRange(info, frames, valid)
    ensures ReadChunks(AllBytes(Framed(info, frames, valid)), BLANK) == Ok(FramedState(info, frames, valid))
  {
    hide ReadChunks, ChunkBytes, DescBody, PaktHead, SizeAndFrameTable, Sizes, Concat, HeadAgrees, FromBigEndian, Ascii;
    hide AllBytes, Unsigned64, Signed64, Quantities;
    var cs := Framed(info, frames, valid);
    FourChunks(cs[0], cs[1], cs[2], cs[3]);
    assert cs == [cs[0], cs[1], cs[2], cs[3]];
    var b0, b1 := ChunkBytes(cs[0].kind, cs[0].body), ChunkBytes(cs[1].kind, cs[1].body);
    var b2, b3 := ChunkBytes(cs[2].kind, cs[2].body), ChunkBytes(cs[3].kind, cs[3].body);
    assert AllBytes(cs) == b0 + (b1 + (b2 + (b3 + [])));
    OpenDesc(info.channels);
    DescRead32(cs[0].body, b1 + (b2 + (b3 + [])), BLANK);
    HeadBytes(info);
    HeadIsLong(info);
    CookieRead(cs[1].body, b2 + (b3 + []),
               BLANK.(bytesPerPacket := 0, framesPerPacket := 0, channels := info.channels));
    PaktHeadRead(|info.packets|, valid, info.preSkip, SizeAndFrameTable(Sizes(info.packets), frames));
    var st := BLANK.(bytesPerPacket := 0, framesPerPacket := 0, channels := info.channels,
                     opusHead := Some(info.opusHead), preSkip := info.preSkip);
    PaktRead24(cs[2].body, b3 + [], st);
    SmallSigned(|info.packets|, valid, info.preSkip);
    DataRead([0, 0, 0, 0], Concat(info.packets), [], FramedState(info, frames, valid).(audioData := []));
    NoRoom();
  }

  lemma HeadIsLong(info: OpusInfo)
    requires HeadAgrees(info)
    ensures |info.opusHead| >= 19
  {
  }

  lemma SmallSigned(count: nat, valid: int, priming: nat)
    requires count < TWO_63 && IsInt64(valid) && priming < TWO_31
    ensures Signed64(count) == count && Signed64(Unsigned64(valid)) == valid && Signed32(priming) == priming
  {
  }

  /** The frame counts are skipped, and without a frame duration a packet lasts 20 ms. */
  lemma FramedFileParses(info: OpusInfo, frames: seq<int>, valid: int)
    requires FramedInRange(info, frames, valid)
    ensures var file := Ascii("caff") + [0, 1] + [0, 0] + AllBytes(Framed(info, frames, valid));
      var granule := Wrap64(valid + info.preSkip);
      ParseCaf(file)
      == Ok(info.(channels := if info.channels == 0 then 1 else info.channels,
                  granulePos := if granule > 0 then granule else Wrap64(|info.packets| * 960)))
  {
    hide ReadChunks, ChunkBytes, SizeAndFrameTable, Sizes, Concat, DecodeSizes, SplitPackets, Wrap64, AllBytes, Framed;
    Names();
    FramedChunks(info, frames, valid);
    var lead, rest := CAFF + [0, 1] + [0, 0], AllBytes(Framed(info, frames, valid));
    Prefix(lead, rest, 8);
    assert (lead + rest)[..4] == CAFF;
    SizesAreQuantities(info.packets);
    var table := SizeAndFrameTable(Sizes(info.packets), frames);
    DecodeSizeAndFrameTable(Sizes(info.packets), frames, []);
    assert table + [] == table;
    assert Concat(info.packets)[0..] == Concat(info.packets);
    SplitConcat(info.packets, Concat(info.packets), 0);
  }

  // ---- The layout of a written file ----

  lemma ChunkLayout(kind: seq<byte>, body: seq<byte>)
    requires |kind| == 4 && |body| < TWO_63
    ensures var c := ChunkBytes(kind, body);
      |c| == 12 + |body| && c[..4] == kind && FromBigEndian(c[4..12]) == |body| && c[12..] == body
  {
    hide BigEndian, FromBigEndian;
    var size := BigEndian(|body|, 8);
    Middle(kind, size, body);
    Widths();
    BigEndianInverse(|body|, 8);
  }

  /** The description of section "desc": 48 kHz as a double, the format, no flags, packets of
      varying size, then frames per packet and channels. */
  lemma DescLayout(frames: nat, channels: nat)
    requires frames < TWO_32 && channels < TWO_32
    ensures var d := DescBody(frames, channels);
      && |d| == 32 && d[0..8] == [0x40, 0xE7, 0x70, 0, 0, 0, 0, 0] && d[8..12] == Ascii("opus")
      && FromBigEndian(d[12..16]) == FromBigEndian(d[16..20]) == FromBigEndian(d[28..32]) == 0
      && FromBigEndian(d[20..24]) == frames && FromBigEndian(d[24..28]) == channels
  {
    hide BigEndian, FromBigEndian;
    Names();
    var zero, f, c := BigEndian(0, 4), BigEndian(frames, 4), BigEndian(channels, 4);
    var d := RATE + OPUS + zero + zero + f + c + zero;
    assert d[0..8] == RATE && d[8..12] == OPUS && d[12..16] == zero && d[16..20] == zero;
    assert d[20..24] == f && d[24..28] == c && d[28..32] == zero;
    Widths();
    BigEndianInverse(0, 4);
    BigEndianInverse(frames, 4);
    BigEndianInverse(channels, 4);
  }

  /** The packet table: packets, valid frames, priming frames, no remainder frames. */
  lemma PaktLayout(info: OpusInfo)
    requires info.packets != [] && |info.packets| < TWO_63 && 0 <= info.preSkip < TWO_31
    requires IsInt64(info.granulePos) && info.granulePos - info.preSkip >= -TWO_63
    requires info.preSkip + |info.packets| * OpusPacketFrames(info.packets[0]) < TWO_63
    ensures var h := PaktHeader(info);
      && |h| == 24 && FromBigEndian(h[0..8]) == |info.packets| && FromBigEndian(h[16..20]) == info.preSkip
      && FromBigEndian(h[20..24]) == 0
      && FromBigEndian(h[8..16])
         == if info.granulePos > info.preSkip then info.granulePos - info.preSkip
            else |info.packets| * OpusPacketFrames(info.packets[0])
  {
    hide BigEndian, FromBigEndian, OpusPacketFrames, Wrap64, Unsigned64;
    SamplesPositive(info);
    WrappedGap(info.granulePos, info.preSkip, |info.packets| * OpusPacketFrames(info.packets[0]));
    var valid := ValidFrames(info);
    assert Unsigned64(valid) == valid by { PlainUnsigned(valid); }
    var c, v := BigEndian(|info.packets|, 8), BigEndian(valid, 8);
    var p, z := BigEndian(info.preSkip, 4), BigEndian(0, 4);
    var h := c + v + p + z;
    assert PaktHeader(info) == h;
    assert h[0..8] == c && h[8..16] == v && h[16..20] == p && h[20..24] == z;
    Widths();
    BigEndianInverse(|info.packets|, 8);
    BigEndianInverse(valid, 8);
    BigEndianInverse(info.preSkip, 4);
    BigEndianInverse(0, 4);
  }

  lemma PlainUnsigned(x: int)
    requires 0 <= x < TWO_63
    ensures Unsigned64(x) == x
  {
  }

  /** A written file: magic, version 1, and the four chunks in this order. */
  lemma FileLayout(info: OpusInfo)
    requires info.packets != []
    ensures CafBytes(info)
         == Ascii("caff") + [0, 1] + [0, 0]
            + ChunkBytes(Ascii("desc"), DescBody(OpusPacketFrames(info.packets[0]), info.channels))
            + ChunkBytes(Ascii("magc"), info.opusHead)
            + ChunkBytes(Ascii("pakt"), PaktHeader(info) + SizeTable(Sizes(info.packets)))
            + ChunkBytes(Ascii("data"), [0, 0, 0, 0] + Concat(info.packets))
  {
    hide ChunkBytes, DescBody, OpusPacketFrames, PaktHeader, SizeTable, Sizes, Concat;
    Names();
  }
}
