/** The remuxer's central promise: the two containers carry the same packets and
    undo each other. */
module Remux {
  import opened Bytes
  import opened OggFraming
  import opened OggOpus
  import opened CafOpus

  // ---- Reading back one chunk at a time ----

  lemma ChunkStep(kind: seq<byte>, body: seq<byte>, rest: seq<byte>, st: CafState)
    requires |kind| == 4 && |body| < TWO_63
    ensures ReadChunks(ChunkBytes(kind, body) + rest, st)
         == match ReadChunk(kind, |body|, body + rest, st)
            case Err(e) => Err(e)
            case Ok((st', rest')) => ReadChunks(rest', st')
  {
    hide ReadChunk, ChunkSize, BigEndian;
    var field := BigEndian(|body| % TWO_64, 8);
    var data := ChunkBytes(kind, body) + rest;
    assert data == kind + field + (body + rest);
    Middle(kind, field, body + rest);
    SizeField(|body|);
  }

  lemma SizeField(size: nat)
    requires size < TWO_63
    ensures ChunkSize(BigEndian(size % TWO_64, 8)) == size
  {
    hide BigEndian, FromBigEndian;
    Widths();
    BigEndianInverse(size, 8);
  }

  lemma DescRead(frames: nat, channels: int, st: CafState)
    requires frames < TWO_32 && 0 <= channels < TWO_32
    ensures |DescBody(frames, channels)| == 32
    ensures ReadDesc(DescBody(frames, channels), st)
         == Ok(st.(bytesPerPacket := 0, framesPerPacket := frames, channels := channels))
  {
    hide BigEndian, FromBigEndian, ReadDesc;
    var zero, f, c := BigEndian(0, 4), BigEndian(frames, 4), BigEndian(channels, 4);
    DescFields(zero, f, c, st);
    Widths();
    BigEndianInverse(0, 4);
    BigEndianInverse(frames, 4);
    BigEndianInverse(channels, 4);
  }

  lemma DescFields(zero: seq<byte>, frames: seq<byte>, channels: seq<byte>, st: CafState)
    requires |zero| == |frames| == |channels| == 4
    ensures ReadDesc(RATE + OPUS + zero + zero + frames + channels + zero, st)
         == Ok(st.(bytesPerPacket := FromBigEndian(zero), framesPerPacket := FromBigEndian(frames),
                   channels := FromBigEndian(channels)))
  {
    hide FromBigEndian;
    DescSlices(RATE, OPUS, zero, frames, channels);
  }

  lemma DescSlices(rate: seq<byte>, format: seq<byte>, zero: seq<byte>, frames: seq<byte>, channels: seq<byte>)
    requires |rate| == 8 && |format| == |zero| == |frames| == |channels| == 4
    ensures var d := rate + format + zero + zero + frames + channels + zero;
            |d| == 32 && d[8..12] == format && d[16..20] == zero && d[20..24] == frames && d[24..28] == channels
  {
  }

  lemma PaktHeaderRead(info: OpusInfo, st: CafState)
    requires info.packets != [] && |info.packets| < TWO_63 && 0 <= info.preSkip < TWO_31
    ensures |PaktHeader(info)| == 24
    ensures ReadPaktHeader(PaktHeader(info), st)
         == st.(numPackets := |info.packets|, validFrames := ValidFrames(info), primingFrames := info.preSkip)
  {
    hide ValidFrames, ReadPaktHeader, BigEndian, FromBigEndian;
    var count, valid := BigEndian(|info.packets|, 8), BigEndian(Unsigned64(ValidFrames(info)), 8);
    var priming, none := BigEndian(info.preSkip, 4), BigEndian(0, 4);
    ValidFramesInRange(info);
    PaktFields(count, valid, priming, none, st);
    assert PaktHeader(info) == count + valid + priming + none;
    Widths();
    BigEndianInverse(|info.packets|, 8);
    BigEndianInverse(Unsigned64(ValidFrames(info)), 8);
    BigEndianInverse(info.preSkip, 4);
  }

  lemma PaktFields(count: seq<byte>, valid: seq<byte>, priming: seq<byte>, none: seq<byte>, st: CafState)
    requires |count| == |valid| == 8 && |priming| == |none| == 4
    ensures FromBigEndian(count) < TWO_64 && FromBigEndian(valid) < TWO_64
    ensures ReadPaktHeader(count + valid + priming + none, st)
         == st.(numPackets := Signed64(FromBigEndian(count)), validFrames := Signed64(FromBigEndian(valid)),
                primingFrames := Signed32(FromBigEndian(priming)))
  {
    hide FromBigEndian;
    var d := count + valid + priming + none;
    assert d[0..8] == count && d[8..16] == valid && d[16..20] == priming;
    Widths();
  }

  lemma ValidFramesInRange(info: OpusInfo)
    requires info.packets != []
    ensures IsInt64(ValidFrames(info))
  {
  }

  lemma {:induction false} SplitConcat(packets: seq<Packet>, audio: seq<byte>, offset: nat)
    requires offset <= |audio| < TWO_63 && audio[offset..] == Concat(packets)
    ensures SplitPackets(Sizes(packets), audio, offset) == Ok(packets)
  {
    var sizes := Sizes(packets);
    if packets != [] {
      var p := packets[0];
      assert audio[offset..][..|p|] == p && |p| <= |audio| - offset;
      var end := offset + |p|;
      assert audio[offset..end] == audio[offset..][..|p|];
      assert audio[end..] == audio[offset..][|p|..] == Concat(packets[1..]);
      assert sizes[1..] == Sizes(packets[1..]);
      SplitConcat(packets[1..], audio, end);
      assert [p] + packets[1..] == packets;
    }
  }

  lemma {:induction false} SizesAreQuantities(packets: seq<Packet>)
    requires |Concat(packets)| < TWO_63
    ensures Quantities(Sizes(packets))
  {
    if packets != [] {
      SizesAreQuantities(packets[1..]);
      assert Sizes(packets)[1..] == Sizes(packets[1..]);
      assert Sizes(packets)[0] == |packets[0]|;
    }
  }

  // ---- CAF written and parsed back ----

  /** The sample count fits an int64, as does the length of every chunk. */
  ghost predicate InRange(info: OpusInfo) {
    && IsInt64(info.granulePos)
    && info.packets != []
    && info.preSkip + |info.packets| * OpusPacketFrames(info.packets[0]) < TWO_63
    && |info.opusHead| < TWO_63
    && 24 + |SizeTable(Sizes(info.packets))| < TWO_63
    && 4 + |Concat(info.packets)| < TWO_63
  }

  function AfterDesc(info: OpusInfo): CafState
    requires info.packets != []
  {
    BLANK.(bytesPerPacket := 0, framesPerPacket := OpusPacketFrames(info.packets[0]), channels := info.channels)
  }

  function AfterCookie(info: OpusInfo): CafState
    requires info.packets != []
  {
    AfterDesc(info).(opusHead := Some(info.opusHead), preSkip := info.preSkip)
  }

  function AfterPakt(info: OpusInfo): CafState
    requires info.packets != []
  {
    AfterCookie(info).(numPackets := |info.packets|, validFrames := ValidFrames(info), primingFrames := info.preSkip,
                       vlqData := Some(SizeTable(Sizes(info.packets))))
  }

  lemma DescChunk(info: OpusInfo, rest: seq<byte>)
    requires InRange(info) && HeadAgrees(info)
    ensures var desc := DescBody(OpusPacketFrames(info.packets[0]), info.channels);
      |desc| < TWO_63 && ReadChunk(DESC, |desc|, desc + rest, BLANK) == Ok((AfterDesc(info), rest))
  {
    hide ReadDesc, DescBody, OpusPacketFrames;
    var frames := OpusPacketFrames(info.packets[0]);
    var desc := DescBody(frames, info.channels);
    DescRead(frames, info.channels, BLANK);
    Middle([], desc, rest);
    assert [] + desc + rest == desc + rest;
    assert rest[0..] == rest;
  }

  lemma MagcChunk(info: OpusInfo, rest: seq<byte>)
    requires InRange(info) && HeadAgrees(info)
    ensures ReadChunk(MAGC, |info.opusHead|, info.opusHead + rest, AfterDesc(info)) == Ok((AfterCookie(info), rest))
  {
    hide OpusPacketFrames;
    CookieFields(info);
    Middle([], info.opusHead, rest);
    assert [] + info.opusHead + rest == info.opusHead + rest;
  }

  lemma PaktChunk(info: OpusInfo, rest: seq<byte>)
    requires InRange(info) && HeadAgrees(info)
    ensures var pakt := PaktHeader(info) + SizeTable(Sizes(info.packets));
      |pakt| < TWO_63 && ReadChunk(PAKT, |pakt|, pakt + rest, AfterCookie(info)) == Ok((AfterPakt(info), rest))
  {
    hide ReadPaktHeader, PaktHeader, SizeTable, Sizes, OpusPacketFrames;
    CookieFields(info);
    PaktHeaderRead(info, AfterCookie(info));
    PaktParts(PaktHeader(info), SizeTable(Sizes(info.packets)), rest);
  }

  lemma DataChunk(info: OpusInfo)
    requires InRange(info)
    ensures var audio := [0, 0, 0, 0] + Concat(info.packets);
      ReadChunk(DATA, |audio|, audio + [], AfterPakt(info))
      == Ok((AfterPakt(info).(audioData := Concat(info.packets)), []))
  {
    hide Concat, SizeTable, Sizes, OpusPacketFrames;
    var audio := [0, 0, 0, 0] + Concat(info.packets);
    assert audio + [] == audio && audio[..|audio|] == audio && audio[|audio|..] == [];
    assert audio[4..] == Concat(info.packets);
  }

  lemma ReadWrittenChunks(info: OpusInfo)
    requires InRange(info) && HeadAgrees(info)
    ensures |CafBytes(info)| >= 8 && CafBytes(info)[..4] == CAFF
    ensures ReadChunks(CafBytes(info)[8..], BLANK) == Ok(AfterPakt(info).(audioData := Concat(info.packets)))
  {
    hide ReadChunks, ReadChunk, DescBody, PaktHeader, SizeTable, Sizes, Concat, ChunkBytes;
    hide OpusPacketFrames, AfterDesc, AfterCookie, AfterPakt;
    var desc := DescBody(OpusPacketFrames(info.packets[0]), info.channels);
    var pakt, audio := PaktHeader(info) + SizeTable(Sizes(info.packets)), [0, 0, 0, 0] + Concat(info.packets);
    var rest3 := ChunkBytes(DATA, audio);
    var rest2 := ChunkBytes(PAKT, pakt) + rest3;
    var rest1 := ChunkBytes(MAGC, info.opusHead) + rest2;
    var lead := CAFF + [0, 1] + [0, 0];
    assert CafBytes(info) == lead + (ChunkBytes(DESC, desc) + rest1);
    NoRoom();
    DescChunk(info, rest1);
    ChunkStep(DESC, desc, rest1, BLANK);
    MagcChunk(info, rest2);
    ChunkStep(MAGC, info.opusHead, rest2, AfterDesc(info));
    PaktChunk(info, rest3);
    ChunkStep(PAKT, pakt, rest3, AfterCookie(info));
    DataChunk(info);
    ChunkStep(DATA, audio, [], AfterPakt(info));
    assert rest3 + [] == rest3;
  }

  lemma NoRoom()
    ensures forall st :: ReadChunks([], st) == Ok(st)
  {
  }

  lemma CookieFields(info: OpusInfo)
    requires HeadAgrees(info)
    ensures 0 <= info.preSkip < 0x1_0000 && 0 <= info.channels < 256
  {
    Widths();
  }

  lemma PaktParts(header: seq<byte>, table: seq<byte>, rest: seq<byte>)
    requires |header| == 24
    ensures var d := header + table + rest;
            && d[..24] == header && d[24..] == table + rest
            && d[24..][..|table|] == table && d[24..][|table|..] == rest
  {
    assert header + table + rest == header + (table + rest);
  }

  /** The granule position a CAF file gives back. CAF stores the frames after the
      priming frames, so a position inside the priming is lost; the writer and the
      parser each substitute the sample count of the packets. */
  function CafGranule(info: OpusInfo): int
    requires info.packets != []
  {
    var samples := |info.packets| * OpusPacketFrames(info.packets[0]);
    if info.granulePos > info.preSkip then info.granulePos
    else if info.granulePos - info.preSkip < -TWO_63 then samples
    else info.preSkip + samples
  }

  lemma GranuleThroughCaf(info: OpusInfo)
    requires InRange(info) && 0 <= info.preSkip < TWO_31
    ensures var g := Wrap64(ValidFrames(info) + info.preSkip);
            CafGranule(info) == if g <= 0 then Wrap64(|info.packets| * OpusPacketFrames(info.packets[0])) else g
  {
    hide OpusPacketFrames, Wrap64;
    SamplesPositive(info);
    WrappedGap(info.granulePos, info.preSkip, |info.packets| * OpusPacketFrames(info.packets[0]));
  }

  lemma SamplesPositive(info: OpusInfo)
    requires info.packets != []
    ensures |info.packets| * OpusPacketFrames(info.packets[0]) > 0
  {
    hide OpusPacketFrames;
  }

  lemma WrappedGap(position: int, preSkip: nat, samples: nat)
    requires IsInt64(position) && preSkip < TWO_31 && 0 < samples && preSkip + samples < TWO_63
    ensures Wrap64(samples) == samples && Wrap64(preSkip + samples) == preSkip + samples
    ensures var gap := position - preSkip;
            if gap < -TWO_63 then Wrap64(gap) == gap + TWO_64 && Wrap64(gap + TWO_64 + preSkip) == position
            else Wrap64(gap) == gap
  {
  }

  /** The exact outcome of writing a CAF file and parsing it. */
  lemma CafRoundTrip(info: OpusInfo)
    requires InRange(info) && HeadAgrees(info)
    ensures ParseCaf(CafBytes(info))
         == Ok(info.(channels := if info.channels == 0 then 1 else info.channels, granulePos := CafGranule(info)))
  {
    hide ReadChunks, CafBytes, DecodeSizes, SplitPackets, Concat, ValidFrames, Wrap64, OpusPacketFrames, CafGranule;
    ReadWrittenChunks(info);
    CookieFields(info);
    SizesAreQuantities(info.packets);
    var table := SizeTable(Sizes(info.packets));
    DecodeSizeTable(Sizes(info.packets), []);
    assert table + [] == table;
    SplitConcat(info.packets, Concat(info.packets), 0);
    GranuleThroughCaf(info);
  }

  lemma GranuleKept(info: OpusInfo)
    requires InRange(info) && 0 <= info.preSkip < TWO_31
    ensures CafGranule(info) == info.granulePos <==> info.granulePos > info.preSkip
  {
    hide OpusPacketFrames;
    SamplesPositive(info);
  }

  /** It is the identity exactly when the stream lasts beyond its priming frames
      and names at least one channel. */
  lemma CafRoundTripIff(info: OpusInfo)
    requires InRange(info) && HeadAgrees(info)
    ensures ParseCaf(CafBytes(info)) == Ok(info) <==> info.granulePos > info.preSkip && info.channels >= 1
  {
    hide ParseCaf, CafBytes, OpusPacketFrames;
    CafRoundTrip(info);
    CookieFields(info);
    SamplesPositive(info);
    GranuleKept(info);
  }

  // ---- Both containers ----

  /** Ogg to CAF to Ogg and CAF to Ogg to CAF: nothing changes on the way. */
  lemma RemuxRoundTrip(info: OpusInfo)
    requires InRange(info) && HeadAgrees(info) && PacketsFit(info)
    requires info.granulePos > info.preSkip && info.channels >= 1
    ensures ParseCaf(CafBytes(info)) == Ok(info)
    ensures ParseOgg(OggBytes(info)) == Ok(info)
  {
    hide ParseCaf, CafBytes, ParseOgg, OggBytes;
    CafRoundTripIff(info);
    OggRoundTrip(info);
    CookieFields(info);
  }

  /** What an Ogg stream says of itself always agrees with its OpusHead, so every
      parsed stream meets the round trip's condition on the head. */
  lemma ParsedHeadAgrees(data: seq<byte>)
    ensures ParseOgg(data).Ok? ==> HeadAgrees(ParseOgg(data).value) && ParseOgg(data).value.packets != []
  {
    hide ReadPages;
  }

  /** Whatever stream a CAF file holds, its Ogg form says the same if and only if the
      fields agree with the OpusHead and the granule position is not negative. */
  lemma ReceivedVoiceIff(data: seq<byte>, info: OpusInfo)
    requires ParseCaf(data) == Ok(info) && info.packets != [] && PacketsFit(info)
    ensures ParseOgg(OggBytes(info)) == Ok(info) <==> HeadAgrees(info) && info.granulePos >= 0
  {
    hide OggBytes, ParseOgg;
    ParsedGranuleFits(data);
    ParsedHeadAgrees(OggBytes(info));
    if HeadAgrees(info) { OggRoundTrip(info); }
  }

  lemma ParsedGranuleFits(data: seq<byte>)
    ensures ParseCaf(data).Ok? ==> IsInt64(ParseCaf(data).value.granulePos)
  {
    hide ReadChunks, PacketSizes, SplitPackets;
  }

  /** A voice message taken from Ogg to CAF and back is the same stream. */
  lemma VoiceMessageSurvives(data: seq<byte>, info: OpusInfo)
    requires ParseOgg(data) == Ok(info)
    requires InRange(info) && PacketsFit(info)
    requires info.granulePos > info.preSkip && info.channels >= 1
    ensures ParseCaf(CafBytes(info)).Ok?
    ensures ParseOgg(OggBytes(ParseCaf(CafBytes(info)).value)) == ParseOgg(data)
  {
    hide ParseCaf, CafBytes, ParseOgg, OggBytes;
    ParsedHeadAgrees(data);
    RemuxRoundTrip(info);
  }
}
