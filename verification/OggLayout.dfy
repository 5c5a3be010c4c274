/** The bytes of a written Ogg stream, field by field and page by page, at the offsets of
    section 6 of RFC 3533 and section 5 of RFC 7845. */
module OggLayout {
  import opened Bytes
  import opened OggCrc
  import opened OggFraming
  import opened OggOpus

  /** A field of a byte string. */
  function Field(data: seq<byte>, from: nat, width: nat): seq<byte>
    requires from + width <= |data|
  {
    data[from..from + width]
  }

  lemma Fields(magic: seq<byte>, flags: byte, granule: seq<byte>, serial: seq<byte>, number: seq<byte>,
               crc: seq<byte>, count: byte, segs: seq<byte>, payload: seq<byte>)
    requires |magic| == |serial| == |number| == |crc| == 4 && |granule| == 8
    ensures var p := magic + [0, flags] + granule + serial + number + crc + [count] + segs + payload;
      && |p| == 27 + |segs| + |payload|
      && Field(p, 0, 4) == magic && p[4] == 0 && p[5] == flags && Field(p, 6, 8) == granule
      && Field(p, 14, 4) == serial && Field(p, 18, 4) == number && Field(p, 22, 4) == crc && p[26] == count
  {
  }

  lemma Tail(lead: seq<byte>, segs: seq<byte>, payload: seq<byte>)
    requires |lead| == 27
    ensures var p := lead + segs + payload;
      Field(p, 27, |segs|) == segs && p[27 + |segs|..] == payload
  {
  }

  /** The bytes are a page of the stream "Opus" with this number, position, flags and packets,
      and with the checksum of the rest. */
  ghost predicate SaysPage(p: seq<byte>, number: nat, granule: int, flags: byte, packets: seq<Packet>) {
    var segs := SegTable(packets);
    && |p| == 27 + |segs| + |Concat(packets)|
    && Field(p, 0, 4) == Ascii("OggS") && p[4] == 0 && p[5] == flags
    && FromLittleEndian(Field(p, 6, 8)) == Unsigned64(granule)
    && Field(p, 14, 4) == [0x73, 0x75, 0x70, 0x4F]
    && FromLittleEndian(Field(p, 18, 4)) == number
    && FromLittleEndian(Field(p, 22, 4)) == Remainder(p[..22] + [0, 0, 0, 0] + p[26..]) as int
    && p[26] == |segs| % 256 && Field(p, 27, |segs|) == segs && p[27 + |segs|..] == Concat(packets)
  }

  lemma PageFields(number: nat, granule: int, flags: byte, packets: seq<Packet>)
    requires number < TWO_32 && IsInt64(granule)
    ensures SaysPage(PageFrame(number, granule, flags, packets).Encoded(), number, granule, flags, packets)
  {
    hide Remainder, SegTable, Concat, LittleEndian, FromLittleEndian, CrcBytes, Unsigned64;
    var f := PageFrame(number, granule, flags, packets);
    var p := f.Encoded();
    var segs := SegTable(packets);
    var g, s, n := LittleEndian(Unsigned64(granule), 8), LittleEndian(SERIAL, 4), LittleEndian(number, 4);
    var lead := CAPTURE + [0, flags] + g + s + n + f.crc + [|segs| % 256];
    assert f.version == 0 && f.flags == flags && f.segs == segs && f.payload == Concat(packets);
    assert f.serial == s && f.number == n && f.granule == granule;
    assert f.Header() == lead + segs;
    Fields(CAPTURE, flags, g, s, n, f.crc, |segs| % 256, segs, Concat(packets));
    Tail(lead, segs, Concat(packets));
    assert CAPTURE == Ascii("OggS");
    SerialBytes();
    Widths();
    LittleEndianInverse(Unsigned64(granule), 8);
    LittleEndianInverse(number, 4);
    EmittedPageChecks(number, granule, flags, packets);
    CrcReadsBack(Remainder(p[..22] + [0, 0, 0, 0] + p[26..]));
  }

  lemma SerialBytes()
    ensures LittleEndian(SERIAL, 4) == [0x73, 0x75, 0x70, 0x4F]
  {
    assert LittleEndian(0x4F70, 2) == [0x70, 0x4F];
    assert LittleEndian(0x4F7075, 3) == [0x75] + LittleEndian(0x4F70, 2);
  }

  lemma CrcReadsBack(crc: bv32)
    ensures FromLittleEndian(CrcBytes(crc)) == crc as int
  {
    hide LittleEndian, FromLittleEndian;
    Widths();
    LittleEndianInverse(crc as int, 4);
  }

  // ---- Page by page ----

  /** Where the k-th page of a stream starts. */
  function PageStart(frames: seq<Frame>, k: nat): nat
    requires k <= |frames|
  {
    |Stream(frames[..k])|
  }

  lemma {:induction false} StreamSplit(a: seq<Frame>, b: seq<Frame>)
    ensures Stream(a + b) == Stream(a) + Stream(b)
  {
    hide Frame.Encoded;
    if a == [] {
      assert a + b == b;
    } else {
      assert (a + b)[1..] == a[1..] + b;
      StreamSplit(a[1..], b);
    }
  }

  lemma PageAt(frames: seq<Frame>, k: nat)
    requires k < |frames|
    ensures var at := PageStart(frames, k); var page := frames[k].Encoded();
      at + |page| == PageStart(frames, k + 1) <= |Stream(frames)| && Field(Stream(frames), at, |page|) == page
  {
    hide Frame.Encoded;
    assert frames == frames[..k] + ([frames[k]] + frames[k + 1..]);
    StreamSplit(frames[..k], [frames[k]] + frames[k + 1..]);
    assert ([frames[k]] + frames[k + 1..])[1..] == frames[k + 1..];
    assert frames[..k + 1] == frames[..k] + [frames[k]];
    StreamSplit(frames[..k], [frames[k]]);
    assert [frames[k]][1..] == [];
    assert Stream([frames[k]]) == frames[k].Encoded() + [];
    Between(Stream(frames[..k]), frames[k].Encoded(), Stream(frames[k + 1..]));
  }

  lemma Between(a: seq<byte>, b: seq<byte>, c: seq<byte>)
    ensures Field(a + (b + c), |a|, |b|) == b
  {
  }

  /** The k-th page of a written stream: its serial number spells "Opus", its page number is k,
      its flags mark exactly the first and the last page, and its table and payload are those
      of its packets. */
  lemma WrittenPage(info: OpusInfo, k: nat)
    requires info.packets != [] && IsInt64(info.granulePos) && k < |Pages(info)|
    ensures var pages := Pages(info); var frames := Numbered(pages, 0);
      var at, end := PageStart(frames, k), PageStart(frames, k + 1);
      var flags := if k == 0 then 0x02 else if k == |pages| - 1 then 0x04 else 0x00;
      && at <= end <= |OggBytes(info)|
      && SaysPage(OggBytes(info)[at..end], k % TWO_32, pages[k].granule, flags, pages[k].packets)
  {
    hide Pages, PageFrame, Stream, Frame.Encoded, PageStart, SaysPage;
    var pages := Pages(info);
    PageAt(Numbered(pages, 0), k);
    StreamFlags(info);
    PageGranuleFits(info, k);
    PageFields(k % TWO_32, pages[k].granule, pages[k].flags, pages[k].packets);
  }

  /** The pages are all there is: the first starts the stream and the last ends it. */
  lemma PagesFillStream(info: OpusInfo)
    ensures var frames := Numbered(Pages(info), 0);
      PageStart(frames, 0) == 0 && PageStart(frames, |Pages(info)|) == |OggBytes(info)|
  {
    var frames := Numbered(Pages(info), 0);
    assert frames[..0] == [] && frames[..|frames|] == frames;
  }

  lemma PageGranuleFits(info: OpusInfo, k: nat)
    requires info.packets != [] && IsInt64(info.granulePos) && k < |Pages(info)|
    ensures IsInt64(Pages(info)[k].granule)
  {
    hide Pack, GranuleAfter;
    if k >= 2 {
      var audio := Pack(info, 0, []);
      assert Pages(info)[k] == audio[k - 2];
      PackGranules(info, 0, []);
      assert audio[k - 2].granule == GranuleDue(info, 0, audio, k - 2);
      GranuleIsInt64(info, |Flatten(audio[..k - 1])|);
    }
  }

  // ---- How full pages are ----

  lemma {:induction false} PageSizeIsPayload(page: seq<Packet>)
    ensures PageSize(page) == |Concat(page)|
    decreases |page|
  {
    if page != [] {
      var front, last := page[..|page| - 1], page[|page| - 1];
      PageSizeIsPayload(front);
      ConcatSplit(front, [last]);
      ConcatOne(last);
      assert front + [last] == page;
    }
  }

  /** An audio page holds at most 48000 bytes and 255 segments unless it is one packet, and the
      first packet of the next page would have gone beyond. */
  lemma AudioPage(info: OpusInfo, j: nat)
    requires j < |Pack(info, 0, [])|
    ensures var audio := Pack(info, 0, []); var page := audio[j].packets;
      && page != [] && (|page| == 1 || (|Concat(page)| <= 48_000 && |SegTable(page)| <= 255))
      && (j + 1 < |audio| ==>
            && audio[j + 1].packets != []
            && var more := page + [audio[j + 1].packets[0]]; |Concat(more)| > 48_000 || |SegTable(more)| > 255)
  {
    hide Pack, PageSize, PageSegments, SegTable, Concat;
    var audio := Pack(info, 0, []);
    var page := audio[j].packets;
    PackFits(info, 0, []);
    PackGreedy(info, 0, []);
    assert PageFits(audio[j].packets);
    PageSizeIsPayload(page);
    PageSegmentsIsTable(page);
    if j + 1 < |audio| {
      assert PageFits(audio[j + 1].packets);
      var p := audio[j + 1].packets[0];
      assert Overflows(page, p);
      PageGrows(page, p);
      PageSizeIsPayload(page + [p]);
      PageSegmentsIsTable(page + [p]);
    }
  }

  // ---- The header packets ----

  /** The comment packet: magic, the vendor string with its length, and no comments. */
  lemma TagsReadBack()
    ensures var t := OpusTags(); var vendor := Ascii("corten-matrix");
      && |t| == 16 + |vendor| && Field(t, 0, 8) == Ascii("OpusTags")
      && FromLittleEndian(Field(t, 8, 4)) == |vendor| && Field(t, 12, |vendor|) == vendor
      && FromLittleEndian(Field(t, 12 + |vendor|, 4)) == 0
  {
    hide LittleEndian, FromLittleEndian;
    assert OPUS_TAGS == Ascii("OpusTags") && VENDOR == Ascii("corten-matrix");
    var n, z := LittleEndian(|VENDOR|, 4), LittleEndian(0, 4);
    var t := OPUS_TAGS + n + VENDOR + z;
    assert Field(t, 0, 8) == OPUS_TAGS && Field(t, 8, 4) == n && Field(t, 12, |VENDOR|) == VENDOR;
    assert Field(t, 12 + |VENDOR|, 4) == z;
    Widths();
    LittleEndianInverse(|VENDOR|, 4);
    LittleEndianInverse(0, 4);
  }

  /** What the Ogg parser asks of an OpusHead, byte by byte. */
  lemma HeadFields(info: OpusInfo)
    ensures HeadAgrees(info) <==>
      var h := info.opusHead;
      && |h| >= 19 && Field(h, 0, 8) == Ascii("OpusHead") && info.channels == h[9]
      && info.preSkip == h[10] as int + 256 * h[11] as int
  {
    assert OPUS_HEAD == Ascii("OpusHead");
    if |info.opusHead| >= 19 {
      var skip := info.opusHead[10..12];
      assert skip[1..][1..] == [];
      assert FromLittleEndian(skip[1..]) == skip[1];
    }
  }
}
