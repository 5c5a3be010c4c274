/** Opus in Ogg (RFC 7845): the page writer and packer, and the stream parser. */
module OggOpus {
  import opened Bytes
  import opened OggCrc
  import opened OggFraming

  datatype OpusInfo = OpusInfo(channels: int, preSkip: int, opusHead: seq<byte>, packets: seq<Packet>, granulePos: int)

  const OPUS_HEAD: seq<byte> := [0x4F, 0x70, 0x75, 0x73, 0x48, 0x65, 0x61, 0x64]  // "OpusHead"
  const OPUS_TAGS: seq<byte> := [0x4F, 0x70, 0x75, 0x73, 0x54, 0x61, 0x67, 0x73]  // "OpusTags"
  // "corten-matrix"
  const VENDOR: seq<byte> := [0x63, 0x6F, 0x72, 0x74, 0x65, 0x6E, 0x2D, 0x6D, 0x61, 0x74, 0x72, 0x69, 0x78]
  const SERIAL := 0x4F707573
  const MAX_PAYLOAD := 48000
  const MAX_SEGMENTS := 255

  // ---- Packet durations (sections 3.1 and 3.2 of RFC 6716) ----

  /** Samples in one frame, by the configuration number of the TOC byte. */
  function FrameSamples(config: nat): (samples: nat)
    requires config < 32
    ensures 120 <= samples <= 2880
  {
    if config < 12 then [480, 960, 1920, 2880][config % 4]
    else if config < 16 then [480, 960][config % 2]
    else [120, 240, 480, 960][(config - 16) % 4]
  }

  /** PCM frames at 48 kHz in one packet, from the TOC byte and the frame count. */
  function OpusPacketFrames(packet: Packet): (frames: nat)
    ensures 120 <= frames <= 2880 * 63
  {
    if packet == [] then 960
    else
      var config: int, code: int := packet[0] / 8, packet[0] % 4;
      var samples := FrameSamples(config);
      if code == 0 then samples
      else if code == 1 || code == 2 then samples * 2
      else
        var count: int := if |packet| >= 2 then packet[1] % 64 else 0;
        if count > 0 then samples * count else samples
  }

  /** Frame durations by configuration number in units of 2.5 ms: Table 2 of RFC 6716. */
  const DURATIONS: seq<nat> := [4, 8, 16, 24, 4, 8, 16, 24, 4, 8, 16, 24, 4, 8, 4, 8,
                                1, 2, 4, 8, 1, 2, 4, 8, 1, 2, 4, 8, 1, 2, 4, 8]

  /** The number of frames that section 3.2 of RFC 6716 reads from a packet; a count of
      zero, which it forbids, and a missing count byte are taken as one frame. */
  function FrameCount(packet: Packet): nat
    requires packet != []
  {
    match packet[0] % 4
    case 0 => 1
    case 3 => if |packet| == 1 || packet[1] % 64 == 0 then 1 else packet[1] % 64
    case _ => 2
  }

  /** A packet lasts its frames' duration times their number, at 120 samples per 2.5 ms;
      an empty one is taken for 20 ms. */
  lemma PacketLasts(packet: Packet)
    ensures OpusPacketFrames(packet)
         == if packet == [] then 120 * 8 else 120 * DURATIONS[packet[0] / 8] * FrameCount(packet)
  {
    if packet == [] { return; }
    var config: nat := packet[0] / 8;
    assert FrameSamples(config) == 120 * DURATIONS[config] by { FrameLasts(config); }
    hide FrameSamples;
  }

  lemma FrameLasts(config: nat)
    requires config < 32
    ensures FrameSamples(config) == 120 * DURATIONS[config]
  {
  }

  // ---- One page ----

  function CrcBytes(crc: bv32): (bs: seq<byte>)
    ensures |bs| == 4
  {
    LittleEndian(crc as int, 4)
  }

  function Unsummed(number: nat, granule: int, flags: byte, packets: seq<Packet>): Frame {
    Frame(0, flags, granule, LittleEndian(SERIAL, 4), LittleEndian(number, 4), [0, 0, 0, 0],
          SegTable(packets), Concat(packets))
  }

  function PageFrame(number: nat, granule: int, flags: byte, packets: seq<Packet>): Frame {
    var f := Unsummed(number, granule, flags, packets);
    f.(crc := CrcBytes(Remainder(f.Encoded())))
  }

  /** The check of section 6 of RFC 3533: the stored checksum is the one computed
      over the page with the checksum field set to zero. */
  ghost predicate ChecksumOk(page: seq<byte>)
    requires |page| >= 27
  {
    page[22..26] == CrcBytes(Remainder(page[..22] + [0, 0, 0, 0] + page[26..]))
  }

  method BuildSegTable(packets: seq<Packet>) returns (segTable: seq<byte>)
    ensures segTable == SegTable(packets)
  {
    segTable := [];
    assert packets[0..] == packets;
    for i := 0 to |packets|
      invariant segTable + SegTable(packets[i..]) == SegTable(packets)
    {
      assert packets[i..][1..] == packets[i + 1..];
      var remaining := |packets[i]|;
      ghost var before := segTable;
      while remaining >= 255
        invariant 0 <= remaining
        invariant segTable + Lacing(remaining) == before + Lacing(|packets[i]|)
      {
        assert segTable + Lacing(remaining) == segTable + [255] + Lacing(remaining - 255);
        segTable := segTable + [255];
        remaining := remaining - 255;
      }
      segTable := segTable + [remaining];
    }
  }

  method BuildPayload(packets: seq<Packet>) returns (payload: seq<byte>)
    ensures payload == Concat(packets)
  {
    payload := [];
    assert packets[0..] == packets;
    for i := 0 to |packets|
      invariant payload + Concat(packets[i..]) == Concat(packets)
    {
      assert packets[i..][1..] == packets[i + 1..];
      payload := payload + packets[i];
    }
  }

  /** The 22 bytes of a page before its checksum. */
  function PageLead(number: nat, granule: int, flags: byte): (lead: seq<byte>)
    ensures |lead| == 22
  {
    CAPTURE + [0, flags] + LittleEndian(Unsigned64(granule), 8) + LittleEndian(SERIAL, 4) + LittleEndian(number, 4)
  }

  lemma PageParts(number: nat, granule: int, flags: byte, packets: seq<Packet>)
    ensures var lead := PageLead(number, granule, flags);
      var tail := [|SegTable(packets)| % 256] + SegTable(packets);
      var summed := lead + [0, 0, 0, 0] + tail + Concat(packets);
      && Unsummed(number, granule, flags, packets).Encoded() == summed
      && PageFrame(number, granule, flags, packets).Encoded()
         == lead + CrcBytes(Remainder(summed)) + tail + Concat(packets)
  {
    hide Remainder, CrcBytes, SegTable, Concat, LittleEndian;
    var lead := PageLead(number, granule, flags);
    var segs := SegTable(packets);
    var f := PageFrame(number, granule, flags, packets);
    assert f.Header() == lead + f.crc + [|segs| % 256] + segs;
    assert f.Header() == lead + f.crc + ([|segs| % 256] + segs);
    var zero := Unsummed(number, granule, flags, packets);
    assert zero.Header() == lead + [0, 0, 0, 0] + ([|segs| % 256] + segs);
  }

  lemma Patched(lead: seq<byte>, tail: seq<byte>, crc: seq<byte>)
    requires |lead| == 22 && |crc| == 4
    ensures var header := lead + [0, 0, 0, 0] + tail; header[..22] + crc + header[26..] == lead + crc + tail
  {
  }

  lemma EmittedPageChecks(number: nat, granule: int, flags: byte, packets: seq<Packet>)
    ensures |PageFrame(number, granule, flags, packets).Encoded()| >= 27
    ensures ChecksumOk(PageFrame(number, granule, flags, packets).Encoded())
  {
    hide Remainder, CrcBytes, SegTable, Concat, PageLead, PageFrame, Unsummed, Frame.Encoded;
    PageParts(number, granule, flags, packets);
    var lead := PageLead(number, granule, flags);
    var tail := [|SegTable(packets)| % 256] + SegTable(packets) + Concat(packets);
    var page := PageFrame(number, granule, flags, packets).Encoded();
    var summed := Unsummed(number, granule, flags, packets).Encoded();
    var crc := CrcBytes(Remainder(summed));
    assert page == lead + crc + tail;
    assert summed == lead + [0, 0, 0, 0] + tail;
    Field(lead, crc, tail);
  }

  lemma Field(lead: seq<byte>, crc: seq<byte>, tail: seq<byte>)
    requires |lead| == 22 && |crc| == 4
    ensures var page := lead + crc + tail;
      page[..22] == lead && page[22..26] == crc && page[26..] == tail
  {
  }

  method WriteOggPage(buf: ByteBuffer, table: array<bv32>, number: nat, granule: int, flags: byte,
                      packets: seq<Packet>)
    requires IsTable(table)
    modifies buf
    ensures buf.data == old(buf.data) + PageFrame(number, granule, flags, packets).Encoded()
  {
    hide Remainder, CrcBytes, SegTable, Concat, LittleEndian, PageFrame, Unsummed;
    var segTable := BuildSegTable(packets);
    var header := CAPTURE + [0, flags] + LittleEndian(Unsigned64(granule), 8)
                  + LittleEndian(SERIAL, 4) + LittleEndian(number, 4);
    ghost var lead, tail := header, [|segTable| % 256] + segTable;
    header := header + [0, 0, 0, 0] + ([|segTable| % 256] + segTable);
    var payload := BuildPayload(packets);
    PageParts(number, granule, flags, packets);
    var checksum := OggCrc.OggCrc(table, header + payload);
    Patched(lead, tail, CrcBytes(checksum));
    header := header[..22] + CrcBytes(checksum) + header[26..];
    hide PageLead;
    assert header + payload == PageFrame(number, granule, flags, packets).Encoded();
    buf.Write(header);
    buf.Write(payload);
    assert old(buf.data) + header + payload == old(buf.data) + (header + payload);
  }

  // ---- The packer ----

  datatype OutPage = OutPage(granule: int, flags: byte, packets: seq<Packet>)

  function Segments(p: Packet): nat {
    |p| / 255 + 1
  }

  function PageSegments(page: seq<Packet>): nat {
    if page == [] then 0 else PageSegments(page[..|page| - 1]) + Segments(page[|page| - 1])
  }

  function PageSize(page: seq<Packet>): nat {
    if page == [] then 0 else PageSize(page[..|page| - 1]) + |page[|page| - 1]|
  }

  /** The running granule position after n packets; int64 arithmetic may wrap. */
  function GranuleAfter(info: OpusInfo, n: nat): int {
    if n == 0 || info.packets == [] then 0
    else
      var granule := Wrap64(info.preSkip + n * OpusPacketFrames(info.packets[0]));
      if granule > info.granulePos then info.granulePos else granule
  }

  predicate Overflows(page: seq<Packet>, p: Packet) {
    page != [] && (PageSize(page) + |p| > MAX_PAYLOAD || PageSegments(page) + Segments(p) > MAX_SEGMENTS)
  }

  /** The pages still to come once n packets are consumed and page is open. */
  function Pack(info: OpusInfo, n: nat, page: seq<Packet>): seq<OutPage>
    requires n <= |info.packets|
    decreases |info.packets| - n
  {
    if n == |info.packets| then
      if page == [] then [] else [OutPage(info.granulePos, 0x04, page)]
    else if Overflows(page, info.packets[n]) then
      [OutPage(GranuleAfter(info, n), 0x00, page)] + Pack(info, n + 1, [info.packets[n]])
    else
      Pack(info, n + 1, page + [info.packets[n]])
  }

  lemma PackNext(info: OpusInfo, n: nat, page: seq<Packet>)
    requires n < |info.packets|
    ensures var pkt := info.packets[n];
      Pack(info, n, page)
      == if Overflows(page, pkt) then [OutPage(GranuleAfter(info, n), 0x00, page)] + Pack(info, n + 1, [pkt])
         else Pack(info, n + 1, page + [pkt])
  {
  }

  lemma NoPage()
    ensures PageSize([]) == 0 && PageSegments([]) == 0
  {
  }

  lemma PageGrows(page: seq<Packet>, p: Packet)
    ensures PageSize(page + [p]) == PageSize(page) + |p|
    ensures PageSegments(page + [p]) == PageSegments(page) + Segments(p)
  {
    assert (page + [p])[..|page|] == page;
  }

  lemma PackEnd(info: OpusInfo, page: seq<Packet>)
    ensures Pack(info, |info.packets|, page) == if page == [] then [] else [OutPage(info.granulePos, 0x04, page)]
  {
  }

  function OpusTags(): seq<byte> {
    OPUS_TAGS + LittleEndian(|VENDOR|, 4) + VENDOR + LittleEndian(0, 4)
  }

  function Pages(info: OpusInfo): seq<OutPage> {
    [OutPage(0, 0x02, [info.opusHead]), OutPage(0, 0x00, [OpusTags()])] + Pack(info, 0, [])
  }

  function NumberedPage(k: nat, page: OutPage): Frame {
    PageFrame(k % TWO_32, page.granule, page.flags, page.packets)
  }

  /** Pages carry consecutive uint32 sequence numbers from k on. */
  function Numbered(pages: seq<OutPage>, k: nat): (frames: seq<Frame>)
    ensures |frames| == |pages|
    ensures forall j :: 0 <= j < |pages| ==>
              frames[j] == NumberedPage(k + j, pages[j])
  {
    if pages == [] then [] else [NumberedPage(k, pages[0])] + Numbered(pages[1..], k + 1)
  }

  function OggBytes(info: OpusInfo): seq<byte> {
    Stream(Numbered(Pages(info), 0))
  }

  function PageBytes(k: nat, page: OutPage): seq<byte> {
    NumberedPage(k, page).Encoded()
  }

  lemma OnePage(page: OutPage, rest: seq<OutPage>, k: nat)
    ensures Stream(Numbered([page] + rest, k)) == PageBytes(k, page) + Stream(Numbered(rest, k + 1))
    ensures Stream(Numbered([], k)) == []
  {
    hide NumberedPage;
    assert ([page] + rest)[1..] == rest;
  }

  lemma FlushPage(data: seq<byte>, page: OutPage, rest: seq<OutPage>, k: nat)
    ensures data + Stream(Numbered([page] + rest, k)) == data + PageBytes(k, page) + Stream(Numbered(rest, k + 1))
    ensures Stream(Numbered([], k + 1)) == []
  {
    hide PageBytes, Stream, Numbered;
    OnePage(page, rest, k);
    OnePage(page, rest, k + 1);
  }

  lemma FirstPages(info: OpusInfo)
    ensures OggBytes(info) == PageBytes(0, OutPage(0, 0x02, [info.opusHead]))
                            + PageBytes(1, OutPage(0, 0x00, [OpusTags()]))
                            + Stream(Numbered(Pack(info, 0, []), 2))
  {
    hide PageBytes, Stream, Numbered, Pack, OpusTags;
    var head, tags := OutPage(0, 0x02, [info.opusHead]), OutPage(0, 0x00, [OpusTags()]);
    var audio := Pack(info, 0, []);
    assert Pages(info) == [head] + ([tags] + audio);
    OnePage(head, [tags] + audio, 0);
    OnePage(tags, audio, 1);
  }

  lemma NextNumber(k: nat)
    ensures (k % TWO_32 + 1) % TWO_32 == (k + 1) % TWO_32
  {
  }

  datatype WriteError = NoPackets

  /** An empty packet list ends in a fault at the first packet's duration. */
  method WriteOggOpus(table: array<bv32>, info: OpusInfo) returns (r: Result<seq<byte>, WriteError>)
    requires IsTable(table)
    ensures r == if info.packets == [] then Err(NoPackets) else Ok(OggBytes(info))
  {
    hide PageFrame, PageBytes, Stream, Numbered, Pages, OggBytes, OpusTags, Pack, Frame.Encoded;
    var buf := new ByteBuffer();
    var number := 0;
    ghost var head, tags := OutPage(0, 0x02, [info.opusHead]), OutPage(0, 0x00, [OpusTags()]);
    BytesOfPage(0, head);
    BytesOfPage(1, tags);
    WriteOggPage(buf, table, number, 0, 0x02, [info.opusHead]);
    assert buf.data == PageBytes(0, head);
    number := number + 1;
    WriteOggPage(buf, table, number, 0, 0x00, [OpusTags()]);
    assert buf.data == PageBytes(0, head) + PageBytes(1, tags);
    number := number + 1;
    if info.packets == [] { return Err(NoPackets); }
    FirstPages(info);
    WriteAudioPages(buf, table, number, info);
    return Ok(buf.data);
  }

  lemma BytesOfPage(k: nat, page: OutPage)
    ensures PageBytes(k, page) == PageFrame(k % TWO_32, page.granule, page.flags, page.packets).Encoded()
  {
  }

  method WriteAudioPages(buf: ByteBuffer, table: array<bv32>, first: nat, info: OpusInfo)
    requires IsTable(table) && info.packets != [] && first < TWO_32
    modifies buf
    ensures buf.data == old(buf.data) + Stream(Numbered(Pack(info, 0, []), first))
  {
    hide PageFrame, PageBytes, Stream, Numbered, OpusPacketFrames, Frame.Encoded, Pack, PageSize, PageSegments;
    NoPage();
    var number: nat := first;
    ghost var k: nat := first;
    var framesPerPacket := OpusPacketFrames(info.packets[0]);
    var pagePackets: seq<Packet> := [];
    var pageSize: nat, pageSegs: nat, granule: int := 0, 0, 0;
    ghost var goal := buf.data + Stream(Numbered(Pack(info, 0, []), first));
    for i := 0 to |info.packets|
      invariant number == k % TWO_32
      invariant pageSize == PageSize(pagePackets) && pageSegs == PageSegments(pagePackets)
      invariant granule == GranuleAfter(info, i)
      invariant buf.data + Stream(Numbered(Pack(info, i, pagePackets), k)) == goal
    {
      PackNext(info, i, pagePackets);
      var pkt := info.packets[i];
      var pktSegs := |pkt| / 255 + 1;
      if (pageSize + |pkt| > MAX_PAYLOAD || pageSegs + pktSegs > MAX_SEGMENTS) && |pagePackets| > 0 {
        ghost var page := OutPage(granule, 0x00, pagePackets);
        BytesOfPage(k, page);
        FlushPage(buf.data, page, Pack(info, i + 1, [pkt]), k);
        WriteOggPage(buf, table, number, granule, 0x00, pagePackets);
        NextNumber(k);
        number, k := (number + 1) % TWO_32, k + 1;
        pagePackets, pageSize, pageSegs := [], 0, 0;
        assert pagePackets + [pkt] == [pkt];
      }
      PageGrows(pagePackets, pkt);
      pagePackets := pagePackets + [pkt];
      pageSize := pageSize + |pkt|;
      pageSegs := pageSegs + pktSegs;
      granule := Wrap64(info.preSkip + (i + 1) * framesPerPacket);
      if granule > info.granulePos { granule := info.granulePos; }
    }
    PackEnd(info, pagePackets);
    if |pagePackets| > 0 {
      ghost var last := OutPage(info.granulePos, 0x04, pagePackets);
      assert [last] + [] == [last];
      BytesOfPage(k, last);
      FlushPage(buf.data, last, [], k);
      WriteOggPage(buf, table, number, info.granulePos, 0x04, pagePackets);
    } else {
      OnePage(OutPage(0, 0, []), [], k);
    }
  }

  // ---- What the packer promises ----

  function Flatten(pages: seq<OutPage>): seq<Packet> {
    if pages == [] then [] else pages[0].packets + Flatten(pages[1..])
  }

  /** No packet is lost, repeated, split or moved. */
  lemma {:induction false} PackConserves(info: OpusInfo, n: nat, page: seq<Packet>)
    requires n <= |info.packets|
    ensures Flatten(Pack(info, n, page)) == page + info.packets[n..]
    decreases |info.packets| - n
  {
    if n == |info.packets| {
      assert Flatten([]) == [];
      assert page == [] || Flatten(Pack(info, n, page)) == page + Flatten([]);
    } else {
      var pkt := info.packets[n];
      assert info.packets[n..] == [pkt] + info.packets[n + 1..];
      if Overflows(page, pkt) {
        PackConserves(info, n + 1, [pkt]);
        assert Pack(info, n, page)[1..] == Pack(info, n + 1, [pkt]);
      } else {
        PackConserves(info, n + 1, page + [pkt]);
      }
    }
  }

  lemma FlattenCons(page: OutPage, rest: seq<OutPage>)
    ensures Flatten([page] + rest) == page.packets + Flatten(rest)
  {
    assert ([page] + rest)[1..] == rest;
  }

  lemma AllPacketsInOrder(info: OpusInfo)
    ensures Flatten(Pages(info)) == [info.opusHead, OpusTags()] + info.packets
  {
    hide Pack, Flatten, OpusTags;
    PackConserves(info, 0, []);
    var audio := Pack(info, 0, []);
    var head, tags := OutPage(0, 0x02, [info.opusHead]), OutPage(0, 0x00, [OpusTags()]);
    FlattenCons(head, [tags] + audio);
    FlattenCons(tags, audio);
    assert Pages(info) == [head] + ([tags] + audio);
    assert [] + info.packets[0..] == info.packets;
  }

  /** A page holds one packet of any size, or several within both limits. */
  ghost predicate PageFits(page: seq<Packet>) {
    page != [] && (|page| == 1 || (PageSize(page) <= MAX_PAYLOAD && PageSegments(page) <= MAX_SEGMENTS))
  }

  lemma {:induction false} PackFits(info: OpusInfo, n: nat, page: seq<Packet>)
    requires n <= |info.packets|
    requires page == [] || PageFits(page)
    ensures forall j :: 0 <= j < |Pack(info, n, page)| ==> PageFits(Pack(info, n, page)[j].packets)
    decreases |info.packets| - n
  {
    if n < |info.packets| {
      var pkt := info.packets[n];
      if Overflows(page, pkt) {
        PackFits(info, n + 1, [pkt]);
      } else {
        assert (page + [pkt])[..|page|] == page;
        PackFits(info, n + 1, page + [pkt]);
      }
    }
  }

  lemma {:induction false} PageSegmentsIsTable(page: seq<Packet>)
    ensures PageSegments(page) == |SegTable(page)|
  {
    if page != [] {
      var front, last := page[..|page| - 1], page[|page| - 1];
      PageSegmentsIsTable(front);
      SegTableSplit(front, [last]);
      assert front + [last] == page;
      assert SegTable([last]) == Lacing(|last|) + SegTable([]);
    }
  }

  lemma {:induction false} SegTableSplit(a: seq<Packet>, b: seq<Packet>)
    ensures SegTable(a + b) == SegTable(a) + SegTable(b)
  {
    if a == [] {
      assert a + b == b;
    } else {
      assert (a + b)[1..] == a[1..] + b;
      SegTableSplit(a[1..], b);
    }
  }

  /** A page is closed only when the next packet would not have fitted on it. */
  ghost predicate Greedy(pages: seq<OutPage>) {
    forall j {:trigger pages[j]} :: 0 < j < |pages| ==>
      pages[j].packets != [] && Overflows(pages[j - 1].packets, pages[j].packets[0])
  }

  lemma {:induction false} PackGreedy(info: OpusInfo, n: nat, page: seq<Packet>)
    requires n <= |info.packets|
    ensures var pages := Pack(info, n, page);
            Greedy(pages) && (page != [] ==> pages != [] && page <= pages[0].packets)
    decreases |info.packets| - n
  {
    if n < |info.packets| {
      var pkt := info.packets[n];
      if Overflows(page, pkt) {
        var first, rest := OutPage(GranuleAfter(info, n), 0x00, page), Pack(info, n + 1, [pkt]);
        assert Pack(info, n, page) == [first] + rest;
        PackGreedy(info, n + 1, [pkt]);
        assert rest[0].packets[0] == pkt;
        GreedyCons(first, rest);
      } else {
        PackGreedy(info, n + 1, page + [pkt]);
      }
    }
  }

  lemma GreedyCons(first: OutPage, rest: seq<OutPage>)
    requires Greedy(rest)
    requires rest != [] && rest[0].packets != [] && Overflows(first.packets, rest[0].packets[0])
    ensures Greedy([first] + rest)
  {
    hide Overflows;
    var pages := [first] + rest;
    forall j | 0 < j < |pages|
      ensures pages[j].packets != [] && Overflows(pages[j - 1].packets, pages[j].packets[0])
    {
      assert pages[j] == rest[j - 1];
      assert j > 1 ==> pages[j - 1] == rest[j - 2];
    }
  }

  /** Closing flags: end-of-stream on the last page and on no other. */
  lemma {:induction false} PackFlags(info: OpusInfo, n: nat, page: seq<Packet>)
    requires n <= |info.packets|
    requires page != [] || n < |info.packets|
    ensures var pages := Pack(info, n, page);
            && pages != []
            && forall j :: 0 <= j < |pages| ==> pages[j].flags == if j == |pages| - 1 then 0x04 else 0x00
    decreases |info.packets| - n
  {
    if n < |info.packets| {
      if Overflows(page, info.packets[n]) {
        PackFlags(info, n + 1, [info.packets[n]]);
      } else {
        PackFlags(info, n + 1, page + [info.packets[n]]);
      }
    }
  }

  /** Beginning-of-stream on exactly the first page, end-of-stream on exactly the last. */
  lemma StreamFlags(info: OpusInfo)
    requires info.packets != []
    ensures var pages := Pages(info);
            && |pages| >= 3
            && forall j :: 0 <= j < |pages| ==>
                 pages[j].flags == (if j == 0 then 0x02 else if j == |pages| - 1 then 0x04 else 0x00)
  {
    PackFlags(info, 0, []);
  }

  /** A page's granule position counts the packets completed up to its end, base of
      them on earlier pages; the last page carries the stream's own. */
  function GranuleDue(info: OpusInfo, base: nat, pages: seq<OutPage>, j: nat): int
    requires j < |pages|
  {
    if j == |pages| - 1 then info.granulePos else GranuleAfter(info, base + |Flatten(pages[..j + 1])|)
  }

  ghost predicate GranulesDue(info: OpusInfo, base: nat, pages: seq<OutPage>) {
    forall j :: 0 <= j < |pages| ==> pages[j].granule == GranuleDue(info, base, pages, j)
  }

  lemma {:induction false} PackGranules(info: OpusInfo, n: nat, page: seq<Packet>)
    requires |page| <= n <= |info.packets|
    ensures GranulesDue(info, n - |page|, Pack(info, n, page))
    decreases |info.packets| - n
  {
    hide GranuleAfter;
    if n < |info.packets| {
      var pkt := info.packets[n];
      if Overflows(page, pkt) {
        PackGranules(info, n + 1, [pkt]);
        PackFlags(info, n + 1, [pkt]);
        GranulesShift(info, n - |page|, OutPage(GranuleAfter(info, n), 0x00, page), Pack(info, n + 1, [pkt]));
      } else {
        PackGranules(info, n + 1, page + [pkt]);
        assert n + 1 - |page + [pkt]| == n - |page|;
      }
    }
  }

  lemma GranulesShift(info: OpusInfo, base: nat, first: OutPage, rest: seq<OutPage>)
    requires rest != [] && GranulesDue(info, base + |first.packets|, rest)
    requires first.granule == GranuleAfter(info, base + |first.packets|)
    ensures GranulesDue(info, base, [first] + rest)
  {
    hide GranuleAfter;
    var pages := [first] + rest;
    forall j | 0 <= j < |pages| ensures pages[j].granule == GranuleDue(info, base, pages, j) {
      assert pages[..j + 1] == [first] + rest[..j];
      assert ([first] + rest[..j])[1..] == rest[..j];
      if j > 0 { assert rest[j - 1].granule == GranuleDue(info, base + |first.packets|, rest, j - 1); }
    }
  }

  lemma {:induction false} FlattenPrefix(pages: seq<OutPage>, i: nat, j: nat)
    requires i <= j <= |pages|
    ensures |Flatten(pages[..i])| <= |Flatten(pages[..j])| <= |Flatten(pages)|
  {
    if i > 0 {
      assert pages[..i][1..] == pages[1..][..i - 1] && pages[..j][1..] == pages[1..][..j - 1];
      FlattenPrefix(pages[1..], i - 1, j - 1);
    } else if j > 0 {
      assert pages[..j][1..] == pages[1..][..j - 1];
      FlattenPrefix(pages[1..], 0, j - 1);
    }
  }

  lemma GranuleMonotone(info: OpusInfo, m: nat, n: nat)
    requires m <= n <= |info.packets| && info.preSkip >= 0 && info.granulePos >= 0
    requires info.packets != [] ==>
               info.preSkip + |info.packets| * OpusPacketFrames(info.packets[0]) < TWO_63
    ensures 0 <= GranuleAfter(info, m) <= GranuleAfter(info, n) <= info.granulePos
  {
    hide Wrap64, OpusPacketFrames;
    if info.packets != [] {
      var frames := OpusPacketFrames(info.packets[0]);
      Scale(m, n, frames);
      Scale(n, |info.packets|, frames);
      assert Wrap64(info.preSkip + m * frames) == info.preSkip + m * frames;
      assert Wrap64(info.preSkip + n * frames) == info.preSkip + n * frames;
    }
  }

  lemma Scale(m: nat, n: nat, frames: nat)
    requires m <= n
    ensures 0 <= m * frames <= n * frames
  {
  }

  /** The samples of the first n packets, by their own durations. */
  function Samples(packets: seq<Packet>, n: nat): nat
    requires n <= |packets|
  {
    if n == 0 then 0 else Samples(packets, n - 1) + OpusPacketFrames(packets[n - 1])
  }

  /** The writer's running position, before the cap: the pre-skip and so many packets
      of the first one's duration. */
  function Estimate(info: OpusInfo, n: nat): int
    requires info.packets != []
  {
    info.preSkip + n * OpusPacketFrames(info.packets[0])
  }

  lemma GranuleIsEstimate(info: OpusInfo, n: nat)
    requires info.packets != [] && info.preSkip >= 0 && 0 < n <= |info.packets|
    requires Estimate(info, |info.packets|) < TWO_63
    ensures GranuleAfter(info, n) == if Estimate(info, n) > info.granulePos then info.granulePos else Estimate(info, n)
  {
    hide OpusPacketFrames, Wrap64;
    Scale(n, |info.packets|, OpusPacketFrames(info.packets[0]));
  }

  ghost predicate CountsSamples(info: OpusInfo)
    requires info.packets != []
  {
    forall n: nat :: 0 < n <= |info.packets| ==> Estimate(info, n) == Samples(info.packets, n)
  }

  /** The estimate is the sample count of section 4 of RFC 7845 at every packet if and
      only if there is no pre-skip and all packets last as long as the first. */
  lemma EstimateCountsSamplesIff(info: OpusInfo)
    requires info.packets != []
    ensures CountsSamples(info) <==> info.preSkip == 0 && EqualDurations(info.packets)
  {
    hide OpusPacketFrames;
    if info.preSkip == 0 && EqualDurations(info.packets) {
      forall n: nat | 0 < n <= |info.packets| ensures Estimate(info, n) == Samples(info.packets, n) {
        EqualSamples(info.packets, n);
      }
    }
    if CountsSamples(info) {
      assert Estimate(info, 1) == Samples(info.packets, 1);
      assert Samples(info.packets, 1) == Samples(info.packets, 0) + OpusPacketFrames(info.packets[0]);
      forall i | 0 < i < |info.packets| ensures OpusPacketFrames(info.packets[i]) == OpusPacketFrames(info.packets[0]) {
        assert Estimate(info, i) == Samples(info.packets, i) && Estimate(info, i + 1) == Samples(info.packets, i + 1);
      }
    }
  }

  ghost predicate EqualDurations(packets: seq<Packet>)
    requires packets != []
  {
    forall i :: 0 <= i < |packets| ==> OpusPacketFrames(packets[i]) == OpusPacketFrames(packets[0])
  }

  lemma {:induction false} EqualSamples(packets: seq<Packet>, n: nat)
    requires packets != [] && n <= |packets| && EqualDurations(packets)
    ensures Samples(packets, n) == n * OpusPacketFrames(packets[0])
  {
    hide OpusPacketFrames;
    if n > 0 { EqualSamples(packets, n - 1); }
  }

  /** While the sample count fits an int64, granule positions never decrease,
      never pass the stream's own, and end on it. */
  lemma StreamGranules(info: OpusInfo)
    requires info.packets != [] && info.preSkip >= 0 && info.granulePos >= 0
    requires info.preSkip + |info.packets| * OpusPacketFrames(info.packets[0]) < TWO_63
    ensures var pages := Pages(info);
            && pages[|pages| - 1].granule == info.granulePos
            && forall i, j :: 0 <= i <= j < |pages| ==> 0 <= pages[i].granule <= pages[j].granule <= info.granulePos
  {
    hide Pack;
    var pages, audio := Pages(info), Pack(info, 0, []);
    PackFlags(info, 0, []);
    AudioGranules(info);
    forall i, j | 0 <= i <= j < |pages|
      ensures 0 <= pages[i].granule <= pages[j].granule <= info.granulePos
    {
      if j >= 2 { assert pages[j] == audio[j - 2]; }
      if i >= 2 { assert pages[i] == audio[i - 2]; }
    }
  }

  lemma AudioGranules(info: OpusInfo)
    requires info.packets != [] && info.preSkip >= 0 && info.granulePos >= 0
    requires info.preSkip + |info.packets| * OpusPacketFrames(info.packets[0]) < TWO_63
    ensures var audio := Pack(info, 0, []);
            && (audio != [] ==> audio[|audio| - 1].granule == info.granulePos)
            && forall i, j :: 0 <= i <= j < |audio| ==> 0 <= audio[i].granule <= audio[j].granule <= info.granulePos
  {
    hide GranuleAfter, Pack, Flatten, OpusPacketFrames;
    var audio := Pack(info, 0, []);
    PackGranules(info, 0, []);
    PackConserves(info, 0, []);
    assert |Flatten(audio)| == |info.packets|;
    forall i, j | 0 <= i <= j < |audio|
      ensures 0 <= audio[i].granule <= audio[j].granule <= info.granulePos
    {
      FlattenPrefix(audio, i + 1, j + 1);
      GranuleMonotone(info, |Flatten(audio[..i + 1])|, |Flatten(audio[..j + 1])|);
    }
  }

  // ---- The stream parser ----

  datatype ParseError = Unreadable(e: ReadError) | TooShort | NotOpus

  function InfoFrom(packets: seq<Packet>, granule: int): Result<OpusInfo, ParseError> {
    if |packets| < 3 then Err(TooShort)
    else if |packets[0]| < 19 || packets[0][..8] != OPUS_HEAD then Err(NotOpus)
    else Ok(OpusInfo(packets[0][9], FromLittleEndian(packets[0][10..12]), packets[0], packets[2..], granule))
  }

  function ParseOgg(data: seq<byte>): Result<OpusInfo, ParseError> {
    match ReadPages(data, START, 0)
    case Err(e) => Err(Unreadable(e))
    case Ok((packets, granule)) => InfoFrom(packets, granule)
  }

  method ParseOggOpus(data: seq<byte>) returns (r: Result<OpusInfo, ParseError>)
    ensures r == ParseOgg(data)
  {
    hide ReadPages;
    var pages := ReadOggPackets(data);
    match pages {
      case Err(e) => return Err(Unreadable(e));
      case Ok((packets, granule)) =>
        if |packets| < 3 { return Err(TooShort); }
        var head := packets[0];
        if |head| < 19 || head[..8] != OPUS_HEAD { return Err(NotOpus); }
        return Ok(OpusInfo(head[9], FromLittleEndian(head[10..12]), head, packets[2..], granule));
    }
  }

  // ---- Writing and parsing back ----

  /** Channels and pre-skip are what the OpusHead packet itself says. */
  ghost predicate HeadAgrees(info: OpusInfo) {
    && |info.opusHead| >= 19
    && info.opusHead[..8] == OPUS_HEAD
    && info.channels == info.opusHead[9]
    && info.preSkip == FromLittleEndian(info.opusHead[10..12])
  }

  /** The largest packet whose lacing fits on one page. */
  const MAX_PACKET := 255 * 255 - 1

  ghost predicate PacketsFit(info: OpusInfo) {
    |info.opusHead| <= MAX_PACKET && forall i :: 0 <= i < |info.packets| ==> |info.packets[i]| <= MAX_PACKET
  }

  lemma FrameOfPageValid(k: nat, page: OutPage)
    requires IsInt64(page.granule) && PageSegments(page.packets) <= 255
    ensures PageFrame(k, page.granule, page.flags, page.packets).Valid()
  {
    SegTableSum(page.packets);
    PageSegmentsIsTable(page.packets);
  }

  lemma {:induction false} NumberedStream(pages: seq<OutPage>, k: nat)
    ensures AllSegs(Numbered(pages, k)) == SegTable(Flatten(pages))
    ensures AllPayload(Numbered(pages, k)) == Concat(Flatten(pages))
  {
    hide Remainder, CrcBytes;
    if pages != [] {
      NumberedStream(pages[1..], k + 1);
      SegTableSplit(pages[0].packets, Flatten(pages[1..]));
      ConcatSplit(pages[0].packets, Flatten(pages[1..]));
    }
  }

  lemma {:induction false} NumberedGranule(pages: seq<OutPage>, k: nat, last: int)
    requires pages != []
    ensures var g := pages[|pages| - 1].granule;
            g > 0 ==> LastGranule(Numbered(pages, k), last) == g
    ensures (forall j :: 0 <= j < |pages| ==> pages[j].granule <= 0) ==> LastGranule(Numbered(pages, k), last) == last
  {
    hide Remainder, CrcBytes;
    var next := if pages[0].granule > 0 then pages[0].granule else last;
    if |pages| > 1 {
      NumberedGranule(pages[1..], k + 1, next);
    } else {
      assert Numbered(pages, k)[1..] == [];
    }
  }

  lemma PagesAreFrames(info: OpusInfo)
    requires info.packets != [] && PacketsFit(info) && IsInt64(info.granulePos)
    ensures AllValid(Numbered(Pages(info), 0))
  {
    hide PageFrame, Pack, PageSegments, PacketsFit;
    var pages := Pages(info);
    forall j | 0 <= j < |pages| ensures Numbered(pages, 0)[j].Valid() {
      PageIsSmall(info, j);
      FrameOfPageValid(j % TWO_32, pages[j]);
    }
  }

  lemma PageIsSmall(info: OpusInfo, j: nat)
    requires info.packets != [] && PacketsFit(info) && IsInt64(info.granulePos) && j < |Pages(info)|
    ensures IsInt64(Pages(info)[j].granule) && PageSegments(Pages(info)[j].packets) <= 255
  {
    hide Pack, PageSegments;
    if j >= 2 {
      assert Pages(info)[j] == Pack(info, 0, [])[j - 2];
      AudioPageIsSmall(info, j - 2);
    } else {
      SinglePage(Pages(info)[j].packets[0]);
    }
  }

  lemma AudioPageIsSmall(info: OpusInfo, j: nat)
    requires info.packets != [] && PacketsFit(info) && IsInt64(info.granulePos) && j < |Pack(info, 0, [])|
    ensures IsInt64(Pack(info, 0, [])[j].granule) && PageSegments(Pack(info, 0, [])[j].packets) <= 255
  {
    hide Pack, GranuleAfter, PageSegments, PageSize;
    var audio := Pack(info, 0, []);
    PackFits(info, 0, []);
    PackGranules(info, 0, []);
    GranuleIsInt64(info, |Flatten(audio[..j + 1])|);
    if |audio[j].packets| == 1 {
      var p := audio[j].packets[0];
      assert audio[j].packets == [p] && p in audio[j].packets;
      FlattenMember(audio, j);
      PackConserves(info, 0, []);
      assert Flatten(audio) == info.packets;
      SinglePage(p);
    }
  }

  lemma GranuleIsInt64(info: OpusInfo, n: nat)
    requires IsInt64(info.granulePos)
    ensures IsInt64(GranuleAfter(info, n))
  {
  }

  lemma SinglePage(p: Packet)
    requires |p| <= MAX_PACKET
    ensures PageSegments([p]) <= 255
  {
    assert [p][..0] == [];
  }

  lemma {:induction false} FlattenMember(pages: seq<OutPage>, j: nat)
    requires j < |pages|
    ensures forall p :: p in pages[j].packets ==> p in Flatten(pages)
  {
    if j > 0 { FlattenMember(pages[1..], j - 1); }
  }

  lemma NoPositiveGranule(info: OpusInfo)
    requires info.packets != [] && info.granulePos <= 0
    ensures forall j :: 0 <= j < |Pages(info)| ==> Pages(info)[j].granule <= 0
  {
    hide GranuleAfter, Pack;
    var pages, audio := Pages(info), Pack(info, 0, []);
    PackGranules(info, 0, []);
    forall j | 0 <= j < |pages| ensures pages[j].granule <= 0 {
      if j >= 2 {
        assert pages[j] == audio[j - 2];
        assert audio[j - 2].granule == GranuleDue(info, 0, audio, j - 2);
        GranuleCapped(info, |Flatten(audio[..j - 2 + 1])|);
      }
    }
  }

  lemma GranuleCapped(info: OpusInfo, n: nat)
    ensures GranuleAfter(info, n) <= if info.granulePos >= 0 then info.granulePos else 0
  {
  }

  /** The exact outcome of writing an Ogg stream and parsing it: everything comes
      back except a negative granule position, which is read as zero. */
  lemma OggRoundTrip(info: OpusInfo)
    requires info.packets != [] && PacketsFit(info) && HeadAgrees(info) && IsInt64(info.granulePos)
    ensures ParseOgg(OggBytes(info)) == Ok(info.(granulePos := if info.granulePos > 0 then info.granulePos else 0))
  {
    hide ReadPages, Stream, PageFrame, Pack, GranuleAfter, OpusTags;
    var pages := Pages(info);
    var frames := Numbered(pages, 0);
    PagesAreFrames(info);
    NumberedStream(pages, 0);
    AllPacketsInOrder(info);
    ReadAnyPagination(frames, Flatten(pages));
    NumberedGranule(pages, 0, 0);
    PackFlags(info, 0, []);
    LastPage(info);
    if info.granulePos <= 0 { NoPositiveGranule(info); }
    assert Flatten(pages)[2..] == info.packets;
  }

  lemma LastPage(info: OpusInfo)
    requires info.packets != []
    ensures Pages(info)[|Pages(info)| - 1].granule == info.granulePos
  {
    PackFlags(info, 0, []);
    PackGranules(info, 0, []);
  }

  /** The size limit is tight: a packet of exactly 256 segments makes the page's
      count byte wrap to zero, and every reader stops at the page after it. */
  lemma CountByteWraps(number: nat, granule: int, flags: byte, p: Packet, rest: seq<byte>, a: Assembly, last: int)
    requires MAX_PACKET < |p| <= MAX_PACKET + 255 && IsInt64(granule)
    ensures ReadPages(PageFrame(number, granule, flags, [p]).Encoded() + rest, a, last) == Err(BadSync)
  {
    hide CrcBytes, Remainder, Lacing, SegTable, TakeSegments;
    var f := PageFrame(number, granule, flags, [p]);
    LeadingSegments(p);
    assert |f.segs| == |p| / 255 + 1 == 256;
    var header := [0, flags] + LittleEndian(Unsigned64(granule), 8) + f.serial + f.number + f.crc;
    var body := f.segs + f.payload + rest;
    var d := f.Encoded() + rest;
    assert d == CAPTURE + (header + [0] + ([] + body));
    assert body[..4] == f.segs[..4] == [255, 255, 255, 255];
    EmptyPage(header, body, a, last);
  }

  /** A page that counts no segments passes on to what follows it. */
  lemma EmptyPage(header: seq<byte>, body: seq<byte>, a: Assembly, last: int)
    requires |header| == 22 && |body| >= 4 && body[..4] != CAPTURE
    ensures ReadPages(CAPTURE + (header + [0] + ([] + body)), a, last) == Err(BadSync)
  {
    hide PageGranule;
    var d := CAPTURE + (header + [0] + ([] + body));
    HeaderParts(header, [], body);
    assert d[..4] == CAPTURE && d[4..] == header + [0] + ([] + body);
    hide TakeHeader;
    var granule := PageGranule(header);
    assert TakeSegments([], body, a) == Ok((a, body));
    assert ReadPages(body, a, if granule > 0 then granule else last) == Err(BadSync);
  }

  lemma LeadingSegments(p: Packet)
    requires |p| > MAX_PACKET
    ensures SegTable([p]) == Lacing(|p|)
    ensures Lacing(|p|)[..4] == [255, 255, 255, 255]
  {
    hide Lacing;
    assert [p][1..] == [];
    assert Lacing(|p|) + [] == Lacing(|p|);
    FullSegment(|p|, 0);
    FullSegment(|p|, 1);
    FullSegment(|p|, 2);
    FullSegment(|p|, 3);
  }

  lemma {:induction false} FullSegment(size: nat, i: nat)
    requires i < size / 255
    ensures Lacing(size)[i] == 255
  {
    if i > 0 { FullSegment(size - 255, i - 1); }
  }
}
