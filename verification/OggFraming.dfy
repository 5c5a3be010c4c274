/** Ogg pages as byte strings (section 6 of RFC 3533): the lacing of packets into
    segments, the page reader, and the theorem that what is read back does not
    depend on how the segment stream was cut into pages. */
module OggFraming {
  import opened Bytes

  type Packet = seq<byte>

  const CAPTURE: seq<byte> := [0x4F, 0x67, 0x67, 0x53]  // "OggS"

  datatype ReadError = BadSync | TruncatedHeader | TruncatedTable | TruncatedSegment

  // ---- Lacing ----

  /** The segment sizes of one packet: full segments, then one short one. */
  function Lacing(size: nat): (segs: seq<byte>)
    ensures |segs| == size / 255 + 1
  {
    if size < 255 then [size] else [255] + Lacing(size - 255)
  }

  function SegTable(packets: seq<Packet>): seq<byte> {
    if packets == [] then [] else Lacing(|packets[0]|) + SegTable(packets[1..])
  }

  function Sum(segs: seq<byte>): nat {
    if segs == [] then 0 else segs[0] + Sum(segs[1..])
  }

  // ---- The segment stream ----

  /** Finished packets, and the bytes of the one still growing. */
  datatype Assembly = Assembly(packets: seq<Packet>, current: Packet)
  {
    function Push(seg: seq<byte>): Assembly {
      if |seg| < 255 then Assembly(packets + [current + seg], []) else Assembly(packets, current + seg)
    }

    /** A packet left open at the end of the stream is delivered as it is. */
    function Finish(): seq<Packet> {
      if current == [] then packets else packets + [current]
    }
  }

  const START := Assembly([], [])

  /** The packets in a segment stream: a segment shorter than 255 ends one. */
  function Assemble(segs: seq<byte>, payload: seq<byte>, a: Assembly): Assembly
    requires Sum(segs) == |payload|
  {
    if segs == [] then a
    else Assemble(segs[1..], payload[segs[0]..], a.Push(payload[..segs[0]]))
  }

  // ---- One page ----

  datatype Frame = Frame(version: byte, flags: byte, granule: int, serial: seq<byte>, number: seq<byte>,
                         crc: seq<byte>, segs: seq<byte>, payload: seq<byte>)
  {
    predicate Valid() {
      && IsInt64(granule)
      && |serial| == |number| == |crc| == 4
      && |segs| <= 255
      && Sum(segs) == |payload|
    }

    /** The page header: the count byte keeps only the low eight bits. */
    function Header(): seq<byte> {
      CAPTURE + [version, flags] + LittleEndian(Unsigned64(granule), 8) + serial + number + crc
      + [|segs| % 256] + segs
    }

    function Encoded(): seq<byte> {
      Header() + payload
    }
  }

  ghost predicate AllValid(frames: seq<Frame>) {
    forall i :: 0 <= i < |frames| ==> frames[i].Valid()
  }

  function Stream(frames: seq<Frame>): seq<byte> {
    if frames == [] then [] else frames[0].Encoded() + Stream(frames[1..])
  }

  function AllSegs(frames: seq<Frame>): seq<byte> {
    if frames == [] then [] else frames[0].segs + AllSegs(frames[1..])
  }

  function AllPayload(frames: seq<Frame>): seq<byte> {
    if frames == [] then [] else frames[0].payload + AllPayload(frames[1..])
  }

  /** The last positive granule position, or the one carried in. */
  function LastGranule(frames: seq<Frame>, last: int): int {
    if frames == [] then last
    else LastGranule(frames[1..], if frames[0].granule > 0 then frames[0].granule else last)
  }

  // ---- The reader as a function ----

  function TakeSegments(segs: seq<byte>, data: seq<byte>, a: Assembly): (r: Result<(Assembly, seq<byte>), ReadError>)
    ensures r.Ok? ==> |r.value.1| <= |data|
  {
    if segs == [] then Ok((a, data))
    else if |data| < segs[0] then Err(TruncatedSegment)
    else TakeSegments(segs[1..], data[segs[0]..], a.Push(data[..segs[0]]))
  }

  /** After the capture pattern: 22 header bytes, the segment count and the table. */
  function TakeHeader(data: seq<byte>): (r: Result<(int, seq<byte>, seq<byte>), ReadError>)
    ensures r.Ok? ==> |r.value.2| < |data|
  {
    if |data| < 22 then Err(TruncatedHeader)
    else if |data| < 23 then Err(TruncatedTable)
    else
      var body: int := 23 + data[22] as int;
      if |data| < body then Err(TruncatedTable)
      else Ok((PageGranule(data[..22]), data[23..body], data[body..]))
  }

  function ReadPages(data: seq<byte>, a: Assembly, last: int): Result<(seq<Packet>, int), ReadError>
    decreases |data|
  {
    if |data| < 4 then Ok((a.Finish(), last))
    else if data[..4] != CAPTURE then Err(BadSync)
    else
      match TakeHeader(data[4..])
      case Err(e) => Err(e)
      case Ok((granule, segs, body)) =>
        match TakeSegments(segs, body, a)
        case Err(e) => Err(e)
        case Ok((a', rest)) => ReadPages(rest, a', if granule > 0 then granule else last)
  }

  /** The granule position field of the 22 header bytes after the capture pattern. */
  function PageGranule(header: seq<byte>): int
    requires |header| == 22
  {
    Widths();
    Signed64(FromLittleEndian(header[2..10]))
  }

  // ---- The reader as a program ----

  method ReadOggPackets(data: seq<byte>) returns (r: Result<(seq<Packet>, int), ReadError>)
    ensures r == ReadPages(data, START, 0)
  {
    var reader := new ByteReader(data);
    var packets: seq<Packet>, current: Packet := [], [];
    var lastGranule := 0;
    while true
      invariant reader.Valid() && fresh(reader)
      invariant ReadPages(reader.Remaining(), Assembly(packets, current), lastGranule) == ReadPages(data, START, 0)
      decreases |reader.Remaining()|
    {
      hide TakeSegments, TakeHeader;
      var ok, magic := reader.ReadFull(4);
      if !ok { break; }
      if magic != CAPTURE { return Err(BadSync); }
      var header := ReadHeader(reader);
      if header.Err? { return Err(header.error); }
      var (granule, segTable) := header.value;
      ok, packets, current := ReadSegments(reader, segTable, packets, current);
      if !ok { return Err(TruncatedSegment); }
      if granule > 0 { lastGranule := granule; }
    }
    if current != [] {
      packets := packets + [current];
    }
    return Ok((packets, lastGranule));
  }

  method ReadHeader(reader: ByteReader) returns (r: Result<(int, seq<byte>), ReadError>)
    requires reader.Valid()
    modifies reader
    ensures reader.Valid()
    ensures match TakeHeader(old(reader.Remaining()))
            case Err(e) => r == Err(e)
            case Ok((granule, segs, rest)) => r == Ok((granule, segs)) && reader.Remaining() == rest
  {
    hide PageGranule;
    ghost var all := reader.Remaining();
    var ok, header := reader.ReadFull(22);
    if !ok { return Err(TruncatedHeader); }
    var count;
    ok, count := reader.ReadFull(1);
    if !ok { return Err(TruncatedTable); }
    assert reader.Remaining() == all[23..] && count[0] == all[22];
    var segTable;
    ok, segTable := reader.ReadFull(count[0]);
    if !ok { return Err(TruncatedTable); }
    ghost var body := 23 + all[22] as int;
    assert segTable == all[23..body] && reader.Remaining() == all[body..];
    return Ok((PageGranule(header), segTable));
  }

  /** The segments of one page, assembled onto the packets read so far. */
  method ReadSegments(reader: ByteReader, segTable: seq<byte>, packets0: seq<Packet>, current0: Packet)
    returns (ok: bool, packets: seq<Packet>, current: Packet)
    requires reader.Valid()
    modifies reader
    ensures reader.Valid()
    ensures TakeSegments(segTable, old(reader.Remaining()), Assembly(packets0, current0))
         == if ok then Ok((Assembly(packets, current), reader.Remaining())) else Err(TruncatedSegment)
  {
    packets, current := packets0, current0;
    ghost var start := TakeSegments(segTable, reader.Remaining(), Assembly(packets, current));
    assert segTable[0..] == segTable;
    for i := 0 to |segTable|
      invariant reader.Valid()
      invariant TakeSegments(segTable[i..], reader.Remaining(), Assembly(packets, current)) == start
    {
      assert segTable[i..][1..] == segTable[i + 1..];
      var seg;
      ok, seg := reader.ReadFull(segTable[i]);
      if !ok { return; }
      current := current + seg;
      if segTable[i] < 255 {
        packets := packets + [current];
        current := [];
      }
    }
    ok := true;
  }

  // ---- Reading back any pagination ----

  lemma {:induction false} SumSplit(s: seq<byte>, t: seq<byte>)
    ensures Sum(s + t) == Sum(s) + Sum(t)
  {
    if s == [] {
      assert s + t == t;
    } else {
      assert (s + t)[1..] == s[1..] + t;
      SumSplit(s[1..], t);
    }
  }

  lemma {:induction false} AssembleSplit(s: seq<byte>, t: seq<byte>, p: seq<byte>, q: seq<byte>, a: Assembly)
    requires Sum(s) == |p| && Sum(t) == |q|
    ensures Sum(s + t) == |p + q|
    ensures Assemble(s + t, p + q, a) == Assemble(t, q, Assemble(s, p, a))
  {
    SumSplit(s, t);
    if s == [] {
      assert s + t == t && p + q == q;
    } else {
      assert (s + t)[1..] == s[1..] + t;
      assert (p + q)[s[0]..] == p[s[0]..] + q;
      assert (p + q)[..s[0]] == p[..s[0]];
      AssembleSplit(s[1..], t, p[s[0]..], q, a.Push(p[..s[0]]));
    }
  }

  lemma {:induction false} TakeIsAssemble(segs: seq<byte>, payload: seq<byte>, rest: seq<byte>, a: Assembly)
    requires Sum(segs) == |payload|
    ensures TakeSegments(segs, payload + rest, a) == Ok((Assemble(segs, payload, a), rest))
  {
    if segs == [] {
      assert payload + rest == rest;
    } else {
      assert (payload + rest)[segs[0]..] == payload[segs[0]..] + rest;
      assert (payload + rest)[..segs[0]] == payload[..segs[0]];
      TakeIsAssemble(segs[1..], payload[segs[0]..], rest, a.Push(payload[..segs[0]]));
    }
  }

  lemma Middle<T>(a: seq<T>, b: seq<T>, c: seq<T>)
    ensures (a + b + c)[|a|..|a| + |b|] == b
    ensures (a + b + c)[|a| + |b|..] == c
    ensures (a + b + c)[..|a|] == a
  {
  }

  lemma FrameFields(f: Frame, rest: seq<byte>)
    requires f.Valid()
    ensures var d := f.Encoded() + rest;
            && |d| >= 4 && d[..4] == CAPTURE
            && TakeHeader(d[4..]) == Ok((f.granule, f.segs, f.payload + rest))
  {
    hide PageGranule;
    var d := f.Encoded() + rest;
    var sums := f.serial + f.number + f.crc;
    var header := [f.version, f.flags] + LittleEndian(Unsigned64(f.granule), 8) + sums;
    assert d == CAPTURE + (header + [|f.segs|] + (f.segs + (f.payload + rest)));
    HeaderParts(header, f.segs, f.payload + rest);
    GranuleField(f.granule, [f.version, f.flags], sums);
  }

  lemma HeaderParts(header: seq<byte>, segs: seq<byte>, body: seq<byte>)
    requires |header| == 22 && |segs| <= 255
    ensures TakeHeader(header + [|segs|] + (segs + body)) == Ok((PageGranule(header), segs, body))
  {
    hide PageGranule;
    var d := header + [|segs|] + (segs + body);
    Middle(header, [|segs|], segs + body);
    Middle(header + [|segs|], segs, body);
    assert d == header + [|segs|] + segs + body;
  }

  lemma GranuleField(granule: int, before: seq<byte>, after: seq<byte>)
    requires IsInt64(granule) && |before| == 2 && |after| == 12
    ensures PageGranule(before + LittleEndian(Unsigned64(granule), 8) + after) == granule
  {
    var field := LittleEndian(Unsigned64(granule), 8);
    Middle(before, field, after);
    Widths();
    LittleEndianInverse(Unsigned64(granule), 8);
  }

  lemma {:induction false} FramesAgree(frames: seq<Frame>)
    requires AllValid(frames)
    ensures Sum(AllSegs(frames)) == |AllPayload(frames)|
  {
    if frames != [] {
      SumSplit(frames[0].segs, AllSegs(frames[1..]));
      FramesAgree(frames[1..]);
    }
  }

  /** Reading a stream of pages assembles the concatenated segment stream. */
  lemma {:induction false} ReadStream(frames: seq<Frame>, a: Assembly, last: int)
    requires AllValid(frames)
    ensures Sum(AllSegs(frames)) == |AllPayload(frames)|
    ensures ReadPages(Stream(frames), a, last)
         == Ok((Assemble(AllSegs(frames), AllPayload(frames), a).Finish(), LastGranule(frames, last)))
  {
    FramesAgree(frames);
    if frames != [] {
      var f, rest := frames[0], frames[1..];
      var next := if f.granule > 0 then f.granule else last;
      FrameFields(f, Stream(rest));
      TakeIsAssemble(f.segs, f.payload, Stream(rest), a);
      ReadStream(rest, Assemble(f.segs, f.payload, a), next);
      AssembleSplit(f.segs, AllSegs(rest), f.payload, AllPayload(rest), a);
    }
  }

  /** Two paginations of one segment stream read as the same packets. */
  lemma PaginationInvisible(one: seq<Frame>, two: seq<Frame>)
    requires AllValid(one)
    requires AllValid(two)
    requires AllSegs(one) == AllSegs(two) && AllPayload(one) == AllPayload(two)
    ensures ReadPages(Stream(one), START, 0).Ok? && ReadPages(Stream(two), START, 0).Ok?
    ensures ReadPages(Stream(one), START, 0).value.0 == ReadPages(Stream(two), START, 0).value.0
  {
    ReadStream(one, START, 0);
    ReadStream(two, START, 0);
  }

  // ---- Nothing is lost: the packets carry every payload byte ----

  lemma PushConserves(a: Assembly, seg: seq<byte>)
    ensures Concat(a.Push(seg).packets) + a.Push(seg).current == Concat(a.packets) + a.current + seg
  {
    ConcatSplit(a.packets, [a.current + seg]);
    ConcatOne(a.current + seg);
    assert Concat(a.packets) + (a.current + seg) == Concat(a.packets) + a.current + seg;
  }

  lemma {:induction false} AssembleConserves(segs: seq<byte>, payload: seq<byte>, a: Assembly)
    requires Sum(segs) == |payload|
    ensures var b := Assemble(segs, payload, a);
            Concat(b.packets) + b.current == Concat(a.packets) + a.current + payload
  {
    if segs != [] {
      var seg := payload[..segs[0]];
      AssembleConserves(segs[1..], payload[segs[0]..], a.Push(seg));
      PushConserves(a, seg);
      assert payload == seg + payload[segs[0]..];
      var before := Concat(a.packets) + a.current;
      assert before + seg + payload[segs[0]..] == before + payload;
    }
  }

  lemma ReadingConserves(frames: seq<Frame>)
    requires AllValid(frames)
    ensures ReadPages(Stream(frames), START, 0).Ok?
    ensures Concat(ReadPages(Stream(frames), START, 0).value.0) == AllPayload(frames)
  {
    hide ReadPages, Assemble;
    ReadStream(frames, START, 0);
    AssembleConserves(AllSegs(frames), AllPayload(frames), START);
    var b := Assemble(AllSegs(frames), AllPayload(frames), START);
    ConcatSplit(b.packets, [b.current]);
    ConcatOne(b.current);
    assert Concat(START.packets) + START.current + AllPayload(frames) == AllPayload(frames);
    assert Concat(b.packets) + [] == Concat(b.packets);
  }

  // ---- Lacing is undone by assembling ----

  lemma {:induction false} LacingSum(size: nat)
    ensures Sum(Lacing(size)) == size
  {
    if size < 255 {
      assert Sum([size]) == size + Sum([]);
    } else {
      assert ([255] + Lacing(size - 255))[1..] == Lacing(size - 255);
      LacingSum(size - 255);
    }
  }

  lemma {:induction false} AssembleLacing(p: Packet, a: Assembly)
    ensures Sum(Lacing(|p|)) == |p|
    ensures Assemble(Lacing(|p|), p, a) == Assembly(a.packets + [a.current + p], [])
    decreases |p|
  {
    LacingSum(|p|);
    var segs := Lacing(|p|);
    if |p| < 255 {
      assert segs[1..] == [] && p[..|p|] == p;
    } else {
      var head, tail := p[..255], p[255..];
      assert segs[1..] == Lacing(|tail|);
      assert head + tail == p;
      AssembleLacing(tail, a.Push(head));
      assert a.current + head + tail == a.current + p;
    }
  }

  lemma {:induction false} SegTableSum(packets: seq<Packet>)
    ensures Sum(SegTable(packets)) == |Concat(packets)|
  {
    if packets != [] {
      SumSplit(Lacing(|packets[0]|), SegTable(packets[1..]));
      LacingSum(|packets[0]|);
      SegTableSum(packets[1..]);
    }
  }

  lemma {:induction false} AssembleSegTable(packets: seq<Packet>, a: Assembly)
    requires a.current == []
    ensures Sum(SegTable(packets)) == |Concat(packets)|
    ensures Assemble(SegTable(packets), Concat(packets), a) == Assembly(a.packets + packets, [])
  {
    hide Lacing, Sum;
    SegTableSum(packets);
    if packets == [] {
      assert a.packets + packets == a.packets;
    } else {
      var p, rest := packets[0], packets[1..];
      AssembleLacing(p, a);
      SegTableSum(rest);
      AssembleSplit(Lacing(|p|), SegTable(rest), p, Concat(rest), a);
      assert a.current + p == p;
      AssembleSegTable(rest, Assembly(a.packets + [p], []));
      assert a.packets + [p] + rest == a.packets + packets;
    }
  }

  /** However the lacing of some packets is cut into pages, packets spanning pages
      or not, the reader gives back exactly those packets. */
  lemma ReadAnyPagination(frames: seq<Frame>, packets: seq<Packet>)
    requires AllValid(frames)
    requires AllSegs(frames) == SegTable(packets) && AllPayload(frames) == Concat(packets)
    ensures ReadPages(Stream(frames), START, 0) == Ok((packets, LastGranule(frames, 0)))
  {
    hide ReadPages, Assemble, SegTable, AllSegs, AllPayload, Stream;
    ReadStream(frames, START, 0);
    AssembleSegTable(packets, START);
    assert [] + packets == packets;
  }
}
