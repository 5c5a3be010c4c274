/** Reading Ogg bytes that are not whole streams, and what the parser makes of the packets. */
module OggReading {
  import opened Bytes
  import opened OggFraming
  import opened OggOpus

  /** What a stream of pages has assembled, what follows it is read onto. */
  lemma {:induction false} ReadPrefix(frames: seq<Frame>, rest: seq<byte>, a: Assembly, last: int)
    requires AllValid(frames)
    ensures Sum(AllSegs(frames)) == |AllPayload(frames)|
    ensures ReadPages(Stream(frames) + rest, a, last)
         == ReadPages(rest, Assemble(AllSegs(frames), AllPayload(frames), a), LastGranule(frames, last))
  {
    hide Frame.Encoded, Frame.Header, TakeHeader, TakeSegments;
    FramesAgree(frames);
    if frames == [] {
      assert Stream(frames) + rest == rest;
    } else {
      var f, tail := frames[0], frames[1..];
      var next := if f.granule > 0 then f.granule else last;
      assert Stream(frames) + rest == f.Encoded() + (Stream(tail) + rest);
      FrameFields(f, Stream(tail) + rest);
      TakeIsAssemble(f.segs, f.payload, Stream(tail) + rest, a);
      ReadPrefix(tail, rest, Assemble(f.segs, f.payload, a), next);
      FramesAgree(tail);
      AssembleSplit(f.segs, AllSegs(tail), f.payload, AllPayload(tail), a);
    }
  }

  /** Up to three bytes after the last page are ignored. */
  lemma StrayTail(frames: seq<Frame>, packets: seq<Packet>, rest: seq<byte>)
    requires AllValid(frames) && AllSegs(frames) == SegTable(packets) && AllPayload(frames) == Concat(packets)
    requires |rest| < 4
    ensures ReadPages(Stream(frames) + rest, START, 0) == ReadPages(Stream(frames), START, 0)
         == Ok((packets, LastGranule(frames, 0)))
  {
    hide Assemble, SegTable, AllSegs, AllPayload, Stream, LastGranule;
    ReadPrefix(frames, rest, START, 0);
    ReadAnyPagination(frames, packets);
    ReadPrefix(frames, [], START, 0);
    assert Stream(frames) + [] == Stream(frames);
  }

  /** Four bytes or more that do not open a page make the whole stream unreadable. */
  lemma LostSync(frames: seq<Frame>, rest: seq<byte>)
    requires AllValid(frames) && |rest| >= 4 && rest[..4] != Ascii("OggS")
    ensures ReadPages(Stream(frames) + rest, START, 0) == Err(BadSync)
  {
    hide Assemble, AllSegs, AllPayload, Stream, LastGranule, ReadPages;
    assert CAPTURE == Ascii("OggS");
    ReadPrefix(frames, rest, START, 0);
    Unsynced(rest, Assemble(AllSegs(frames), AllPayload(frames), START), LastGranule(frames, 0));
  }

  lemma Unsynced(data: seq<byte>, a: Assembly, last: int)
    requires |data| >= 4 && data[..4] != CAPTURE
    ensures ReadPages(data, a, last) == Err(BadSync)
  {
    hide TakeHeader, TakeSegments;
  }

  /** A page cut short is refused, and the error names the part that is missing. */
  lemma CutPage(frames: seq<Frame>, f: Frame, n: nat)
    requires AllValid(frames) && f.Valid() && 4 <= n < |f.Encoded()|
    ensures ReadPages(Stream(frames) + f.Encoded()[..n], START, 0)
         == Err(if n < 26 then TruncatedHeader else if n < 27 + |f.segs| then TruncatedTable else TruncatedSegment)
  {
    hide Assemble, AllSegs, AllPayload, Stream, LastGranule;
    var a := Assemble(AllSegs(frames), AllPayload(frames), START) by { FramesAgree(frames); }
    ReadPrefix(frames, f.Encoded()[..n], START, 0);
    CutFrame(f, n, a, LastGranule(frames, 0));
  }

  lemma CutFrame(f: Frame, n: nat, a: Assembly, last: int)
    requires f.Valid() && 4 <= n < |f.Encoded()|
    ensures ReadPages(f.Encoded()[..n], a, last)
         == Err(if n < 26 then TruncatedHeader else if n < 27 + |f.segs| then TruncatedTable else TruncatedSegment)
  {
    hide TakeSegments, PageGranule;
    FrameFields(f, []);
    var d := f.Encoded() + [];
    assert d == f.Encoded();
    var cut := f.Encoded()[..n];
    assert cut[..4] == d[..4] && cut[4..] == d[4..][..n - 4];
    CutHeader(d[4..], n - 4);
    if n >= 27 + |f.segs| {
      assert f.payload + [] == f.payload;
      CutSegments(f.segs, f.payload[..n - 27 - |f.segs|], a);
    }
  }

  lemma CutHeader(data: seq<byte>, n: nat)
    requires n < |data| && TakeHeader(data).Ok?
    ensures var (granule, segs, body) := TakeHeader(data).value;
      && |segs| == data[22] as int && |data| == 23 + |segs| + |body|
      && TakeHeader(data[..n])
         == if n < 22 then Err(TruncatedHeader)
            else if n < 23 + |segs| then Err(TruncatedTable)
            else Ok((granule, segs, body[..n - 23 - |segs|]))
  {
    hide PageGranule;
    if n >= 23 {
      assert data[..n][22] == data[22] && data[..n][..22] == data[..22];
    }
    if n >= 23 + data[22] as int {
      var body: int := 23 + data[22] as int;
      assert data[..n][23..body] == data[23..body] && data[..n][body..] == data[body..][..n - body];
    }
  }

  lemma {:induction false} CutSegments(segs: seq<byte>, data: seq<byte>, a: Assembly)
    requires |data| < Sum(segs)
    ensures TakeSegments(segs, data, a) == Err(TruncatedSegment)
  {
    if |data| >= segs[0] as int { CutSegments(segs[1..], data[segs[0]..], a.Push(data[..segs[0]])); }
  }

  /** The position of a stream is that of its last page with a positive one. */
  ghost predicate LastPositive(frames: seq<Frame>, i: int) {
    0 <= i < |frames| && frames[i].granule > 0 && forall j :: i < j < |frames| ==> frames[j].granule <= 0
  }

  lemma {:induction false} LastGranuleIs(frames: seq<Frame>, last: int)
    ensures forall i :: LastPositive(frames, i) ==> LastGranule(frames, last) == frames[i].granule
    ensures (forall i :: 0 <= i < |frames| ==> frames[i].granule <= 0) ==> LastGranule(frames, last) == last
  {
    if frames != [] {
      var next := if frames[0].granule > 0 then frames[0].granule else last;
      LastGranuleIs(frames[1..], next);
      forall i | LastPositive(frames, i) ensures LastGranule(frames, last) == frames[i].granule {
        if i > 0 {
          assert frames[1..][i - 1] == frames[i];
          assert forall j :: i - 1 < j < |frames[1..]| ==> frames[1..][j] == frames[j + 1];
          assert LastPositive(frames[1..], i - 1);
        }
      }
    }
  }

  /** However its packets are cut into pages, a stream is an OpusHead, the comments and the
      audio: fewer packets or another head are refused. */
  lemma ParsedStream(frames: seq<Frame>, packets: seq<Packet>)
    requires AllValid(frames) && AllSegs(frames) == SegTable(packets) && AllPayload(frames) == Concat(packets)
    ensures ParseOgg(Stream(frames))
         == if |packets| < 3 then Err(TooShort)
            else
              var head := packets[0];
              if |head| < 19 || head[..8] != Ascii("OpusHead") then Err(NotOpus)
              else Ok(OpusInfo(head[9], head[10] as int + 256 * head[11] as int, head, packets[2..],
                               LastGranule(frames, 0)))
  {
    hide ReadPages, Assemble, SegTable, AllSegs, AllPayload, Stream, LastGranule;
    ReadAnyPagination(frames, packets);
    assert OPUS_HEAD == Ascii("OpusHead");
    if |packets| >= 3 && |packets[0]| >= 19 {
      var skip := packets[0][10..12];
      assert skip[1..][1..] == [];
      assert FromLittleEndian(skip[1..]) == skip[1];
    }
  }
}
