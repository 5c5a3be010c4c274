# Verified model of the bridge's core

This project models, in Dafny, the parts of the iMessage bridge whose correctness is
hard to see from reading one function, and proves what they promise.

- **Voice-message remuxing.** `Bytes`, `OggCrc`, `OggFraming`, `OggOpus`, `OggLayout`,
  `OggReading`, `CafOpus`, `CafReading`, `Remux`: both container writers and parsers, lacing,
  page packing, the packet-size code and the CRC, down to the bytes and the refused inputs.
  The two formats carry the same stream, and the condition under which a stream survives the
  trip is exact.
- **The CloudKit store.** `CloudMessages`, `MessageEffects`, `MessageListing`, `ListingOutcome`,
  `TailScrub`, `RecycleBin`, `CloudChats`: the tables as maps, each SQL statement that writes
  them as an atomic step, its effect column by column, and claims about every run of steps:
  deletions and scrubs stick, syncs converge, paging is complete, the tail scrub is invisible
  to backfill.
- **The one-shot canary.** `Canary`, `CanaryOutcome`, `CanaryReceipt`: commands as scripts of
  awaited steps over durable policy and journal files, cut by a crash after any step; and the
  monitor that waits for the receipt, over every interleaving of its events.
- **Background work.** `AttachmentRetrier`, `RetryOutcome`, `CarrierRoute`, `IpcMatching`,
  `Levenshtein`: the retry queue, the rolling lookup ceiling with its memos, the matching of
  responses to requests, and the edit distance of contact search.

Code that changes state is written as classes and methods with loops. Each is proved equal
to a specification function, and the lemmas state what that function guarantees. The `Layout`,
`Reading`, `Effects` and `Outcome` modules say it without that function: which bytes, columns,
files and calls result, in literal values. Times, ids, network results and the order that the
database leaves open are parameters, so the lemmas hold for every value of them.

Standards followed: section 6 of RFC 3533 (Ogg pages, lacing, CRC), sections 3 and 5 of
RFC 7845 (Opus in Ogg), sections 3.1 and 3.2 of RFC 6716 (packet frame counts). For the
granule position of section 4 of RFC 7845 the model follows the code, which estimates it
from the first packet; `EstimateCountsSamplesIff` says when the two agree.

Where code and comments differ, the model follows the code:

- `upsertChatBatch` keeps a chat's `deleted` flag (pkg/connector/cloud_backfill_store.go:972),
  while the comment at lines 1242-1243 says a re-sync resets it.
- `softDeleteMessageByGUID` matches guids in any letter case, but the stub it leaves for an
  unknown guid is found again only by the exact spelling; `StubHoldsIff` states this.
- The lookup ceiling's comment speaks of any rolling hour; the code admits a grant exactly
  an hour after the first of sixty, so the bound is for half-open hours.
- The retry table is meant to give up after thirty attempts, but a try that outlasts its
  tick's five minutes is not counted, because its write runs under the ended context, nor is
  one that a restart interrupts; `BoundIsReached` and `AttemptsBounded` give the exact bound.
- An APNs send that returns an empty guid is journaled as "lookup, no send";
  `JournalTellsTruthIff` gives the condition.

## Model

| member | source | states |
|---|---|---|
| OggCrc.CrcIsRemainder | pkg/connector/audioconvert.go:289-311 | the table-driven CRC of any byte string is the remainder of dividing its bits, followed by 32 zeros, by 0x04C11DB7, one bit at a time |
| OggCrc.CrcIsDivision | pkg/connector/audioconvert.go:305-311 | the register is what the bit-serial division of the bits leaves after 32 more register steps |
| OggCrc.CrcByteIsEightSteps | pkg/connector/audioconvert.go:289-310 | one table step equals eight shift-and-subtract steps with the byte added at the top |
| OggCrc.StepsLinear | pkg/connector/audioconvert.go:289-303 | the shift register is linear, which is what makes a table of single bytes enough |
| OggCrc.BuildTable | pkg/connector/audioconvert.go:289-303 | the nested loops fill all 256 entries with the eight-step image of each byte |
| OggCrc.OggCrc | pkg/connector/audioconvert.go:305-311 | the loop over the bytes, by table look-up, computes the CRC that the division defines |
| OggFraming.ReadOggPackets | pkg/connector/audioconvert.go:449-506 | the cursor loop over pages returns, on every byte string, the packets, granule and error of the page-by-page reading |
| OggFraming.ReadHeader | pkg/connector/audioconvert.go:456-478 | one page header: sync, granule field, segment count and table, with the end-of-stream and bad-sync outcomes |
| OggFraming.ReadSegments | pkg/connector/audioconvert.go:480-497 | the segment loop grows the current packet and closes it at a segment shorter than 255 |
| OggFraming.ReadStream | pkg/connector/audioconvert.go:449-506 | reading any sequence of well-formed pages is assembling the concatenation of their segment tables over the concatenation of their payloads |
| OggFraming.PaginationInvisible | pkg/connector/audioconvert.go:449-506 | two paginations of the same lacing stream read as the same packets, also where packets span pages |
| OggFraming.ReadingConserves | pkg/connector/audioconvert.go:449-506 | the packets read, concatenated, are all the payload bytes |
| OggFraming.AssembleConserves | pkg/connector/audioconvert.go:480-497 | no segment adds, drops or reorders a byte |
| OggFraming.AssembleSegTable | pkg/connector/audioconvert.go:361-372 | the reader's assembly inverts the writer's lacing, for packets of any length including multiples of 255 |
| OggFraming.ReadAnyPagination | pkg/connector/audioconvert.go:449-506 | however the lacing of some packets is cut into pages, exactly those packets are read |
| OggFraming.FrameFields | pkg/connector/audioconvert.go:456-478 | the reader finds granule, segment table and payload of a written page in their places |
| OggOpus.PacketLasts | pkg/connector/audioconvert.go:594-631 | any packet lasts its frame duration, by Table 2 of RFC 6716, times its frame count, by section 3.2; a missing or zero count is one frame, an empty packet 20 ms |
| OggOpus.EmittedPageChecks | pkg/connector/audioconvert.go:385-395 | every page written passes the check of section 6 of RFC 3533: zero bytes 22 to 25, recompute, compare |
| OggOpus.WriteOggPage | pkg/connector/audioconvert.go:361-399 | the page written in steps, with its checksum patched in at byte 22, is the framed page |
| OggOpus.BuildSegTable | pkg/connector/audioconvert.go:364-372 | the loop that emits 255s and a remainder builds the lacing of the packets |
| OggOpus.BuildPayload | pkg/connector/audioconvert.go:374-378 | the payload is the packets in order |
| OggOpus.WriteOggOpus | pkg/connector/audioconvert.go:313-358 | the writer's bytes are the framed pages of the stream, and fails when there is no packet |
| OggOpus.WriteAudioPages | pkg/connector/audioconvert.go:330-355 | the accumulating loop with its page, segment and size counters emits the pages of the greedy packing |
| OggOpus.AllPacketsInOrder | pkg/connector/audioconvert.go:313-358 | over all pages, OpusHead, OpusTags and the packets appear once each and in order |
| OggOpus.PackConserves | pkg/connector/audioconvert.go:330-355 | the packing of the audio packets is a partition of them, in order |
| OggOpus.PackFits | pkg/connector/audioconvert.go:330-355 | every audio page holds a single packet or stays within 48000 payload bytes and 255 segments, so only a packet too long for a page could make its count byte inexact |
| OggOpus.PackGreedy | pkg/connector/audioconvert.go:330-355 | a page is closed only when the next packet would not have fitted |
| OggOpus.PackFlags | pkg/connector/audioconvert.go:330-355 | among the audio pages, only the last is marked as the end of the stream |
| OggOpus.StreamFlags | pkg/connector/audioconvert.go:313-358 | the beginning-of-stream mark is on exactly the first page, the end-of-stream mark on exactly the last |
| OggOpus.PackGranules | pkg/connector/audioconvert.go:330-355 | each audio page carries the granule position of the packets completed by its end, capped, and the last one the stream's own |
| OggOpus.GranuleIsEstimate | pkg/connector/audioconvert.go:348-351 | while the sample count fits an int64, a page position is the pre-skip plus so many packets of the first one's duration, capped by the stream's |
| OggOpus.EstimateCountsSamplesIff | pkg/connector/audioconvert.go:334-351 | that estimate is the sample count of section 4 of RFC 7845 at every packet if and only if there is no pre-skip and all packets last as long as the first |
| OggOpus.StreamGranules | pkg/connector/audioconvert.go:313-358 | for non-negative pre-skip and granule position: granule positions never decrease over the pages, none exceeds the stream's, and the last equals it |
| OggOpus.PagesAreFrames | pkg/connector/audioconvert.go:313-399 | the bytes written are a stream of well-formed frames whenever the packets fit their pages |
| OggOpus.ParseOggOpus | pkg/connector/audioconvert.go:424-446 | the parser built on the packet reader, with its too-few-packets and not-an-OpusHead errors |
| OggOpus.OggRoundTrip | pkg/connector/audioconvert.go:313-506 | parsing what was written gives the same packets, OpusHead, channels and pre-skip, and the granule position, or zero for a negative one |
| OggOpus.CountByteWraps | pkg/connector/audioconvert.go:361-372 | the 65024-byte limit is tight: a packet of 256 segments wraps the count byte to zero and the page can no longer be read past |
| OggLayout.WrittenPage | pkg/connector/audioconvert.go:361-399 | on the bytes: the k-th page has version 0, the flags of a first, inner or last page, its granule position, the serial number that spells Opus, page number k, the checksum of the rest, and the lacing and bytes of its packets |
| OggLayout.PageFields | pkg/connector/audioconvert.go:361-399 | each field of a written page at its offset, low byte first |
| OggLayout.PagesFillStream | pkg/connector/audioconvert.go:313-358 | the pages so found cover the stream from its first byte to its last |
| OggLayout.AudioPage | pkg/connector/audioconvert.go:330-355 | an audio page is a single packet or at most 48000 bytes and 255 segments, and one packet more would have broken one of the two |
| OggLayout.TagsReadBack | pkg/connector/audioconvert.go:402-411 | the comment packet reads back as magic, vendor length, vendor and zero comments |
| OggLayout.HeadFields | pkg/connector/audioconvert.go:438-445 | the fields the parser takes from an OpusHead, byte by byte |
| OggReading.ReadPrefix | pkg/connector/audioconvert.go:449-506 | what follows any stream of pages is read onto what they have assembled |
| OggReading.StrayTail | pkg/connector/audioconvert.go:449-506 | up to three bytes after the last page are ignored |
| OggReading.LostSync | pkg/connector/audioconvert.go:449-506 | four bytes or more that do not begin OggS make the stream unreadable |
| OggReading.CutPage | pkg/connector/audioconvert.go:456-497 | a page cut anywhere after its sync is refused, and the error names the part cut |
| OggReading.LastGranuleIs | pkg/connector/audioconvert.go:468-473 | the position read is that of the last page with a positive one |
| OggReading.ParsedStream | pkg/connector/audioconvert.go:424-446 | however its packets are paged, a stream with fewer than three is too short, one with a short or other first packet is not Opus, and any other yields channels, pre-skip, head, audio packets and position |
| CafOpus.CafVlq | pkg/connector/audioconvert.go:572-586 | the buffer filled backwards is never underrun, for any int64, and holds the code; zero and negative values give a single zero byte |
| CafOpus.VlqLength | pkg/connector/audioconvert.go:572-586 | a code takes at most 9 bytes for any int64, so the 10-byte buffer is enough |
| CafOpus.VlqPrefixFree | pkg/connector/audioconvert.go:572-586 | no code of a non-negative value is a prefix of the code of another |
| CafOpus.ReadOneVlq | pkg/connector/audioconvert.go:242-269 | reading the code of a non-negative int64, followed by anything, gives back the value and the rest |
| CafOpus.DecodeCafPacketSizes | pkg/connector/audioconvert.go:242-269 | the position-driven loop decodes as the recursive reading does, also on truncated tables |
| CafOpus.ScanVlq | pkg/connector/audioconvert.go:246-256 | the inner loop accumulates one code with int64 wrap-around and stops after it or at the end |
| CafOpus.PassVlq | pkg/connector/audioconvert.go:258-265 | the skipping loop passes exactly one code |
| CafOpus.DecodeSizeTable | pkg/connector/audioconvert.go:242-269 | decoding inverts any concatenation of size codes, whatever follows |
| CafOpus.DecodeSizeAndFrameTable | pkg/connector/audioconvert.go:242-269 | and any concatenation of sizes interleaved with frame counts |
| CafOpus.WriteCafOpus | pkg/connector/audioconvert.go:509-562 | the writer's chunks, in order, or an error when there is no packet |
| CafOpus.WriteSizes | pkg/connector/audioconvert.go:530-535 | the loop over the packets builds the table of size codes |
| CafOpus.CafWriteChunk | pkg/connector/audioconvert.go:565-569 | type, big-endian length, body |
| CafOpus.ParseCafOpus | pkg/connector/audioconvert.go:77-237 | the chunk loop parses every byte string as the chunk-by-chunk reading does, errors included |
| CafOpus.ReadOneChunk | pkg/connector/audioconvert.go:109-179 | each chunk kind: its size checks, short reads, default skipping and negative sizes |
| CafOpus.FinishParse | pkg/connector/audioconvert.go:182-236 | default channel, rebuilt OpusHead, constant or tabled sizes, granule fallback |
| CafOpus.SplitAudio | pkg/connector/audioconvert.go:213-222 | packets are cut from the audio until one would run past its end |
| CafOpus.SplitConserves | pkg/connector/audioconvert.go:213-222 | whatever the table says, the packets are the audio from its start, in order and without gaps, up to the first that does not fit |
| CafOpus.SplitSizes | pkg/connector/audioconvert.go:213-222 | each packet is as long as its table entry |
| CafReading.UnknownChunkSkipped | pkg/connector/audioconvert.go:175-178 | a chunk of unknown kind is passed over, whatever its body |
| CafReading.UnknownInvisible | pkg/connector/audioconvert.go:99-179 | any number of them between the others changes nothing that is read |
| CafReading.PaddedFileParsesAlike | pkg/connector/audioconvert.go:77-237 | a written file with unknown chunks at any of its chunk boundaries parses as the file without them |
| CafReading.ReadOwnBody | pkg/connector/audioconvert.go:99-179 | a chunk is read from its own body alone, and reading goes on right behind it |
| CafReading.DescRead32 | pkg/connector/audioconvert.go:110-127 | a description of 32 bytes or more yields its three fields, and the bytes beyond are passed over |
| CafReading.CookieRead | pkg/connector/audioconvert.go:129-140 | a cookie counts only if it is an OpusHead of 12 bytes, and sets channels only if it names any |
| CafReading.PaktRead24 | pkg/connector/audioconvert.go:142-158 | packet count, valid and priming frames with their signs, then the codes |
| CafReading.DataRead | pkg/connector/audioconvert.go:160-174 | audio is taken behind its four-byte edit count, or whole if shorter |
| CafReading.OpenDataRead | pkg/connector/audioconvert.go:160-164 | a data chunk of size -1 reads as one that gives its length |
| CafReading.ConstantPackets | pkg/connector/audioconvert.go:196-222 | with a constant packet size every packet is that long, and there are as many as announced or as fit |
| CafReading.NotCafRefused | pkg/connector/audioconvert.go:77-84 | under eight bytes is too short, another magic is no CAF file, and no other input gets these errors |
| CafReading.ChunkRefusedFor | pkg/connector/audioconvert.go:109-179 | a chunk is refused, and with which error, exactly for a size below its fixed part, missing bytes, another format or a negative size |
| CafReading.NegativeCountRefused | pkg/connector/audioconvert.go:196-207 | a negative packet count is refused |
| CafReading.NoTableNoParse | pkg/connector/audioconvert.go:196-207 | so is a file with neither constant sizes nor a packet table |
| CafReading.BuiltHeadAgrees | pkg/connector/audioconvert.go:186-190 | without a cookie the head built has the 19 bytes of section 5.1 of RFC 7845 and agrees with channels and pre-skip |
| CafReading.FramedFileParses | pkg/connector/audioconvert.go:77-237 | a file whose table interleaves sizes and frame counts, and names no frame duration, parses to its packets, at 960 frames each where no position is given |
| CafReading.ChunkLayout | pkg/connector/audioconvert.go:565-569 | a chunk is its type, the length high byte first, and the body |
| CafReading.DescLayout | pkg/connector/audioconvert.go:528-537 | every field of the written description |
| CafReading.PaktLayout | pkg/connector/audioconvert.go:542-551 | every field of the written packet table |
| CafReading.FileLayout | pkg/connector/audioconvert.go:509-562 | a written file is the magic, version 1, and the four chunks in order |
| Remux.ReadWrittenChunks | pkg/connector/audioconvert.go:77-180 | the parser's loop, run on a written file, ends in the state that holds every field of the stream |
| Remux.GranuleThroughCaf | pkg/connector/audioconvert.go:224-228 | the granule position that valid and priming frames add up to, wrap-around and fallback included |
| Remux.CafRoundTrip | pkg/connector/audioconvert.go:77-237 | the exact outcome of parsing a written CAF file, for every stream in range |
| Remux.CafRoundTripIff | pkg/connector/audioconvert.go:509-562 | it is the same stream if and only if the granule position exceeds the pre-skip and there is a channel |
| Remux.RemuxRoundTrip | pkg/connector/audioconvert.go:77-506 | under that condition both containers give the stream back |
| Remux.ParsedHeadAgrees | pkg/connector/audioconvert.go:424-446 | whatever the Ogg parser accepts has fields that agree with its OpusHead |
| Remux.ReceivedVoiceIff | pkg/connector/audioconvert.go:53-75 | a parsed CAF stream of fitting packets says the same in its Ogg form if and only if its fields agree with its OpusHead and its granule position is not negative |
| Remux.VoiceMessageSurvives | pkg/connector/audioconvert.go:31-75 | Ogg to CAF to Ogg, through both writers and both parsers, is the same stream |
| Levenshtein.LevenshteinDistance | pkg/connector/command_contacts.go:335-363 | the two swapped rows and the early returns compute the recursive edit distance |
| Levenshtein.DistanceIsLeastEdits | pkg/connector/command_contacts.go:335-363 | n single-byte edits lead from one word to the other if and only if the distance is at most n |
| Levenshtein.DistanceZero | pkg/connector/command_contacts.go:335-338 | distance zero means equal words |
| Levenshtein.Symmetric | pkg/connector/command_contacts.go:335-363 | the distance is symmetric |
| Levenshtein.Triangle | pkg/connector/command_contacts.go:335-363 | and obeys the triangle inequality |
| Levenshtein.PathsAreLong | pkg/connector/command_contacts.go:335-363 | no edit sequence is shorter than the distance |
| Levenshtein.ShortPath | pkg/connector/command_contacts.go:335-363 | an edit sequence of exactly that length exists |
| Levenshtein.FuzzyEditThreshold | pkg/connector/command_contacts.go:323-332 | no edit for words of at most two bytes, two from six bytes on, one between |
| Levenshtein.AnyNameWordFuzzyMatches | pkg/connector/command_contacts.go:306-319 | the search finds a word if and only if one has the query as prefix or lies within the threshold |
| Levenshtein.MatchesBack | pkg/connector/command_contacts.go:306-319 | a name word reached from the query leads back to it in as many edits |
| CloudMessages.CloudMessageStore.UpsertMessageBatch | pkg/connector/cloud_backfill_store.go:629-714 | the deduplicating pass and the row-by-row upsert end in the merge of each guid's newest record |
| CloudMessages.NewestByGuid | pkg/connector/cloud_backfill_store.go:635-647 | the map and the order built from a batch: the newest record of each guid, each guid once |
| CloudMessages.WinnerIsNewest | pkg/connector/cloud_backfill_store.go:635-647 | the record kept for a guid is as new as any of the batch |
| CloudMessages.CloudMessageStore.DeleteMessageBatch | pkg/connector/cloud_backfill_store.go:739-775 | deleting in chunks of 500 is deleting all at once |
| CloudMessages.CloudMessageStore.SoftDeleteMessageByGuid | pkg/connector/cloud_backfill_store.go:2007-2059 | update every spelling, else insert the stub |
| CloudMessages.CloudMessageStore.PersistMessageUuid | pkg/connector/cloud_backfill_store.go:2347-2371 | insert unless the guid is known |
| CloudMessages.DeletedUnlessRevived | pkg/connector/cloud_backfill_store.go:654-688 | every statement keeps a deleted row deleted, except, and only, a restore of its portal, a recycle-bin seed of its guid or a hard delete |
| CloudMessages.DeletionIsSticky | pkg/connector/cloud_backfill_store.go:654-688 | over any run without those, a deleted row stays deleted |
| CloudMessages.ScrubKeepsNoPlaintext | pkg/connector/cloud_backfill_store.go:654-688 | no statement puts text or subject into a scrubbed row |
| CloudMessages.ScrubbedMeansEmpty | pkg/connector/cloud_backfill_store.go:654-688 | in every reachable state a scrubbed row has NULL text and subject |
| CloudMessages.ScrubbedUnlessCleared | pkg/connector/cloud_backfill_store.go:3270-3313 | the scrub flag falls exactly by a clear of the row's portal, by the clear of all for a live row, or by a hard delete |
| CloudMessages.ScrubIsSticky | pkg/connector/cloud_backfill_store.go:654-688 | over any run without those, no upsert refills the body |
| CloudMessages.DeletedBodiesStayPurged | pkg/connector/cloud_backfill_store.go:3296-3313 | clearing every scrub never brings back a body the user deleted |
| CloudMessages.SoftDeleteCoversSpellings | pkg/connector/cloud_backfill_store.go:2007-2059 | after a delete every stored spelling of the guid is deleted and scrubbed, and one exists |
| CloudMessages.StubHoldsIff | pkg/connector/cloud_backfill_store.go:2007-2059 | a delete that arrives before the message holds against its later sync if and only if both spell the guid alike |
| CloudMessages.StubGapWitness | pkg/connector/cloud_backfill_store.go:2007-2059 | two spellings for which it does not |
| CloudMessages.ReplayChangesNothing | pkg/connector/cloud_backfill_store.go:629-714 | replaying a batch changes nothing but update times |
| CloudMessages.ReadsAndRepliesKept | pkg/connector/cloud_backfill_store.go:654-688 | no statement lowers a read time or forgets a captured reply |
| CloudMessages.ReadsAndRepliesKeptOverRuns | pkg/connector/cloud_backfill_store.go:654-688 | nor does any run that does not hard-delete the row |
| MessageEffects.WinnerIs | pkg/connector/cloud_backfill_store.go:635-647 | the record kept for a guid is the last of its newest ones |
| MessageEffects.StoredAfterSync | pkg/connector/cloud_backfill_store.go:654-688 | a sync of a known message, column by column: content only if unscrubbed, deleted if either is, the later read time, a reply kept unless replaced, creation kept |
| MessageEffects.NewAfterSync | pkg/connector/cloud_backfill_store.go:654-709 | a sync of an unknown message stores every column of its record, unscrubbed |
| MessageEffects.SyncLeavesOthers | pkg/connector/cloud_backfill_store.go:629-714 | a sync adds exactly the guids it names and touches no other row |
| MessageEffects.BatchDeletes | pkg/connector/cloud_backfill_store.go:739-775 | exactly the live rows of the named guids become deleted and scrubbed, with text, subject and emoji cleared, sender empty, update time now, all else as it was |
| MessageEffects.PortalDeletes | pkg/connector/cloud_backfill_store.go:2164-2217 | likewise the live rows of the portals |
| MessageEffects.KnownSpellingDeletes | pkg/connector/cloud_backfill_store.go:2007-2034 | likewise every spelling of a guid, deleted ones too, with no update time |
| MessageEffects.UnknownGuidStubs | pkg/connector/cloud_backfill_store.go:2035-2059 | otherwise one row is added, a stub with these columns |
| MessageEffects.BodiesScrubbed | pkg/connector/cloud_backfill_store.go:3703-3792 | of the rows picked, those unscrubbed, older than the cutoff and not reactions lose text, subject, sender and emoji |
| MessageEffects.ReactionsScrubbed | pkg/connector/cloud_backfill_store.go:3809-3860 | and the reactions, from tapback type 2000 on, lose text and subject alone |
| MessageEffects.DeletedScrubbed | pkg/connector/cloud_backfill_store.go:324-333 | at start the deleted, unscrubbed rows are scrubbed |
| MessageEffects.PortalUnscrubbed | pkg/connector/cloud_backfill_store.go:3270-3287 | clearing a portal drops the flag and stamps its scrubbed rows |
| MessageEffects.LiveUnscrubbed | pkg/connector/cloud_backfill_store.go:3301-3313 | clearing all does so for the rows not deleted |
| MessageEffects.PortalUndeleted | pkg/connector/cloud_backfill_store.go:3248-3262 | a restore revives and stamps the deleted rows of its portal and no others |
| MessageEffects.GuidsUndeleted | pkg/connector/client.go:5302-5326 | a restore by guid revives those of them in the portal |
| MessageEffects.PortalReKeyed | pkg/connector/cloud_backfill_store.go:2320-2340 | re-keying moves and stamps the rows of the old portal; with an empty or equal portal it does nothing |
| MessageEffects.RowsRerouted | pkg/connector/cloud_backfill_store.go:1935-1965 | chosen rows are re-pointed, without a stamp by the normalization and with one by the heal |
| MessageEffects.HardDeleted | pkg/connector/cloud_backfill_store.go:2240-2252 | a hard delete removes the chosen rows and no others |
| MessageEffects.SeenIsStored | pkg/connector/cloud_backfill_store.go:2347-2371 | a message seen in real time adds a bare row if its guid is new, and changes nothing else |
| MessageEffects.RecycledIsSeeded | pkg/connector/client.go:5380-5385 | a recycle-bin seed revives and re-points a known row, or adds one with what the entry says |
| MessageEffects.RestoredThenRefilled | pkg/connector/cloud_backfill_store.go:3226-3287 | a portal deleted, restored and cleared is refilled by the next sync |
| MessageEffects.RestoredStaysEmpty | pkg/connector/cloud_backfill_store.go:654-688 | one restored without the clear stays empty whatever is synced |
| MessageListing.ListingUnique | pkg/connector/cloud_backfill_store.go:2745-2812 | timestamp and guid order a set of rows in one way only, equal timestamps included |
| MessageListing.ListOldestMessages | pkg/connector/cloud_backfill_store.go:2803-2812 | the first rows of a portal's ascending listing of live, unstubbed rows |
| MessageListing.ListForwardMessages | pkg/connector/cloud_backfill_store.go:2770-2785 | the rows that follow an anchor |
| MessageListing.ListLatestMessages | pkg/connector/cloud_backfill_store.go:2788-2798 | the last rows, newest first |
| MessageListing.ListBackwardMessages | pkg/connector/cloud_backfill_store.go:2745-2767 | the rows before an anchor, newest first |
| MessageListing.AfterIsSuffix | pkg/connector/cloud_backfill_store.go:2770-2785 | the rows after the i-th row are the rest of the listing |
| MessageListing.EarlierIsPrefix | pkg/connector/cloud_backfill_store.go:2745-2767 | the rows before the i-th row are the listing up to it |
| MessageListing.PageForward | pkg/connector/cloud_backfill_store.go:2770-2812 | oldest page, then forward from the last row until a page is empty: terminates, with every listed row exactly once and in order |
| MessageListing.PageBackward | pkg/connector/cloud_backfill_store.go:2745-2798 | latest page, then backward: the exact reverse |
| MessageListing.NamedRowsReachable | pkg/connector/cloud_backfill_store.go:629-714 | in every state reached from the empty table by named records, listed rows have guids, which backward paging relies on |
| ListingOutcome.GuidBeforeMeans | pkg/connector/cloud_backfill_store.go:2745-2812 | guids compare by their first difference, a prefix first |
| ListingOutcome.OldestPage | pkg/connector/cloud_backfill_store.go:2803-2812 | the page is exactly the first rows, in order and as many as asked for, of those of the portal that are neither deleted nor without a record name |
| ListingOutcome.LatestPage | pkg/connector/cloud_backfill_store.go:2788-2798 | likewise the last rows, newest first |
| ListingOutcome.ForwardPage | pkg/connector/cloud_backfill_store.go:2770-2785 | likewise the first rows after an anchor |
| ListingOutcome.BackwardPage | pkg/connector/cloud_backfill_store.go:2745-2767 | likewise the last rows before an anchor, or of all when it is zero and empty |
| ListingOutcome.DeleteHides | pkg/connector/cloud_backfill_store.go:739-775 | a batch delete takes exactly its guids out of every listing |
| ListingOutcome.SoftDeleteHides | pkg/connector/cloud_backfill_store.go:2007-2059 | a delete of one guid takes out exactly its spellings |
| ListingOutcome.PortalDeleteHides | pkg/connector/cloud_backfill_store.go:2164-2217 | a portal delete takes out exactly its portals |
| ListingOutcome.UndeleteShows | pkg/connector/cloud_backfill_store.go:3226-3262 | a restore brings back every named row of its portal and of no other |
| ListingOutcome.ScrubsHideNothing | pkg/connector/cloud_backfill_store.go:3703-3860 | no scrub changes a listing |
| ListingOutcome.SeenShowsNothing | pkg/connector/cloud_backfill_store.go:2347-2371 | nor does a message seen in real time |
| ListingOutcome.SyncShows | pkg/connector/cloud_backfill_store.go:629-714 | a synced message is listed where and when its record says unless it was or is deleted or has no record name |
| TailScrub.ScrubUnbridgedTail | pkg/connector/cloud_backfill_store.go:3874-3964 | the portal loop and its chunks end, whichever rows each LIMIT picks, in one table determined by the table before |
| TailScrub.ScrubPortal | pkg/connector/cloud_backfill_store.go:3905-3962 | one portal: threshold at the last kept row, then chunks until none is left |
| TailScrub.DrainCandidates | pkg/connector/cloud_backfill_store.go:3921-3962 | the chunk loop terminates and scrubs exactly the candidates |
| TailScrub.TailScrubInvisible | pkg/connector/cloud_backfill_store.go:3874-3964 | the newest n rows of every portal, n up to the number kept, are the same rows with the same contents before and after |
| TailScrub.TailScrubExact | pkg/connector/cloud_backfill_store.go:3874-3964 | a row is cleared if and only if it is eligible, its portal is neither excluded nor short, and at least the kept number of listed rows are strictly newer; it then loses text, subject, sender and emoji, and nothing else changes |
| RecycleBin.ClassifyRecycleBinPortals | pkg/connector/cloud_backfill_store.go:1116-1236 | the single pass with its per-portal counters returns the per-portal specification, for every scan order the query admits |
| RecycleBin.ScanPortals | pkg/connector/cloud_backfill_store.go:1150-1200 | the counters after the scan are the totals, recoverable counts and newest streaks of each portal |
| RecycleBin.KeepRecoverable | pkg/connector/cloud_backfill_store.go:1202-1236 | portals without a recoverable row are left out, the rest keep their order |
| RecycleBin.NormalizeRecoverableGuidSet | pkg/connector/cloud_backfill_store.go:1093-1109 | the loop cuts entries at their first bar, drops empty ones and builds the set |
| RecycleBin.LooksDeletedMeans | pkg/connector/cloud_backfill_store.go:1070-1091 | a portal looks deleted if and only if its newest min(3, total) rows are all recoverable; streak, recoverable and total are ordered |
| RecycleBin.DeletedOrRestored | pkg/connector/cloud_backfill_store.go:1080-1091 | every portal returned is exactly one of deleted and restored |
| RecycleBin.OrderAndDuplicatesIgnored | pkg/connector/cloud_backfill_store.go:1093-1109 | order and repetition in the guid list make no difference |
| RecycleBin.ClassificationUnique | pkg/connector/cloud_backfill_store.go:1116-1236 | the specification determines the result |
| RecycleBin.PortionIsListing | pkg/connector/cloud_backfill_store.go:1116-1150 | each portal's part of the scan is its listing, newest first |
| RecycleBin.NeedsUndeleteMeans | pkg/connector/cloud_backfill_store.go:1089-1091 | a portal needs its messages undeleted if and only if it looks restored and every one of them is marked deleted |
| RecycleBin.ScanExists | pkg/connector/cloud_backfill_store.go:1116-1150 | every table has a scan in the order of the query |
| RecycleBin.StateCounts | pkg/connector/cloud_backfill_store.go:1150-1200 | a portal's totals are the numbers of its named rows and of those in the bin, its newest time that of its newest row |
| CloudChats.CloudChatStore.UpsertChatBatch | pkg/connector/cloud_backfill_store.go:931-992 | each chat of a batch ends as the fold of its own upserts |
| CloudChats.LastNewestWins | pkg/connector/cloud_backfill_store.go:945-980 | name, photo and time are those of the last among the newest upserts |
| CloudChats.OrderIrrelevantIff | pkg/connector/cloud_backfill_store.go:945-980 | all orders of arrival end alike if and only if the stored row is newer than all of them or the newest agree on name and photo |
| CloudChats.DistinctTimesConverge | pkg/connector/cloud_backfill_store.go:945-980 | with pairwise distinct times they do |
| CloudChats.EqualTimesWitness | pkg/connector/cloud_backfill_store.go:945-980 | with equal times they need not |
| CloudChats.DeletedChatStaysDeleted | pkg/connector/cloud_backfill_store.go:945-980 | no upsert changes the deleted flag, or replaces captured participants |
| CloudChats.FaceAfterOne | pkg/connector/cloud_backfill_store.go:952-970 | one upsert carries name, photo and time over unless the row is newer, a row without a time counting as zero |
| CloudChats.LastUpsertSays | pkg/connector/cloud_backfill_store.go:945-972 | record, group, portal, service and filter are those of the last upsert, creation and deletion the row's own |
| CloudChats.FirstParticipantsStay | pkg/connector/cloud_backfill_store.go:962-966 | participants are those of the first upsert that has any, for a row that has captured none |
| Canary.Profile.IdsCanary | src/cli.ts:797-957 | the command, cut by a crash after any awaited step, leaves the files and has made the calls of the corresponding prefix of its steps, or refuses for the first reason that applies |
| Canary.Profile.RegistrationRefresh | src/cli.ts:647-738 | likewise; the quiet period is on file before the remote call |
| Canary.Profile.IdsCooldown | src/cli.ts:1246-1287 | likewise for enable, disable and status |
| Canary.Profile.IdsProbe | src/cli.ts:740-795 | likewise for the sparse probe |
| Canary.CanaryCut | src/cli.ts:862-957 | the seven states in which a canary can be left |
| Canary.CanaryIsSafe | src/cli.ts:647-957 | over every sequence of commands, each cut anywhere: every lookup and send is made with the hold and an in-progress journal of the same start on file, lookups are at most one more than archives, sends at most lookups |
| Canary.AcceptedIsFinal | src/cli.ts:647-957 | once the journal says accepted, no later command looks up, sends or removes it |
| Canary.SendsAreTraced | src/cli.ts:647-957 | every send is owed to the journal on file, to an archived canary that never finished, or to one whose message got no guid, so a second message needs one of those |
| Canary.JournalTellsTruthIff | src/ids-canary-journal.ts:56-75 | a completed canary's journal tells whether a message was sent if and only if the engine did not accept one without returning a guid |
| Canary.SendNeedsProof | src/ids-probe.ts:108-172 | wherever it is cut, a canary has sent nothing unless one clean response listed target and sender, each with a returned, fresh, non-empty entry |
| Canary.StatusIsTrue | src/ids-canary-journal.ts:132-178 | wherever a canary is cut, an offline status of not-sent is true if and only if the engine did not accept the message without a guid, and any statement about the message means one was sent |
| Canary.LookupsAreApart | src/cli.ts:647-957 | with no manual disable, two canary lookups start at least two waits apart |
| Canary.EntryOf | src/ids-probe.ts:119-124 | the first directory entry of an address, in any letter case |
| CanaryOutcome.WholeHours | src/cli.ts:797-957 | n hours last n times 3600000 milliseconds |
| CanaryOutcome.CanaryAdmittedIff | src/cli.ts:797-860 | a canary goes ahead if and only if there is no journal, no running wait, and its options, target and login are in order |
| CanaryOutcome.CanaryRefusedFor | src/cli.ts:797-860 | and otherwise names the first condition it fails |
| CanaryOutcome.SendIff | src/ids-probe.ts:108-172 | a canary that runs to its end looks up once and sends once if and only if the response is clean, lists both ends, and the first entry of each is returned, live and has an identity |
| CanaryOutcome.EntryIsFirst | src/ids-probe.ts:119-124 | the entry consulted is the first of its address |
| CanaryOutcome.CanaryLeaves | src/cli.ts:862-957 | the journal and the wait it then leaves, field by field |
| CanaryOutcome.CutLeaves | src/cli.ts:862-957 | wherever it is cut, what is on file and what its calls found there, field by field |
| CanaryOutcome.StatusSays | src/ids-canary-journal.ts:132-178 | the offline status of a finished canary from the lookup, the message database and the receipt |
| CanaryOutcome.NoSenderNothingDone | src/cli.ts:858-868 | without a sender nothing is written and nobody is asked |
| CanaryOutcome.RefreshAdmittedIff | src/cli.ts:647-690 | when a refresh goes ahead |
| CanaryOutcome.RefreshRefusedFor | src/cli.ts:647-690 | and which condition it names otherwise |
| CanaryOutcome.RefreshLeaves | src/cli.ts:647-738 | a finished refresh has started a wait, asked once with it on file, and archived the journal |
| CanaryOutcome.OtherDeviceKeepsJournal | src/cli.ts:700-738 | with another device in the answer the journal stays |
| CanaryOutcome.CooldownLeaves | src/cli.ts:1246-1287 | enable, disable and status, field by field |
| CanaryOutcome.ProbeLeaves | src/cli.ts:740-795 | a probe asks once if it may, and an empty answer starts a wait |
| CanaryReceipt.IdsCanaryReceiptMonitor.WaitForReceipt | src/ids-canary-receipt.ts:41-64 | the buffer search, immediate timeout and registration, as one event of the machine |
| CanaryReceipt.IdsCanaryReceiptMonitor.HandleMessage | src/ids-canary-receipt.ts:79-94 | a message answers the pending wait or is buffered, the oldest making room |
| CanaryReceipt.IdsCanaryReceiptMonitor.TimerExpires | src/ids-canary-receipt.ts:58-61 | the timer settles the pending wait |
| CanaryReceipt.IdsCanaryReceiptMonitor.CloseMonitor | src/ids-canary-receipt.ts:66-77 | closing settles what is pending and empties the buffer, once |
| CanaryReceipt.InvAlways | src/ids-canary-receipt.ts:30-95 | in every interleaving: at most 128 buffered, all control messages, none of them evidence for the guid that is waited for |
| CanaryReceipt.EachWaitSettlesOnce | src/ids-canary-receipt.ts:41-95 | every accepted wait settles exactly once, and not while it is pending |
| CanaryReceipt.ClosingSettlesAll | src/ids-canary-receipt.ts:66-77 | after closing no wait is open |
| CanaryReceipt.EvidenceIsGenuine | src/ids-canary-receipt.ts:79-120 | what a wait reports comes from a message naming its guid, and no message is reported more often than it arrived |
| CanaryReceipt.EarlyReceiptKeptIff | src/ids-canary-receipt.ts:48-54 | a receipt that came before the first wait answers it at once, also a wait of zero, if and only if fewer than 128 control messages followed it; otherwise the wait times out at once or is pending |
| CanaryReceipt.FirstProof | src/ids-canary-receipt.ts:48-50 | the oldest buffered evidence |
| CanaryReceipt.EvidenceIff | src/ids-canary-receipt.ts:97-120 | what a message says about a guid, by its own fields: error, else read, else delivered, with its own time or else now |
| CanaryReceipt.ReportsSayWhatCame | src/ids-canary-receipt.ts:41-120 | every wait that did not time out reports what its message says, at the time of the event that settled it |
| CanaryReceipt.AnsweredAtOnce | src/ids-canary-receipt.ts:79-94 | a message about the pending wait settles it and is not kept; any other leaves it, and control messages are kept, the oldest of 128 making room |
| CanaryReceipt.AnsweredFromBuffer | src/ids-canary-receipt.ts:48-54 | a wait takes the oldest kept message about it out of the buffer |
| AttachmentRetrier.PendingAttachmentStore.GetDue | pkg/connector/pending_attachment_store.go:115-140 | some answer of oldest first, at most the limit, ties either way |
| AttachmentRetrier.PendingAttachmentStore.UpdateSchedule | pkg/connector/pending_attachment_store.go:143-152 | only the three schedule columns change, and none under an ended context |
| AttachmentRetrier.AttachmentRetrier.Tick | pkg/connector/attachment_retrier.go:72-95 | one tick tries the rows of one batch in turn and stops once its five-minute context has ended |
| AttachmentRetrier.AttachmentRetrier.Attempt | pkg/connector/attachment_retrier.go:97-137 | MMCS, then CloudKit, then empty bytes, then delivery: the row is deleted or rescheduled, or left as it was if the context ended during the attempt |
| AttachmentRetrier.AttachmentRetrier.Reschedule | pkg/connector/attachment_retrier.go:309-327 | give up at thirty attempts or after seven days, else back off; under an ended context both writes fail |
| AttachmentRetrier.TickIsRun | pkg/connector/attachment_retrier.go:72-95 | a tick is a run of the machine the theorems are about, counted if and only if its context did not cut it |
| AttachmentRetrier.AttemptsBounded | pkg/connector/pending_attachment_store.go:91-112 | however often its message is replayed, a pending row is tried at most thirty times plus once for each try cut by the end of its tick or by a restart, and its count is that of the others; thirty holds when no try was cut |
| AttachmentRetrier.BoundIsReached | pkg/connector/attachment_retrier.go:309-327 | for every m some run tries a row 30 + m times, m of them cut by restarts, within its seven days, so no bound holds for all runs |
| AttachmentRetrier.OverrunsAreUncounted | pkg/connector/attachment_retrier.go:309-327 | for every n some run without a restart tries a row n times and counts none |
| AttachmentRetrier.ThirdTryIsLost | pkg/connector/attachment_retrier.go:309-327 | how a tick loses a try: of three due rows with two-minute downloads the third is tried, not counted and still due |
| AttachmentRetrier.DueRowIsTried | pkg/connector/attachment_retrier.go:72-95 | a row with r others at or before its due time is tried within r/50 + 1 whole ticks of coming due, whatever is enqueued, fails, overruns or restarts meanwhile |
| RetryOutcome.LeavesIff | pkg/connector/attachment_retrier.go:97-137 | a row leaves the table if and only if a try written in time delivered non-empty bytes and its edit was queued, was the thirtieth, or found it over seven days old |
| RetryOutcome.GoneHasEnded | pkg/connector/attachment_retrier.go:97-137 | so over any run a row that is gone has ended at one of its tries |
| RetryOutcome.StaysAs | pkg/connector/attachment_retrier.go:309-327 | a failed try written in time adds one to the count and puts the row off by that count's delay; no other step changes a row |
| RetryOutcome.Delays | pkg/connector/attachment_retrier.go:329-344 | 30 s, 2, 10, 30 and 60 minutes, then six hours |
| RetryOutcome.AppearsAs | pkg/connector/attachment_retrier.go:403-432 | a row appears only by an enqueue, untried and due in thirty seconds |
| RetryOutcome.AgeIsKept | pkg/connector/pending_attachment_store.go:91-112 | however often it is enqueued again, a pending row keeps its payload and its age |
| CarrierRoute.CarrierClient.ReserveCarrierCheck | pkg/connector/carrier_route.go:287-305 | prune, refuse at sixty, else book |
| CarrierRoute.CarrierClient.KeepRecent | pkg/connector/carrier_route.go:291-298 | filtering the log into its own array keeps exactly the recent entries in order |
| CarrierRoute.CarrierClient.NoteVerifiedIMessage | pkg/connector/carrier_route.go:261-273 | record, then drop what has expired by its own reading |
| CarrierRoute.CarrierClient.NoteCheckedUnreachable | pkg/connector/carrier_route.go:234-246 | likewise |
| CarrierRoute.CarrierClient.CheckCarrierRoute | pkg/connector/carrier_route.go:115-179 | the order of classifier, memos, self-chat, client and ceiling |
| CarrierRoute.CheckAlone | pkg/connector/carrier_route.go:115-179 | the three holds of the mutex, with nothing in between, decide and reserve as one check does |
| CarrierRoute.AtMostSixtyPerHour | pkg/connector/carrier_route.go:275-305 | with a clock that does not go back, no half-open hour holds more than sixty grants |
| CarrierRoute.RefusedIff | pkg/connector/carrier_route.go:287-305 | a request is refused if and only if the full, unpruned history has sixty grants in the hour before it |
| CarrierRoute.SixtyFirstAtTheHour | pkg/connector/carrier_route.go:291-304 | sixty requests at one instant and one an hour later are all granted, so an hour closed at both ends can hold sixty-one |
| CarrierRoute.MemoAnswersAlike | pkg/connector/carrier_route.go:225-273 | a pruned memo answers as the whole history would |
| CarrierRoute.LookupsAreCapped | pkg/connector/carrier_route.go:115-305 | however checks of different portals interleave between holds of the mutex, the ceiling holds and every lookup spent a reservation of its own |
| CarrierRoute.OneLookupPerHour | pkg/connector/carrier_route.go:115-273 | a portal's next lookup begins an hour or more after its last was answered |
| CarrierRoute.YesRestsOnLookup | pkg/connector/carrier_route.go:129-131 | a yes without asking rests on a lookup within the hour that said yes |
| CarrierRoute.VerdictIff | pkg/connector/carrier_route.go:115-179 | after every orderly run: yes if and only if the portal is to be verified and a lookup of it within the hour said reachable; a question if and only if no lookup within the hour said anything, the handle is another's and there is a client; otherwise no |
| CarrierRoute.UnreachableStands | pkg/connector/carrier_route.go:132-134 | a recent unreachable answer with no recent reachable one gives no |
| IpcMatching.Processor.DrawId | ipc/ipc.go:173-175 | a fresh channel and the next 32-bit id |
| IpcMatching.Processor.AddWaiter | ipc/ipc.go:176-178 | registration under the lock, before the request is written |
| IpcMatching.Processor.HandleResponse | ipc/ipc.go:145-154 | find, remove, hand over |
| IpcMatching.Processor.TakeAnswer | ipc/ipc.go:196-212 | what the requester takes carries its own id |
| IpcMatching.SameIdIff | ipc/ipc.go:175-175 | two requests share an id if and only if they are a multiple of 2^32 draws apart |
| IpcMatching.DistinctIff | ipc/ipc.go:175-175 | so all ids are distinct exactly until 2^32 requests have been made |
| IpcMatching.LoopNeverBlocks | ipc/ipc.go:145-154 | in every interleaving, ids repeated or not, the send under the lock finds room, whoever has timed out and whatever the peer sends |
| IpcMatching.AnswersAreOwn | ipc/ipc.go:145-154 | each request gets one delivery at most, under its own id, which is no other's for the first 2^32 requests |
| IpcMatching.FirstResponseArrives | ipc/ipc.go:173-222 | the first response to a written request, of the first 2^32, finds its waiter and can be taken |
| IpcMatching.StrayResponseIgnored | ipc/ipc.go:145-154 | an unmatched or repeated response changes nothing |

## Left out

- Audio conversion around the remuxer: MIME and file-name handling, fallbacks to the input and the duration estimate (pkg/connector/audioconvert.go:31-75).
- Allocation failure: a chunk that announces a huge non-negative length is treated as a read that fails when the bytes run out.
- Packets or an OpusHead over 65024 bytes do not round-trip through one page; `CountByteWraps` shows why, and the round trip assumes they are no longer.
- The login column, SQL engine, dialects, indexes and migrations: tables are maps for one login, statements atomic steps.
- Database errors and cancelled contexts, but for the retrier's writes under its own ended context.
- Other tables of the CloudKit store (tokens, attachments, restore overrides) and the chat columns that no proved property reads.
- The lookup that finds the portals sharing a group when a chat is deleted: its result is a parameter of the delete step.
- Guid folding is ASCII, as the database's; message guids and directory addresses of the canary are folded as ASCII too, not as Unicode.
- `contactMatchScore`: needs Unicode lower-casing and word splitting; only its fuzzy word match is modelled.
- Canary commands running at the same time on one profile, files edited by hand, corrupt files, and the text printed.
- Session snapshots and the BlueBubbles row written by a canary: awaited steps without effect on policy and journal.
- The status's timestamps and error texts; its outcome is modelled.
- Native engine calls, hardware keys and receipts: arbitrary inputs.
- Canary.LookupsAreApart: leaves out runs with a manual disable, which is meant to lift the wait.
- AttachmentRetrier.DueRowIsTried: counts ticks that neither their five-minute context nor a restart cut.
- The race between a write and the end of its context: a write that starts in time is taken to succeed.
- Retry rows keep one opaque payload for the columns the scheduler does not read; downloads, edits and Matrix are inputs.
- Sub-millisecond clock digits of the retry table, and the sleeps of its insert loop.
- Waiting at the rate gate and `hasSMSRelay`: they change no state modelled here; the ceiling bounds reservations, not the instants of lookups.
- CarrierRoute.OneLookupPerHour: assumes that sends to one portal follow one another, as the source says they do; different portals interleave between any two holds of the mutex.
- IPC handlers, JSON encoding and the other commands of the loop, which do not touch the waiter table.
- IpcMatching.FirstResponseArrives: for the first 2^32 requests of a process; ids repeat after that, and a later waiter replaces an earlier one of its id.
- CardDAV, FaceTime, StatusKit, login, service installation, media conversion and Matrix uploads.
