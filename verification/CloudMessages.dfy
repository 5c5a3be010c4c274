/** The cloud_message table as a state machine: each SQL statement that writes it is
    a step on a map keyed by guid, and runs of steps keep deletions and scrubs. */
module CloudMessages {
  import opened Bytes

  type Guid = string
  type Portal = string

  datatype Row = Row(recordName: string, chatId: Option<string>, portal: Option<Portal>, timestamp: int,
                     sender: Option<string>, isFromMe: bool, text: Option<string>, subject: Option<string>,
                     service: Option<string>, deleted: bool, tapbackType: Option<int>,
                     tapbackTarget: Option<string>, tapbackEmoji: Option<string>, attachments: Option<string>,
                     dateRead: int, hasBody: bool, scrubbed: bool, replyGuid: Option<string>,
                     replyPart: Option<string>, createdTs: int, updatedTs: int)

  type Table = map<Guid, Row>

  /** A CloudKit record as the sync delivers it. */
  datatype Incoming = Incoming(guid: Guid, recordName: string, chatId: string, portal: Portal, timestamp: int,
                               sender: string, isFromMe: bool, text: string, subject: string, service: string,
                               deleted: bool, tapbackType: Option<int>, tapbackTarget: string, tapbackEmoji: string,
                               attachments: string, dateRead: int, hasBody: bool, replyGuid: string, replyPart: string)

  /** ASCII upper case, as the database's UPPER folds guids. */
  function Upper(s: string): (u: string)
    ensures |u| == |s|
  {
    seq(|s|, i requires 0 <= i < |s| => if 'a' <= s[i] <= 'z' then s[i] - 'a' + 'A' else s[i])
  }

  // ---- The upsert ----

  function Inserted(m: Incoming, now: int): Row {
    Row(m.recordName, Some(m.chatId), Some(m.portal), m.timestamp, Some(m.sender), m.isFromMe, Some(m.text),
        Some(m.subject), Some(m.service), m.deleted, m.tapbackType, Some(m.tapbackTarget), Some(m.tapbackEmoji),
        Some(m.attachments), m.dateRead, m.hasBody, false, Some(m.replyGuid), Some(m.replyPart), now, now)
  }

  function Merged(row: Row, m: Incoming, now: int): Row {
    Row(m.recordName, Some(m.chatId), Some(m.portal), m.timestamp,
        if row.scrubbed then row.sender else Some(m.sender),
        m.isFromMe,
        if row.scrubbed then row.text else Some(m.text),
        if row.scrubbed then row.subject else Some(m.subject),
        Some(m.service),
        if row.deleted then row.deleted else m.deleted,
        m.tapbackType, Some(m.tapbackTarget),
        if row.scrubbed then row.tapbackEmoji else Some(m.tapbackEmoji),
        Some(m.attachments),
        if m.dateRead > row.dateRead then m.dateRead else row.dateRead,
        m.hasBody, row.scrubbed,
        if m.replyGuid != "" then Some(m.replyGuid) else row.replyGuid,
        if m.replyGuid != "" then Some(m.replyPart) else row.replyPart,
        row.createdTs, now)
  }

  /** The record of one batch that wins for a guid: a later one replaces an earlier
      one unless it is older. Records without a guid are skipped. */
  function Winner(batch: seq<Incoming>, g: Guid): (w: Option<Incoming>)
    ensures w.Some? ==> w.value.guid == g
  {
    if batch == [] || g == "" then None
    else
      var before := Winner(batch[..|batch| - 1], g);
      var m := batch[|batch| - 1];
      if m.guid == g && (before.None? || m.timestamp >= before.value.timestamp) then Some(m) else before
  }

  ghost function BatchGuids(batch: seq<Incoming>): set<Guid> {
    set m | m in batch && m.guid != "" :: m.guid
  }

  ghost function UpsertedBatch(t: Table, batch: seq<Incoming>, now: int): Table {
    map g | g in t.Keys + BatchGuids(batch) && (g in t || Winner(batch, g).Some?) ::
      match Winner(batch, g)
      case None => t[g]
      case Some(w) => if g in t then Merged(t[g], w, now) else Inserted(w, now)
  }

  // ---- Scrubs and deletions on one row ----

  function Scrubbed(row: Row): Row {
    row.(text := None, subject := None, sender := Some(""), tapbackEmoji := None, scrubbed := true)
  }

  function ReactionScrubbed(row: Row): Row {
    row.(text := None, subject := None, scrubbed := true)
  }

  function SoftDeleted(row: Row): Row {
    Scrubbed(row).(deleted := true)
  }

  function Stub(now: int): Row {
    Row("", None, None, now, None, false, None, None, None, true, None, None, None, None, 0, true, true,
        None, None, now, now)
  }

  function Seen(portal: Portal, timestamp: int, isFromMe: bool, tapback: Option<int>, now: int): Row {
    Row("", None, Some(portal), timestamp, None, isFromMe, None, None, None, false, tapback, None, None, None,
        0, true, false, None, None, now, now)
  }

  // ---- Steps ----

  datatype Step =
    | UpsertBatch(batch: seq<Incoming>, now: int)
    | DeleteBatch(guids: set<Guid>, now: int)
    | SoftDelete(guid: Guid, now: int)
    | DeletePortals(portals: set<Portal>, now: int)        // a portal and those sharing its group
    | PersistSeen(guid: Guid, portal: Portal, timestamp: int, isFromMe: bool, tapback: Option<int>, now: int)
    | ReKey(from: Portal, to: Portal, now: int)
    | Reroute(targets: map<Guid, Portal>, touch: Option<int>)  // normalize and heal re-point chosen rows
    | ScrubBodies(picked: set<Guid>, cutoff: int)
    | ScrubReactions(picked: set<Guid>, cutoff: int)
    | ScrubDeleted
    | ClearScrub(portal: Portal, now: int)
    | ClearAllScrub(now: int)
    | Undelete(portal: Portal, now: int)
    | UndeleteGuids(portal: Portal, guids: set<Guid>, now: int)
    | SeedRecycled(guid: Guid, recordName: string, chatId: string, portal: Portal, timestamp: int, sender: string,
                   isFromMe: bool, service: string, now: int)
    | HardDelete(picked: set<Guid>)

  predicate IsReaction(row: Row) {
    row.tapbackType.Some? && row.tapbackType.value >= 2000
  }

  /** What an UPDATE or DELETE does to one row; None removes it. */
  function OnRow(s: Step, g: Guid, row: Row): Option<Row> {
    match s
    case DeleteBatch(guids, now) =>
      Some(if g in guids && !row.deleted then SoftDeleted(row).(updatedTs := now) else row)
    case SoftDelete(guid, now) =>
      Some(if Upper(g) == Upper(guid) then SoftDeleted(row) else row)
    case DeletePortals(portals, now) =>
      Some(if row.portal.Some? && row.portal.value in portals && !row.deleted
           then SoftDeleted(row).(updatedTs := now) else row)
    case ReKey(from, to, now) =>
      Some(if from != "" && to != "" && from != to && row.portal == Some(from)
           then row.(portal := Some(to), updatedTs := now) else row)
    case Reroute(targets, touch) =>
      Some(if g in targets
           then row.(portal := Some(targets[g]),
                     updatedTs := match touch case Some(ts) => ts case None => row.updatedTs)
           else row)
    case ScrubBodies(picked, cutoff) =>
      Some(if g in picked && !row.scrubbed && !IsReaction(row) && row.updatedTs < cutoff then Scrubbed(row) else row)
    case ScrubReactions(picked, cutoff) =>
      Some(if g in picked && !row.scrubbed && IsReaction(row) && row.updatedTs < cutoff
           then ReactionScrubbed(row) else row)
    case ScrubDeleted =>
      Some(if row.deleted && !row.scrubbed then Scrubbed(row) else row)
    case ClearScrub(portal, now) =>
      Some(if row.portal == Some(portal) && row.scrubbed then row.(scrubbed := false, updatedTs := now) else row)
    case ClearAllScrub(now) =>
      Some(if row.scrubbed && !row.deleted then row.(scrubbed := false, updatedTs := now) else row)
    case Undelete(portal, now) =>
      Some(if row.portal == Some(portal) && row.deleted then row.(deleted := false, updatedTs := now) else row)
    case UndeleteGuids(portal, guids, now) =>
      Some(if row.portal == Some(portal) && g in guids && row.deleted
           then row.(deleted := false, updatedTs := now) else row)
    case HardDelete(picked) => if g in picked then None else Some(row)
    case _ => Some(row)
  }

  ghost function OnRows(s: Step, t: Table): Table {
    map g | g in t && OnRow(s, g, t[g]).Some? :: OnRow(s, g, t[g]).value
  }

  ghost function Apply(s: Step, t: Table): Table {
    match s
    case UpsertBatch(batch, now) => UpsertedBatch(t, batch, now)
    case SoftDelete(guid, now) =>
      if exists g :: g in t && Upper(g) == Upper(guid) then OnRows(s, t) else t[guid := Stub(now)]
    case PersistSeen(guid, portal, timestamp, isFromMe, tapback, now) =>
      if guid in t then t else t[guid := Seen(portal, timestamp, isFromMe, tapback, now)]
    case SeedRecycled(guid, recordName, chatId, portal, timestamp, sender, isFromMe, service, now) =>
      t[guid := if guid in t then t[guid].(deleted := false, portal := Some(portal))
                else Seen(portal, timestamp, isFromMe, None, now)
                     .(recordName := recordName, chatId := Some(chatId), sender := Some(sender),
                       service := Some(service))]
    case _ => OnRows(s, t)
  }

  ghost function Run(steps: seq<Step>, t: Table): Table
    decreases |steps|
  {
    if steps == [] then t else Run(steps[1..], Apply(steps[0], t))
  }

  /** But for upserts and seeds, a step maps each row by itself. */
  lemma RowImage(s: Step, t: Table, g: Guid)
    requires g in t && !s.UpsertBatch? && !s.SeedRecycled?
    ensures g in Apply(s, t) <==> OnRow(s, g, t[g]).Some?
    ensures g in Apply(s, t) ==> Apply(s, t)[g] == OnRow(s, g, t[g]).value
  {
    hide Upper;
    if !s.SoftDelete? && !s.PersistSeen? { hide OnRow; }
  }

  /** An upsert merges the winning record into a stored row. */
  lemma UpsertImage(t: Table, batch: seq<Incoming>, now: int, g: Guid)
    requires g in t
    ensures var u := UpsertedBatch(t, batch, now); var w := Winner(batch, g);
      g in u && u[g] == match w case None => t[g] case Some(m) => Merged(t[g], m, now)
  {
    hide Winner, BatchGuids, Merged, Inserted;
  }

  // ---- Deletion is sticky ----

  ghost predicate IsDeleted(t: Table, g: Guid) {
    g in t && t[g].deleted
  }

  /** The only statements that bring a deleted row back or drop it. */
  ghost predicate Revives(s: Step, t: Table, g: Guid)
    requires g in t
  {
    match s
    case Undelete(portal, _) => t[g].portal == Some(portal)
    case UndeleteGuids(portal, guids, _) => t[g].portal == Some(portal) && g in guids
    case SeedRecycled(guid, _, _, _, _, _, _, _, _) => guid == g
    case HardDelete(picked) => g in picked
    case _ => false
  }

  lemma DeletedUnlessRevived(s: Step, t: Table, g: Guid)
    requires IsDeleted(t, g)
    ensures IsDeleted(Apply(s, t), g) <==> !Revives(s, t, g)
  {
    hide Upper, Winner;
  }

  ghost predicate NeverRevived(steps: seq<Step>, t: Table, g: Guid)
    decreases |steps|
  {
    steps == [] || ((g in t ==> !Revives(steps[0], t, g)) && NeverRevived(steps[1..], Apply(steps[0], t), g))
  }

  /** Over any run, a deleted message stays deleted and known while nothing revives it. */
  lemma {:induction false} DeletionIsSticky(steps: seq<Step>, t: Table, g: Guid)
    requires IsDeleted(t, g) && NeverRevived(steps, t, g)
    ensures IsDeleted(Run(steps, t), g)
    decreases |steps|
  {
    hide Apply, Revives;
    if steps != [] {
      DeletedUnlessRevived(steps[0], t, g);
      DeletionIsSticky(steps[1..], Apply(steps[0], t), g);
    }
  }

  // ---- Scrubs are sticky, and a scrubbed row has no plaintext ----

  predicate Blank(row: Row) {
    row.scrubbed ==> row.text == None && row.subject == None
  }

  ghost predicate NoPlaintext(t: Table) {
    forall g :: g in t ==> Blank(t[g])
  }

  lemma ScrubKeepsNoPlaintext(s: Step, t: Table)
    requires NoPlaintext(t)
    ensures NoPlaintext(Apply(s, t))
  {
    hide Apply;
    forall g | g in Apply(s, t) ensures Blank(Apply(s, t)[g]) {
      if g in t { StoredStaysBlank(s, t, g); } else { NewIsBlank(s, t, g); }
    }
  }

  lemma StoredStaysBlank(s: Step, t: Table, g: Guid)
    requires g in t && Blank(t[g]) && g in Apply(s, t)
    ensures Blank(Apply(s, t)[g])
  {
    hide Upper, Winner, UpsertedBatch, OnRow, OnRows;
    match s {
      case UpsertBatch(batch, now) => UpsertImage(t, batch, now, g);
      case SeedRecycled(_, _, _, _, _, _, _, _, _) =>
      case _ =>
        RowImage(s, t, g);
        RowStaysBlank(s, g, t[g]);
    }
  }

  lemma RowStaysBlank(s: Step, g: Guid, row: Row)
    requires Blank(row) && OnRow(s, g, row).Some?
    ensures Blank(OnRow(s, g, row).value)
  {
    hide Upper;
  }

  lemma NewIsBlank(s: Step, t: Table, g: Guid)
    requires g !in t && g in Apply(s, t)
    ensures Blank(Apply(s, t)[g])
  {
    hide Upper, Winner, BatchGuids, OnRow, Merged;
  }

  /** In every state reached from an empty table a scrubbed row has neither text nor subject. */
  lemma {:induction false} ScrubbedMeansEmpty(steps: seq<Step>, t: Table)
    requires NoPlaintext(t)
    ensures NoPlaintext(Run(steps, t))
    decreases |steps|
  {
    hide Apply, NoPlaintext;
    if steps != [] {
      ScrubKeepsNoPlaintext(steps[0], t);
      ScrubbedMeansEmpty(steps[1..], Apply(steps[0], t));
    }
  }

  ghost predicate IsScrubbed(t: Table, g: Guid) {
    g in t && t[g].scrubbed
  }

  ghost predicate Unscrubs(s: Step, t: Table, g: Guid)
    requires g in t
  {
    match s
    case ClearScrub(portal, _) => t[g].portal == Some(portal)
    case ClearAllScrub(_) => !t[g].deleted
    case HardDelete(picked) => g in picked
    case _ => false
  }

  lemma ScrubbedUnlessCleared(s: Step, t: Table, g: Guid)
    requires IsScrubbed(t, g)
    ensures IsScrubbed(Apply(s, t), g) <==> !Unscrubs(s, t, g)
  {
    hide Upper, Winner;
  }

  ghost predicate NeverUnscrubbed(steps: seq<Step>, t: Table, g: Guid)
    decreases |steps|
  {
    steps == [] || ((g in t ==> !Unscrubs(steps[0], t, g)) && NeverUnscrubbed(steps[1..], Apply(steps[0], t), g))
  }

  /** No later sync refills a scrubbed body until a clear step asks for it. */
  lemma {:induction false} ScrubIsSticky(steps: seq<Step>, t: Table, g: Guid)
    requires NoPlaintext(t) && IsScrubbed(t, g) && NeverUnscrubbed(steps, t, g)
    ensures IsScrubbed(Run(steps, t), g)
    ensures Run(steps, t)[g].text == None && Run(steps, t)[g].subject == None
    decreases |steps|
  {
    hide Apply, Unscrubs;
    if steps != [] {
      ScrubbedUnlessCleared(steps[0], t, g);
      ScrubKeepsNoPlaintext(steps[0], t);
      ScrubIsSticky(steps[1..], Apply(steps[0], t), g);
    }
  }

  /** Neither a restore of this portal nor a revival appears; clearing every scrub may. */
  ghost predicate NeverRestored(steps: seq<Step>, t: Table, g: Guid)
    decreases |steps|
  {
    steps == [] ||
    ((g in t ==> !Revives(steps[0], t, g) && !(steps[0].ClearScrub? && t[g].portal == Some(steps[0].portal)))
     && NeverRestored(steps[1..], Apply(steps[0], t), g))
  }

  /** The refill that undoes all scrubs never brings back a body the user deleted. */
  lemma {:induction false} DeletedBodiesStayPurged(steps: seq<Step>, t: Table, g: Guid)
    requires NoPlaintext(t) && IsDeleted(t, g) && IsScrubbed(t, g) && NeverRestored(steps, t, g)
    ensures IsDeleted(Run(steps, t), g) && IsScrubbed(Run(steps, t), g)
    ensures Run(steps, t)[g].text == None && Run(steps, t)[g].subject == None
    decreases |steps|
  {
    hide Apply;
    if steps != [] {
      DeletedUnlessRevived(steps[0], t, g);
      ScrubbedUnlessCleared(steps[0], t, g);
      ScrubKeepsNoPlaintext(steps[0], t);
      DeletedBodiesStayPurged(steps[1..], Apply(steps[0], t), g);
    }
  }

  // ---- The case-folding gap of the delete-before-sync stub ----

  /** After a delete every spelling of the guid already stored is deleted and
      scrubbed, and at least one spelling is known. */
  lemma SoftDeleteCoversSpellings(t: Table, guid: Guid, now: int)
    ensures var t' := Apply(SoftDelete(guid, now), t);
            && (exists g :: g in t' && Upper(g) == Upper(guid))
            && forall g :: g in t' && Upper(g) == Upper(guid) ==> t'[g].deleted && t'[g].scrubbed
  {
    var s := SoftDelete(guid, now);
    var t' := Apply(s, t);
    if g :| g in t && Upper(g) == Upper(guid) {
      assert g in t';
    } else {
      assert guid in t';
    }
  }

  /** A message deleted before it was ever synced stays deleted when it is synced
      if and only if CloudKit spells its guid exactly as the delete did. */
  lemma StubHoldsIff(t: Table, guid: Guid, m: Incoming, now: int, later: int)
    requires forall g :: g in t ==> Upper(g) != Upper(guid)
    requires Upper(m.guid) == Upper(guid) && m.guid != "" && !m.deleted
    ensures var t' := Apply(UpsertBatch([m], later), Apply(SoftDelete(guid, now), t));
            IsDeleted(t', m.guid) <==> m.guid == guid
  {
    hide Upper;
    assert [m][..0] == [];
    assert Winner([m], m.guid) == Some(m);
    assert m in [m];
    assert m.guid in BatchGuids([m]);
  }

  /** Such a pair of spellings exists. */
  lemma StubGapWitness()
    ensures Upper("a") == Upper("A") && "a" != "A"
  {
    assert Upper("a") == ['A'] == Upper("A");
  }

  // ---- Upserts converge ----

  /** The record chosen for a guid is as new as any of the batch with that guid. */
  lemma {:induction false} WinnerIsNewest(batch: seq<Incoming>, i: nat)
    requires i < |batch| && batch[i].guid != ""
    ensures var w := Winner(batch, batch[i].guid);
            w.Some? && w.value in batch && w.value.timestamp >= batch[i].timestamp
    decreases |batch|
  {
    var front := batch[..|batch| - 1];
    if i < |front| {
      WinnerIsNewest(front, i);
    } else {
      WinnerFound(front, batch[i].guid);
    }
  }

  lemma {:induction false} WinnerFound(batch: seq<Incoming>, g: Guid)
    ensures Winner(batch, g).Some? ==> Winner(batch, g).value in batch && g != ""
    ensures Winner(batch, g).Some? <==> g in BatchGuids(batch)
    decreases |batch|
  {
    if batch != [] {
      WinnerFound(batch[..|batch| - 1], g);
      assert batch == batch[..|batch| - 1] + [batch[|batch| - 1]];
    }
  }

  /** Equal but for the bookkeeping time of the last write. */
  ghost predicate SameButTouched(t: Table, u: Table) {
    t.Keys == u.Keys && forall g :: g in t ==> t[g].(updatedTs := 0) == u[g].(updatedTs := 0)
  }

  lemma MergedTwice(row: Row, m: Incoming, now: int, later: int)
    ensures Merged(Merged(row, m, now), m, later) == Merged(row, m, now).(updatedTs := later)
    ensures Merged(Inserted(m, now), m, later) == Inserted(m, now).(updatedTs := later)
  {
  }

  /** Replaying a batch changes nothing but update times. */
  lemma ReplayChangesNothing(t: Table, batch: seq<Incoming>, now: int, later: int)
    ensures var once := Apply(UpsertBatch(batch, now), t);
            SameButTouched(once, Apply(UpsertBatch(batch, later), once))
  {
    hide Merged, Inserted, Winner, BatchGuids;
    var once := UpsertedBatch(t, batch, now);
    var twice := UpsertedBatch(once, batch, later);
    assert twice.Keys == once.Keys;
    forall g | g in once ensures once[g].(updatedTs := 0) == twice[g].(updatedTs := 0) {
      WinnerFound(batch, g);
      var w := Winner(batch, g);
      if w.Some? {
        if g in t { MergedTwice(t[g], w.value, now, later); } else { MergedTwice(once[g], w.value, now, later); }
      }
    }
  }

  /** No statement but a hard delete lowers a read time or forgets a reply. */
  lemma ReadsAndRepliesKept(s: Step, t: Table, g: Guid)
    requires g in t && g in Apply(s, t)
    ensures Apply(s, t)[g].dateRead >= t[g].dateRead
    ensures t[g].replyGuid.Some? && t[g].replyGuid.value != "" ==>
              Apply(s, t)[g].replyGuid.Some? && Apply(s, t)[g].replyGuid.value != ""
  {
    hide Upper, Winner, Merged, UpsertedBatch, OnRow, OnRows;
    match s {
      case UpsertBatch(batch, now) =>
        UpsertImage(t, batch, now, g);
        if Winner(batch, g).Some? { MergeKeepsReads(t[g], Winner(batch, g).value, now); }
      case SeedRecycled(_, _, _, _, _, _, _, _, _) =>
      case _ =>
        RowImage(s, t, g);
        RowKeepsReads(s, g, t[g]);
    }
  }

  lemma MergeKeepsReads(row: Row, m: Incoming, now: int)
    ensures Merged(row, m, now).dateRead >= row.dateRead
    ensures row.replyGuid.Some? && row.replyGuid.value != "" ==>
              Merged(row, m, now).replyGuid.Some? && Merged(row, m, now).replyGuid.value != ""
  {
  }

  lemma RowKeepsReads(s: Step, g: Guid, row: Row)
    requires OnRow(s, g, row).Some?
    ensures OnRow(s, g, row).value.dateRead == row.dateRead && OnRow(s, g, row).value.replyGuid == row.replyGuid
  {
    hide Upper;
  }

  lemma {:induction false} ReadsAndRepliesKeptOverRuns(steps: seq<Step>, t: Table, g: Guid)
    requires g in t && forall i :: 0 <= i < |steps| ==> !(steps[i].HardDelete? && g in steps[i].picked)
    ensures g in Run(steps, t)
    ensures Run(steps, t)[g].dateRead >= t[g].dateRead
    ensures t[g].replyGuid.Some? && t[g].replyGuid.value != "" ==>
              Run(steps, t)[g].replyGuid.Some? && Run(steps, t)[g].replyGuid.value != ""
    decreases |steps|
  {
    if steps != [] {
      RowSurvives(steps[0], t, g);
      ReadsAndRepliesKept(steps[0], t, g);
      hide Apply;
      ReadsAndRepliesKeptOverRuns(steps[1..], Apply(steps[0], t), g);
    }
  }

  lemma RowSurvives(s: Step, t: Table, g: Guid)
    requires g in t && !(s.HardDelete? && g in s.picked)
    ensures g in Apply(s, t)
  {
    hide Upper, Winner;
  }

  // ---- The store ----

  /** The guids done so far hold their upserts, the rest of the table is as it was. */
  ghost predicate PartlyUpserted(t: Table, rows: Table, byGuid: map<Guid, Incoming>, done: set<Guid>, now: int) {
    && done <= byGuid.Keys && rows.Keys == t.Keys + done
    && (forall g :: g in done ==> rows[g] == if g in t then Merged(t[g], byGuid[g], now) else Inserted(byGuid[g], now))
    && (forall g :: g in t && g !in done ==> rows[g] == t[g])
  }

  lemma NoneUpserted(t: Table, byGuid: map<Guid, Incoming>, now: int)
    ensures PartlyUpserted(t, t, byGuid, {}, now)
  {
  }

  lemma OneMoreUpserted(t: Table, rows: Table, byGuid: map<Guid, Incoming>, done: set<Guid>, guid: Guid, now: int)
    requires PartlyUpserted(t, rows, byGuid, done, now) && guid in byGuid && guid !in done
    ensures var row := if guid in rows then Merged(rows[guid], byGuid[guid], now) else Inserted(byGuid[guid], now);
      PartlyUpserted(t, rows[guid := row], byGuid, done + {guid}, now)
  {
    hide Merged, Inserted;
  }

  lemma AllUpserted(t: Table, rows: Table, batch: seq<Incoming>, byGuid: map<Guid, Incoming>, done: set<Guid>, now: int)
    requires PartlyUpserted(t, rows, byGuid, done, now) && done == byGuid.Keys
    requires forall g :: g in byGuid <==> Winner(batch, g).Some?
    requires forall g :: g in byGuid ==> Winner(batch, g) == Some(byGuid[g])
    ensures rows == UpsertedBatch(t, batch, now)
  {
    hide Merged, Inserted, Winner, BatchGuids;
    forall g ensures Winner(batch, g).Some? <==> g in BatchGuids(batch) { WinnerFound(batch, g); }
    assert rows.Keys == UpsertedBatch(t, batch, now).Keys;
  }

  class CloudMessageStore {
    var rows: Table

    constructor ()
      ensures rows == map[]
    {
      rows := map[];
    }

    method UpsertMessageBatch(batch: seq<Incoming>, now: int)
      modifies this
      ensures rows == Apply(UpsertBatch(batch, now), old(rows))
    {
      hide Merged, Inserted, Winner, BatchGuids, PartlyUpserted;
      var rowsByGuid, order := NewestByGuid(batch);
      ghost var t := rows;
      ghost var done: set<Guid> := {};
      NoneUpserted(t, rowsByGuid, now);
      for i := 0 to |order|
        invariant forall g :: g in done <==> g in order[..i]
        invariant PartlyUpserted(t, rows, rowsByGuid, done, now)
      {
        var guid := order[i];
        var row := rowsByGuid[guid];
        assert guid !in order[..i];
        OneMoreUpserted(t, rows, rowsByGuid, done, guid, now);
        rows := rows[guid := if guid in rows then Merged(rows[guid], row, now) else Inserted(row, now)];
        done := done + {guid};
        assert order[..i + 1] == order[..i] + [guid];
      }
      assert order[..|order|] == order;
      AllUpserted(t, rows, batch, rowsByGuid, done, now);
    }

    /** One UPDATE or DELETE over the table. */
    method Execute(s: Step)
      requires !s.UpsertBatch? && !s.SoftDelete? && !s.PersistSeen? && !s.SeedRecycled?
      modifies this
      ensures rows == Apply(s, old(rows))
    {
      rows := map g | g in rows && OnRow(s, g, rows[g]).Some? :: OnRow(s, g, rows[g]).value;
    }

    method DeleteMessageBatch(guids: seq<Guid>, now: int)
      modifies this
      ensures rows == Apply(DeleteBatch((set g | g in guids), now), old(rows))
    {
      hide Scrubbed;
      ghost var t := rows;
      var i := 0;
      assert Apply(DeleteBatch({}, now), t) == t;
      assert (set g | g in guids[..0]) == {};
      while i < |guids|
        invariant 0 <= i <= |guids|
        invariant rows == Apply(DeleteBatch((set g | g in guids[..i]), now), t)
      {
        var end := i + 500;
        if end > |guids| { end := |guids|; }
        var chunk := guids[i..end];
        assert guids[..end] == guids[..i] + chunk;
        DeleteTwice((set g | g in guids[..i]), (set g | g in chunk), now, t);
        assert (set g | g in guids[..i]) + (set g | g in chunk) == (set g | g in guids[..end]);
        Execute(DeleteBatch((set g | g in chunk), now));
        i := end;
      }
      assert guids[..|guids|] == guids;
    }

    method SoftDeleteMessageByGuid(guid: Guid, now: int)
      modifies this
      ensures rows == Apply(SoftDelete(guid, now), old(rows))
    {
      var s := SoftDelete(guid, now);
      var affected := set g | g in rows && Upper(g) == Upper(guid);
      if affected != {} {
        var g0 :| g0 in affected;
        rows := map g | g in rows && OnRow(s, g, rows[g]).Some? :: OnRow(s, g, rows[g]).value;
      } else {
        assert forall g :: g in rows && Upper(g) == Upper(guid) ==> g in affected;
        rows := rows[guid := Stub(now)];
      }
    }

    method PersistMessageUuid(guid: Guid, portal: Portal, timestamp: int, isFromMe: bool, tapback: Option<int>,
                              now: int)
      modifies this
      ensures rows == Apply(PersistSeen(guid, portal, timestamp, isFromMe, tapback, now), old(rows))
      ensures guid in rows
    {
      if guid !in rows {
        rows := rows[guid := Seen(portal, timestamp, isFromMe, tapback, now)];
      }
    }
  }

  ghost predicate HoldsWinners(batch: seq<Incoming>, byGuid: map<Guid, Incoming>) {
    && (forall g :: g in byGuid <==> Winner(batch, g).Some?)
    && (forall g :: g in byGuid ==> Winner(batch, g) == Some(byGuid[g]))
  }

  /** The map after one more record of the batch. */
  function Noted(byGuid: map<Guid, Incoming>, m: Incoming): map<Guid, Incoming> {
    if m.guid == "" || (m.guid in byGuid && m.timestamp < byGuid[m.guid].timestamp) then byGuid
    else byGuid[m.guid := m]
  }

  lemma NotedWinners(batch: seq<Incoming>, byGuid: map<Guid, Incoming>, m: Incoming)
    requires HoldsWinners(batch, byGuid)
    ensures HoldsWinners(batch + [m], Noted(byGuid, m))
  {
    assert (batch + [m])[..|batch|] == batch;
  }

  /** One record per guid of a batch, in order of first appearance. */
  method NewestByGuid(batch: seq<Incoming>) returns (rowsByGuid: map<Guid, Incoming>, order: seq<Guid>)
    ensures forall g :: g in rowsByGuid <==> Winner(batch, g).Some?
    ensures forall g :: g in rowsByGuid ==> Winner(batch, g) == Some(rowsByGuid[g])
    ensures forall g :: g in order <==> g in rowsByGuid
    ensures forall j, k :: 0 <= j < k < |order| ==> order[j] != order[k]
  {
    hide Winner;
    rowsByGuid, order := map[], [];
    assert HoldsWinners([], map[]) by { NoWinners(); }
    for i := 0 to |batch|
      invariant HoldsWinners(batch[..i], rowsByGuid)
      invariant forall g :: g in order <==> g in rowsByGuid
      invariant forall j, k :: 0 <= j < k < |order| ==> order[j] != order[k]
    {
      hide HoldsWinners;
      var row := batch[i];
      NotedWinners(batch[..i], rowsByGuid, row);
      assert batch[..i + 1] == batch[..i] + [row];
      if row.guid != "" {
        if row.guid !in rowsByGuid {
          rowsByGuid := rowsByGuid[row.guid := row];
          order := order + [row.guid];
        } else if row.timestamp >= rowsByGuid[row.guid].timestamp {
          rowsByGuid := rowsByGuid[row.guid := row];
        }
      }
    }
    assert batch[..|batch|] == batch;
  }

  lemma NoWinners()
    ensures HoldsWinners([], map[])
  {
  }

  /** Deleting in chunks is deleting at once. */
  lemma DeleteTwice(one: set<Guid>, two: set<Guid>, now: int, t: Table)
    ensures Apply(DeleteBatch(two, now), Apply(DeleteBatch(one, now), t)) == Apply(DeleteBatch(one + two, now), t)
  {
  }
}
