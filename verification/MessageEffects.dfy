/** What each statement over the message table leaves in it, column by column, rows it
    does not select included. */
module MessageEffects {
  import opened Bytes
  import opened CloudMessages

  // ---- What a sync stores ----

  /** No record of the guid is newer, and none of the same time comes later. */
  ghost predicate LastNewestOf(batch: seq<Incoming>, g: Guid, i: nat) {
    && i < |batch| && batch[i].guid == g && g != ""
    && (forall j :: 0 <= j < |batch| && batch[j].guid == g ==>
          batch[j].timestamp < batch[i].timestamp || (batch[j].timestamp == batch[i].timestamp && j <= i))
  }

  lemma {:induction false} WinnerIs(batch: seq<Incoming>, g: Guid, i: nat)
    requires LastNewestOf(batch, g, i)
    ensures Winner(batch, g) == Some(batch[i])
    decreases |batch|
  {
    var front := batch[..|batch| - 1];
    if i < |front| {
      WinnerIs(front, g, i);
    } else {
      WinnerFound(front, g);
    }
  }

  lemma {:induction false} WinnerExists(batch: seq<Incoming>, g: Guid) returns (i: nat)
    requires g != "" && exists m :: m in batch && m.guid == g
    ensures LastNewestOf(batch, g, i)
    decreases |batch|
  {
    var n := |batch| - 1;
    var front := batch[..n];
    assert batch == front + [batch[n]];
    if exists m :: m in front && m.guid == g {
      i := WinnerExists(front, g);
      assert forall j :: 0 <= j < n ==> front[j] == batch[j];
      if batch[n].guid == g && batch[n].timestamp >= batch[i].timestamp { i := n; }
    } else {
      assert forall j :: 0 <= j < n ==> front[j] == batch[j] && front[j] in front;
      i := n;
    }
  }

  /** The columns that every sync writes afresh. */
  ghost predicate SaysRecord(row: Row, m: Incoming) {
    && row.recordName == m.recordName && row.chatId == Some(m.chatId) && row.portal == Some(m.portal)
    && row.timestamp == m.timestamp && row.isFromMe == m.isFromMe && row.service == Some(m.service)
    && row.tapbackType == m.tapbackType && row.tapbackTarget == Some(m.tapbackTarget)
    && row.attachments == Some(m.attachments) && row.hasBody == m.hasBody
  }

  ghost predicate SaysContent(row: Row, m: Incoming) {
    && row.text == Some(m.text) && row.subject == Some(m.subject) && row.sender == Some(m.sender)
    && row.tapbackEmoji == Some(m.tapbackEmoji)
  }

  ghost predicate SameContent(row: Row, was: Row) {
    row.text == was.text && row.subject == was.subject && row.sender == was.sender
    && row.tapbackEmoji == was.tapbackEmoji
  }

  /** A sync of a known message: content only into an unscrubbed row, deletion one way,
      the later read time, and a reply that is not forgotten. */
  lemma StoredAfterSync(t: Table, batch: seq<Incoming>, now: int, g: Guid, i: nat)
    requires g in t && LastNewestOf(batch, g, i)
    ensures var u := Apply(UpsertBatch(batch, now), t); var m := batch[i];
      && g in u && SaysRecord(u[g], m) && u[g].scrubbed == t[g].scrubbed
      && (if t[g].scrubbed then SameContent(u[g], t[g]) else SaysContent(u[g], m))
      && (u[g].deleted <==> t[g].deleted || m.deleted)
      && u[g].dateRead >= t[g].dateRead && u[g].dateRead >= m.dateRead && u[g].dateRead in {t[g].dateRead, m.dateRead}
      && (if m.replyGuid == "" then u[g].replyGuid == t[g].replyGuid && u[g].replyPart == t[g].replyPart
          else u[g].replyGuid == Some(m.replyGuid) && u[g].replyPart == Some(m.replyPart))
      && u[g].createdTs == t[g].createdTs && u[g].updatedTs == now
  {
    hide Winner, UpsertedBatch;
    WinnerIs(batch, g, i);
    UpsertImage(t, batch, now, g);
  }

  /** A sync of an unknown message stores the record as it came, unscrubbed. */
  lemma NewAfterSync(t: Table, batch: seq<Incoming>, now: int, g: Guid, i: nat)
    requires g !in t && LastNewestOf(batch, g, i)
    ensures var u := Apply(UpsertBatch(batch, now), t); var m := batch[i];
      && g in u && SaysRecord(u[g], m) && SaysContent(u[g], m) && !u[g].scrubbed && u[g].deleted == m.deleted
      && u[g].dateRead == m.dateRead && u[g].replyGuid == Some(m.replyGuid) && u[g].replyPart == Some(m.replyPart)
      && u[g].createdTs == now && u[g].updatedTs == now
  {
    hide Winner, Merged;
    WinnerIs(batch, g, i);
    assert batch[i] in batch;
    assert g in BatchGuids(batch);
  }

  /** A sync touches no message that it does not name. */
  lemma SyncLeavesOthers(t: Table, batch: seq<Incoming>, now: int)
    ensures var u := Apply(UpsertBatch(batch, now), t);
      && (forall g :: g in u <==> g in t || (g != "" && exists m :: m in batch && m.guid == g))
      && (forall g :: g in t && (g == "" || forall m :: m in batch ==> m.guid != g) ==> u[g] == t[g])
  {
    hide Winner, Merged, Inserted;
    var u := Apply(UpsertBatch(batch, now), t);
    forall g ensures g in u <==> g in t || (g != "" && exists m :: m in batch && m.guid == g) { WinnerFound(batch, g); }
    forall g | g in t && (g == "" || forall m :: m in batch ==> m.guid != g) ensures u[g] == t[g] {
      WinnerFound(batch, g);
    }
  }

  // ---- What a statement changes ----

  /** The statement turned the chosen rows into the given ones, and left the others. */
  ghost predicate Updates(t: Table, u: Table, to: map<Guid, Row>) {
    && u.Keys == t.Keys && to.Keys <= t.Keys
    && (forall g :: g in to ==> u[g] == to[g])
    && (forall g :: g in t && g !in to ==> u[g] == t[g])
  }

  lemma BatchDeletes(t: Table, guids: set<Guid>, now: int)
    ensures Updates(t, Apply(DeleteBatch(guids, now), t),
                    map g | g in t && g in guids && !t[g].deleted ::
                      t[g].(deleted := true, scrubbed := true, text := None, subject := None, sender := Some(""),
                            tapbackEmoji := None, updatedTs := now))
  {
  }

  lemma PortalDeletes(t: Table, portals: set<Portal>, now: int)
    ensures Updates(t, Apply(DeletePortals(portals, now), t),
                    map g | g in t && (exists p :: p in portals && t[g].portal == Some(p)) && !t[g].deleted ::
                      t[g].(deleted := true, scrubbed := true, text := None, subject := None, sender := Some(""),
                            tapbackEmoji := None, updatedTs := now))
  {
  }

  /** Every spelling is deleted, a deleted one too, and none is stamped. */
  lemma KnownSpellingDeletes(t: Table, guid: Guid, now: int)
    requires exists g :: g in t && Upper(g) == Upper(guid)
    ensures Updates(t, Apply(SoftDelete(guid, now), t),
                    map g | g in t && Upper(g) == Upper(guid) ::
                      t[g].(deleted := true, scrubbed := true, text := None, subject := None, sender := Some(""),
                            tapbackEmoji := None))
  {
    hide Upper;
  }

  /** A stub: a deleted, scrubbed row that says nothing but when it came. */
  lemma UnknownGuidStubs(t: Table, guid: Guid, now: int)
    requires forall g :: g in t ==> Upper(g) != Upper(guid)
    ensures var u := Apply(SoftDelete(guid, now), t);
      && guid in u && u == t[guid := u[guid]]
      && u[guid].deleted && u[guid].scrubbed && u[guid].recordName == "" && u[guid].timestamp == now
      && u[guid].chatId == None && u[guid].portal == None && u[guid].sender == None && !u[guid].isFromMe
      && u[guid].text == None && u[guid].subject == None && u[guid].service == None && u[guid].tapbackType == None
      && u[guid].dateRead == 0 && u[guid].hasBody && u[guid].replyGuid == None
      && u[guid].createdTs == now && u[guid].updatedTs == now
  {
  }

  /** A reaction is a tapback of type 2000 or above. */
  lemma BodiesScrubbed(t: Table, picked: set<Guid>, cutoff: int)
    ensures Updates(t, Apply(ScrubBodies(picked, cutoff), t),
                    map g | g in t && g in picked && !t[g].scrubbed && t[g].updatedTs < cutoff
                            && !(t[g].tapbackType.Some? && t[g].tapbackType.value >= 2000) ::
                      t[g].(scrubbed := true, text := None, subject := None, sender := Some(""),
                            tapbackEmoji := None))
  {
  }

  /** A reaction keeps its sender and emoji. */
  lemma ReactionsScrubbed(t: Table, picked: set<Guid>, cutoff: int)
    ensures Updates(t, Apply(ScrubReactions(picked, cutoff), t),
                    map g | g in t && g in picked && !t[g].scrubbed && t[g].updatedTs < cutoff
                            && t[g].tapbackType.Some? && t[g].tapbackType.value >= 2000 ::
                      t[g].(scrubbed := true, text := None, subject := None))
  {
  }

  lemma DeletedScrubbed(t: Table)
    ensures Updates(t, Apply(ScrubDeleted, t),
                    map g | g in t && t[g].deleted && !t[g].scrubbed ::
                      t[g].(scrubbed := true, text := None, subject := None, sender := Some(""),
                            tapbackEmoji := None))
  {
  }

  lemma PortalUnscrubbed(t: Table, portal: Portal, now: int)
    ensures Updates(t, Apply(ClearScrub(portal, now), t),
                    map g | g in t && t[g].portal == Some(portal) && t[g].scrubbed ::
                      t[g].(scrubbed := false, updatedTs := now))
  {
  }

  lemma LiveUnscrubbed(t: Table, now: int)
    ensures Updates(t, Apply(ClearAllScrub(now), t),
                    map g | g in t && t[g].scrubbed && !t[g].deleted :: t[g].(scrubbed := false, updatedTs := now))
  {
  }

  lemma PortalUndeleted(t: Table, portal: Portal, now: int)
    ensures Updates(t, Apply(Undelete(portal, now), t),
                    map g | g in t && t[g].portal == Some(portal) && t[g].deleted ::
                      t[g].(deleted := false, updatedTs := now))
  {
  }

  lemma GuidsUndeleted(t: Table, portal: Portal, guids: set<Guid>, now: int)
    ensures Updates(t, Apply(UndeleteGuids(portal, guids, now), t),
                    map g | g in t && g in guids && t[g].portal == Some(portal) && t[g].deleted ::
                      t[g].(deleted := false, updatedTs := now))
  {
  }

  lemma PortalReKeyed(t: Table, from: Portal, to: Portal, now: int)
    ensures from != "" && to != "" && from != to ==>
      Updates(t, Apply(ReKey(from, to, now), t),
              map g | g in t && t[g].portal == Some(from) :: t[g].(portal := Some(to), updatedTs := now))
    ensures from == "" || to == "" || from == to ==> Apply(ReKey(from, to, now), t) == t
  {
  }

  /** Rows re-pointed by the heal are stamped, those of the normalization are not. */
  lemma RowsRerouted(t: Table, targets: map<Guid, Portal>, now: int)
    ensures Updates(t, Apply(Reroute(targets, Some(now)), t),
                    map g | g in t && g in targets :: t[g].(portal := Some(targets[g]), updatedTs := now))
    ensures Updates(t, Apply(Reroute(targets, None), t),
                    map g | g in t && g in targets :: t[g].(portal := Some(targets[g])))
  {
  }

  lemma HardDeleted(t: Table, picked: set<Guid>)
    ensures Apply(HardDelete(picked), t) == t - picked
  {
  }

  /** A message seen in real time is stored bare, and only if it is new. */
  lemma SeenIsStored(t: Table, guid: Guid, portal: Portal, timestamp: int, isFromMe: bool, tapback: Option<int>,
                     now: int)
    ensures var u := Apply(PersistSeen(guid, portal, timestamp, isFromMe, tapback, now), t);
      if guid in t then u == t
      else
        && guid in u && u == t[guid := u[guid]]
        && u[guid].portal == Some(portal) && u[guid].timestamp == timestamp && u[guid].isFromMe == isFromMe
        && u[guid].tapbackType == tapback && u[guid].recordName == "" && u[guid].chatId == None
        && u[guid].sender == None && u[guid].text == None && u[guid].subject == None && u[guid].service == None
        && !u[guid].deleted && !u[guid].scrubbed && u[guid].dateRead == 0 && u[guid].replyGuid == None
        && u[guid].createdTs == now && u[guid].updatedTs == now
  {
  }

  /** A recycle-bin seed revives a known row in its portal, or stores what the entry says. */
  lemma RecycledIsSeeded(t: Table, s: Step)
    requires s.SeedRecycled?
    ensures var u := Apply(s, t);
      && s.guid in u && u == t[s.guid := u[s.guid]]
      && u[s.guid].portal == Some(s.portal) && !u[s.guid].deleted
      && (s.guid in t ==> u[s.guid] == t[s.guid].(portal := Some(s.portal), deleted := false))
      && (s.guid !in t ==>
            && u[s.guid].recordName == s.recordName && u[s.guid].chatId == Some(s.chatId)
            && u[s.guid].timestamp == s.timestamp && u[s.guid].sender == Some(s.sender)
            && u[s.guid].isFromMe == s.isFromMe && u[s.guid].service == Some(s.service)
            && u[s.guid].text == None && u[s.guid].subject == None && u[s.guid].tapbackType == None
            && !u[s.guid].scrubbed && u[s.guid].hasBody && u[s.guid].dateRead == 0
            && u[s.guid].createdTs == s.now && u[s.guid].updatedTs == s.now)
  {
  }

  // ---- Restoring a deleted portal ----

  /** Deleting a portal and restoring it brings the rows back empty, for the next sync to
      fill: its record gives a restored row its content. */
  lemma RestoredThenRefilled(t: Table, g: Guid, portal: Portal, batch: seq<Incoming>, i: nat, times: seq<int>)
    requires g in t && t[g].portal == Some(portal) && !t[g].deleted && |times| == 4
    requires LastNewestOf(batch, g, i) && !batch[i].deleted && batch[i].portal == portal
    ensures var gone := Apply(DeletePortals({portal}, times[0]), t);
      var back := Apply(ClearScrub(portal, times[2]), Apply(Undelete(portal, times[1]), gone));
      var full := Apply(UpsertBatch(batch, times[3]), back);
      && gone[g].deleted && gone[g].text == None
      && g in back && !back[g].deleted && !back[g].scrubbed && back[g].text == None
      && g in full && !full[g].deleted && SaysContent(full[g], batch[i])
  {
    hide Apply, Upper, SaysRecord, SameContent, LastNewestOf;
    PortalDeletes(t, {portal}, times[0]);
    var gone := Apply(DeletePortals({portal}, times[0]), t);
    PortalUndeleted(gone, portal, times[1]);
    var live := Apply(Undelete(portal, times[1]), gone);
    PortalUnscrubbed(live, portal, times[2]);
    var back := Apply(ClearScrub(portal, times[2]), live);
    StoredAfterSync(back, batch, times[3], g, i);
  }

  /** Without clearing the scrubs the restored rows stay empty whatever is synced. */
  lemma RestoredStaysEmpty(t: Table, g: Guid, portal: Portal, batch: seq<Incoming>, times: seq<int>)
    requires g in t && t[g].portal == Some(portal) && !t[g].deleted && |times| == 3
    ensures var gone := Apply(DeletePortals({portal}, times[0]), t);
      var full := Apply(UpsertBatch(batch, times[2]), Apply(Undelete(portal, times[1]), gone));
      && g in full && full[g].text == None && full[g].subject == None && full[g].sender == Some("")
  {
    hide Apply, Upper, SaysRecord, SaysContent, LastNewestOf;
    PortalDeletes(t, {portal}, times[0]);
    var gone := Apply(DeletePortals({portal}, times[0]), t);
    PortalUndeleted(gone, portal, times[1]);
    var live := Apply(Undelete(portal, times[1]), gone);
    if g != "" && exists m :: m in batch && m.guid == g {
      var i := WinnerExists(batch, g);
      StoredAfterSync(live, batch, times[2], g, i);
    } else {
      SyncLeavesOthers(live, batch, times[2]);
    }
  }
}
