/** What the four listings show, from the rows themselves, and how deletions, restores and
    syncs change it. */
module ListingOutcome {
  import opened Bytes
  import opened CloudMessages
  import opened MessageEffects
  import opened MessageListing
  import TailScrub

  // ---- The rows shown ----

  /** The portal's messages that are neither deleted nor bare stubs. */
  ghost predicate Shown(t: Table, portal: Portal, k: Key) {
    && k.guid in t && t[k.guid].timestamp == k.timestamp && t[k.guid].portal == Some(portal)
    && !t[k.guid].deleted && t[k.guid].recordName != ""
  }

  lemma LiveIff(t: Table, portal: Portal, k: Key)
    ensures k in Live(t, portal) <==> Shown(t, portal, k)
  {
    if Shown(t, portal, k) { assert IsListed(t, portal, k.guid); }
  }

  /** One guid is before another if it is cut short, or has the smaller character where they
      first differ. */
  lemma {:induction false} GuidBeforeMeans(s: Guid, t: Guid)
    ensures GuidBefore(s, t) <==> (|s| < |t| && t[..|s|] == s) || exists i :: DiffersAt(s, t, i)
    decreases |s|
  {
    if s == [] {
      assert t[..|s|] == s;
    } else if t != [] {
      GuidBeforeMeans(s[1..], t[1..]);
      if s[0] < t[0] { assert DiffersAt(s, t, 0); }
      if s[0] == t[0] {
        forall i | DiffersAt(s[1..], t[1..], i) ensures DiffersAt(s, t, i + 1) { DiffersLater(s, t, i); }
        forall i | DiffersAt(s, t, i) ensures DiffersAt(s[1..], t[1..], i - 1) { DiffersLater(s, t, i - 1); }
        assert s == [s[0]] + s[1..];
        assert |s| <= |t| ==> t[..|s|] == [t[0]] + t[1..][..|s| - 1];
      }
    }
  }

  ghost predicate DiffersAt(s: Guid, t: Guid, i: int) {
    0 <= i < |s| && i < |t| && s[..i] == t[..i] && s[i] < t[i]
  }

  lemma DiffersLater(s: Guid, t: Guid, i: int)
    requires s != [] && t != [] && s[0] == t[0]
    ensures i >= 0 ==> (DiffersAt(s[1..], t[1..], i) <==> DiffersAt(s, t, i + 1))
    ensures i == -1 ==> !DiffersAt(s, t, i + 1)
  {
    if 0 <= i < |s| - 1 && i < |t| - 1 {
      assert s[..i + 1] == [s[0]] + s[1..][..i] && t[..i + 1] == [t[0]] + t[1..][..i];
    }
  }

  /** Earlier, or of the same time and with the smaller guid. */
  ghost predicate Precedes(a: Key, b: Key) {
    a.timestamp < b.timestamp || (a.timestamp == b.timestamp && GuidBefore(a.guid, b.guid))
  }

  // ---- Pages ----

  /** The page holds the first of the keys, oldest first, as many as asked for. */
  ghost predicate FirstOf(page: seq<Key>, s: set<Key>, count: nat) {
    && |page| == (if count < |s| then count else |s|)
    && (forall k :: k in page ==> k in s)
    && (forall i, j :: 0 <= i < j < |page| ==> Precedes(page[i], page[j]))
    && (forall i, k :: 0 <= i < |page| && k in s && k !in page ==> Precedes(page[i], k))
  }

  /** The page holds the last of the keys, newest first. */
  ghost predicate LastOf(page: seq<Key>, s: set<Key>, count: nat) {
    && |page| == (if count < |s| then count else |s|)
    && (forall k :: k in page ==> k in s)
    && (forall i, j :: 0 <= i < j < |page| ==> Precedes(page[j], page[i]))
    && (forall i, k :: 0 <= i < |page| && k in s && k !in page ==> Precedes(k, page[i]))
  }

  lemma FirstPage(s: set<Key>, count: nat)
    ensures FirstOf(Limit(Ascending(s), count), s, count)
  {
    hide Ascending;
    var q := Ascending(s);
    var page := Limit(q, count);
    TailScrub.SortedSize(q, s);
    forall i, k | 0 <= i < |page| && k in s && k !in page ensures Precedes(page[i], k) {
      var j :| 0 <= j < |q| && q[j] == k;
      assert j >= |page|;
    }
  }

  lemma LastPage(s: set<Key>, count: nat)
    ensures LastOf(Limit(Reverse(Ascending(s)), count), s, count)
  {
    hide Ascending;
    var q := Ascending(s);
    var page := Limit(Reverse(q), count);
    TailScrub.SortedSize(q, s);
    forall k | k in page ensures k in s {
      var i :| 0 <= i < |page| && page[i] == k;
      assert k == q[|q| - 1 - i];
    }
    forall i, k | 0 <= i < |page| && k in s && k !in page ensures Precedes(k, page[i]) {
      var j :| 0 <= j < |q| && q[j] == k;
      assert Reverse(q)[|q| - 1 - j] == k;
      assert page[i] == q[|q| - 1 - i];
    }
  }

  /** The rows shown, all of them or those on one side of an anchor. */
  ghost predicate Shows(s: set<Key>, t: Table, portal: Portal) {
    forall k :: k in s <==> Shown(t, portal, k)
  }

  ghost predicate ShowsAfter(s: set<Key>, t: Table, portal: Portal, anchor: Key) {
    forall k :: k in s <==> Shown(t, portal, k) && Precedes(anchor, k)
  }

  ghost predicate ShowsBefore(s: set<Key>, t: Table, portal: Portal, anchor: Key) {
    forall k :: k in s <==> Shown(t, portal, k) && Precedes(k, anchor)
  }

  lemma LiveShows(t: Table, portal: Portal)
    ensures Shows(Live(t, portal), t, portal)
  {
    forall k ensures k in Live(t, portal) <==> Shown(t, portal, k) { LiveIff(t, portal, k); }
  }

  lemma OldestPage(t: Table, portal: Portal, count: nat)
    ensures exists s :: Shows(s, t, portal) && FirstOf(Oldest(Live(t, portal), count), s, count)
  {
    LiveShows(t, portal);
    FirstPage(Live(t, portal), count);
  }

  lemma LatestPage(t: Table, portal: Portal, count: nat)
    ensures exists s :: Shows(s, t, portal) && LastOf(Latest(Live(t, portal), count), s, count)
  {
    LiveShows(t, portal);
    LastPage(Live(t, portal), count);
  }

  lemma ForwardPage(t: Table, portal: Portal, anchor: Key, count: nat)
    ensures exists s :: ShowsAfter(s, t, portal, anchor)
                        && FirstOf(Forward(Live(t, portal), anchor, count), s, count)
  {
    LiveShows(t, portal);
    FirstPage(After(Live(t, portal), anchor), count);
    assert ShowsAfter(After(Live(t, portal), anchor), t, portal, anchor);
  }

  /** An anchor of no guid and a time of zero or less is none. */
  lemma BackwardPage(t: Table, portal: Portal, anchor: Key, count: nat)
    ensures exists s ::
      && (if anchor.timestamp > 0 || anchor.guid != "" then ShowsBefore(s, t, portal, anchor) else Shows(s, t, portal))
      && LastOf(Backward(Live(t, portal), anchor, count), s, count)
  {
    LiveShows(t, portal);
    LastPage(Live(t, portal), count);
    LastPage(Earlier(Live(t, portal), anchor), count);
    assert ShowsBefore(Earlier(Live(t, portal), anchor), t, portal, anchor);
  }

  // ---- What changes the listings ----

  /** A deleted message is shown no more, and nothing else changes. */
  lemma DeleteHides(t: Table, guids: set<Guid>, now: int, portal: Portal, k: Key)
    ensures Shown(Apply(DeleteBatch(guids, now), t), portal, k) <==> Shown(t, portal, k) && k.guid !in guids
  {
    hide Apply;
    BatchDeletes(t, guids, now);
  }

  lemma SoftDeleteHides(t: Table, guid: Guid, now: int, portal: Portal, k: Key)
    ensures Shown(Apply(SoftDelete(guid, now), t), portal, k)
       <==> Shown(t, portal, k) && Upper(k.guid) != Upper(guid)
  {
    hide Apply, Upper;
    if exists g :: g in t && Upper(g) == Upper(guid) {
      KnownSpellingDeletes(t, guid, now);
    } else {
      UnknownGuidStubs(t, guid, now);
    }
  }

  lemma PortalDeleteHides(t: Table, portals: set<Portal>, now: int, portal: Portal, k: Key)
    ensures Shown(Apply(DeletePortals(portals, now), t), portal, k) <==> Shown(t, portal, k) && portal !in portals
  {
    hide Apply;
    PortalDeletes(t, portals, now);
  }

  /** A restored portal shows every message it has a record of. */
  lemma UndeleteShows(t: Table, restored: Portal, now: int, portal: Portal, k: Key)
    ensures Shown(Apply(Undelete(restored, now), t), portal, k)
       <==> k.guid in t && t[k.guid].timestamp == k.timestamp && t[k.guid].portal == Some(portal)
            && t[k.guid].recordName != "" && (!t[k.guid].deleted || portal == restored)
  {
    hide Apply;
    PortalUndeleted(t, restored, now);
  }

  /** A scrub hides nothing. */
  lemma ScrubsHideNothing(t: Table, picked: set<Guid>, cutoff: int, portal: Portal, k: Key)
    ensures Shown(Apply(ScrubBodies(picked, cutoff), t), portal, k) <==> Shown(t, portal, k)
    ensures Shown(Apply(ScrubReactions(picked, cutoff), t), portal, k) <==> Shown(t, portal, k)
    ensures Shown(Apply(ScrubDeleted, t), portal, k) <==> Shown(t, portal, k)
  {
    hide Apply;
    BodiesScrubbed(t, picked, cutoff);
    ReactionsScrubbed(t, picked, cutoff);
    DeletedScrubbed(t);
  }

  /** A message seen in real time is not shown before a sync names its record. */
  lemma SeenShowsNothing(t: Table, guid: Guid, seen: Portal, timestamp: int, isFromMe: bool, tapback: Option<int>,
                         now: int, portal: Portal, k: Key)
    ensures Shown(Apply(PersistSeen(guid, seen, timestamp, isFromMe, tapback, now), t), portal, k)
       <==> Shown(t, portal, k)
  {
    hide Apply;
    SeenIsStored(t, guid, seen, timestamp, isFromMe, tapback, now);
  }

  /** A synced message is shown where and when its record says, unless it was or is deleted. */
  lemma SyncShows(t: Table, batch: seq<Incoming>, now: int, g: Guid, i: nat, portal: Portal, timestamp: int)
    requires LastNewestOf(batch, g, i)
    ensures var m := batch[i];
      Shown(Apply(UpsertBatch(batch, now), t), portal, Key(timestamp, g))
      <==> m.portal == portal && m.timestamp == timestamp && m.recordName != "" && !m.deleted
           && (g in t ==> !t[g].deleted)
  {
    var m := batch[i];
    assert m.guid == g;
    hide Apply, LastNewestOf;
    if g in t { StoredAfterSync(t, batch, now, g, i); } else { NewAfterSync(t, batch, now, g, i); }
  }
}
