/** The recycle-bin classifier: one pass over the ordered scan of all messages
    against a set of recoverable guids, measured against a per-portal definition. */
module RecycleBin {
  import opened Bytes
  import opened CloudMessages
  import opened MessageListing

  datatype PortalState = PortalState(portal: Portal, total: nat, recoverable: nat, suffix: nat, newestTs: int,
                                     hasLive: bool, hasDeleted: bool)
  {
    function Threshold(): nat {
      if total < 3 then total else 3
    }

    predicate LooksDeleted() {
      Threshold() > 0 && suffix >= Threshold()
    }

    predicate LooksRestored() {
      recoverable > 0 && !LooksDeleted()
    }

    predicate NeedsUndelete() {
      LooksRestored() && hasDeleted && !hasLive
    }
  }

  // ---- Per-portal definition ----

  /** Every message of a portal but the stubs, deleted ones included. */
  function Messages(t: Table, portal: Portal): set<Key> {
    set g | g in t && t[g].portal == Some(portal) && t[g].recordName != "" :: Key(t[g].timestamp, g)
  }

  ghost function NewestFirst(t: Table, portal: Portal): seq<Key> {
    Reverse(Ascending(Messages(t, portal)))
  }

  function Count(q: seq<Key>, recoverable: set<Guid>): (n: nat)
    ensures n <= |q|
  {
    if q == [] then 0
    else Count(q[..|q| - 1], recoverable) + if q[|q| - 1].guid in recoverable then 1 else 0
  }

  /** How many of the newest messages in a row are recoverable. */
  function Streak(q: seq<Key>, recoverable: set<Guid>): (n: nat)
    ensures n <= |q|
    ensures forall i :: 0 <= i < n ==> q[i].guid in recoverable
    ensures n < |q| ==> q[n].guid !in recoverable
  {
    if q == [] then 0
    else
      var n := Streak(q[..|q| - 1], recoverable);
      if n == |q| - 1 && q[|q| - 1].guid in recoverable then n + 1 else n
  }

  predicate AnyDeleted(t: Table, q: seq<Key>, deleted: bool) {
    exists i :: 0 <= i < |q| && q[i].guid in t && t[q[i].guid].deleted == deleted
  }

  function Tally(t: Table, portal: Portal, q: seq<Key>, recoverable: set<Guid>): PortalState {
    PortalState(portal, |q|, Count(q, recoverable), Streak(q, recoverable), if q == [] then 0 else q[0].timestamp,
                AnyDeleted(t, q, false), AnyDeleted(t, q, true))
  }

  ghost function StateOf(t: Table, portal: Portal, recoverable: set<Guid>): PortalState {
    Tally(t, portal, NewestFirst(t, portal), recoverable)
  }

  /** The portals with a recoverable message, in order, each with its state. */
  ghost predicate Classification(t: Table, recoverable: set<Guid>, states: seq<PortalState>) {
    && (forall i, j :: 0 <= i < j < |states| ==> GuidBefore(states[i].portal, states[j].portal))
    && (forall i :: 0 <= i < |states| ==>
          && states[i].portal != ""
          && states[i] == StateOf(t, states[i].portal, recoverable)
          && states[i].recoverable > 0)
    && (forall portal :: portal != "" && StateOf(t, portal, recoverable).recoverable > 0 ==>
          exists i :: 0 <= i < |states| && states[i].portal == portal)
  }

  // ---- The ordered scan ----

  datatype ScanRow = ScanRow(portal: Portal, key: Key, deleted: bool)

  predicate ScanBefore(a: ScanRow, b: ScanRow) {
    GuidBefore(a.portal, b.portal) || (a.portal == b.portal && Before(b.key, a.key))
  }

  ghost predicate ScanOrdered(scan: seq<ScanRow>) {
    forall i, j :: 0 <= i < j < |scan| ==> ScanBefore(scan[i], scan[j])
  }

  /** The rows of the query, ordered by portal ascending, newest first within one. */
  ghost predicate IsScan(t: Table, scan: seq<ScanRow>) {
    && ScanOrdered(scan)
    && (forall i :: 0 <= i < |scan| ==>
          && scan[i].portal != ""
          && scan[i].key in Messages(t, scan[i].portal)
          && scan[i].deleted == t[scan[i].key.guid].deleted)
    && (forall portal, k :: portal != "" && k in Messages(t, portal) ==>
          exists i :: 0 <= i < |scan| && scan[i].portal == portal && scan[i].key == k)
  }

  function RowsToScan(t: Table): set<ScanRow> {
    set g | g in t && t[g].portal.Some? && t[g].portal.value != "" && t[g].recordName != "" ::
      ScanRow(t[g].portal.value, Key(t[g].timestamp, g), t[g].deleted)
  }

  lemma ScanTotal(a: ScanRow, b: ScanRow)
    requires a.portal != b.portal || a.key != b.key
    ensures ScanBefore(a, b) || ScanBefore(b, a)
  {
    GuidOrder(a.portal, b.portal);
    Order(a.key, b.key);
  }

  lemma ScanTransitive(a: ScanRow, b: ScanRow, c: ScanRow)
    requires ScanBefore(a, b) && ScanBefore(b, c)
    ensures ScanBefore(a, c)
  {
    if a.portal == b.portal == c.portal {
      GuidOrder(a.portal, a.portal);
      Transitive(c.key, b.key, a.key);
    } else if a.portal != b.portal && b.portal != c.portal {
      GuidTransitive(a.portal, b.portal, c.portal);
    }
  }

  ghost predicate Told(rows: set<ScanRow>) {
    forall a, b :: a in rows && b in rows && a != b ==> a.portal != b.portal || a.key != b.key
  }

  lemma {:induction false} FirstRow(rows: set<ScanRow>) returns (first: ScanRow)
    requires rows != {} && Told(rows)
    ensures first in rows && forall r :: r in rows && r != first ==> ScanBefore(first, r)
    decreases |rows|
  {
    hide ScanBefore;
    first :| first in rows;
    if rows != {first} {
      var other := FirstRow(rows - {first});
      ScanTotal(first, other);
      if ScanBefore(first, other) {
        forall r | r in rows && r != first ensures ScanBefore(first, r) {
          if r != other { ScanTransitive(first, other, r); }
        }
      } else {
        first := other;
      }
    }
  }

  lemma {:induction false} OrderedScan(rows: set<ScanRow>) returns (scan: seq<ScanRow>)
    requires Told(rows)
    ensures ScanOrdered(scan) && forall r :: r in rows <==> r in scan
    decreases |rows|
  {
    hide ScanBefore;
    if rows == {} {
      scan := [];
    } else {
      var first := FirstRow(rows);
      var rest := OrderedScan(rows - {first});
      scan := [first] + rest;
      forall j | 0 < j < |scan| ensures ScanBefore(first, scan[j]) { assert scan[j] in rest; }
    }
  }

  /** Every table has a scan, so the classifier's input always exists. */
  lemma ScanExists(t: Table) returns (scan: seq<ScanRow>)
    ensures IsScan(t, scan)
  {
    var rows := RowsToScan(t);
    scan := OrderedScan(rows);
    hide ScanOrdered;
    forall i | 0 <= i < |scan|
      ensures scan[i].portal != "" && scan[i].key in Messages(t, scan[i].portal)
      ensures scan[i].deleted == t[scan[i].key.guid].deleted
    {
      assert scan[i] in rows;
    }
    forall portal, k | portal != "" && k in Messages(t, portal)
      ensures exists i :: 0 <= i < |scan| && scan[i].portal == portal && scan[i].key == k
    {
      var r := ScanRow(portal, k, t[k.guid].deleted);
      assert r in rows && r in scan;
      var i :| 0 <= i < |scan| && scan[i] == r;
    }
  }

  /** The keys of one portal in the order scanned. */
  function Portion(scan: seq<ScanRow>, portal: Portal): seq<Key> {
    if scan == [] then []
    else
      var front := Portion(scan[..|scan| - 1], portal);
      var last := scan[|scan| - 1];
      if last.portal == portal then front + [last.key] else front
  }

  lemma {:induction false} PortionMember(scan: seq<ScanRow>, portal: Portal, k: Key)
    ensures k in Portion(scan, portal) <==> exists i :: 0 <= i < |scan| && scan[i].portal == portal && scan[i].key == k
    decreases |scan|
  {
    if scan != [] {
      var front, last := scan[..|scan| - 1], scan[|scan| - 1];
      PortionMember(front, portal, k);
      if i :| 0 <= i < |scan| && scan[i].portal == portal && scan[i].key == k {
        assert i < |front| ==> front[i] == scan[i];
      }
      if k in Portion(front, portal) {
        var i :| 0 <= i < |front| && front[i].portal == portal && front[i].key == k;
        assert scan[i] == front[i];
      }
    }
  }

  ghost predicate Descending(q: seq<Key>) {
    forall i, j :: 0 <= i < j < |q| ==> Before(q[j], q[i])
  }

  lemma {:induction false} PortionDescends(scan: seq<ScanRow>, portal: Portal)
    requires ScanOrdered(scan)
    ensures Descending(Portion(scan, portal))
    decreases |scan|
  {
    hide Before;
    if scan != [] {
      var front, last := scan[..|scan| - 1], scan[|scan| - 1];
      forall i, j | 0 <= i < j < |front| ensures ScanBefore(front[i], front[j]) {
        assert front[i] == scan[i] && front[j] == scan[j];
      }
      PortionDescends(front, portal);
      var p := Portion(front, portal);
      if last.portal == portal {
        forall i | 0 <= i < |p| ensures Before(last.key, p[i]) {
          assert p[i] in p;
          PortionMember(front, portal, p[i]);
          var j :| 0 <= j < |front| && front[j].portal == portal && front[j].key == p[i];
          assert front[j] == scan[j];
          GuidOrder(portal, portal);
        }
      }
    }
  }

  lemma ReverseMember(p: seq<Key>, k: Key)
    ensures k in Reverse(p) <==> k in p
  {
    if k in p {
      var i :| 0 <= i < |p| && p[i] == k;
      assert Reverse(p)[|p| - 1 - i] == k;
    }
    if k in Reverse(p) {
      var i :| 0 <= i < |p| && Reverse(p)[i] == k;
      assert p[|p| - 1 - i] == k;
    }
  }

  /** The scanned portion of a portal is its newest-first listing. */
  lemma PortionIsListing(t: Table, scan: seq<ScanRow>, portal: Portal)
    requires IsScan(t, scan) && portal != ""
    ensures Portion(scan, portal) == NewestFirst(t, portal)
  {
    hide Before, Messages;
    var p, s := Portion(scan, portal), Messages(t, portal);
    PortionDescends(scan, portal);
    forall k ensures k in Reverse(p) <==> k in s {
      PortionMember(scan, portal, k);
      ReverseMember(p, k);
    }
    hide IsScan, Portion;
    ListingUnique(Reverse(p), Ascending(s), s);
    ReverseTwice(p);
  }

  // ---- The recoverable set ----

  /** A structured entry counts up to its first bar. */
  function Stripped(entry: string): (g: Guid)
    ensures '|' !in g
    ensures g <= entry && (|g| < |entry| ==> entry[|g|] == '|')
  {
    if entry == "" || entry[0] == '|' then "" else [entry[0]] + Stripped(entry[1..])
  }

  function RecoverableSet(entries: seq<string>): set<Guid> {
    set e | e in entries && Stripped(e) != "" :: Stripped(e)
  }

  method NormalizeRecoverableGuidSet(entries: seq<string>) returns (guids: set<Guid>)
    ensures guids == RecoverableSet(entries)
  {
    guids := {};
    for i := 0 to |entries|
      invariant guids == RecoverableSet(entries[..i])
    {
      assert entries[..i + 1] == entries[..i] + [entries[i]];
      var g := Stripped(entries[i]);
      if g != "" {
        guids := guids + {g};
      }
    }
    assert entries[..|entries|] == entries;
  }

  // ---- The single pass ----

  method ClassifyRecycleBinPortals(ghost t: Table, scan: seq<ScanRow>, entries: seq<string>)
    returns (states: seq<PortalState>)
    requires IsScan(t, scan)
    ensures Classification(t, RecoverableSet(entries), states)
  {
    hide IsScan, StateOf, RecoverableSet, GuidBefore;
    var guids := NormalizeRecoverableGuidSet(entries);
    if guids == {} {
      NothingRecoverable(t);
      return [];
    }
    var statesByPortal, ordered := ScanPortals(t, scan, guids);
    states := KeepRecoverable(statesByPortal, ordered);
    KeptStates(statesByPortal, ordered);
    forall portal | portal != "" && StateOf(t, portal, guids).recoverable > 0
      ensures exists k :: 0 <= k < |states| && states[k].portal == portal
    {
      assert portal in ordered && statesByPortal[portal] in states;
    }
    forall k | 0 <= k < |states|
      ensures states[k].portal != "" && states[k] == StateOf(t, states[k].portal, guids) && states[k].recoverable > 0
    {
      assert states[k].portal in statesByPortal;
    }
  }

  /** The states with something recoverable, in order. */
  function Kept(states: map<Portal, PortalState>, ordered: seq<Portal>): seq<PortalState>
    requires forall portal :: portal in ordered ==> portal in states
  {
    if ordered == [] then []
    else
      var state := states[ordered[|ordered| - 1]];
      Kept(states, ordered[..|ordered| - 1]) + if state.recoverable > 0 then [state] else []
  }

  method KeepRecoverable(statesByPortal: map<Portal, PortalState>, ordered: seq<Portal>)
    returns (states: seq<PortalState>)
    requires forall portal :: portal in ordered ==> portal in statesByPortal
    ensures states == Kept(statesByPortal, ordered)
  {
    states := [];
    for i := 0 to |ordered|
      invariant states == Kept(statesByPortal, ordered[..i])
    {
      assert ordered[..i + 1][..i] == ordered[..i];
      var state := statesByPortal[ordered[i]];
      if state.recoverable != 0 {
        states := states + [state];
      }
    }
    assert ordered[..|ordered|] == ordered;
  }

  ghost predicate Labelled(states: map<Portal, PortalState>, ordered: seq<Portal>) {
    forall portal :: portal in ordered ==> portal in states && states[portal].portal == portal
  }

  lemma {:induction false} KeptFrom(states: map<Portal, PortalState>, ordered: seq<Portal>, k: nat) returns (i: nat)
    requires Labelled(states, ordered) && k < |Kept(states, ordered)|
    ensures i < |ordered| && Kept(states, ordered)[k] == states[ordered[i]] && states[ordered[i]].recoverable > 0
    decreases |ordered|
  {
    var front := ordered[..|ordered| - 1];
    if k < |Kept(states, front)| {
      i := KeptFrom(states, front, k);
    } else {
      i := |front|;
    }
  }

  lemma {:induction false} KeptAscends(states: map<Portal, PortalState>, ordered: seq<Portal>, j: nat, k: nat)
    requires Labelled(states, ordered) && Ascends(ordered) && j < k < |Kept(states, ordered)|
    ensures GuidBefore(Kept(states, ordered)[j].portal, Kept(states, ordered)[k].portal)
    decreases |ordered|
  {
    hide GuidBefore;
    var front := ordered[..|ordered| - 1];
    if k < |Kept(states, front)| {
      KeptAscends(states, front, j, k);
    } else {
      var i := KeptFrom(states, front, j);
      assert front[i] == ordered[i];
    }
  }

  lemma {:induction false} KeptAll(states: map<Portal, PortalState>, ordered: seq<Portal>, i: nat)
    requires Labelled(states, ordered) && i < |ordered| && states[ordered[i]].recoverable > 0
    ensures states[ordered[i]] in Kept(states, ordered)
    decreases |ordered|
  {
    if i < |ordered| - 1 { KeptAll(states, ordered[..|ordered| - 1], i); }
  }

  lemma KeptStates(states: map<Portal, PortalState>, ordered: seq<Portal>)
    requires Labelled(states, ordered) && Ascends(ordered)
    ensures var kept := Kept(states, ordered);
            && (forall k :: 0 <= k < |kept| ==>
                  kept[k].portal in ordered && kept[k] == states[kept[k].portal] && kept[k].recoverable > 0)
            && (forall j, k :: 0 <= j < k < |kept| ==> GuidBefore(kept[j].portal, kept[k].portal))
            && (forall portal :: portal in ordered && states[portal].recoverable > 0 ==> states[portal] in kept)
  {
    hide Kept, GuidBefore, Ascends;
    var kept := Kept(states, ordered);
    forall k | 0 <= k < |kept|
      ensures kept[k].portal in ordered && kept[k] == states[kept[k].portal] && kept[k].recoverable > 0
    {
      var i := KeptFrom(states, ordered, k);
    }
    forall j, k | 0 <= j < k < |kept| ensures GuidBefore(kept[j].portal, kept[k].portal) {
      KeptAscends(states, ordered, j, k);
    }
    forall portal | portal in ordered && states[portal].recoverable > 0 ensures states[portal] in kept {
      var i :| 0 <= i < |ordered| && ordered[i] == portal;
      KeptAll(states, ordered, i);
    }
  }

  ghost predicate Ascends(ordered: seq<Portal>) {
    forall i, j :: 0 <= i < j < |ordered| ==> GuidBefore(ordered[i], ordered[j])
  }

  /** The states kept so far are the tallies of the rows scanned so far. */
  ghost predicate Tallied(t: Table, scanned: seq<ScanRow>, guids: set<Guid>, states: map<Portal, PortalState>) {
    && (forall portal :: portal in states <==> Portion(scanned, portal) != [])
    && (forall portal :: portal in states ==>
          portal != "" && states[portal] == Tally(t, portal, Portion(scanned, portal), guids))
  }

  lemma PortionNext(scan: seq<ScanRow>, i: nat, portal: Portal)
    requires i < |scan|
    ensures Portion(scan[..i + 1], portal)
         == if scan[i].portal == portal then Portion(scan[..i], portal) + [scan[i].key] else Portion(scan[..i], portal)
  {
    assert scan[..i + 1][..i] == scan[..i];
  }

  lemma TalliedNext(t: Table, scan: seq<ScanRow>, i: nat, guids: set<Guid>, states: map<Portal, PortalState>,
                    next: PortalState)
    requires i < |scan| && Tallied(t, scan[..i], guids, states) && scan[i].portal != ""
    requires next == Tally(t, scan[i].portal, Portion(scan[..i], scan[i].portal) + [scan[i].key], guids)
    ensures Tallied(t, scan[..i + 1], guids, states[scan[i].portal := next])
  {
    hide Tally, Portion;
    forall portal { PortionNext(scan, i, portal); }
  }

  lemma ScanFacts(t: Table, scan: seq<ScanRow>, i: nat)
    requires IsScan(t, scan) && i < |scan|
    ensures scan[i].portal != "" && scan[i].key in Messages(t, scan[i].portal)
    ensures scan[i].deleted == t[scan[i].key.guid].deleted
  {
  }

  lemma AllTallied(t: Table, scan: seq<ScanRow>, guids: set<Guid>, states: map<Portal, PortalState>)
    requires IsScan(t, scan) && Tallied(t, scan, guids, states)
    ensures forall portal :: portal in states ==> portal != "" && states[portal] == StateOf(t, portal, guids)
    ensures forall portal :: portal != "" && StateOf(t, portal, guids).recoverable > 0 ==> portal in states
  {
    hide Portion, Messages, IsScan, Streak;
    forall portal | portal != "" ensures StateOf(t, portal, guids) == Tally(t, portal, Portion(scan, portal), guids) {
      PortionIsListing(t, scan, portal);
    }
  }

  /** A state for each portal of the scan, in order of appearance. */
  method ScanPortals(ghost t: Table, scan: seq<ScanRow>, guids: set<Guid>)
    returns (statesByPortal: map<Portal, PortalState>, ordered: seq<Portal>)
    requires IsScan(t, scan)
    ensures forall portal :: portal in ordered <==> portal in statesByPortal
    ensures forall portal :: portal in statesByPortal ==> statesByPortal[portal].portal == portal
    ensures Ascends(ordered)
    ensures forall portal :: portal in statesByPortal ==>
              portal != "" && statesByPortal[portal] == StateOf(t, portal, guids)
    ensures forall portal :: portal != "" && StateOf(t, portal, guids).recoverable > 0 ==> portal in statesByPortal
  {
    hide Messages, Tally, Portion, IsScan, GuidBefore, StateOf, Tallied, Ascends;
    statesByPortal, ordered := map[], [];
    var current := "";
    var suffixOpen := false;
    NoneTallied(t, guids);
    assert scan[..0] == [];
    for i := 0 to |scan|
      invariant forall portal :: portal in ordered <==> portal in statesByPortal
      invariant forall portal :: portal in statesByPortal ==> statesByPortal[portal].portal == portal
      invariant Tallied(t, scan[..i], guids, statesByPortal)
      invariant Ascends(ordered)
      invariant i == 0 ==> current == "" && ordered == []
      invariant i > 0 ==> current == scan[i - 1].portal && ordered != [] && ordered[|ordered| - 1] == current
      invariant i > 0 ==> (suffixOpen <==> statesByPortal[current].suffix == statesByPortal[current].total)
    {
      var row := scan[i];
      ScanFacts(t, scan, i);
      ghost var before := Portion(scan[..i], row.portal);
      TallyNext(t, row.portal, before, row, guids);
      var state;
      if row.portal != current {
        NewPortal(t, scan, i);
        AscendsNext(ordered, row.portal);
        current := row.portal;
        state := PortalState(current, 0, 0, 0, row.key.timestamp, false, false);
        ordered := ordered + [current];
        suffixOpen := true;
      } else {
        state := statesByPortal[current];
        CurrentTally(t, scan[..i], guids, statesByPortal, current);
      }
      state := state.(total := state.total + 1);
      if row.deleted { state := state.(hasDeleted := true); } else { state := state.(hasLive := true); }
      var isRecoverable := row.key.guid in guids;
      if isRecoverable { state := state.(recoverable := state.recoverable + 1); }
      if suffixOpen {
        if isRecoverable { state := state.(suffix := state.suffix + 1); } else { suffixOpen := false; }
      }
      TalliedNext(t, scan, i, guids, statesByPortal, state);
      statesByPortal := statesByPortal[current := state];
    }
    assert scan[..|scan|] == scan;
    AllTallied(t, scan, guids, statesByPortal);
  }

  lemma NoneTallied(t: Table, guids: set<Guid>)
    ensures Tallied(t, [], guids, map[])
    ensures Ascends([])
  {
  }

  lemma CurrentTally(t: Table, scanned: seq<ScanRow>, guids: set<Guid>, states: map<Portal, PortalState>,
                     portal: Portal)
    requires Tallied(t, scanned, guids, states) && portal in states
    ensures states[portal] == Tally(t, portal, Portion(scanned, portal), guids) && Portion(scanned, portal) != []
    ensures states[portal].suffix <= states[portal].total
  {
  }

  lemma AscendsNext(ordered: seq<Portal>, portal: Portal)
    requires Ascends(ordered)
    requires ordered != [] ==> GuidBefore(ordered[|ordered| - 1], portal)
    ensures Ascends(ordered + [portal])
  {
    hide GuidBefore;
    forall j | 0 <= j < |ordered| ensures GuidBefore(ordered[j], portal) {
      if j < |ordered| - 1 { GuidTransitive(ordered[j], ordered[|ordered| - 1], portal); }
    }
  }

  /** A portal seen again is the current one: the scan is ordered by portal. */
  lemma NewPortal(t: Table, scan: seq<ScanRow>, i: nat)
    requires IsScan(t, scan) && i < |scan| && (i > 0 ==> scan[i].portal != scan[i - 1].portal)
    ensures Portion(scan[..i], scan[i].portal) == []
    ensures i > 0 ==> GuidBefore(scan[i - 1].portal, scan[i].portal)
  {
    hide Messages;
    if i > 0 {
      assert ScanBefore(scan[i - 1], scan[i]);
      var p := Portion(scan[..i], scan[i].portal);
      if p != [] {
        PortionMember(scan[..i], scan[i].portal, p[0]);
        var j :| 0 <= j < i && scan[..i][j].portal == scan[i].portal && scan[..i][j].key == p[0];
        assert j < i - 1 ==> ScanBefore(scan[j], scan[i - 1]);
        GuidOrder(scan[j].portal, scan[i - 1].portal);
      }
    }
  }

  /** One more row of a portal. */
  lemma TallyNext(t: Table, portal: Portal, q: seq<Key>, row: ScanRow, guids: set<Guid>)
    requires row.key in Messages(t, portal) && row.deleted == t[row.key.guid].deleted
    ensures var old' := Tally(t, portal, q, guids);
            Tally(t, portal, q + [row.key], guids) ==
            PortalState(portal, old'.total + 1,
                        old'.recoverable + (if row.key.guid in guids then 1 else 0),
                        old'.suffix + (if old'.suffix == old'.total && row.key.guid in guids then 1 else 0),
                        if q == [] then row.key.timestamp else old'.newestTs,
                        old'.hasLive || !row.deleted, old'.hasDeleted || row.deleted)
    ensures q == [] ==> Tally(t, portal, q, guids) == PortalState(portal, 0, 0, 0, 0, false, false)
    ensures Tally(t, portal, q, guids).total == |q|
  {
    var r := q + [row.key];
    assert r[..|q|] == q && r[|q|] == row.key;
    forall flag ensures AnyDeleted(t, r, flag) <==> AnyDeleted(t, q, flag) || row.deleted == flag {
      if i :| 0 <= i < |q| && q[i].guid in t && t[q[i].guid].deleted == flag { assert r[i] == q[i]; }
    }
  }

  lemma NothingRecoverable(t: Table)
    ensures Classification(t, {}, [])
  {
    forall portal ensures StateOf(t, portal, {}).recoverable == 0 { CountNone(NewestFirst(t, portal)); }
  }

  lemma {:induction false} CountNone(q: seq<Key>)
    ensures Count(q, {}) == 0
    decreases |q|
  {
    if q != [] { CountNone(q[..|q| - 1]); }
  }

  // ---- What a classification means ----

  /** The order and the repetitions of the recoverable list do not matter. */
  lemma OrderAndDuplicatesIgnored(t: Table, one: seq<string>, two: seq<string>, states: seq<PortalState>)
    requires forall e :: e in one <==> e in two
    ensures Classification(t, RecoverableSet(one), states) <==> Classification(t, RecoverableSet(two), states)
  {
    assert RecoverableSet(one) == RecoverableSet(two);
  }

  lemma {:induction false} StreakCounted(q: seq<Key>, recoverable: set<Guid>)
    ensures Streak(q, recoverable) <= Count(q, recoverable) <= |q|
    decreases |q|
  {
    if q != [] { StreakCounted(q[..|q| - 1], recoverable); }
  }

  /** The totals count the portal's messages in the table, deleted ones included and stubs not,
      and those of them in the recycle bin; the newest time is that of its newest message. */
  lemma StateCounts(t: Table, portal: Portal, recoverable: set<Guid>)
    ensures var s := StateOf(t, portal, recoverable);
      var messages := set g | g in t && t[g].portal == Some(portal) && t[g].recordName != "";
      && s.total == |messages| && s.recoverable == |messages * recoverable|
      && (forall g :: g in messages ==> t[g].timestamp <= s.newestTs)
      && (messages != {} ==> exists g :: g in messages && t[g].timestamp == s.newestTs)
      && (messages == {} ==> s.newestTs == 0)
  {
    hide Before, Streak, Count, AnyDeleted, Ascending;
    var q := NewestFirst(t, portal);
    var messages := set g | g in t && t[g].portal == Some(portal) && t[g].recordName != "";
    forall k ensures k in q <==> k in Messages(t, portal) { ReverseMember(Ascending(Messages(t, portal)), k); }
    GuidsDistinct(t, portal);
    CountGuids(q, recoverable);
    assert GuidsOf(q) == messages by { MessageGuids(t, portal, q); }
    NewestIsFirst(t, portal);
    if q != [] { assert q[0] in q; }
    forall g | g in messages ensures q != [] && t[g].timestamp <= q[0].timestamp {
      assert Key(t[g].timestamp, g) in Messages(t, portal);
      assert Key(t[g].timestamp, g) in q;
    }
  }

  function GuidsOf(q: seq<Key>): set<Guid> {
    set i | 0 <= i < |q| :: q[i].guid
  }

  lemma MessageGuids(t: Table, portal: Portal, q: seq<Key>)
    requires forall k :: k in q <==> k in Messages(t, portal)
    ensures GuidsOf(q) == set g | g in t && t[g].portal == Some(portal) && t[g].recordName != ""
  {
    forall g | g in t && t[g].portal == Some(portal) && t[g].recordName != "" ensures g in GuidsOf(q) {
      var k := Key(t[g].timestamp, g);
      assert k in Messages(t, portal);
      assert k in q;
      var i :| 0 <= i < |q| && q[i] == k;
      assert q[i].guid == g;
    }
    forall g | g in GuidsOf(q) ensures g in t && t[g].portal == Some(portal) && t[g].recordName != "" {
      var i :| 0 <= i < |q| && q[i].guid == g;
      assert q[i] in q;
    }
  }

  ghost predicate Distinct(q: seq<Key>) {
    forall i, j :: 0 <= i < j < |q| ==> q[i].guid != q[j].guid
  }

  lemma GuidsDistinct(t: Table, portal: Portal)
    ensures Distinct(NewestFirst(t, portal))
  {
    hide Before, Ascending;
    var p, q := Ascending(Messages(t, portal)), NewestFirst(t, portal);
    forall i, j | 0 <= i < j < |q| ensures q[i].guid != q[j].guid {
      var a, b := p[|p| - 1 - i], p[|p| - 1 - j];
      assert a in p && b in p;
      assert Before(b, a);
      Order(a, b);
    }
  }

  lemma {:induction false} CountGuids(q: seq<Key>, recoverable: set<Guid>)
    requires Distinct(q)
    ensures |GuidsOf(q)| == |q| && |GuidsOf(q) * recoverable| == Count(q, recoverable)
    decreases |q|
  {
    if q == [] {
      assert GuidsOf(q) == {} && GuidsOf(q) * recoverable == {};
    } else {
      var front, g := q[..|q| - 1], q[|q| - 1].guid;
      CountGuids(front, recoverable);
      OneMoreGuid(q);
      hide GuidsOf, Distinct;
      OneMoreOf(GuidsOf(front), g, recoverable);
    }
  }

  lemma OneMoreOf(guids: set<Guid>, g: Guid, recoverable: set<Guid>)
    requires g !in guids
    ensures |guids + {g}| == |guids| + 1
    ensures |(guids + {g}) * recoverable| == |guids * recoverable| + if g in recoverable then 1 else 0
  {
    var some := guids * recoverable;
    assert (guids + {g}) * recoverable == if g in recoverable then some + {g} else some;
  }

  lemma OneMoreGuid(q: seq<Key>)
    requires Distinct(q) && q != []
    ensures var front, g := q[..|q| - 1], q[|q| - 1].guid;
      Distinct(front) && g !in GuidsOf(front) && GuidsOf(q) == GuidsOf(front) + {g}
  {
    var front, g := q[..|q| - 1], q[|q| - 1].guid;
    assert q[|q| - 1].guid in GuidsOf(q);
    forall h | h in GuidsOf(front) ensures h in GuidsOf(q) && h != g {
      var i :| 0 <= i < |front| && front[i].guid == h;
      assert q[i].guid == h;
    }
    forall h | h in GuidsOf(q) && h != g ensures h in GuidsOf(front) {
      var i :| 0 <= i < |q| && q[i].guid == h;
      assert front[i].guid == h;
    }
  }

  lemma NewestIsFirst(t: Table, portal: Portal)
    ensures var q := NewestFirst(t, portal); forall k :: k in q ==> k.timestamp <= q[0].timestamp
  {
    hide Ascending;
    var p, q := Ascending(Messages(t, portal)), NewestFirst(t, portal);
    forall k | k in q ensures k.timestamp <= q[0].timestamp {
      var i :| 0 <= i < |q| && q[i] == k;
      assert i > 0 ==> Before(p[|p| - 1 - i], p[|p| - 1]);
    }
  }

  /** A portal looks deleted exactly when its newest three messages, or all of
      them if fewer, are in the recycle bin. */
  lemma LooksDeletedMeans(t: Table, portal: Portal, recoverable: set<Guid>)
    ensures var q := NewestFirst(t, portal); var s := StateOf(t, portal, recoverable);
            && s.suffix <= s.recoverable <= s.total
            && (s.LooksDeleted() <==> q != [] && forall i :: 0 <= i < |q| && i < 3 ==> q[i].guid in recoverable)
  {
    StreakCounted(NewestFirst(t, portal), recoverable);
  }

  /** A portal needs its messages undeleted exactly when it looks restored and every one
      of its messages is still marked deleted. */
  lemma NeedsUndeleteMeans(t: Table, portal: Portal, recoverable: set<Guid>)
    ensures var s := StateOf(t, portal, recoverable);
            s.NeedsUndelete() <==>
              && s.LooksRestored()
              && forall g :: g in t && t[g].portal == Some(portal) && t[g].recordName != "" ==> t[g].deleted
  {
    hide Streak, Count, Ascending;
    var q, s := NewestFirst(t, portal), StateOf(t, portal, recoverable);
    forall k ensures k in q <==> k in Messages(t, portal) {
      ReverseMember(Ascending(Messages(t, portal)), k);
    }
    StreakCounted(q, recoverable);
    assert s.LooksRestored() ==> q[0] in q;
    forall g | g in t && t[g].portal == Some(portal) && t[g].recordName != "" && !t[g].deleted ensures s.hasLive {
      var k := Key(t[g].timestamp, g);
      assert k in q;
    }
    assert s.hasLive ==> exists i :: 0 <= i < |q| && q[i] in q && q[i].guid in t && !t[q[i].guid].deleted;
  }

  /** Every portal returned is exactly one of deleted and restored. */
  lemma DeletedOrRestored(t: Table, recoverable: set<Guid>, states: seq<PortalState>, i: nat)
    requires Classification(t, recoverable, states) && i < |states|
    ensures states[i].LooksDeleted() <==> !states[i].LooksRestored()
    ensures states[i].total > 0
  {
    LooksDeletedMeans(t, states[i].portal, recoverable);
  }

  /** A classification is determined by the table and the recoverable set. */
  lemma {:induction false} ClassificationUnique(t: Table, recoverable: set<Guid>,
                                                p: seq<PortalState>, q: seq<PortalState>)
    requires Classification(t, recoverable, p) && Classification(t, recoverable, q)
    ensures p == q
  {
    hide Messages;
    SameLength(t, recoverable, p, q, 0);
  }

  lemma {:induction false} SameLength(t: Table, recoverable: set<Guid>,
                                      p: seq<PortalState>, q: seq<PortalState>, n: nat)
    requires Classification(t, recoverable, p) && Classification(t, recoverable, q)
    requires n <= |p| && n <= |q| && p[..n] == q[..n]
    ensures p == q
    decreases |p| - n
  {
    hide Classification;
    if n < |p| {
      NextPortal(t, recoverable, p, q, n);
      assert p[..n + 1] == p[..n] + [p[n]] && q[..n + 1] == q[..n] + [q[n]];
      SameLength(t, recoverable, p, q, n + 1);
    } else if n < |q| {
      NextPortal(t, recoverable, q, p, n);
    }
  }

  lemma NextPortal(t: Table, recoverable: set<Guid>, p: seq<PortalState>, q: seq<PortalState>, n: nat)
    requires Classification(t, recoverable, p) && Classification(t, recoverable, q)
    requires n < |p| && n <= |q| && p[..n] == q[..n]
    ensures n < |q| && p[n] == q[n]
  {
    hide StateOf, GuidBefore;
    forall k | 0 <= k < n ensures p[k] == q[k] { assert p[..n][k] == q[..n][k]; }
    var i :| 0 <= i < |q| && q[i].portal == p[n].portal;
    GuidOrder(p[n].portal, p[n].portal);
    assert i >= n;
    var a, b := p[n].portal, q[n].portal;
    var j :| 0 <= j < |p| && p[j].portal == b;
    GuidOrder(b, b);
    assert j >= n;
    GuidOrder(a, b);
    assert i > n ==> GuidBefore(b, a);
    assert j > n ==> GuidBefore(a, b);
  }
}
