/** The privacy scrub of the history that backfill can never reach: chunked updates
    with an arbitrary LIMIT choice, and their invisibility to the backfill reader. */
module TailScrub {
  import opened Bytes
  import opened CloudMessages
  import opened MessageListing

  const CHUNK := 1000

  /** The timestamp of the keep-th newest listed row. */
  ghost function Threshold(t: Table, portal: Portal, keep: nat): int
    requires 0 < keep <= |Ascending(Live(t, portal))|
  {
    Reverse(Ascending(Live(t, portal)))[keep - 1].timestamp
  }

  predicate Eligible(t: Table, portal: Portal, cutoff: int, threshold: int, g: Guid) {
    && g in t
    && t[g].portal == Some(portal)
    && !t[g].scrubbed
    && !IsReaction(t[g])
    && t[g].updatedTs < cutoff
    && t[g].timestamp < threshold
  }

  function Candidates(t: Table, portal: Portal, cutoff: int, threshold: int): set<Guid> {
    set g | g in t && Eligible(t, portal, cutoff, threshold, g)
  }

  /** The rows of one portal that the scrub clears. */
  ghost function Tail(t: Table, portal: Portal, keep: nat, cutoff: int): set<Guid>
    requires keep > 0
  {
    if |Live(t, portal)| <= keep then {}
    else ListingSize(Live(t, portal)); Candidates(t, portal, cutoff, Threshold(t, portal, keep))
  }

  lemma {:induction false} ListingSize(s: set<Key>)
    ensures |Ascending(s)| == |s|
  {
    SortedSize(Ascending(s), s);
  }

  lemma {:induction false} SortedSize(q: seq<Key>, s: set<Key>)
    requires Lists(q, s)
    ensures |q| == |s|
    decreases |q|
  {
    hide Before;
    if q == [] {
      assert s == {};
    } else {
      assert q[0] in q;
      TailLists(q, s);
      SortedSize(q[1..], s - {q[0]});
    }
  }

  ghost function WholeTail(t: Table, portals: set<Portal>, keep: nat, cutoff: int): set<Guid>
    requires keep > 0
  {
    set g | g in t && t[g].portal.Some? && t[g].portal.value in portals && g in Tail(t, t[g].portal.value, keep, cutoff)
  }

  ghost function ScrubbedRows(t: Table, scrub: set<Guid>): Table {
    map g | g in t :: if g in scrub then Scrubbed(t[g]) else t[g]
  }

  /** Portals with more listed rows than the backfill keeps. */
  function LongPortals(t: Table, keep: nat): set<Portal> {
    set g | g in t && t[g].portal.Some? && |Live(t, t[g].portal.value)| > keep :: t[g].portal.value
  }

  /** The final state, whatever rows each LIMIT picked. */
  ghost function TailScrubbed(t: Table, keep: int, cutoff: int, exclude: set<Portal>): Table {
    if keep <= 0 then t else ScrubbedRows(t, WholeTail(t, LongPortals(t, keep) - exclude, keep, cutoff))
  }

  // ---- Scrubbing leaves the listings alone ----

  lemma LiveUnchanged(t: Table, scrub: set<Guid>, portal: Portal)
    ensures Live(ScrubbedRows(t, scrub), portal) == Live(t, portal)
  {
    var u := ScrubbedRows(t, scrub);
    forall g ensures IsListed(u, portal, g) <==> IsListed(t, portal, g) { }
    forall k ensures k in Live(u, portal) <==> k in Live(t, portal) {
      assert k in Live(t, portal) <==> IsListed(t, portal, k.guid) && k.timestamp == t[k.guid].timestamp;
      assert k in Live(u, portal) <==> IsListed(u, portal, k.guid) && k.timestamp == u[k.guid].timestamp;
    }
  }

  lemma CandidatesLeft(t: Table, scrub: set<Guid>, portal: Portal, cutoff: int, threshold: int)
    ensures Candidates(ScrubbedRows(t, scrub), portal, cutoff, threshold)
         == Candidates(t, portal, cutoff, threshold) - scrub
  {
  }

  lemma ScrubNone(t: Table)
    ensures ScrubbedRows(t, {}) == t
  {
  }

  lemma ScrubTwice(t: Table, one: set<Guid>, two: set<Guid>)
    ensures ScrubbedRows(ScrubbedRows(t, one), two) == ScrubbedRows(t, one + two)
  {
  }

  // ---- The program ----

  /** LIMIT: some of the rows, as many as allowed. */
  method PickUpTo(s: set<Guid>, limit: nat) returns (pick: set<Guid>)
    ensures pick <= s && |pick| == if |s| <= limit then |s| else limit
  {
    pick := {};
    var rest := s;
    while rest != {} && |pick| < limit
      invariant pick + rest == s && pick !! rest && |pick| <= limit
      decreases |rest|
    {
      var g :| g in rest;
      pick, rest := pick + {g}, rest - {g};
    }
    if rest == {} {
      assert pick == s;
    } else {
      assert |s| == |pick| + |rest| by { Disjoint(pick, rest); }
    }
  }

  lemma Disjoint(a: set<Guid>, b: set<Guid>)
    requires a !! b
    ensures |a + b| == |a| + |b|
  {
  }

  method ScrubUnbridgedTail(store: CloudMessageStore, keep: int, cutoff: int, exclude: set<Portal>) returns (total: nat)
    modifies store
    ensures store.rows == TailScrubbed(old(store.rows), keep, cutoff, exclude)
    ensures total == if keep <= 0 then 0
                     else |WholeTail(old(store.rows), LongPortals(old(store.rows), keep) - exclude, keep, cutoff)|
  {
    hide Live, Scrubbed, WholeTail, ScrubbedRows, LongPortals;
    total := 0;
    if keep <= 0 { return; }
    ghost var t := store.rows;
    var portals := LongPortals(store.rows, keep) - exclude;
    var remaining := portals;
    NothingYet(t, keep, cutoff);
    assert portals - remaining == {};
    while remaining != {}
      invariant remaining <= portals
      invariant store.rows == ScrubbedRows(t, WholeTail(t, portals - remaining, keep, cutoff))
      invariant total == |WholeTail(t, portals - remaining, keep, cutoff)|
      decreases |remaining|
    {
      var portal :| portal in remaining;
      ghost var done := portals - remaining;
      assert portals - (remaining - {portal}) == done + {portal};
      var n := ScrubPortal(store, portal, keep, cutoff, t, done);
      total := total + n;
      remaining := remaining - {portal};
    }
    assert portals - {} == portals;
  }

  lemma NothingYet(t: Table, keep: nat, cutoff: int)
    requires keep > 0
    ensures WholeTail(t, {}, keep, cutoff) == {}
    ensures ScrubbedRows(t, {}) == t
  {
  }

  lemma OnePortalMore(t: Table, done: set<Portal>, portal: Portal, keep: nat, cutoff: int)
    requires keep > 0 && portal !in done
    ensures WholeTail(t, done + {portal}, keep, cutoff)
         == WholeTail(t, done, keep, cutoff) + Tail(t, portal, keep, cutoff)
    ensures WholeTail(t, done, keep, cutoff) !! Tail(t, portal, keep, cutoff)
  {
    hide Live, Ascending;
    forall g | g in Tail(t, portal, keep, cutoff) ensures g in t && t[g].portal == Some(portal) { }
  }

  method ScrubPortal(store: CloudMessageStore, portal: Portal, keep: nat, cutoff: int,
                     ghost t: Table, ghost done: set<Portal>) returns (total: nat)
    requires keep > 0 && portal in LongPortals(t, keep) && portal !in done
    requires store.rows == ScrubbedRows(t, WholeTail(t, done, keep, cutoff))
    modifies store
    ensures store.rows == ScrubbedRows(t, WholeTail(t, done + {portal}, keep, cutoff))
    ensures |WholeTail(t, done + {portal}, keep, cutoff)| == |WholeTail(t, done, keep, cutoff)| + total
  {
    hide Live, Scrubbed, LongPortals, ScrubbedRows, WholeTail, Candidates, Ascending;
    ghost var start := WholeTail(t, done, keep, cutoff);
    LongPortalIsLong(t, portal, keep);
    LiveUnchanged(t, start, portal);
    ListingSize(Live(t, portal));
    var newest := ListLatestMessages(store.rows, portal, keep);
    var threshold := newest[keep - 1].timestamp;
    OnePortalMore(t, done, portal, keep, cutoff);
    ghost var tail := Tail(t, portal, keep, cutoff);
    CandidatesLeft(t, start, portal, cutoff, threshold);
    assert Candidates(t, portal, cutoff, threshold) == tail;
    total := DrainCandidates(store, portal, cutoff, threshold);
    ScrubTwice(t, start, tail - start);
    assert tail - start == tail;
    Disjoint(start, tail);
  }

  lemma LongPortalIsLong(t: Table, portal: Portal, keep: nat)
    requires portal in LongPortals(t, keep)
    ensures |Live(t, portal)| > keep
  {
  }

  /** Chunk after chunk until a chunk comes back short. */
  method DrainCandidates(store: CloudMessageStore, portal: Portal, cutoff: int, threshold: int) returns (total: nat)
    modifies store
    ensures store.rows == ScrubbedRows(old(store.rows), Candidates(old(store.rows), portal, cutoff, threshold))
    ensures total == |Candidates(old(store.rows), portal, cutoff, threshold)|
  {
    hide ScrubbedRows, Candidates, Apply;
    ghost var t := store.rows;
    ghost var all := Candidates(t, portal, cutoff, threshold);
    ghost var scrubbed: set<Guid> := {};
    total := 0;
    ScrubNone(t);
    while true
      invariant scrubbed <= all && total == |scrubbed|
      invariant store.rows == ScrubbedRows(t, scrubbed)
      decreases |all| - |scrubbed|
    {
      CandidatesLeft(t, scrubbed, portal, cutoff, threshold);
      var candidates := Candidates(store.rows, portal, cutoff, threshold);
      var pick := PickUpTo(candidates, CHUNK);
      ScrubChunk(store.rows, pick, portal, cutoff, threshold);
      ScrubTwice(t, scrubbed, pick);
      store.Execute(ScrubBodies(pick, cutoff));
      Disjoint(scrubbed, pick);
      Disjoint(scrubbed, candidates);
      assert scrubbed + candidates == all;
      scrubbed := scrubbed + pick;
      var n := |pick|;
      total := total + n;
      if n < CHUNK {
        SameSize(pick, candidates);
        break;
      }
    }
  }

  lemma SameSize(a: set<Guid>, b: set<Guid>)
    requires a <= b && |a| == |b|
    ensures a == b
  {
    Disjoint(a, b - a);
    assert a + (b - a) == b;
  }

  /** One chunk's UPDATE scrubs exactly the rows picked. */
  lemma ScrubChunk(t: Table, pick: set<Guid>, portal: Portal, cutoff: int, threshold: int)
    requires pick <= Candidates(t, portal, cutoff, threshold)
    ensures Apply(ScrubBodies(pick, cutoff), t) == ScrubbedRows(t, pick)
  {
  }

  // ---- Invisible to backfill ----

  /** The rows behind a listing, with their columns. */
  ghost function RowsOf(t: Table, page: seq<Key>): seq<Option<Row>> {
    seq(|page|, i requires 0 <= i < |page| => if page[i].guid in t then Some(t[page[i].guid]) else None)
  }

  /** The newest rows of every portal, up to the number kept, are the same rows
      with the same contents before and after the scrub. */
  lemma TailScrubInvisible(t: Table, keep: int, cutoff: int, exclude: set<Portal>, portal: Portal, n: nat)
    requires n <= keep
    ensures var u := TailScrubbed(t, keep, cutoff, exclude);
            && Latest(Live(u, portal), n) == Latest(Live(t, portal), n)
            && RowsOf(u, Latest(Live(u, portal), n)) == RowsOf(t, Latest(Live(t, portal), n))
  {
    hide Live, Scrubbed, LongPortals, WholeTail, Ascending, Tail;
    if keep > 0 {
      var portals := LongPortals(t, keep) - exclude;
      var scrub := WholeTail(t, portals, keep, cutoff);
      LiveUnchanged(t, scrub, portal);
      var page := Latest(Live(t, portal), n);
      forall i | 0 <= i < |page| ensures page[i].guid !in scrub {
        NewestNotInTail(t, portals, keep, cutoff, portal, i);
      }
      assert RowsOf(ScrubbedRows(t, scrub), page) == RowsOf(t, page);
    }
  }

  lemma NewestNotInTail(t: Table, portals: set<Portal>, keep: nat, cutoff: int, portal: Portal, i: nat)
    requires i < keep && i < |Ascending(Live(t, portal))|
    ensures Reverse(Ascending(Live(t, portal)))[i].guid !in WholeTail(t, portals, keep, cutoff)
  {
    var s := Live(t, portal);
    var q := Ascending(s);
    var k := Reverse(q)[i];
    assert k == q[|q| - 1 - i] && k in s;
    assert t[k.guid].portal == Some(portal) && t[k.guid].timestamp == k.timestamp;
    ListingSize(s);
    if |s| > keep {
      assert q[|q| - keep].timestamp <= k.timestamp;
    }
  }

  function Newer(s: set<Key>, timestamp: int): set<Key> {
    set k | k in s && timestamp < k.timestamp
  }

  /** A row is cleared exactly when it is eligible, its portal is not excluded and
      holds more listed rows than are kept, and that many of them are newer. */
  lemma TailScrubExact(t: Table, keep: nat, cutoff: int, exclude: set<Portal>, g: Guid)
    requires keep > 0 && g in t
    ensures var u := TailScrubbed(t, keep, cutoff, exclude);
            && u.Keys == t.Keys
            && u[g] == (if u[g].scrubbed && !t[g].scrubbed
                        then t[g].(text := None, subject := None, sender := Some(""), tapbackEmoji := None,
                                   scrubbed := true)
                        else t[g])
            && (u[g].scrubbed && !t[g].scrubbed <==>
                  && t[g].portal.Some? && t[g].portal.value !in exclude
                  && !t[g].scrubbed && !(t[g].tapbackType.Some? && t[g].tapbackType.value >= 2000)
                  && t[g].updatedTs < cutoff
                  && |Live(t, t[g].portal.value)| > keep
                  && |Newer(Live(t, t[g].portal.value), t[g].timestamp)| >= keep)
  {
    hide Live, Newer;
    if t[g].portal.Some? {
      var portal := t[g].portal.value;
      var s := Live(t, portal);
      ListingSize(s);
      if |s| > keep {
        OlderThanKept(s, keep, t[g].timestamp);
        assert portal in LongPortals(t, keep);
      }
    }
  }

  lemma OlderThanKept(s: set<Key>, keep: nat, timestamp: int)
    requires 0 < keep < |s| == |Ascending(s)|
    ensures timestamp < Reverse(Ascending(s))[keep - 1].timestamp <==> |Newer(s, timestamp)| >= keep
  {
    var q := Ascending(s);
    var m := |q| - keep;
    var newer := Newer(s, timestamp);
    var kept := set k | k in q[m..];
    SetOfSorted(q[m..], kept);
    if timestamp < q[m].timestamp {
      forall k | k in kept ensures k in newer {
        var j :| 0 <= j < |q[m..]| && q[m..][j] == k;
        assert q[m + j] == k && k in q;
        assert j > 0 ==> Before(q[m], q[m + j]);
      }
      Subset(kept, newer);
    } else {
      OrderedTimes(q);
      forall k | k in newer ensures k in kept - {q[m]} {
        assert k in q;
        var j :| 0 <= j < |q| && q[j] == k;
        assert j > m;
        assert q[m..][j - m] == k;
      }
      assert q[m..][0] == q[m];
      Subset(newer, kept - {q[m]});
    }
  }

  lemma OrderedTimes(q: seq<Key>)
    requires Sorted(q)
    ensures forall i, j :: 0 <= i <= j < |q| ==> q[i].timestamp <= q[j].timestamp
  {
  }

  lemma Subset(a: set<Key>, b: set<Key>)
    requires a <= b
    ensures |a| <= |b|
  {
    var rest := b - a;
    assert a + rest == b;
  }

  lemma SetOfSorted(q: seq<Key>, s: set<Key>)
    requires Sorted(q) && s == set k | k in q
    ensures |s| == |q|
  {
    SortedSize(q, s);
  }
}
