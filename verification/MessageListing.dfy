/** The backfill listings of one portal's messages: ordering by (timestamp, guid),
    the four LIMIT queries, and keyset paging over them. */
module MessageListing {
  import opened Bytes
  import opened CloudMessages

  datatype Key = Key(timestamp: int, guid: Guid)

  // ---- The order ----

  /** Byte-wise order of guids. */
  predicate GuidBefore(s: Guid, t: Guid)
    decreases |s|
  {
    if t == [] then false
    else if s == [] then true
    else s[0] < t[0] || (s[0] == t[0] && GuidBefore(s[1..], t[1..]))
  }

  predicate Before(a: Key, b: Key) {
    a.timestamp < b.timestamp || (a.timestamp == b.timestamp && GuidBefore(a.guid, b.guid))
  }

  lemma {:induction false} GuidOrder(s: Guid, t: Guid)
    ensures !(GuidBefore(s, t) && GuidBefore(t, s))
    ensures GuidBefore(s, t) || GuidBefore(t, s) <==> s != t
    decreases |s|
  {
    if s != [] && t != [] {
      GuidOrder(s[1..], t[1..]);
      assert s == [s[0]] + s[1..] && t == [t[0]] + t[1..];
    }
  }

  lemma {:induction false} GuidTransitive(s: Guid, t: Guid, u: Guid)
    requires GuidBefore(s, t) && GuidBefore(t, u)
    ensures GuidBefore(s, u)
    decreases |s|
  {
    if s != [] && s[0] == t[0] && t[0] == u[0] { GuidTransitive(s[1..], t[1..], u[1..]); }
  }

  lemma Order(a: Key, b: Key)
    ensures !(Before(a, b) && Before(b, a))
    ensures Before(a, b) || Before(b, a) <==> a != b
  {
    GuidOrder(a.guid, b.guid);
  }

  lemma Transitive(a: Key, b: Key, c: Key)
    requires Before(a, b) && Before(b, c)
    ensures Before(a, c)
  {
    if a.timestamp == b.timestamp == c.timestamp { GuidTransitive(a.guid, b.guid, c.guid); }
  }

  // ---- Ordered listings of a set ----

  ghost predicate Sorted(q: seq<Key>) {
    forall i, j :: 0 <= i < j < |q| ==> Before(q[i], q[j])
  }

  ghost predicate Lists(q: seq<Key>, s: set<Key>) {
    Sorted(q) && forall k :: k in q <==> k in s
  }

  /** A set has at most one ascending listing. */
  lemma {:induction false} ListingUnique(p: seq<Key>, q: seq<Key>, s: set<Key>)
    requires Lists(p, s) && Lists(q, s)
    ensures p == q
    decreases |p|
  {
    hide Before;
    assert |p| > 0 ==> p[0] in p;
    assert |q| > 0 ==> q[0] in q;
    if p != [] && q != [] {
      FirstIsLeast(p, q[0]);
      FirstIsLeast(q, p[0]);
      Order(p[0], q[0]);
      var rest := s - {p[0]};
      TailLists(p, s);
      TailLists(q, s);
      ListingUnique(p[1..], q[1..], rest);
      assert p == [p[0]] + p[1..] && q == [q[0]] + q[1..];
    }
  }

  lemma FirstIsLeast(q: seq<Key>, k: Key)
    requires Sorted(q) && k in q
    ensures q[0] == k || Before(q[0], k)
  {
  }

  lemma TailLists(q: seq<Key>, s: set<Key>)
    requires Lists(q, s) && q != []
    ensures Lists(q[1..], s - {q[0]})
  {
    forall k | k in s - {q[0]} ensures k in q[1..] {
      var i :| 0 <= i < |q| && q[i] == k;
      assert q[1..][i - 1] == k;
    }
    forall k | k in q[1..] ensures k in s - {q[0]} {
      var i :| 0 <= i < |q[1..]| && q[1..][i] == k;
      assert q[i + 1] == k;
      Order(q[0], k);
    }
  }

  /** The ascending listing of a set. */
  ghost function Ascending(s: set<Key>): (q: seq<Key>)
    ensures Lists(q, s)
  {
    ListingExists(s);
    var q :| Lists(q, s);
    q
  }

  lemma {:induction false} ListingExists(s: set<Key>)
    ensures exists q :: Lists(q, s)
    decreases |s|
  {
    if s == {} {
      assert Lists([], s);
    } else {
      var k :| k in s;
      ListingExists(s - {k});
      var q :| Lists(q, s - {k});
      var r := Inserted(q, k, s - {k});
      assert s - {k} + {k} == s;
      assert Lists(r, s);
    }
  }

  lemma {:induction false} Inserted(q: seq<Key>, k: Key, s: set<Key>) returns (r: seq<Key>)
    requires Lists(q, s) && k !in s
    ensures Lists(r, s + {k})
    decreases |q|
  {
    hide Before;
    if q == [] {
      r := [k];
    } else {
      Order(k, q[0]);
      if Before(k, q[0]) {
        r := [k] + q;
        forall i, j | 0 <= i < j < |r| ensures Before(r[i], r[j]) {
          if i == 0 && j > 1 { Transitive(k, q[0], r[j]); }
        }
      } else {
        assert q[0] in q;
        TailLists(q, s);
        var rest := Inserted(q[1..], k, s - {q[0]});
        r := [q[0]] + rest;
        forall i, j | 0 <= i < j < |r| ensures Before(r[i], r[j]) {
          if i == 0 {
            assert r[j] == rest[j - 1] && rest[j - 1] in rest;
            if r[j] != k {
              assert r[j] in s && r[j] in q;
              FirstIsLeast(q, r[j]);
            }
          }
        }
      }
    }
  }

  function Reverse(q: seq<Key>): (r: seq<Key>)
    ensures |r| == |q| && forall i :: 0 <= i < |q| ==> r[i] == q[|q| - 1 - i]
  {
    seq(|q|, i requires 0 <= i < |q| => q[|q| - 1 - i])
  }

  function Limit(q: seq<Key>, count: nat): seq<Key> {
    if count <= |q| then q[..count] else q
  }

  // ---- The four queries ----

  predicate IsListed(t: Table, portal: Portal, g: Guid) {
    g in t && t[g].portal == Some(portal) && !t[g].deleted && t[g].recordName != ""
  }

  function Live(t: Table, portal: Portal): set<Key> {
    set g | g in t && IsListed(t, portal, g) :: Key(t[g].timestamp, g)
  }

  function After(s: set<Key>, anchor: Key): set<Key> {
    set k | k in s && Before(anchor, k)
  }

  function Earlier(s: set<Key>, anchor: Key): set<Key> {
    set k | k in s && Before(k, anchor)
  }

  ghost function Oldest(s: set<Key>, count: nat): seq<Key> {
    Limit(Ascending(s), count)
  }

  ghost function Forward(s: set<Key>, anchor: Key, count: nat): seq<Key> {
    Limit(Ascending(After(s, anchor)), count)
  }

  ghost function Latest(s: set<Key>, count: nat): seq<Key> {
    Limit(Reverse(Ascending(s)), count)
  }

  /** A zero timestamp with an empty guid means no anchor. */
  predicate Anchored(anchor: Key) {
    anchor.timestamp > 0 || anchor.guid != ""
  }

  ghost function Backward(s: set<Key>, anchor: Key, count: nat): seq<Key> {
    Latest(if Anchored(anchor) then Earlier(s, anchor) else s, count)
  }

  /** ORDER BY timestamp_ms ASC, guid ASC. */
  method OrderAscending(s: set<Key>) returns (q: seq<Key>)
    ensures q == Ascending(s)
  {
    hide Before;
    q := [];
    var rest := s;
    while rest != {}
      invariant rest <= s
      invariant Lists(q, s - rest)
      invariant forall k, r :: k in q && r in rest ==> Before(k, r)
      decreases |rest|
    {
      var least := LeastOf(rest);
      var longer := q + [least];
      forall k | k in s - (rest - {least}) ensures k in longer {
        if k in s - rest { assert k in q; } else { assert longer[|q|] == k; }
      }
      q := longer;
      rest := rest - {least};
    }
    assert s - rest == s;
    ListingUnique(q, Ascending(s), s);
  }

  method LeastOf(s: set<Key>) returns (least: Key)
    requires s != {}
    ensures least in s && forall k :: k in s && k != least ==> Before(least, k)
  {
    hide Before;
    least :| least in s;
    var rest := s - {least};
    while rest != {}
      invariant rest <= s && least in s
      invariant forall k :: k in s - rest && k != least ==> Before(least, k)
      decreases |rest|
    {
      var k :| k in rest;
      Order(k, least);
      if Before(k, least) {
        forall j | j in s - rest && j != least ensures Before(k, j) { Transitive(k, least, j); }
        least := k;
      }
      rest := rest - {k};
    }
  }

  method ListOldestMessages(t: Table, portal: Portal, count: nat) returns (page: seq<Key>)
    ensures page == Oldest(Live(t, portal), count)
  {
    var q := OrderAscending(Live(t, portal));
    return Limit(q, count);
  }

  method ListForwardMessages(t: Table, portal: Portal, anchor: Key, count: nat) returns (page: seq<Key>)
    ensures page == Forward(Live(t, portal), anchor, count)
  {
    var q := OrderAscending(After(Live(t, portal), anchor));
    return Limit(q, count);
  }

  method ListLatestMessages(t: Table, portal: Portal, count: nat) returns (page: seq<Key>)
    ensures page == Latest(Live(t, portal), count)
  {
    var q := OrderAscending(Live(t, portal));
    return Limit(Reverse(q), count);
  }

  method ListBackwardMessages(t: Table, portal: Portal, anchor: Key, count: nat) returns (page: seq<Key>)
    ensures page == Backward(Live(t, portal), anchor, count)
  {
    var s := Live(t, portal);
    if Anchored(anchor) { s := Earlier(s, anchor); }
    var q := OrderAscending(s);
    return Limit(Reverse(q), count);
  }

  // ---- Keyset paging ----

  lemma AfterIsSuffix(s: set<Key>, i: nat)
    requires 0 < i <= |Ascending(s)|
    ensures Ascending(After(s, Ascending(s)[i - 1])) == Ascending(s)[i..]
  {
    hide Before;
    var q := Ascending(s);
    var anchor := q[i - 1];
    forall k ensures k in q[i..] <==> k in After(s, anchor) {
      if k in q[i..] {
        var j :| 0 <= j < |q[i..]| && q[i..][j] == k;
        assert q[i + j] == k;
      }
      if k in After(s, anchor) {
        var j :| 0 <= j < |q| && q[j] == k;
        Order(anchor, k);
        assert j >= i;
        assert q[i..][j - i] == k;
      }
    }
    ListingUnique(q[i..], Ascending(After(s, anchor)), After(s, anchor));
  }

  lemma EarlierIsPrefix(s: set<Key>, i: nat)
    requires i < |Ascending(s)|
    ensures Ascending(Earlier(s, Ascending(s)[i])) == Ascending(s)[..i]
  {
    hide Before;
    var q := Ascending(s);
    var anchor := q[i];
    forall k ensures k in q[..i] <==> k in Earlier(s, anchor) {
      if k in Earlier(s, anchor) {
        var j :| 0 <= j < |q| && q[j] == k;
        Order(anchor, k);
        assert j < i;
        assert q[..i][j] == k;
      }
    }
    ListingUnique(q[..i], Ascending(Earlier(s, anchor)), Earlier(s, anchor));
  }

  /** The oldest page, then forward pages from the last row seen, list every live
      message once and in order, also among equal timestamps. */
  method PageForward(t: Table, portal: Portal, count: nat) returns (all: seq<Key>)
    requires count > 0
    ensures all == Ascending(Live(t, portal))
  {
    ghost var q := Ascending(Live(t, portal));
    all := ListOldestMessages(t, portal, count);
    var page := all;
    while page != []
      invariant all <= q && (page != [] ==> all != [])
      invariant page == [] ==> all == q
      decreases |q| - |all|, |page|
    {
      var last := all[|all| - 1];
      AfterIsSuffix(Live(t, portal), |all|);
      page := ListForwardMessages(t, portal, last, count);
      assert page == Limit(q[|all|..], count);
      all := all + page;
    }
  }

  /** Rows that have a record name have a guid, so every anchor is recognised. */
  ghost predicate NamedRowsHaveGuids(t: Table) {
    "" in t ==> t[""].recordName == ""
  }

  lemma NamedRowsStep(s: Step, t: Table)
    requires NamedRowsHaveGuids(t) && (s.SeedRecycled? ==> s.guid != "")
    ensures NamedRowsHaveGuids(Apply(s, t))
  {
    hide Upper;
    if s.UpsertBatch? { WinnerFound(s.batch, ""); }
  }

  lemma {:induction false} NamedRowsReachable(steps: seq<Step>, t: Table)
    requires NamedRowsHaveGuids(t)
    requires forall i :: 0 <= i < |steps| && steps[i].SeedRecycled? ==> steps[i].guid != ""
    ensures NamedRowsHaveGuids(Run(steps, t))
    decreases |steps|
  {
    hide Apply;
    if steps != [] {
      NamedRowsStep(steps[0], t);
      NamedRowsReachable(steps[1..], Apply(steps[0], t));
    }
  }

  lemma ListedAnchored(t: Table, portal: Portal, i: nat)
    requires NamedRowsHaveGuids(t) && i < |Ascending(Live(t, portal))|
    ensures Anchored(Ascending(Live(t, portal))[i])
  {
    assert Ascending(Live(t, portal))[i] in Live(t, portal);
  }

  /** The latest page, then backward pages, give the exact reverse. */
  method PageBackward(t: Table, portal: Portal, count: nat) returns (all: seq<Key>)
    requires count > 0 && NamedRowsHaveGuids(t)
    ensures all == Reverse(Ascending(Live(t, portal)))
  {
    hide Before, Earlier, Live, NamedRowsHaveGuids, Lists;
    ghost var q := Ascending(Live(t, portal));
    ghost var r := Reverse(q);
    all := ListLatestMessages(t, portal, count);
    var page := all;
    while page != []
      invariant all <= r && (page != [] ==> all != [])
      invariant page == [] ==> all == r
      decreases |r| - |all|, |page|
    {
      var last := all[|all| - 1];
      assert last == r[|all| - 1] == q[|q| - |all|];
      ListedAnchored(t, portal, |q| - |all|);
      EarlierIsPrefix(Live(t, portal), |q| - |all|);
      page := ListBackwardMessages(t, portal, last, count);
      assert Reverse(q[..|q| - |all|]) == r[|all|..];
      all := all + page;
    }
  }

  /** Read forwards or backwards, in pages of any size, it is the same list. */
  lemma ReverseTwice(q: seq<Key>)
    ensures Reverse(Reverse(q)) == q
  {
  }
}
