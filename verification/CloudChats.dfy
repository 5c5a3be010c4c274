/** The cloud_chat upsert: last writer wins by update time, and the final name and
    photo do not depend on the order in which sync pages arrive. */
module CloudChats {
  import opened Bytes

  datatype Chat = Chat(recordName: string, groupId: string, portal: string, service: Option<string>,
                       displayName: Option<string>, photo: Option<string>, participants: Option<string>,
                       updatedTs: Option<int>, createdTs: int, isFiltered: int, deleted: bool)

  datatype ChatUpsert = ChatUpsert(id: string, recordName: string, groupId: string, portal: string, service: string,
                                   displayName: Option<string>, photo: Option<string>, participants: string,
                                   updatedTs: int, isFiltered: int)

  function Coalesce(ts: Option<int>): int {
    match ts case Some(x) => x case None => 0
  }

  function Merge(row: Option<Chat>, u: ChatUpsert, now: int): Chat {
    match row
    case None =>
      Chat(u.recordName, u.groupId, u.portal, Some(u.service), u.displayName, u.photo, Some(u.participants),
           Some(u.updatedTs), now, u.isFiltered, false)
    case Some(c) =>
      var newer := u.updatedTs >= Coalesce(c.updatedTs);
      Chat(u.recordName, u.groupId, u.portal, Some(u.service),
           if newer then u.displayName else c.displayName,
           if newer then u.photo else c.photo,
           if c.participants == None || c.participants.value == "" || c.participants.value == "[]"
           then Some(u.participants) else c.participants,
           if newer then Some(u.updatedTs) else c.updatedTs,
           c.createdTs, u.isFiltered, c.deleted)
  }

  /** One chat after a sequence of upserts. */
  function Fold(row: Option<Chat>, us: seq<ChatUpsert>, now: int): Option<Chat> {
    if us == [] then row
    else Some(Merge(Fold(row, us[..|us| - 1], now), us[|us| - 1], now))
  }

  // ---- Last writer wins ----

  datatype Face = Face(displayName: Option<string>, photo: Option<string>, updatedTs: Option<int>)

  function FaceOf(c: Chat): Face {
    Face(c.displayName, c.photo, c.updatedTs)
  }

  function FaceOfUpsert(u: ChatUpsert): Face {
    Face(u.displayName, u.photo, Some(u.updatedTs))
  }

  /** No upsert is newer, and none from the same instant comes later. */
  ghost predicate LastNewest(us: seq<ChatUpsert>, i: nat) {
    && i < |us|
    && (forall j :: 0 <= j < |us| ==> us[j].updatedTs <= us[i].updatedTs)
    && (forall j :: i < j < |us| ==> us[j].updatedTs < us[i].updatedTs)
  }

  ghost predicate Stale(row: Option<Chat>, ts: int) {
    row.Some? && ts < Coalesce(row.value.updatedTs)
  }

  lemma {:induction false} StaleChangesNothing(row: Option<Chat>, us: seq<ChatUpsert>, now: int)
    requires row.Some? && forall j :: 0 <= j < |us| ==> Stale(row, us[j].updatedTs)
    ensures Fold(row, us, now).Some? && FaceOf(Fold(row, us, now).value) == FaceOf(row.value)
    decreases |us|
  {
    if us != [] { StaleChangesNothing(row, us[..|us| - 1], now); }
  }

  /** The face of a chat is that of the last of its newest upserts. */
  lemma {:induction false} LastNewestWins(row: Option<Chat>, us: seq<ChatUpsert>, i: nat, now: int)
    requires LastNewest(us, i) && !Stale(row, us[i].updatedTs)
    ensures Fold(row, us, now).Some? && FaceOf(Fold(row, us, now).value) == FaceOfUpsert(us[i])
    decreases |us|
  {
    var front := us[..|us| - 1];
    if i < |front| {
      LastNewestWins(row, front, i, now);
    } else {
      TimeBounded(row, front, us[i].updatedTs, now);
    }
  }

  lemma {:induction false} TimeBounded(row: Option<Chat>, us: seq<ChatUpsert>, ts: int, now: int)
    requires !Stale(row, ts) && forall j :: 0 <= j < |us| ==> us[j].updatedTs <= ts
    ensures Fold(row, us, now).Some? ==> Coalesce(Fold(row, us, now).value.updatedTs) <= ts
    decreases |us|
  {
    if us != [] { TimeBounded(row, us[..|us| - 1], ts, now); }
  }

  lemma {:induction false} LastNewestExists(us: seq<ChatUpsert>) returns (i: nat)
    requires us != []
    ensures LastNewest(us, i)
    decreases |us|
  {
    if |us| == 1 {
      i := 0;
    } else {
      i := LastNewestExists(us[..|us| - 1]);
      if us[|us| - 1].updatedTs >= us[i].updatedTs { i := |us| - 1; }
    }
  }

  // ---- Order independence ----

  ghost predicate Permutes(us: seq<ChatUpsert>, vs: seq<ChatUpsert>) {
    multiset(us) == multiset(vs)
  }

  /** All upserts of the newest time carry the same name and photo. */
  ghost predicate NewestAgree(us: seq<ChatUpsert>) {
    forall i, j :: 0 <= i < |us| && 0 <= j < |us| && Newest(us, us[i]) && Newest(us, us[j]) ==>
      FaceOfUpsert(us[i]) == FaceOfUpsert(us[j])
  }

  ghost predicate Newest(us: seq<ChatUpsert>, u: ChatUpsert) {
    forall j :: 0 <= j < |us| ==> us[j].updatedTs <= u.updatedTs
  }

  ghost function FinalFace(row: Option<Chat>, us: seq<ChatUpsert>, now: int): Option<Face> {
    match Fold(row, us, now) case Some(c) => Some(FaceOf(c)) case None => None
  }

  lemma SameMembers(us: seq<ChatUpsert>, vs: seq<ChatUpsert>)
    requires Permutes(us, vs)
    ensures |us| == |vs|
    ensures forall i :: 0 <= i < |vs| ==> exists j :: 0 <= j < |us| && us[j] == vs[i]
  {
    assert |multiset(us)| == |us| && |multiset(vs)| == |vs|;
    forall i | 0 <= i < |vs| ensures exists j :: 0 <= j < |us| && us[j] == vs[i] {
      assert vs[i] in multiset(vs);
      assert vs[i] in us;
    }
  }

  lemma Counterpart(us: seq<ChatUpsert>, vs: seq<ChatUpsert>, i: nat) returns (j: nat)
    requires Permutes(us, vs) && i < |us|
    ensures j < |vs| && vs[j] == us[i]
  {
    assert us[i] in multiset(us);
    assert us[i] in vs;
    j :| j < |vs| && vs[j] == us[i];
  }

  lemma SameNewestFace(us: seq<ChatUpsert>, vs: seq<ChatUpsert>, i: nat, j: nat)
    requires Permutes(us, vs) && NewestAgree(us) && LastNewest(us, i) && LastNewest(vs, j)
    ensures us[i].updatedTs == vs[j].updatedTs && FaceOfUpsert(us[i]) == FaceOfUpsert(vs[j])
  {
    hide FaceOfUpsert, Permutes;
    assert Permutes(vs, us) by { Backwards(us, vs); }
    var i' := Counterpart(us, vs, i);
    var j' := Counterpart(vs, us, j);
    assert us[j'].updatedTs <= us[i].updatedTs && vs[i'].updatedTs <= vs[j].updatedTs;
    assert Newest(us, us[i]);
    assert Newest(us, us[j']);
  }

  lemma Backwards(us: seq<ChatUpsert>, vs: seq<ChatUpsert>)
    requires Permutes(us, vs)
    ensures Permutes(vs, us)
  {
  }

  lemma AgreeingOrders(row: Option<Chat>, us: seq<ChatUpsert>, vs: seq<ChatUpsert>, now: int)
    requires Permutes(us, vs) && NewestAgree(us)
    ensures FinalFace(row, us, now) == FinalFace(row, vs, now)
  {
    hide NewestAgree, Permutes;
    SameMembers(us, vs);
    if us == [] {
      assert vs == [];
    } else {
      var i := LastNewestExists(us);
      var j := LastNewestExists(vs);
      SameNewestFace(us, vs, i, j);
      if Stale(row, us[i].updatedTs) {
        AllStale(row, us, vs, now);
      } else {
        hide Fold;
        LastNewestWins(row, us, i, now);
        LastNewestWins(row, vs, j, now);
      }
    }
  }

  function ToEnd(us: seq<ChatUpsert>, i: nat): seq<ChatUpsert>
    requires i < |us|
  {
    us[..i] + us[i + 1..] + [us[i]]
  }

  lemma ToEndPermutes(us: seq<ChatUpsert>, i: nat)
    requires i < |us|
    ensures Permutes(us, ToEnd(us, i))
  {
    assert us == us[..i] + [us[i]] + us[i + 1..];
  }

  lemma NewestLastWins(row: Option<Chat>, us: seq<ChatUpsert>, i: nat, now: int)
    requires i < |us| && Newest(us, us[i]) && !Stale(row, us[i].updatedTs)
    ensures FinalFace(row, ToEnd(us, i), now) == Some(FaceOfUpsert(us[i]))
  {
    hide Fold;
    var vs := ToEnd(us, i);
    ToEndPermutes(us, i);
    SameMembers(us, vs);
    assert LastNewest(vs, |vs| - 1);
    LastNewestWins(row, vs, |vs| - 1, now);
  }

  /** Upserts of one chat may arrive in any order exactly when the stored row is
      already newer than all of them, or those of the newest time agree. */
  lemma OrderIrrelevantIff(row: Option<Chat>, us: seq<ChatUpsert>, now: int)
    ensures (forall vs :: Permutes(us, vs) ==> FinalFace(row, vs, now) == FinalFace(row, us, now))
       <==> NewestAgree(us) || (forall j :: 0 <= j < |us| ==> Stale(row, us[j].updatedTs))
  {
    hide Fold, FinalFace;
    if NewestAgree(us) {
      forall vs | Permutes(us, vs) ensures FinalFace(row, vs, now) == FinalFace(row, us, now) {
        AgreeingOrders(row, us, vs, now);
      }
    } else if forall j :: 0 <= j < |us| ==> Stale(row, us[j].updatedTs) {
      forall vs | Permutes(us, vs) ensures FinalFace(row, vs, now) == FinalFace(row, us, now) {
        AllStale(row, us, vs, now);
      }
    } else {
      var i, j :| 0 <= i < |us| && 0 <= j < |us| && Newest(us, us[i]) && Newest(us, us[j])
                  && FaceOfUpsert(us[i]) != FaceOfUpsert(us[j]);
      NewestLastWins(row, us, i, now);
      NewestLastWins(row, us, j, now);
      ToEndPermutes(us, i);
      ToEndPermutes(us, j);
    }
  }

  lemma AllStale(row: Option<Chat>, us: seq<ChatUpsert>, vs: seq<ChatUpsert>, now: int)
    requires Permutes(us, vs) && forall j :: 0 <= j < |us| ==> Stale(row, us[j].updatedTs)
    ensures FinalFace(row, vs, now) == FinalFace(row, us, now)
  {
    hide Fold;
    SameMembers(us, vs);
    if us == [] {
      assert vs == [];
    } else {
      assert Stale(row, us[0].updatedTs);
      StaleChangesNothing(row, us, now);
      StaleChangesNothing(row, vs, now);
    }
  }

  /** With pairwise distinct times every order ends the same. */
  lemma DistinctTimesConverge(row: Option<Chat>, us: seq<ChatUpsert>, vs: seq<ChatUpsert>, now: int)
    requires forall i, j :: 0 <= i < j < |us| ==> us[i].updatedTs != us[j].updatedTs
    requires Permutes(us, vs)
    ensures FinalFace(row, us, now) == FinalFace(row, vs, now)
  {
    AgreeingOrders(row, us, vs, now);
  }

  /** Equal times are enough to break it: the later of two arrivals wins. */
  lemma EqualTimesWitness(u: ChatUpsert, v: ChatUpsert, now: int)
    requires u.updatedTs == v.updatedTs && u.displayName != v.displayName
    ensures Permutes([u, v], [v, u])
    ensures FinalFace(None, [u, v], now) != FinalFace(None, [v, u], now)
  {
    LastNewestWins(None, [u, v], 1, now);
    LastNewestWins(None, [v, u], 1, now);
  }

  /** A sync never revives a deleted chat, nor replaces captured participants. */
  lemma {:induction false} DeletedChatStaysDeleted(row: Option<Chat>, us: seq<ChatUpsert>, now: int)
    requires row.Some?
    ensures Fold(row, us, now).Some?
    ensures Fold(row, us, now).value.deleted == row.value.deleted
    ensures row.value.participants.Some? && row.value.participants.value !in {"", "[]"} ==>
              Fold(row, us, now).value.participants == row.value.participants
    decreases |us|
  {
    if us != [] { DeletedChatStaysDeleted(row, us[..|us| - 1], now); }
  }

  // ---- The other columns ----

  /** One upsert carries name, photo and time over unless the row is newer; a row without a
      time is as old as time zero. */
  lemma FaceAfterOne(c: Chat, u: ChatUpsert, now: int)
    ensures var d := Fold(Some(c), [u], now);
      d.Some? && FaceOf(d.value)
                 == if u.updatedTs >= (if c.updatedTs.Some? then c.updatedTs.value else 0)
                    then Face(u.displayName, u.photo, Some(u.updatedTs))
                    else Face(c.displayName, c.photo, c.updatedTs)
  {
    assert [u][..0] == [];
  }

  /** Record, group, portal, service and filter are those of the last upsert; creation and
      deletion are the row's own, or those of a new row. */
  lemma {:induction false} LastUpsertSays(row: Option<Chat>, us: seq<ChatUpsert>, now: int)
    requires us != []
    ensures var c := Fold(row, us, now); var u := us[|us| - 1];
      && c.Some? && c.value.recordName == u.recordName && c.value.groupId == u.groupId
      && c.value.portal == u.portal && c.value.service == Some(u.service) && c.value.isFiltered == u.isFiltered
      && c.value.createdTs == (if row.Some? then row.value.createdTs else now)
      && c.value.deleted == (row.Some? && row.value.deleted)
    decreases |us|
  {
    if |us| > 1 { LastUpsertSays(row, us[..|us| - 1], now); }
  }

  predicate Captured(participants: string) {
    participants != "" && participants != "[]"
  }

  ghost predicate FirstCaptured(us: seq<ChatUpsert>, i: int) {
    0 <= i < |us| && Captured(us[i].participants) && forall j :: 0 <= j < i ==> !Captured(us[j].participants)
  }

  /** A row that has captured no participants takes those of the first upsert that has, and the
      last empty ones if none has. */
  lemma {:induction false} FirstParticipantsStay(row: Option<Chat>, us: seq<ChatUpsert>, now: int)
    requires row.Some? ==> row.value.participants == None || !Captured(row.value.participants.value)
    ensures forall i :: FirstCaptured(us, i) ==>
              Fold(row, us, now).Some? && Fold(row, us, now).value.participants == Some(us[i].participants)
    ensures us != [] && (forall i :: 0 <= i < |us| ==> !Captured(us[i].participants)) ==>
              Fold(row, us, now).Some? && Fold(row, us, now).value.participants == Some(us[|us| - 1].participants)
    decreases |us|
  {
    if us != [] {
      var front := us[..|us| - 1];
      FirstParticipantsStay(row, front, now);
      if |us| > 1 { LastUpsertSays(row, front, now); }
      forall i | FirstCaptured(us, i)
        ensures Fold(row, us, now).Some? && Fold(row, us, now).value.participants == Some(us[i].participants)
      {
        if i < |front| {
          assert FirstCaptured(front, i);
        } else {
          assert forall j :: 0 <= j < |front| ==> !Captured(front[j].participants);
        }
      }
    }
  }

  // ---- The store ----

  function Get(rows: map<string, Chat>, id: string): Option<Chat> {
    if id in rows then Some(rows[id]) else None
  }

  function Of(us: seq<ChatUpsert>, id: string): seq<ChatUpsert> {
    if us == [] then []
    else Of(us[..|us| - 1], id) + if us[|us| - 1].id == id then [us[|us| - 1]] else []
  }

  class CloudChatStore {
    var rows: map<string, Chat>

    constructor ()
      ensures rows == map[]
    {
      rows := map[];
    }

    /** Each chat of a batch ends as the fold of its own upserts, the rest untouched. */
    method UpsertChatBatch(chats: seq<ChatUpsert>, now: int)
      modifies this
      ensures forall id :: Get(rows, id) == Fold(Get(old(rows), id), Of(chats, id), now)
    {
      for i := 0 to |chats|
        invariant forall id :: Get(rows, id) == Fold(Get(old(rows), id), Of(chats[..i], id), now)
      {
        var u := chats[i];
        ghost var before := rows;
        rows := rows[u.id := Merge(Get(rows, u.id), u, now)];
        assert chats[..i + 1][..i] == chats[..i];
        forall id ensures Get(rows, id) == Fold(Get(old(rows), id), Of(chats[..i + 1], id), now) {
          assert Get(before, id) == Fold(Get(old(rows), id), Of(chats[..i], id), now);
          if id == u.id {
            var mine := Of(chats[..i], id);
            assert Of(chats[..i + 1], id) == mine + [u] && (mine + [u])[..|mine|] == mine;
          } else {
            assert Of(chats[..i + 1], id) == Of(chats[..i], id);
          }
        }
      }
      assert chats[..|chats|] == chats;
    }
  }
}
