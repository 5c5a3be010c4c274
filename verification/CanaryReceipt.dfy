/** The canary's receipt monitor: control messages that arrive before, during and after
    a wait, its timer and its closing, in any interleaving. */
module CanaryReceipt {
  import opened Bytes

  datatype Failure = Failure(forUuid: Option<string>, status: Option<int>, message: Option<string>)

  datatype Message = Message(uuid: string, timestampMs: int, delivered: bool, readReceipt: bool, error: Option<Failure>)

  datatype Evidence =
    | Delivered(at: int)
    | Read(at: int)
    | Error(at: int, status: Option<int>, message: Option<string>)
    | Timeout

  const CAPACITY := 128

  function Stamp(m: Message, now: int): int {
    if m.timestampMs == 0 then now else m.timestampMs
  }

  function EvidenceFor(m: Message, guid: string, now: int): Option<Evidence> {
    if m.error.Some? then
      var failure := m.error.value;
      var target := match failure.forUuid case Some(u) => u case None => m.uuid;
      if Lower(target) != Lower(guid) then None else Some(Error(Stamp(m, now), failure.status, failure.message))
    else if Lower(m.uuid) != Lower(guid) then None
    else if m.readReceipt then Some(Read(Stamp(m, now)))
    else if m.delivered then Some(Delivered(Stamp(m, now)))
    else None
  }

  predicate IsControl(m: Message) {
    m.delivered || m.readReceipt || m.error.Some?
  }

  predicate Proves(m: Message, guid: string) {
    EvidenceFor(m, guid, 0).Some?
  }

  /** The first index of the buffer that proves something about the guid, or its length. */
  function FirstProof(buffer: seq<Message>, guid: string): (i: nat)
    ensures i <= |buffer|
    ensures forall j :: 0 <= j < i ==> !Proves(buffer[j], guid)
    ensures i < |buffer| ==> Proves(buffer[i], guid)
  {
    if buffer == [] then 0
    else if Proves(buffer[0], guid) then 0
    else 1 + FirstProof(buffer[1..], guid)
  }

  // ---- The machine ----

  datatype Wait = Wait(ticket: nat, guid: string)

  /** One settling of a promise: whose, with what, and from which message if any. */
  datatype Resolution = Resolution(ticket: nat, evidence: Evidence, source: Option<Message>)

  datatype State = State(buffer: seq<Message>, pending: Option<Wait>, closed: bool,
                         waits: seq<string>, resolved: seq<Resolution>)

  datatype Event =
    | Arrive(m: Message, now: int)
    | WaitFor(guid: string, timeoutMs: Option<real>, now: int)
    | TimerFires
    | Close

  const FRESH := State([], None, false, [], [])

  function Pushed(buffer: seq<Message>, m: Message): (b: seq<Message>) {
    var longer := buffer + [m];
    if |longer| > CAPACITY then longer[1..] else longer
  }

  predicate Refuses(s: State, timeoutMs: Option<real>) {
    s.closed || s.pending.Some? || timeoutMs == None || timeoutMs.value < 0.0
  }

  function Next(s: State, e: Event): State {
    match e
    case Arrive(m, now) =>
      if s.closed then s
      else if s.pending.Some? && Proves(m, s.pending.value.guid) then
        var found := EvidenceFor(m, s.pending.value.guid, now);
        s.(pending := None,
           resolved := s.resolved + [Resolution(s.pending.value.ticket, found.value, Some(m))])
      else if IsControl(m) then s.(buffer := Pushed(s.buffer, m))
      else s
    case WaitFor(guid, timeoutMs, now) =>
      if Refuses(s, timeoutMs) then s
      else
        var ticket := |s.waits|;
        var t := s.(waits := s.waits + [guid]);
        var i := FirstProof(s.buffer, guid);
        if i < |s.buffer| then
          var found := EvidenceFor(s.buffer[i], guid, now);
          t.(buffer := s.buffer[..i] + s.buffer[i + 1..],
             resolved := s.resolved + [Resolution(ticket, found.value, Some(s.buffer[i]))])
        else if timeoutMs.value == 0.0 then
          t.(resolved := s.resolved + [Resolution(ticket, Timeout, None)])
        else t.(pending := Some(Wait(ticket, guid)))
    case TimerFires =>
      if s.pending == None then s
      else s.(pending := None, resolved := s.resolved + [Resolution(s.pending.value.ticket, Timeout, None)])
    case Close =>
      if s.closed then s
      else
        State([], None, true, s.waits,
              if s.pending == None then s.resolved
              else s.resolved + [Resolution(s.pending.value.ticket, Timeout, None)])
  }

  function Run(s: State, es: seq<Event>): State {
    if es == [] then s else Next(Run(s, es[..|es| - 1]), es[|es| - 1])
  }

  // ---- What every interleaving keeps ----

  /** The buffer is bounded and holds control messages only; while a wait is pending
      nothing buffered proves it; a closed monitor holds nothing. */
  ghost predicate Inv(s: State) {
    && |s.buffer| <= 128
    && (forall i :: 0 <= i < |s.buffer| ==> IsControl(s.buffer[i]))
    && (s.closed ==> s.buffer == [] && s.pending == None)
    && (s.pending.Some? ==>
          && s.pending.value.ticket < |s.waits|
          && s.waits[s.pending.value.ticket] == s.pending.value.guid
          && forall i :: 0 <= i < |s.buffer| ==> !Proves(s.buffer[i], s.pending.value.guid))
  }

  lemma {:induction false} InvAlways(es: seq<Event>)
    ensures Inv(Run(FRESH, es))
  {
    if es != [] {
      InvAlways(es[..|es| - 1]);
      InvStep(Run(FRESH, es[..|es| - 1]), es[|es| - 1]);
    }
  }

  lemma InvStep(s: State, e: Event)
    requires Inv(s)
    ensures Inv(Next(s, e))
  {
    hide EvidenceFor, IsControl;
  }

  function Settlements(resolved: seq<Resolution>, ticket: nat): (n: nat)
    ensures (forall r :: r in resolved ==> r.ticket != ticket) ==> n == 0
  {
    if resolved == [] then 0
    else
      var last := resolved[|resolved| - 1];
      Settlements(resolved[..|resolved| - 1], ticket) + if last.ticket == ticket then 1 else 0
  }

  predicate IsPending(s: State, ticket: nat) {
    s.pending.Some? && s.pending.value.ticket == ticket
  }

  ghost predicate SettledOnce(s: State) {
    forall t: nat :: Settlements(s.resolved, t) == if t < |s.waits| && !IsPending(s, t) then 1 else 0
  }

  /** Every accepted wait settles exactly once, and not before its time. */
  lemma {:induction false} EachWaitSettlesOnce(es: seq<Event>)
    ensures SettledOnce(Run(FRESH, es))
  {
    if es != [] {
      EachWaitSettlesOnce(es[..|es| - 1]);
      InvAlways(es[..|es| - 1]);
      SettlingStep(Run(FRESH, es[..|es| - 1]), es[|es| - 1]);
    }
  }

  lemma SettlementsPlus(resolved: seq<Resolution>, r: Resolution, t: nat)
    ensures Settlements(resolved + [r], t) == Settlements(resolved, t) + if t == r.ticket then 1 else 0
  {
    assert (resolved + [r])[..|resolved|] == resolved;
  }

  lemma SettlingStep(s: State, e: Event)
    requires Inv(s) && SettledOnce(s)
    ensures SettledOnce(Next(s, e))
  {
    hide EvidenceFor, IsControl, Proves, Pushed, Settlements;
    var n := Next(s, e);
    if n.resolved != s.resolved {
      var r := n.resolved[|s.resolved|];
      assert n.resolved == s.resolved + [r];
      forall t: nat ensures Settlements(n.resolved, t) == Settlements(s.resolved, t) + if t == r.ticket then 1 else 0 {
        SettlementsPlus(s.resolved, r, t);
      }
    }
  }

  /** A closed monitor has left no wait open. */
  lemma ClosingSettlesAll(es: seq<Event>, t: nat)
    requires Run(FRESH, es).closed && t < |Run(FRESH, es).waits|
    ensures Settlements(Run(FRESH, es).resolved, t) == 1
  {
    EachWaitSettlesOnce(es);
    InvAlways(es);
  }

  // ---- Evidence is genuine, and spent once ----

  function One(same: bool): nat {
    if same then 1 else 0
  }

  /** How many copies of a message arrived, are buffered, were reported. */
  function Arrived(es: seq<Event>, m: Message): nat {
    if es == [] then 0 else Arrived(es[..|es| - 1], m) + Brings(es[|es| - 1], m)
  }

  function Brings(e: Event, m: Message): nat {
    One(e.Arrive? && e.m == m)
  }

  function Buffered(buffer: seq<Message>, m: Message): nat {
    if buffer == [] then 0 else Buffered(buffer[..|buffer| - 1], m) + One(buffer[|buffer| - 1] == m)
  }

  function Reported(resolved: seq<Resolution>, m: Message): nat {
    if resolved == [] then 0
    else Reported(resolved[..|resolved| - 1], m) + One(resolved[|resolved| - 1].source == Some(m))
  }

  ghost predicate Genuine(r: Resolution, waits: seq<string>) {
    && r.ticket < |waits|
    && (r.source == None <==> r.evidence == Timeout)
    && (r.source.Some? ==> exists now :: EvidenceFor(r.source.value, waits[r.ticket], now) == Some(r.evidence))
  }

  ghost predicate AllGenuine(s: State) {
    forall i :: 0 <= i < |s.resolved| ==> Genuine(s.resolved[i], s.waits)
  }

  /** Whatever a wait reports comes from a message that names its guid, and no message is
      reported more often than it arrived. */
  lemma {:induction false} EvidenceIsGenuine(es: seq<Event>, m: Message)
    ensures AllGenuine(Run(FRESH, es))
    ensures Buffered(Run(FRESH, es).buffer, m) + Reported(Run(FRESH, es).resolved, m) <= Arrived(es, m)
  {
    if es != [] {
      var s := Run(FRESH, es[..|es| - 1]);
      EvidenceIsGenuine(es[..|es| - 1], m);
      InvAlways(es[..|es| - 1]);
      GenuineStep(s, es[|es| - 1]);
      SpendingStep(s, es[|es| - 1], m);
    }
  }

  lemma GenuineStep(s: State, e: Event)
    requires Inv(s) && AllGenuine(s)
    ensures AllGenuine(Next(s, e))
  {
    hide IsControl, Lower;
    var n := Next(s, e);
    assert s.waits <= n.waits;
    forall i | 0 <= i < |n.resolved| ensures Genuine(n.resolved[i], n.waits) {
      if i < |s.resolved| {
        assert n.resolved[i] == s.resolved[i];
        assert Genuine(s.resolved[i], s.waits);
      } else {
        var r := n.resolved[i];
        if r.source.Some? {
          assert EvidenceFor(r.source.value, n.waits[r.ticket], e.now) == Some(r.evidence);
        }
      }
    }
  }

  lemma {:induction false} BufferedConcat(a: seq<Message>, b: seq<Message>, m: Message)
    ensures Buffered(a + b, m) == Buffered(a, m) + Buffered(b, m)
  {
    if b == [] {
      assert a + b == a;
    } else {
      assert (a + b)[..|a + b| - 1] == a + b[..|b| - 1];
      BufferedConcat(a, b[..|b| - 1], m);
    }
  }

  lemma NothingBuffered(m: Message)
    ensures Buffered([], m) == 0
  {
  }

  lemma BufferedOne(x: Message, m: Message)
    ensures Buffered([x], m) == One(x == m)
  {
    assert [x][..0] == [];
  }

  lemma PushedWithin(buffer: seq<Message>, x: Message, m: Message)
    ensures Buffered(Pushed(buffer, x), m) <= Buffered(buffer, m) + One(x == m)
  {
    hide Buffered;
    var longer := buffer + [x];
    assert longer == [longer[0]] + longer[1..];
    BufferedConcat([longer[0]], longer[1..], m);
    BufferedConcat(buffer, [x], m);
    BufferedOne(x, m);
  }

  lemma RemovedAt(buffer: seq<Message>, i: nat, m: Message)
    requires i < |buffer|
    ensures Buffered(buffer[..i] + buffer[i + 1..], m) + One(buffer[i] == m) == Buffered(buffer, m)
  {
    hide Buffered;
    assert buffer == buffer[..i] + ([buffer[i]] + buffer[i + 1..]);
    BufferedConcat(buffer[..i], [buffer[i]] + buffer[i + 1..], m);
    BufferedConcat([buffer[i]], buffer[i + 1..], m);
    BufferedConcat(buffer[..i], buffer[i + 1..], m);
    BufferedOne(buffer[i], m);
  }

  lemma ReportedPlus(resolved: seq<Resolution>, r: Resolution, m: Message)
    ensures Reported(resolved + [r], m) == Reported(resolved, m) + One(r.source == Some(m))
  {
    assert (resolved + [r])[..|resolved|] == resolved;
  }

  /** What a step reports it takes from the buffer or from the message it handles. */
  lemma SpendingStep(s: State, e: Event, m: Message)
    ensures Buffered(Next(s, e).buffer, m) + Reported(Next(s, e).resolved, m)
         <= Buffered(s.buffer, m) + Reported(s.resolved, m) + Brings(e, m)
  {
    hide EvidenceFor, IsControl, Proves, Pushed, Buffered, Reported;
    NothingBuffered(m);
    var n := Next(s, e);
    if n.resolved != s.resolved {
      var r := n.resolved[|s.resolved|];
      assert n.resolved == s.resolved + [r];
      ReportedPlus(s.resolved, r, m);
    }
    if e.WaitFor? && FirstProof(s.buffer, e.guid) < |s.buffer| {
      RemovedAt(s.buffer, FirstProof(s.buffer, e.guid), m);
    } else if e.Arrive? {
      PushedWithin(s.buffer, e.m, m);
    }
  }

  // ---- Early receipts ----

  /** The control messages among those that arrived, in order. */
  function Controls(ms: seq<Message>): seq<Message> {
    if ms == [] then []
    else Controls(ms[..|ms| - 1]) + if IsControl(ms[|ms| - 1]) then [ms[|ms| - 1]] else []
  }

  function Recent(ms: seq<Message>): (r: seq<Message>) {
    if |ms| <= CAPACITY then ms else ms[|ms| - CAPACITY..]
  }

  function Arrivals(ms: seq<Message>, now: int): (es: seq<Event>)
    ensures |es| == |ms|
  {
    seq(|ms|, i requires 0 <= i < |ms| => Arrive(ms[i], now))
  }

  lemma {:induction false} BufferIsRecent(ms: seq<Message>, now: int)
    ensures Run(FRESH, Arrivals(ms, now)) == FRESH.(buffer := Recent(Controls(ms)))
  {
    hide IsControl, Proves;
    if ms != [] {
      var front := ms[..|ms| - 1];
      BufferIsRecent(front, now);
      assert Arrivals(ms, now)[..|ms| - 1] == Arrivals(front, now);
    }
  }

  /** How many control messages arrived after the i-th message. */
  function ControlsAfter(ms: seq<Message>, i: nat): nat
    requires i < |ms|
  {
    |Controls(ms[i + 1..])|
  }

  ghost predicate Survives(ms: seq<Message>, i: nat, guid: string) {
    i < |ms| && Proves(ms[i], guid) && ControlsAfter(ms, i) < 128
  }

  lemma {:induction false} ControlsOfConcat(ms: seq<Message>, ns: seq<Message>)
    ensures Controls(ms + ns) == Controls(ms) + Controls(ns)
  {
    hide IsControl;
    if ns == [] {
      assert ms + ns == ms;
    } else {
      assert (ms + ns)[..|ms + ns| - 1] == ms + ns[..|ns| - 1];
      ControlsOfConcat(ms, ns[..|ns| - 1]);
    }
  }

  lemma ProofIsControl(m: Message, guid: string)
    requires Proves(m, guid)
    ensures IsControl(m)
  {
  }

  /** The i-th message, a control message, stands just before those that follow it. */
  lemma PlaceOf(ms: seq<Message>, i: nat)
    requires i < |ms| && IsControl(ms[i])
    ensures |Controls(ms)| > ControlsAfter(ms, i)
    ensures Controls(ms)[|Controls(ms)| - 1 - ControlsAfter(ms, i)] == ms[i]
  {
    assert ms == ms[..i] + [ms[i]] + ms[i + 1..];
    ControlsOfConcat(ms[..i] + [ms[i]], ms[i + 1..]);
    ControlsOfConcat(ms[..i], [ms[i]]);
    assert [ms[i]][..0] == [];
    assert Controls([ms[i]]) == [ms[i]];
  }

  /** Every control message is one of those that arrived, at its place. */
  lemma {:induction false} SourceOf(ms: seq<Message>, k: nat) returns (i: nat)
    requires k < |Controls(ms)|
    ensures i < |ms| && IsControl(ms[i]) && Controls(ms)[k] == ms[i]
    ensures ControlsAfter(ms, i) == |Controls(ms)| - 1 - k
  {
    var front := ms[..|ms| - 1];
    if k < |Controls(front)| {
      i := SourceOf(front, k);
      assert ms[i + 1..] == front[i + 1..] + [ms[|ms| - 1]];
      ControlsOfConcat(front[i + 1..], [ms[|ms| - 1]]);
      assert [ms[|ms| - 1]][..0] == [];
    } else {
      i := |ms| - 1;
      assert ms[i + 1..] == [];
    }
  }

  /** The newest control messages hold a proof exactly when some early receipt survives. */
  lemma ProofSurvives(ms: seq<Message>, guid: string)
    ensures FirstProof(Recent(Controls(ms)), guid) < |Recent(Controls(ms))| <==> exists i: nat :: Survives(ms, i, guid)
  {
    hide IsControl, Proves, Controls;
    var buffer := Recent(Controls(ms));
    if FirstProof(buffer, guid) < |buffer| {
      var i := SurvivorOf(ms, guid);
    }
    forall i: nat | Survives(ms, i, guid) ensures FirstProof(buffer, guid) < |buffer| {
      ProofIsControl(ms[i], guid);
      PlaceOf(ms, i);
      var k := |buffer| - 1 - ControlsAfter(ms, i);
      assert buffer[k] == ms[i];
    }
  }

  lemma SurvivorOf(ms: seq<Message>, guid: string) returns (i: nat)
    requires FirstProof(Recent(Controls(ms)), guid) < |Recent(Controls(ms))|
    ensures Survives(ms, i, guid)
  {
    hide IsControl, Proves, Controls;
    var cs, buffer := Controls(ms), Recent(Controls(ms));
    var k := |cs| - |buffer| + FirstProof(buffer, guid);
    assert cs[k] == buffer[FirstProof(buffer, guid)];
    i := SourceOf(ms, k);
  }

  /** A receipt that came before the first wait answers it at once, also a wait of no
      time, exactly when fewer than 128 control messages arrived after it. */
  lemma EarlyReceiptKeptIff(ms: seq<Message>, arrivedAt: int, guid: string, timeoutMs: Option<real>, now: int)
    ensures var early := Run(FRESH, Arrivals(ms, arrivedAt));
      var s := Next(early, WaitFor(guid, timeoutMs, now));
      if timeoutMs == None || timeoutMs.value < 0.0 then s == early
      else
        && (|s.resolved| == 1 && s.resolved[0].source.Some? <==> exists i: nat :: Survives(ms, i, guid))
        && (!(exists i: nat :: Survives(ms, i, guid)) ==>
              if timeoutMs.value == 0.0 then s.resolved == [Resolution(0, Timeout, None)]
              else s.resolved == [] && s.pending == Some(Wait(0, guid)))
  {
    hide IsControl, Proves, Controls, Recent, Survives;
    BufferIsRecent(ms, arrivedAt);
    ProofSurvives(ms, guid);
  }

  // ---- What is reported ----

  /** The evidence a message gives about a guid, from the message's own fields: an error about
      the message that failed, or else the message itself, read before delivered, dated by the
      message where it has a date. */
  ghost predicate Says(m: Message, guid: string, e: Evidence, now: int) {
    && Lower(if m.error.Some? && m.error.value.forUuid.Some? then m.error.value.forUuid.value else m.uuid)
       == Lower(guid)
    && (if m.error.Some? then e.Error? && e.status == m.error.value.status && e.message == m.error.value.message
        else if m.readReceipt then e.Read?
        else m.delivered && e.Delivered?)
    && e.at == if m.timestampMs != 0 then m.timestampMs else now
  }

  lemma EvidenceIff(m: Message, guid: string, e: Evidence, now: int)
    ensures EvidenceFor(m, guid, now) == Some(e) <==> Says(m, guid, e, now)
  {
    hide Lower;
  }

  /** A wait hears what the message says at the moment it is settled. */
  ghost predicate Heard(r: Resolution, waits: seq<string>, es: seq<Event>) {
    r.ticket < |waits| && r.source.Some? ==>
      exists k :: 0 <= k < |es| && (es[k].Arrive? || es[k].WaitFor?)
                  && Says(r.source.value, waits[r.ticket], r.evidence, es[k].now)
  }

  lemma {:induction false} ReportsSayWhatCame(es: seq<Event>, i: nat)
    requires i < |Run(FRESH, es).resolved|
    ensures Run(FRESH, es).resolved[i].source == None ==> Run(FRESH, es).resolved[i].evidence == Timeout
    ensures Heard(Run(FRESH, es).resolved[i], Run(FRESH, es).waits, es)
  {
    if es != [] {
      var front, e := es[..|es| - 1], es[|es| - 1];
      var s, n := Run(FRESH, front), Run(FRESH, es);
      InvAlways(front);
      hide Next, Heard, Inv;
      OlderKept(s, e);
      if i < |s.resolved| {
        ReportsSayWhatCame(front, i);
        EvidenceIsGenuine(front, Message("", 0, false, false, None));
        assert Genuine(s.resolved[i], s.waits);
        HeardLater(s.resolved[i], s.waits, n.waits, es);
      } else {
        NewlyHeard(s, es);
      }
    }
  }

  /** A step settles one wait at most, and forgets none. */
  lemma OlderKept(s: State, e: Event)
    ensures var n := Next(s, e);
      s.resolved <= n.resolved && |n.resolved| <= |s.resolved| + 1 && s.waits <= n.waits
  {
    hide EvidenceFor, IsControl, Proves, Pushed;
  }

  lemma HeardLater(r: Resolution, waits: seq<string>, more: seq<string>, es: seq<Event>)
    requires es != [] && waits <= more && r.ticket < |waits| && Heard(r, waits, es[..|es| - 1])
    ensures Heard(r, more, es)
  {
    hide Says;
    var front := es[..|es| - 1];
    if r.source.Some? {
      var k :| 0 <= k < |front| && (front[k].Arrive? || front[k].WaitFor?)
               && Says(r.source.value, waits[r.ticket], r.evidence, front[k].now);
      assert es[k] == front[k] && more[r.ticket] == waits[r.ticket];
    }
  }

  lemma NewlyHeard(s: State, es: seq<Event>)
    requires Inv(s) && es != [] && |Next(s, es[|es| - 1]).resolved| > |s.resolved|
    ensures var n := Next(s, es[|es| - 1]); var r := n.resolved[|s.resolved|];
      (r.source == None ==> r.evidence == Timeout) && Heard(r, n.waits, es)
  {
    hide Says, EvidenceFor, IsControl, Pushed, Proves, FirstProof;
    var e := es[|es| - 1];
    var n := Next(s, e);
    if e.Arrive? || e.WaitFor? {
      SettledNow(s, e);
      var r := n.resolved[|s.resolved|];
      if r.source.Some? { EvidenceIff(r.source.value, n.waits[r.ticket], r.evidence, e.now); }
    }
  }

  lemma SettledNow(s: State, e: Event)
    requires Inv(s) && (e.Arrive? || e.WaitFor?) && |Next(s, e).resolved| > |s.resolved|
    ensures var n := Next(s, e); var r := n.resolved[|s.resolved|];
      && |n.resolved| == |s.resolved| + 1 && r.ticket < |n.waits|
      && (r.source.Some? ==> EvidenceFor(r.source.value, n.waits[r.ticket], e.now) == Some(r.evidence))
      && (r.source == None ==> r.evidence == Timeout)
  {
    hide IsControl, Lower;
  }

  /** A message about the pending wait settles it at once with what it says, and is not kept;
      any other leaves the wait, and is kept if it is a control message. */
  lemma AnsweredAtOnce(s: State, m: Message, e: Evidence, now: int)
    requires !s.closed && s.pending.Some?
    ensures Says(m, s.pending.value.guid, e, now) ==>
      Next(s, Arrive(m, now))
      == s.(pending := None, resolved := s.resolved + [Resolution(s.pending.value.ticket, e, Some(m))])
    ensures (forall x :: !Says(m, s.pending.value.guid, x, now)) ==>
      var n := Next(s, Arrive(m, now));
      && n.(buffer := s.buffer) == s
      && (if !m.delivered && !m.readReceipt && m.error == None then n.buffer == s.buffer
          else if |s.buffer| < 128 then n.buffer == s.buffer + [m]
          else n.buffer == s.buffer[1..] + [m])
  {
    hide Says, EvidenceFor;
    var guid := s.pending.value.guid;
    ProofAnyTime(m, guid, now);
    EvidenceIff(m, guid, e, now);
    if EvidenceFor(m, guid, now).Some? { EvidenceIff(m, guid, EvidenceFor(m, guid, now).value, now); }
  }

  /** A wait is answered by the oldest kept message about it, which is then no longer kept. */
  lemma AnsweredFromBuffer(s: State, i: nat, guid: string, timeoutMs: Option<real>, e: Evidence, now: int)
    requires !Refuses(s, timeoutMs) && i < |s.buffer| && Says(s.buffer[i], guid, e, now)
    requires forall j, x :: 0 <= j < i ==> !Says(s.buffer[j], guid, x, now)
    ensures Next(s, WaitFor(guid, timeoutMs, now))
         == s.(waits := s.waits + [guid], buffer := s.buffer[..i] + s.buffer[i + 1..],
               resolved := s.resolved + [Resolution(|s.waits|, e, Some(s.buffer[i]))])
  {
    hide Says, EvidenceFor;
    EvidenceIff(s.buffer[i], guid, e, now);
    ProofAnyTime(s.buffer[i], guid, now);
    forall j | 0 <= j < i ensures !Proves(s.buffer[j], guid) {
      ProofAnyTime(s.buffer[j], guid, now);
      if EvidenceFor(s.buffer[j], guid, now).Some? {
        EvidenceIff(s.buffer[j], guid, EvidenceFor(s.buffer[j], guid, now).value, now);
      }
    }
  }

  // ---- The monitor ----

  class IdsCanaryReceiptMonitor {
    var buffer: seq<Message>
    var pending: Option<Wait>
    var closed: bool
    var waits: seq<string>
    var resolved: seq<Resolution>

    function Now(): State
      reads this
    {
      State(buffer, pending, closed, waits, resolved)
    }

    constructor ()
      ensures Now() == FRESH
    {
      buffer, pending, closed, waits, resolved := [], None, false, [], [];
    }

    method Resolve(ticket: nat, evidence: Evidence, source: Option<Message>)
      modifies this`resolved
      ensures resolved == old(resolved) + [Resolution(ticket, evidence, source)]
    {
      resolved := resolved + [Resolution(ticket, evidence, source)];
    }

    method WaitForReceipt(guid: string, timeoutMs: Option<real>, now: int) returns (refused: bool)
      requires Inv(Now())
      modifies this
      ensures Now() == Next(old(Now()), WaitFor(guid, timeoutMs, now)) && Inv(Now())
      ensures refused == Refuses(old(Now()), timeoutMs)
    {
      hide EvidenceFor, IsControl;
      InvStep(Now(), WaitFor(guid, timeoutMs, now));
      if closed || pending.Some? || timeoutMs == None || timeoutMs.value < 0.0 {
        return true;
      }
      refused := false;
      var ticket := |waits|;
      waits := waits + [guid];
      var i := 0;
      while i < |buffer| && !Proves(buffer[i], guid)
        invariant 0 <= i <= |buffer|
        invariant i + FirstProof(buffer[i..], guid) == FirstProof(buffer, guid)
      {
        assert buffer[i..][1..] == buffer[i + 1..];
        i := i + 1;
      }
      assert i < |buffer| ==> buffer[i..][0] == buffer[i];
      if i < |buffer| {
        var message := buffer[i];
        buffer := buffer[..i] + buffer[i + 1..];
        ProofAnyTime(message, guid, now);
        Resolve(ticket, EvidenceFor(message, guid, now).value, Some(message));
        return;
      }
      if timeoutMs.value == 0.0 {
        Resolve(ticket, Timeout, None);
        return;
      }
      pending := Some(Wait(ticket, guid));
    }

    method HandleMessage(m: Message, now: int)
      requires Inv(Now())
      modifies this
      ensures Now() == Next(old(Now()), Arrive(m, now)) && Inv(Now())
    {
      hide EvidenceFor, IsControl;
      InvStep(Now(), Arrive(m, now));
      if closed { return; }
      if pending.Some? {
        var wait := pending.value;
        ProofAnyTime(m, wait.guid, now);
        var evidence := EvidenceFor(m, wait.guid, now);
        if evidence.Some? {
          pending := None;
          Resolve(wait.ticket, evidence.value, Some(m));
          return;
        }
      }
      if !IsControl(m) { return; }
      buffer := buffer + [m];
      if |buffer| > CAPACITY { buffer := buffer[1..]; }
    }

    method TimerExpires()
      requires Inv(Now())
      modifies this
      ensures Now() == Next(old(Now()), TimerFires) && Inv(Now())
    {
      InvStep(Now(), TimerFires);
      if pending == None { return; }
      var wait := pending.value;
      pending := None;
      Resolve(wait.ticket, Timeout, None);
    }

    method CloseMonitor()
      requires Inv(Now())
      modifies this
      ensures Now() == Next(old(Now()), Close) && Inv(Now())
    {
      InvStep(Now(), Close);
      if closed { return; }
      closed := true;
      var was := pending;
      pending := None;
      if was.Some? { Resolve(was.value.ticket, Timeout, None); }
      buffer := [];
    }
  }

  lemma ProofAnyTime(m: Message, guid: string, now: int)
    ensures Proves(m, guid) <==> EvidenceFor(m, guid, now).Some?
  {
  }
}
