/** What the profile's commands amount to when they run to their end: who is refused, what is
    on file afterwards, and exactly when a canary sends. */
module CanaryOutcome {
  import opened Bytes
  import CanaryReceipt
  import opened Canary

  // ---- Waits in milliseconds ----

  lemma WholeHours(n: nat)
    ensures Span(n as real) == n * 3_600_000
    ensures Span(72.0) == 259_200_000
  {
    assert n as real * HOUR == (n * 3_600_000) as real;
  }

  // ---- The canary ----

  /** A canary goes ahead exactly if nothing stands against it. */
  lemma CanaryAdmittedIff(w: World, c: CanaryInput)
    ensures CanaryRefusal(w, c) == None <==>
      && w.journal == None
      && (w.policy == None || w.policy.value.passiveUntil <= c.checkedAt)
      && (c.transport == None || c.transport.value == "" || c.transport.value == "apns")
      && c.message != ""
      && c.receiptWait.Some? && 0.0 <= c.receiptWait.value <= 300.0
      && c.hours.Some? && 0.0 < c.hours.value <= 720.0
      && c.target.Some? && c.loggedIn
  {
  }

  /** A refused canary names the first of the conditions that it does not meet: files, then
      transport and options, then the target, then the login. */
  lemma CanaryRefusedFor(w: World, c: CanaryInput)
    ensures var why := CanaryRefusal(w, c);
      var quiet := w.policy == None || w.policy.value.passiveUntil <= c.checkedAt;
      var apns := c.transport == None || c.transport.value in {"", "apns"};
      var wait := c.receiptWait.Some? && 0.0 <= c.receiptWait.value <= 300.0;
      var hours := c.hours.Some? && 0.0 < c.hours.value <= 720.0;
      && (why == Some(Journaled) <==> w.journal.Some?)
      && (why == Some(CoolingDown) <==> w.journal == None && !quiet)
      && (why == Some(WrongTransport) <==> w.journal == None && quiet && !apns)
      && (why == Some(NoMessage) <==> w.journal == None && quiet && apns && c.message == "")
      && (why == Some(BadWait) <==> w.journal == None && quiet && apns && c.message != "" && !wait)
      && (why == Some(BadHours) <==> w.journal == None && quiet && apns && c.message != "" && wait && !hours)
      && (why == Some(BadTarget) <==>
            w.journal == None && quiet && apns && c.message != "" && wait && hours && c.target == None)
      && (why == Some(NotLoggedIn) <==>
            w.journal == None && quiet && apns && c.message != "" && wait && hours && c.target.Some? && !c.loggedIn)
  {
  }

  /** The address that was asked for, or else the profile's first. */
  ghost predicate Sends(c: CanaryInput, sender: string) {
    sender != "" && if c.from.Some? then c.from.value == sender else |c.handles| > 0 && c.handles[0] == sender
  }

  lemma SenderIs(c: CanaryInput, sender: string)
    ensures Sends(c, sender) <==> SenderOf(c) == Some(sender)
  {
  }

  ghost predicate Matches(targets: seq<LookupTarget>, i: nat, address: string) {
    i < |targets| && Lower(targets[i].address) == Lower(address)
  }

  /** Entry i is the first of the address, and holds a fresh identity. */
  ghost predicate LiveAt(targets: seq<LookupTarget>, i: nat, address: string) {
    && Matches(targets, i, address) && (forall j: nat :: j < i ==> !Matches(targets, j, address))
    && targets[i].returned && targets[i].live && targets[i].identities >= 1
  }

  ghost predicate FirstIsLive(targets: seq<LookupTarget>, address: string) {
    exists i: nat :: LiveAt(targets, i, address)
  }

  ghost predicate Listed(available: seq<string>, address: string) {
    exists i :: 0 <= i < |available| && Lower(available[i]) == Lower(address)
  }

  /** The response proves both ends. */
  ghost predicate BothProven(r: LookupResult, target: string, sender: string) {
    && !r.failed && !r.panicked && !r.timedOut
    && Listed(r.available, target) && Listed(r.available, sender)
    && FirstIsLive(r.targets, target) && FirstIsLive(r.targets, sender)
  }

  lemma LiveShifts(targets: seq<LookupTarget>, i: nat, address: string)
    requires targets != [] && !Matches(targets, 0, address)
    ensures LiveAt(targets, i + 1, address) <==> LiveAt(targets[1..], i, address)
  {
    hide Lower;
    var rest := targets[1..];
    assert forall j: nat {:trigger Matches(rest, j, address)} ::
        Matches(rest, j, address) == Matches(targets, j + 1, address);
    if LiveAt(rest, i, address) {
      forall j: nat | j < i + 1 ensures !Matches(targets, j, address) {
        if j != 0 { assert !Matches(rest, j - 1, address); }
      }
    }
  }

  lemma {:induction false} EntryIsFirst(targets: seq<LookupTarget>, address: string)
    ensures FirstIsLive(targets, address) <==>
      var t := EntryOf(targets, address); t.Some? && t.value.returned && t.value.live && t.value.identities > 0
    decreases |targets|
  {
    hide Lower;
    if targets != [] {
      if Lower(targets[0].address) == Lower(address) {
        assert LiveAt(targets, 0, address) <==> targets[0].returned && targets[0].live && targets[0].identities > 0;
        var no: nat := 0;
        assert forall i: nat :: LiveAt(targets, i, address) && i > no ==> !Matches(targets, no, address);
      } else {
        EntryIsFirst(targets[1..], address);
        hide EntryOf;
        if FirstIsLive(targets, address) {
          var i: nat :| LiveAt(targets, i, address);
          assert i > 0;
          LiveShifts(targets, i - 1, address);
        }
        if FirstIsLive(targets[1..], address) {
          var i: nat :| LiveAt(targets[1..], i, address);
          LiveShifts(targets, i, address);
        }
      }
    }
  }

  lemma ReadyIff(c: CanaryInput, sender: string)
    requires c.target.Some? && Sends(c, sender)
    ensures Ready(c) <==> BothProven(c.lookup, c.target.value, sender)
  {
    hide Lower, FirstIsLive;
    SenderIs(c, sender);
    EntryIsFirst(c.lookup.targets, c.target.value);
    EntryIsFirst(c.lookup.targets, sender);
  }

  /** A canary that runs to its end sends if and only if its one response proves both ends. */
  lemma SendIff(w: World, c: CanaryInput, sender: string, k: nat)
    requires CanaryRefusal(w, c) == None && Sends(c, sender) && k >= 12
    ensures var v := Run(w, CanaryScript(w, c), k);
      && Count(v.log, CanarySend)
         == Count(w.log, CanarySend) + (if BothProven(c.lookup, c.target.value, sender) then 1 else 0)
      && Count(v.log, CanaryLookup) == Count(w.log, CanaryLookup) + 1
  {
    hide Count, Available, PolicyFrom, BothProven;
    SenderIs(c, sender);
    ReadyIff(c, sender);
    WholeCanary(w, c, k);
    var begun, looked := Opened(w, c), Looked(w, c);
    CountPlus(begun.log, Entry(CanaryLookup, begun.policy, begun.journal), CanarySend);
    CountPlus(begun.log, Entry(CanaryLookup, begun.policy, begun.journal), CanaryLookup);
    CountPlus(looked.log, Entry(CanarySend, looked.policy, looked.journal), CanarySend);
    CountPlus(looked.log, Entry(CanarySend, looked.policy, looked.journal), CanaryLookup);
  }

  /** What a canary that ran to its end leaves on file: its journal with the outcome, and the
      hold from its start, or a wait from the failed lookup. */
  lemma CanaryLeaves(w: World, c: CanaryInput, sender: string, k: nat)
    requires CanaryRefusal(w, c) == None && Sends(c, sender) && k >= 12
    ensures var v := Run(w, CanaryScript(w, c), k);
      var proven := BothProven(c.lookup, c.target.value, sender);
      var wait := (c.hours.value * 3_600_000.0).Floor;
      && v.archived == w.archived
      && v.journal == Some(
           if proven && c.guid != ""
           then Journal(c.id, c.target.value, sender, c.startedAt, TransportAccepted, c.guid, Some(c.evidence))
           else Journal(c.id, c.target.value, sender, c.startedAt, LookupNoSend, "", None))
      && v.policy == Some(if proven then Policy(c.startedAt, c.startedAt + wait, Hold)
                          else Policy(c.backoffAt, c.backoffAt + wait, LookupFailed))
  {
    hide Available, BothProven;
    SenderIs(c, sender);
    ReadyIff(c, sender);
    WholeCanary(w, c, k);
  }

  /** Wherever the canary is cut, its lookup and its send were made with the hold and the begun
      journal on file, and the journal it leaves is that one or says how it ended. */
  lemma CutLeaves(w: World, c: CanaryInput, sender: string, k: nat)
    requires CanaryRefusal(w, c) == None && Sends(c, sender)
    ensures var v := Run(w, CanaryScript(w, c), k);
      var proven := BothProven(c.lookup, c.target.value, sender);
      var wait := (c.hours.value * 3_600_000.0).Floor;
      var hold := Policy(c.startedAt, c.startedAt + wait, Hold);
      var begun := Journal(c.id, c.target.value, sender, c.startedAt, InProgress, "", None);
      var accepted := begun.(state := TransportAccepted, guid := c.guid);
      var asked := w.log + [Entry(CanaryLookup, Some(hold), Some(begun))];
      var sent := if proven then asked + [Entry(CanarySend, Some(hold), Some(begun))] else asked;
      var final := if proven && c.guid != "" then accepted else begun.(state := LookupNoSend);
      && v.archived == w.archived
      && (|| v == w
          || (v.policy == Some(hold) && v.journal == None && v.log == w.log)
          || (v.policy == Some(hold) && v.journal == Some(begun) && v.log in {w.log, asked, sent})
          || (v.policy == Some(hold) && v.journal == Some(final) && v.log == sent)
          || (v.policy == Some(hold) && v.journal == Some(final.(receipt := Some(c.evidence))) && v.log == sent
              && proven && c.guid != "")
          || (v.policy == Some(Policy(c.backoffAt, c.backoffAt + wait, LookupFailed))
              && v.journal == Some(final) && v.log == sent && !proven))
  {
    hide Available, BothProven, Run;
    SenderIs(c, sender);
    ReadyIff(c, sender);
    CanaryCut(w, c, k);
  }

  /** What the offline status says of a canary that ran to its end: what the message database
      knows under the guid, read before delivered, or else the receipt that was waited for. */
  lemma StatusSays(w: World, c: CanaryInput, sender: string, k: nat, m: Option<StoredMessage>)
    requires CanaryRefusal(w, c) == None && Sends(c, sender) && k >= 12
    ensures var v := Run(w, CanaryScript(w, c), k);
      && v.journal.Some?
      && var status := OfflineStatus(v.journal.value, m);
         if !BothProven(c.lookup, c.target.value, sender) || c.guid == "" then status == NotSent
         else if m.Some? && Lower(m.value.guid) == Lower(c.guid) && m.value.error > 0 then status == FailedWith
         else if m.Some? && Lower(m.value.guid) == Lower(c.guid) && m.value.dateRead.Some? then status == ReadBy
         else if m.Some? && Lower(m.value.guid) == Lower(c.guid) && (m.value.dateDelivered.Some? || m.value.isDelivered)
         then status == DeliveredTo
         else if c.evidence.Error? then status == FailedWith
         else if c.evidence.Read? then status == ReadBy
         else if c.evidence.Delivered? then status == DeliveredTo
         else status == Accepted
  {
    hide BothProven, Lower, Run;
    CanaryLeaves(w, c, sender, k);
  }

  /** A journal that was only begun is still open, whatever the database holds. */
  lemma BegunIsOpen(j: Journal, m: Option<StoredMessage>)
    requires j.state == InProgress && j.guid == "" && j.receipt == None
    ensures OfflineStatus(j, m) == StillOpen
  {
  }

  /** Without a sender nothing is written and nobody is asked. */
  lemma NoSenderNothingDone(w: World, c: CanaryInput, k: nat)
    requires forall sender :: !Sends(c, sender)
    ensures Run(w, CanaryScript(w, c), k) == w
  {
    if SenderOf(c).Some? { SenderIs(c, SenderOf(c).value); }
    CanaryCut(w, c, k);
  }

  // ---- The other commands ----

  lemma RefreshRefusedFor(w: World, r: RefreshInput)
    ensures var why := RefreshRefusal(w, r);
      var quiet := w.policy.Some? && w.policy.value.passiveUntil <= r.checkedAt;
      var unsent := w.journal == None || w.journal.value.state != TransportAccepted;
      var hours := r.hours.Some? && 0.0 < r.hours.value <= 720.0;
      && (why == Some(CoolingDown) <==> w.policy.Some? && w.policy.value.passiveUntil > r.checkedAt)
      && (why == Some(NoPolicy) <==> w.policy == None)
      && (why == Some(AlreadySent) <==> quiet && !unsent)
      && (why == Some(Unconfirmed) <==> quiet && unsent && !r.confirm)
      && (why == Some(BadHours) <==> quiet && unsent && r.confirm && !hours)
      && (why == Some(NotLoggedIn) <==> quiet && unsent && r.confirm && hours && !r.loggedIn)
  {
  }

  lemma RefreshAdmittedIff(w: World, r: RefreshInput)
    ensures RefreshRefusal(w, r) == None <==>
      && w.policy.Some? && w.policy.value.passiveUntil <= r.checkedAt
      && (w.journal == None || w.journal.value.state != TransportAccepted)
      && r.confirm && r.hours.Some? && 0.0 < r.hours.value <= 720.0 && r.loggedIn
  {
  }

  /** A refresh that ran to its end started a new wait, asked once, and archived the journal. */
  lemma RefreshLeaves(w: World, r: RefreshInput, k: nat)
    requires RefreshRefusal(w, r) == None && r.sameDevice && k >= 6
    ensures var v := Run(w, RefreshScript(w, r), k);
      var p := Policy(r.enabledAt, r.enabledAt + (r.hours.value * 3_600_000.0).Floor, Refreshed);
      && v.policy == Some(p) && v.journal == None
      && v.archived == w.archived + (if w.journal.Some? then [w.journal.value] else [])
      && v.log == w.log + [Entry(RegistrationRefresh, Some(p), w.journal)]
  {
    var script := RefreshScript(w, r);
    TwoIdle(w, script.rest.rest, k);
    var quiet, asked := Quieted(w, r), Renewing(w, r);
    assert Run(w, script.rest.rest, k - 2) == Run(quiet, script.rest.rest.rest, k - 3);
    assert Run(quiet, script.rest.rest.rest, k - 3) == Run(asked, Renewed(w, r), k - 4);
    assert Run(asked, Renewed(w, r), k - 4) == Run(asked, Renewed(w, r).rest, k - 5);
    if w.journal.Some? {
      assert Run(asked, Then(ArchiveJournal, Stop), k - 5) == Run(Do(asked, ArchiveJournal), Stop, k - 6);
    }
  }

  /** A refresh that got back another device keeps the journal. */
  lemma OtherDeviceKeepsJournal(w: World, r: RefreshInput, k: nat)
    requires !r.sameDevice
    ensures Run(w, RefreshScript(w, r), k).journal == w.journal
    ensures Run(w, RefreshScript(w, r), k).archived == w.archived
  {
    hide RefreshRefusal, PolicyFrom;
    var script := RefreshScript(w, r);
    if script.Then? {
      TwoIdle(w, script.rest.rest, k);
      if k >= 3 { assert Run(w, script.rest.rest, k - 2) == Run(Quieted(w, r), script.rest.rest.rest, k - 3); }
      if k >= 4 { assert Run(Quieted(w, r), script.rest.rest.rest, k - 3) == Run(Renewing(w, r), Stop, k - 4); }
    }
  }

  lemma CooldownLeaves(w: World, a: Action, k: nat)
    requires k >= 1
    ensures Run(w, CooldownScript(a), k)
         == match a
            case Disable => w.(policy := None)
            case Enable(hours, at) =>
              if hours.Some? && 0.0 < hours.value <= 720.0
              then w.(policy := Some(Policy(at, at + (hours.value * 3_600_000.0).Floor, Enabled))) else w
            case _ => w
  {
    if CooldownScript(a).Then? {
      assert Run(w, CooldownScript(a), k) == Run(Do(w, CooldownScript(a).step), Stop, k - 1);
    }
  }

  /** A probe asks once if it may, and an empty answer starts a wait. */
  lemma ProbeLeaves(w: World, p: ProbeInput, k: nat)
    requires k >= 6
    ensures var v := Run(w, ProbeScript(w, p), k);
      var may := p.force || w.policy == None || w.policy.value.passiveUntil <= p.checkedAt;
      var asks := p.validPlan && p.loggedIn && may;
      && v.journal == w.journal && v.archived == w.archived
      && v.log == w.log + (if asks then [Entry(ProbeLookup, w.policy, w.journal)] else [])
      && v.policy == (if asks && !p.available && p.hours.Some? && 0.0 < p.hours.value <= 720.0
                      then Some(Policy(p.emptyAt, p.emptyAt + (p.hours.value * 3_600_000.0).Floor, ProbeEmpty))
                      else w.policy)
  {
    if ProbeScript(w, p).Then? {
      var tail := Then(Call(ProbeLookup), Probed(p));
      FourIdle(w, tail, k);
      var v := Do(w, Call(ProbeLookup));
      assert Run(w, tail, k - 4) == Run(v, Probed(p), k - 5);
      if Probed(p).Then? {
        assert Run(v, Probed(p), k - 5) == Run(Do(v, Probed(p).step), Stop, k - 6);
      }
    }
  }
}
