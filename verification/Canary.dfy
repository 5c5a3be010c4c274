/** The one-shot canary: commands that read a profile's policy and journal files, then
    run a script of awaited steps that may be cut short after any of them. */
module Canary {
  import opened Bytes
  import CanaryReceipt

  datatype Reason = Hold | LookupFailed | ProbeEmpty | Enabled | Refreshed

  datatype Policy = Policy(enabledAt: int, passiveUntil: int, reason: Reason)

  datatype Progress = InProgress | LookupNoSend | TransportAccepted

  datatype Journal = Journal(id: string, target: string, sender: string, startedAt: int,
                             state: Progress, guid: string, receipt: Option<CanaryReceipt.Evidence>)

  datatype Remote = CanaryLookup | CanarySend | RegistrationRefresh | ProbeLookup

  /** A remote operation, with what the two files held when it was made. */
  datatype Entry = Entry(op: Remote, policy: Option<Policy>, journal: Option<Journal>)

  /** The files of a profile, and the remote operations made on its behalf. */
  datatype World = World(policy: Option<Policy>, journal: Option<Journal>, archived: seq<Journal>, log: seq<Entry>)

  const HOUR := 3_600_000.0

  /** The milliseconds that a date gains, cut to a whole number. */
  function Span(hours: real): int {
    (hours * HOUR).Floor
  }

  predicate ValidHours(hours: Option<real>) {
    hours.Some? && 0.0 < hours.value <= 720.0
  }

  function PolicyFrom(now: int, hours: real, reason: Reason): Policy {
    Policy(now, now + Span(hours), reason)
  }

  predicate Active(policy: Option<Policy>, now: int) {
    policy.Some? && policy.value.passiveUntil > now
  }

  // ---- Steps and scripts ----

  datatype Step =
    | Local
    | SavePolicy(policy: Policy)
    | DeletePolicy
    | SaveJournal(journal: Journal)
    | ArchiveJournal
    | Call(op: Remote)

  /** The awaited steps that remain of a command. */
  datatype Script = Stop | Then(step: Step, rest: Script)

  function Do(w: World, s: Step): World {
    match s
    case Local => w
    case SavePolicy(p) => w.(policy := Some(p))
    case DeletePolicy => w.(policy := None)
    case SaveJournal(j) => w.(journal := Some(j))
    case ArchiveJournal =>
      if w.journal == None then w else w.(journal := None, archived := w.archived + [w.journal.value])
    case Call(op) => w.(log := w.log + [Entry(op, w.policy, w.journal)])
  }

  /** A command that is cut after at most k steps. */
  function Run(w: World, script: Script, k: nat): World
    decreases k
  {
    if k == 0 || script.Stop? then w else Run(Do(w, script.step), script.rest, k - 1)
  }

  // ---- The canary command ----

  datatype LookupTarget = LookupTarget(address: string, returned: bool, live: bool, identities: int)

  datatype LookupResult = LookupResult(available: seq<string>, targets: seq<LookupTarget>,
                                       failed: bool, panicked: bool, timedOut: bool)

  datatype CanaryInput = CanaryInput(
    transport: Option<string>, message: string, receiptWait: Option<real>, hours: Option<real>,
    target: Option<string>, from: Option<string>, loggedIn: bool, handles: seq<string>, id: string,
    checkedAt: int, startedAt: int, lookup: LookupResult, guid: string, backoffAt: int,
    evidence: CanaryReceipt.Evidence)

  datatype Refusal =
    | Journaled | CoolingDown | WrongTransport | NoMessage | BadWait | BadHours | BadTarget | NotLoggedIn
    | NoPolicy | AlreadySent | Unconfirmed | UnknownAction

  function CanaryRefusal(w: World, c: CanaryInput): Option<Refusal> {
    if w.journal.Some? then Some(Journaled)
    else if Active(w.policy, c.checkedAt) then Some(CoolingDown)
    else if c.transport.Some? && c.transport.value != "" && c.transport.value != "apns" then Some(WrongTransport)
    else if c.message == "" then Some(NoMessage)
    else if c.receiptWait == None || !(0.0 <= c.receiptWait.value <= 300.0) then Some(BadWait)
    else if !ValidHours(c.hours) then Some(BadHours)
    else if c.target == None then Some(BadTarget)
    else if !c.loggedIn then Some(NotLoggedIn)
    else None
  }

  function SenderOf(c: CanaryInput): Option<string> {
    var sender := if c.from.Some? then c.from.value else if |c.handles| > 0 then c.handles[0] else "";
    if sender == "" then None else Some(sender)
  }

  /** The first directory entry of an address. */
  function EntryOf(targets: seq<LookupTarget>, address: string): (t: Option<LookupTarget>)
    ensures t.Some? ==> t.value in targets && Lower(t.value.address) == Lower(address)
    ensures t == None <==> forall i :: 0 <= i < |targets| ==> Lower(targets[i].address) != Lower(address)
  {
    if targets == [] then None
    else if Lower(targets[0].address) == Lower(address) then Some(targets[0])
    else EntryOf(targets[1..], address)
  }

  predicate Available(r: LookupResult, address: string) {
    && !r.failed && !r.panicked && !r.timedOut
    && (exists i :: 0 <= i < |r.available| && Lower(r.available[i]) == Lower(address))
    && var t := EntryOf(r.targets, address);
       t.Some? && t.value.returned && t.value.live && t.value.identities > 0
  }

  predicate Ready(c: CanaryInput) {
    c.target.Some? && SenderOf(c).Some? && Available(c.lookup, c.target.value) && Available(c.lookup, SenderOf(c).value)
  }

  function Begun(c: CanaryInput): Journal
    requires c.target.Some? && SenderOf(c).Some?
  {
    Journal(c.id, c.target.value, SenderOf(c).value, c.startedAt, InProgress, "", None)
  }

  /** The guid the send returned; empty if there was none. */
  function GuidOf(c: CanaryInput): string {
    if Ready(c) then c.guid else ""
  }

  predicate Sent(c: CanaryInput) {
    GuidOf(c) != ""
  }

  function Finished(j: Journal, guid: string, receipt: Option<CanaryReceipt.Evidence>): Journal {
    j.(state := if guid != "" then TransportAccepted else LookupNoSend,
       guid := guid,
       receipt := if receipt.Some? then receipt else j.receipt)
  }

  predicate Proceeds(c: CanaryInput) {
    c.target.Some? && ValidHours(c.hours) && SenderOf(c).Some?
  }

  function CanaryScript(w: World, c: CanaryInput): Script {
    if CanaryRefusal(w, c).Some? then Stop
    else Then(Local, Then(Local, Then(Local, Then(Local, Begin(c)))))
  }

  /** From the hold policy on, after the engine has started. */
  function Begin(c: CanaryInput): Script {
    if !Proceeds(c) then Stop
    else Then(SavePolicy(PolicyFrom(c.startedAt, c.hours.value, Hold)),
              Then(SaveJournal(Begun(c)), Then(Call(CanaryLookup), AfterLookup(c))))
  }

  function AfterLookup(c: CanaryInput): Script
    requires Proceeds(c)
  {
    if Ready(c) then Then(Call(CanarySend), Record(c)) else Record(c)
  }

  function Record(c: CanaryInput): Script
    requires Proceeds(c)
  {
    var j := Finished(Begun(c), GuidOf(c), None);
    Then(SaveJournal(j), Then(Local, if Sent(c) then AwaitReceipt(c) else BackOff(c)))
  }

  function AwaitReceipt(c: CanaryInput): Script
    requires Proceeds(c)
  {
    var j := Finished(Begun(c), GuidOf(c), None);
    Then(Local, Then(SaveJournal(Finished(j, GuidOf(c), Some(c.evidence))), Stop))
  }

  /** A ready lookup, even one whose send returned no guid, admits no backoff. */
  function BackOff(c: CanaryInput): Script
    requires Proceeds(c)
  {
    if Ready(c) then Stop else Then(SavePolicy(PolicyFrom(c.backoffAt, c.hours.value, LookupFailed)), Stop)
  }

  // ---- The other commands ----

  datatype RefreshInput = RefreshInput(confirm: bool, hours: Option<real>, loggedIn: bool,
                                       checkedAt: int, enabledAt: int, sameDevice: bool)

  function RefreshRefusal(w: World, r: RefreshInput): Option<Refusal> {
    if Active(w.policy, r.checkedAt) then Some(CoolingDown)
    else if w.policy == None then Some(NoPolicy)
    else if w.journal.Some? && w.journal.value.state == TransportAccepted then Some(AlreadySent)
    else if !r.confirm then Some(Unconfirmed)
    else if !ValidHours(r.hours) then Some(BadHours)
    else if !r.loggedIn then Some(NotLoggedIn)
    else None
  }

  function RefreshScript(w: World, r: RefreshInput): Script {
    if RefreshRefusal(w, r).Some? || r.hours == None then Stop
    else Then(Local, Then(Local,
           Then(SavePolicy(PolicyFrom(r.enabledAt, r.hours.value, Refreshed)),
                Then(Call(RegistrationRefresh), Renewed(w, r)))))
  }

  function Renewed(w: World, r: RefreshInput): Script {
    if !r.sameDevice then Stop
    else Then(Local, if w.journal.Some? then Then(ArchiveJournal, Stop) else Stop)
  }

  datatype Action = Disable | Enable(hours: Option<real>, enabledAt: int) | Status | Unknown

  function CooldownScript(a: Action): Script {
    match a
    case Disable => Then(DeletePolicy, Stop)
    case Enable(hours, enabledAt) =>
      if !ValidHours(hours) then Stop else Then(SavePolicy(PolicyFrom(enabledAt, hours.value, Enabled)), Stop)
    case _ => Stop
  }

  datatype ProbeInput = ProbeInput(validPlan: bool, force: bool, loggedIn: bool, checkedAt: int,
                                   available: bool, hours: Option<real>, emptyAt: int)

  function ProbeScript(w: World, p: ProbeInput): Script {
    if !p.validPlan || (Active(w.policy, p.checkedAt) && !p.force) || !p.loggedIn then Stop
    else Then(Local, Then(Local, Then(Local, Then(Local, Then(Call(ProbeLookup), Probed(p))))))
  }

  function Probed(p: ProbeInput): Script {
    if p.available || !ValidHours(p.hours) then Stop
    else Then(SavePolicy(PolicyFrom(p.emptyAt, p.hours.value, ProbeEmpty)), Stop)
  }

  /** A command and how many of its steps complete before it ends or dies. */
  datatype Command =
    | IdsCanary(c: CanaryInput, k: nat)
    | Refresh(r: RefreshInput, k: nat)
    | Cooldown(a: Action, k: nat)
    | IdsProbe(p: ProbeInput, k: nat)

  function Execute(w: World, cmd: Command): World {
    match cmd
    case IdsCanary(c, k) => Run(w, CanaryScript(w, c), k)
    case Refresh(r, k) => Run(w, RefreshScript(w, r), k)
    case Cooldown(a, k) => Run(w, CooldownScript(a), k)
    case IdsProbe(p, k) => Run(w, ProbeScript(w, p), k)
  }

  function Session(w: World, cmds: seq<Command>): World {
    if cmds == [] then w else Execute(Session(w, cmds[..|cmds| - 1]), cmds[|cmds| - 1])
  }

  // ---- Counting ----

  function Count(log: seq<Entry>, op: Remote): nat {
    if log == [] then 0 else Count(log[..|log| - 1], op) + if log[|log| - 1].op == op then 1 else 0
  }

  function Interrupted(js: seq<Journal>): nat {
    if js == [] then 0 else Interrupted(js[..|js| - 1]) + if js[|js| - 1].state == InProgress then 1 else 0
  }

  /** The journal may stand for one message sent. */
  function Open(j: Option<Journal>): nat {
    if j.Some? && j.value.state != LookupNoSend then 1 else 0
  }

  function Present(j: Option<Journal>): nat {
    if j.Some? then 1 else 0
  }

  lemma CountPlus(log: seq<Entry>, e: Entry, op: Remote)
    ensures Count(log + [e], op) == Count(log, op) + if e.op == op then 1 else 0
  {
    assert (log + [e])[..|log|] == log;
  }

  lemma InterruptedPlus(js: seq<Journal>, j: Journal)
    ensures Interrupted(js + [j]) == Interrupted(js) + if j.state == InProgress then 1 else 0
  {
    assert (js + [j])[..|js|] == js;
  }

  // ---- Write ahead ----

  /** Both files were written before the operation, for the same start. */
  ghost predicate Guarded(e: Entry) {
    && e.policy.Some? && e.policy.value.reason == Hold
    && e.journal.Some? && e.journal.value.state == InProgress
    && e.policy.value.enabledAt == e.journal.value.startedAt
  }

  ghost predicate AllGuarded(log: seq<Entry>) {
    forall i :: 0 <= i < |log| && (log[i].op == CanaryLookup || log[i].op == CanarySend) ==> Guarded(log[i])
  }

  ghost predicate Inv(w: World) {
    && AllGuarded(w.log)
    && Count(w.log, CanaryLookup) <= |w.archived| + Present(w.journal)
    && Count(w.log, CanarySend) <= Count(w.log, CanaryLookup)
  }

  // ---- Where a command can be cut ----

  function Held(w: World, c: CanaryInput): World
    requires Proceeds(c)
  {
    Do(w, SavePolicy(PolicyFrom(c.startedAt, c.hours.value, Hold)))
  }

  function Opened(w: World, c: CanaryInput): World
    requires Proceeds(c)
  {
    Do(Held(w, c), SaveJournal(Begun(c)))
  }

  function Looked(w: World, c: CanaryInput): World
    requires Proceeds(c)
  {
    Do(Opened(w, c), Call(CanaryLookup))
  }

  function Spoken(w: World, c: CanaryInput): World
    requires Proceeds(c)
  {
    if Ready(c) then Do(Looked(w, c), Call(CanarySend)) else Looked(w, c)
  }

  function Recorded(w: World, c: CanaryInput): World
    requires Proceeds(c)
  {
    Do(Spoken(w, c), SaveJournal(Finished(Begun(c), GuidOf(c), None)))
  }

  function Settled(w: World, c: CanaryInput): World
    requires Proceeds(c)
  {
    if Sent(c) then Do(Recorded(w, c), SaveJournal(Finished(Begun(c), GuidOf(c), Some(c.evidence))))
    else if Ready(c) then Recorded(w, c)
    else Do(Recorded(w, c), SavePolicy(PolicyFrom(c.backoffAt, c.hours.value, LookupFailed)))
  }

  ghost predicate CanaryStage(w: World, c: CanaryInput, r: World) {
    || r == w
    || (&& CanaryRefusal(w, c) == None && Proceeds(c)
        && (|| r == Held(w, c) || r == Opened(w, c) || r == Looked(w, c)
            || r == Spoken(w, c) || r == Recorded(w, c) || r == Settled(w, c)))
  }

  lemma CanaryCut(w: World, c: CanaryInput, k: nat)
    ensures CanaryStage(w, c, Run(w, CanaryScript(w, c), k))
  {
    hide Do, CanaryRefusal, Ready, Finished, Begun, SenderOf, PolicyFrom;
    if CanaryRefusal(w, c) == None {
      FourIdle(w, Begin(c), k);
      if Proceeds(c) && k > 4 {
        BeginCut(w, c, k - 4);
      }
    }
  }

  lemma BeginCut(w: World, c: CanaryInput, k: nat)
    requires Proceeds(c) && CanaryRefusal(w, c) == None
    ensures CanaryStage(w, c, Run(w, Begin(c), k))
  {
    hide Do, CanaryRefusal, Ready, Finished, Begun, SenderOf, PolicyFrom, Record;
    var held, begun := Held(w, c), Opened(w, c);
    if k == 1 {
      assert Run(w, Begin(c), k) == Run(held, Begin(c).rest, 0);
    } else if k == 2 {
      assert Run(w, Begin(c), k) == Run(held, Begin(c).rest, 1) == Run(begun, Begin(c).rest.rest, 0);
    } else if k >= 3 {
      assert Run(w, Begin(c), k) == Run(held, Begin(c).rest, k - 1) == Run(begun, Begin(c).rest.rest, k - 2);
      assert Run(begun, Begin(c).rest.rest, k - 2) == Run(Looked(w, c), AfterLookup(c), k - 3);
      if Ready(c) && k == 3 {
      } else {
        var left := if Ready(c) then k - 4 else k - 3;
        assert Run(Looked(w, c), AfterLookup(c), k - 3) == Run(Spoken(w, c), Record(c), left);
        RecordCut(w, c, left);
      }
    }
  }

  lemma FourIdle(w: World, script: Script, k: nat)
    ensures Run(w, Then(Local, Then(Local, Then(Local, Then(Local, script)))), k)
         == if k < 4 then w else Run(w, script, k - 4)
  {
    TwoIdle(w, script, if k < 2 then 0 else k - 2);
    TwoIdle(w, Then(Local, Then(Local, script)), k);
  }

  lemma TwoIdle(w: World, script: Script, k: nat)
    ensures Run(w, Then(Local, Then(Local, script)), k) == if k < 2 then w else Run(w, script, k - 2)
  {
    assert Do(w, Local) == w;
  }

  lemma RecordCut(w: World, c: CanaryInput, k: nat)
    requires Proceeds(c)
    ensures Run(Spoken(w, c), Record(c), k) in {Spoken(w, c), Recorded(w, c), Settled(w, c)}
  {
    hide Ready, Begun, SenderOf, PolicyFrom, Finished;
    var r := Recorded(w, c);
    if k > 0 {
      var tail := if Sent(c) then AwaitReceipt(c) else BackOff(c);
      assert Run(Spoken(w, c), Record(c), k) == Run(r, Then(Local, tail), k - 1);
      assert Do(r, Local) == r;
      if k > 1 { TailCut(w, c, k - 2); }
    }
  }

  lemma TailCut(w: World, c: CanaryInput, k: nat)
    requires Proceeds(c)
    ensures Run(Recorded(w, c), if Sent(c) then AwaitReceipt(c) else BackOff(c), k) in {Recorded(w, c), Settled(w, c)}
  {
    var r := Recorded(w, c);
    assert Do(r, Local) == r;
    if Sent(c) && k > 1 {
      assert Run(r, AwaitReceipt(c), k) == Run(r, AwaitReceipt(c).rest, k - 1) == Run(Settled(w, c), Stop, k - 2);
    }
  }

  function Quieted(w: World, r: RefreshInput): World
    requires r.hours.Some?
  {
    Do(w, SavePolicy(PolicyFrom(r.enabledAt, r.hours.value, Refreshed)))
  }

  function Renewing(w: World, r: RefreshInput): World
    requires r.hours.Some?
  {
    Do(Quieted(w, r), Call(RegistrationRefresh))
  }

  ghost predicate RefreshStage(w: World, r: RefreshInput, v: World) {
    || v == w
    || (&& RefreshRefusal(w, r) == None && r.hours.Some?
        && (|| v == Quieted(w, r) || v == Renewing(w, r)
            || (w.journal.Some? && v == Do(Renewing(w, r), ArchiveJournal))))
  }

  lemma RefreshCut(w: World, r: RefreshInput, k: nat)
    ensures RefreshStage(w, r, Run(w, RefreshScript(w, r), k))
  {
    hide RefreshRefusal, PolicyFrom;
    var script := RefreshScript(w, r);
    if script.Then? {
      TwoIdle(w, script.rest.rest, k);
      if k >= 3 {
        var v := Quieted(w, r);
        assert Run(w, script.rest.rest, k - 2) == Run(v, script.rest.rest.rest, k - 3);
        if k >= 4 {
          assert Run(v, script.rest.rest.rest, k - 3) == Run(Renewing(w, r), Renewed(w, r), k - 4);
          RenewedCut(w, r, k - 4);
        }
      }
    }
  }

  lemma RenewedCut(w: World, r: RefreshInput, k: nat)
    requires r.hours.Some?
    ensures var v := Run(Renewing(w, r), Renewed(w, r), k);
      v == Renewing(w, r) || (w.journal.Some? && v == Do(Renewing(w, r), ArchiveJournal))
  {
    hide PolicyFrom;
    var v := Renewing(w, r);
    assert Do(v, Local) == v;
    if r.sameDevice && k > 1 && w.journal.Some? {
      assert Run(v, Renewed(w, r), k) == Run(v, Then(ArchiveJournal, Stop), k - 1);
      assert Run(v, Then(ArchiveJournal, Stop), k - 1) == Run(Do(v, ArchiveJournal), Stop, k - 2);
    }
  }

  ghost predicate ProbeStage(w: World, p: ProbeInput, v: World) {
    || v == w
    || (&& ProbeScript(w, p).Then?
        && (|| v == Do(w, Call(ProbeLookup))
            || (&& ValidHours(p.hours)
                && v == Do(Do(w, Call(ProbeLookup)), SavePolicy(PolicyFrom(p.emptyAt, p.hours.value, ProbeEmpty))))))
  }

  lemma ProbeCut(w: World, p: ProbeInput, k: nat)
    ensures ProbeStage(w, p, Run(w, ProbeScript(w, p), k))
  {
    hide PolicyFrom, Active;
    if ProbeScript(w, p).Then? {
      var tail := Then(Call(ProbeLookup), Probed(p));
      FourIdle(w, tail, k);
      if k >= 5 {
        var v := Do(w, Call(ProbeLookup));
        assert Run(w, tail, k - 4) == Run(v, Probed(p), k - 5);
        if Probed(p).Then? && k >= 6 {
          assert Run(v, Probed(p), k - 5) == Run(Do(v, Probed(p).step), Stop, k - 6);
        }
      }
    }
  }

  lemma CooldownCut(w: World, a: Action, k: nat)
    ensures var v := Run(w, CooldownScript(a), k);
      v == w || (CooldownScript(a).Then? && v == Do(w, CooldownScript(a).step))
  {
    if CooldownScript(a).Then? && k > 0 {
      assert Run(w, CooldownScript(a), k) == Run(Do(w, CooldownScript(a).step), Stop, k - 1);
    }
  }

  // ---- Safety over every run ----

  lemma InvStep(w: World, s: Step)
    requires Inv(w)
    requires s.Call? && s.op == CanarySend ==> Count(w.log, CanarySend) < Count(w.log, CanaryLookup)
    requires s.Call? && s.op == CanaryLookup ==> Count(w.log, CanaryLookup) < |w.archived| + Present(w.journal)
    requires s.Call? && (s.op == CanarySend || s.op == CanaryLookup) ==> Guarded(Entry(s.op, w.policy, w.journal))
    ensures Inv(Do(w, s))
  {
    hide Guarded;
    if s.Call? {
      CountPlus(w.log, Entry(s.op, w.policy, w.journal), CanaryLookup);
      CountPlus(w.log, Entry(s.op, w.policy, w.journal), CanarySend);
    }
  }

  lemma CanaryKeepsInv(w: World, c: CanaryInput, k: nat)
    requires Inv(w)
    ensures Inv(Run(w, CanaryScript(w, c), k))
  {
    hide Ready, SenderOf, Available;
    CanaryCut(w, c, k);
    if CanaryRefusal(w, c) == None && Proceeds(c) {
      StagesKeepInv(w, c);
    }
  }

  lemma StagesKeepInv(w: World, c: CanaryInput)
    requires Inv(w) && w.journal == None && Proceeds(c)
    ensures Inv(Held(w, c)) && Inv(Opened(w, c)) && Inv(Looked(w, c)) && Inv(Spoken(w, c))
    ensures Inv(Recorded(w, c)) && Inv(Settled(w, c))
  {
    hide Ready, SenderOf, Available, AllGuarded, Count;
    var held, begun, looked := Held(w, c), Opened(w, c), Looked(w, c);
    InvStep(held, SaveJournal(Begun(c)));
    InvStep(begun, Call(CanaryLookup));
    CountPlus(begun.log, Entry(CanaryLookup, begun.policy, begun.journal), CanaryLookup);
    CountPlus(begun.log, Entry(CanaryLookup, begun.policy, begun.journal), CanarySend);
    if Ready(c) { InvStep(looked, Call(CanarySend)); }
    hide Guarded;
    InvStep(Spoken(w, c), SaveJournal(Finished(Begun(c), GuidOf(c), None)));
  }

  lemma CommandKeepsInv(w: World, cmd: Command)
    requires Inv(w)
    ensures Inv(Execute(w, cmd))
  {
    match cmd {
      case IdsCanary(c, k) => CanaryKeepsInv(w, c, k);
      case Refresh(r, k) =>
        RefreshCut(w, r, k);
        InvStep(w, SavePolicy(Policy(0, 0, Hold)));
        if r.hours.Some? {
          InvStep(Quieted(w, r), Call(RegistrationRefresh));
          InvStep(Renewing(w, r), ArchiveJournal);
        }
      case Cooldown(a, k) => CooldownCut(w, a, k);
      case IdsProbe(p, k) =>
        ProbeCut(w, p, k);
        InvStep(w, Call(ProbeLookup));
    }
  }

  ghost predicate Untouched(w: World) {
    w.log == [] && w.archived == []
  }

  /** However commands follow one another and wherever each is cut: every lookup and send
      has the hold and an in-progress journal on file, lookups outnumber archives by one
      at most, and sends never outnumber lookups. */
  lemma {:induction false} CanaryIsSafe(w: World, cmds: seq<Command>)
    requires Untouched(w)
    ensures var v := Session(w, cmds);
      && AllGuarded(v.log)
      && Count(v.log, CanaryLookup) <= 1 + |v.archived|
      && Count(v.log, CanarySend) <= Count(v.log, CanaryLookup)
    ensures Inv(Session(w, cmds))
  {
    if cmds != [] {
      CanaryIsSafe(w, cmds[..|cmds| - 1]);
      CommandKeepsInv(Session(w, cmds[..|cmds| - 1]), cmds[|cmds| - 1]);
    }
  }

  /** An accepted canary is final: no later command looks up or sends again, or loses
      the record of it. */
  lemma {:induction false} AcceptedIsFinal(w: World, cmds: seq<Command>)
    requires w.journal.Some? && w.journal.value.state == TransportAccepted
    ensures var v := Session(w, cmds);
      && v.journal == w.journal && v.archived == w.archived
      && Count(v.log, CanaryLookup) == Count(w.log, CanaryLookup)
      && Count(v.log, CanarySend) == Count(w.log, CanarySend)
  {
    if cmds != [] {
      AcceptedIsFinal(w, cmds[..|cmds| - 1]);
      AcceptedStep(Session(w, cmds[..|cmds| - 1]), cmds[|cmds| - 1]);
    }
  }

  lemma AcceptedStep(w: World, cmd: Command)
    requires w.journal.Some? && w.journal.value.state == TransportAccepted
    ensures var v := Execute(w, cmd);
      && v.journal == w.journal && v.archived == w.archived
      && Count(v.log, CanaryLookup) == Count(w.log, CanaryLookup)
      && Count(v.log, CanarySend) == Count(w.log, CanarySend)
  {
    hide Count, Ready, PolicyFrom;
    match cmd {
      case IdsCanary(c, k) => CanaryCut(w, c, k);
      case Refresh(r, k) => RefreshCut(w, r, k);
      case Cooldown(a, k) => CooldownCut(w, a, k);
      case IdsProbe(p, k) =>
        ProbeCut(w, p, k);
        CountPlus(w.log, Entry(ProbeLookup, w.policy, w.journal), CanaryLookup);
        CountPlus(w.log, Entry(ProbeLookup, w.policy, w.journal), CanarySend);
    }
  }

  // ---- A second message takes an interruption ----

  /** The engine accepts this canary's message and returns no guid for it. */
  predicate Unnamed(cmd: Command) {
    cmd.IdsCanary? && Ready(cmd.c) && cmd.c.guid == ""
  }

  function UnnamedOnes(cmds: seq<Command>): nat {
    if cmds == [] then 0 else UnnamedOnes(cmds[..|cmds| - 1]) + if Unnamed(cmds[|cmds| - 1]) then 1 else 0
  }

  ghost predicate Traced(w: World, unnamed: nat) {
    Count(w.log, CanarySend) <= Interrupted(w.archived) + Open(w.journal) + unnamed
  }

  /** Every message sent is owed to the journal on file, to an archived canary that never
      finished, or to one whose message got no guid. */
  lemma {:induction false} SendsAreTraced(w: World, cmds: seq<Command>)
    requires Untouched(w)
    ensures Traced(Session(w, cmds), UnnamedOnes(cmds))
  {
    if cmds != [] {
      var front := cmds[..|cmds| - 1];
      SendsAreTraced(w, front);
      TracedStep(Session(w, front), cmds[|cmds| - 1], UnnamedOnes(front));
    }
  }

  lemma TracedStep(w: World, cmd: Command, unnamed: nat)
    requires Traced(w, unnamed)
    ensures Traced(Execute(w, cmd), unnamed + if Unnamed(cmd) then 1 else 0)
  {
    hide Count, Interrupted, Ready, PolicyFrom;
    match cmd {
      case IdsCanary(c, k) =>
        CanaryCut(w, c, k);
        if CanaryRefusal(w, c) == None && Proceeds(c) { TracedStages(w, c, unnamed, if Unnamed(cmd) then 1 else 0); }
      case Refresh(r, k) =>
        RefreshCut(w, r, k);
        if r.hours.Some? {
          var v := Quieted(w, r);
          CountPlus(v.log, Entry(RegistrationRefresh, v.policy, v.journal), CanarySend);
          if v.journal.Some? { InterruptedPlus(v.archived, v.journal.value); }
        }
      case Cooldown(a, k) => CooldownCut(w, a, k);
      case IdsProbe(p, k) =>
        ProbeCut(w, p, k);
        CountPlus(w.log, Entry(ProbeLookup, w.policy, w.journal), CanarySend);
    }
  }

  lemma TracedStages(w: World, c: CanaryInput, unnamed: nat, more: nat)
    requires Traced(w, unnamed) && w.journal == None && Proceeds(c) && (Ready(c) && c.guid == "" ==> more == 1)
    ensures var m := unnamed + more;
      && Traced(Held(w, c), m) && Traced(Opened(w, c), m) && Traced(Looked(w, c), m) && Traced(Spoken(w, c), m)
      && Traced(Recorded(w, c), m) && Traced(Settled(w, c), m)
  {
    hide Count, Interrupted, Ready, PolicyFrom;
    var begun, looked := Opened(w, c), Looked(w, c);
    CountPlus(begun.log, Entry(CanaryLookup, begun.policy, begun.journal), CanarySend);
    CountPlus(looked.log, Entry(CanarySend, looked.policy, looked.journal), CanarySend);
  }

  /** A canary that ran to its end says "lookup, no send" truthfully, unless the engine
      accepted the message and returned no guid. */
  lemma JournalTellsTruthIff(w: World, c: CanaryInput, k: nat)
    requires CanaryRefusal(w, c) == None && Proceeds(c) && k >= 12
    ensures var v := Run(w, CanaryScript(w, c), k);
      && v.journal.Some?
      && ((v.journal.value.state == TransportAccepted <==> Count(v.log, CanarySend) == Count(w.log, CanarySend) + 1)
          <==> !(Ready(c) && c.guid == ""))
  {
    hide Count, Available, SenderOf, PolicyFrom;
    WholeCanary(w, c, k);
    var begun, looked := Opened(w, c), Looked(w, c);
    CountPlus(begun.log, Entry(CanaryLookup, begun.policy, begun.journal), CanarySend);
    CountPlus(looked.log, Entry(CanarySend, looked.policy, looked.journal), CanarySend);
  }

  lemma WholeCanary(w: World, c: CanaryInput, k: nat)
    requires CanaryRefusal(w, c) == None && Proceeds(c) && k >= 12
    ensures Run(w, CanaryScript(w, c), k) == Settled(w, c)
  {
    hide CanaryRefusal, Ready, Begun, SenderOf, PolicyFrom;
    FourIdle(w, Begin(c), k);
    var held, begun := Held(w, c), Opened(w, c);
    assert Run(w, Begin(c), k - 4) == Run(held, Begin(c).rest, k - 5) == Run(begun, Begin(c).rest.rest, k - 6);
    assert Run(begun, Begin(c).rest.rest, k - 6) == Run(Looked(w, c), AfterLookup(c), k - 7);
    var left := if Ready(c) then k - 8 else k - 7;
    assert Run(Looked(w, c), AfterLookup(c), k - 7) == Run(Spoken(w, c), Record(c), left);
    var r := Recorded(w, c);
    var tail := if Sent(c) then AwaitReceipt(c) else BackOff(c);
    assert Run(Spoken(w, c), Record(c), left) == Run(r, Then(Local, tail), left - 1);
    assert Run(r, Then(Local, tail), left - 1) == Run(r, tail, left - 2);
    if Sent(c) {
      assert Run(r, tail, left - 2) == Run(Do(r, Local), tail.rest, left - 3);
      assert Run(r, tail.rest, left - 3) == Run(Settled(w, c), Stop, left - 4);
    } else if !Ready(c) {
      assert Run(r, tail, left - 2) == Run(Settled(w, c), Stop, left - 3);
    }
  }

  // ---- What a send rests on, and what the status says of it ----

  /** The response itself vouches for the address. */
  ghost predicate Vouched(r: LookupResult, address: string) {
    && (exists i :: 0 <= i < |r.available| && Lower(r.available[i]) == Lower(address))
    && exists t :: t in r.targets && Lower(t.address) == Lower(address) && t.returned && t.live && t.identities > 0
  }

  /** Wherever a canary is cut, it has sent nothing unless one clean response vouched for
      both the target and the sender. */
  lemma SendNeedsProof(w: World, c: CanaryInput, k: nat)
    requires Count(Run(w, CanaryScript(w, c), k).log, CanarySend) != Count(w.log, CanarySend)
    ensures !c.lookup.failed && !c.lookup.panicked && !c.lookup.timedOut
    ensures c.target.Some? && Vouched(c.lookup, c.target.value)
    ensures SenderOf(c).Some? && Vouched(c.lookup, SenderOf(c).value)
  {
    hide Count, SenderOf, PolicyFrom, Lower;
    CanaryCut(w, c, k);
    var begun := Opened(w, c);
    CountPlus(begun.log, Entry(CanaryLookup, begun.policy, begun.journal), CanarySend);
  }

  datatype StoredMessage = StoredMessage(guid: string, error: int, dateRead: Option<int>,
                                         dateDelivered: Option<int>, isDelivered: bool)

  datatype Status = StillOpen | NotSent | Accepted | DeliveredTo | ReadBy | FailedWith

  function JournalStatus(j: Journal): Status {
    match j.receipt
    case Some(Error(_, _, _)) => FailedWith
    case Some(Read(_)) => ReadBy
    case Some(Delivered(_)) => DeliveredTo
    case _ =>
      match j.state
      case LookupNoSend => NotSent
      case TransportAccepted => Accepted
      case InProgress => StillOpen
  }

  /** The status without a connection: the message database speaks first, if it knows the guid. */
  function OfflineStatus(j: Journal, m: Option<StoredMessage>): Status {
    if m.Some? && j.guid != "" && Lower(m.value.guid) == Lower(j.guid) then
      if m.value.error > 0 then FailedWith
      else if m.value.dateRead.Some? then ReadBy
      else if m.value.dateDelivered.Some? || m.value.isDelivered then DeliveredTo
      else JournalStatus(j)
    else JournalStatus(j)
  }

  /** Wherever a canary is cut, an offline status of "not sent" is true exactly if the engine
      did not accept the message without a guid, and any claim about the message means
      that one was sent. */
  lemma StatusIsTrue(w: World, c: CanaryInput, k: nat, m: Option<StoredMessage>)
    requires w.journal == None && Run(w, CanaryScript(w, c), k).journal.Some?
    ensures var v := Run(w, CanaryScript(w, c), k);
      var status := OfflineStatus(v.journal.value, m);
      && (status == NotSent ==>
            (Count(v.log, CanarySend) == Count(w.log, CanarySend) <==> !(Ready(c) && c.guid == "")))
      && (status != NotSent && status != StillOpen ==> Count(v.log, CanarySend) == Count(w.log, CanarySend) + 1)
  {
    hide Count, SenderOf, PolicyFrom, Lower, Ready;
    CanaryCut(w, c, k);
    var begun, looked := Opened(w, c), Looked(w, c);
    CountPlus(begun.log, Entry(CanaryLookup, begun.policy, begun.journal), CanarySend);
    CountPlus(looked.log, Entry(CanarySend, looked.policy, looked.journal), CanarySend);
  }

  // ---- Lookups are far apart ----

  /** The times of a command lie in order between two instants, and every wait it puts on
      file lasts at least d. */
  predicate Timed(cmd: Command, from: int, till: int, d: int) {
    match cmd
    case IdsCanary(c, k) =>
      from <= c.checkedAt <= c.startedAt <= c.backoffAt <= till && (ValidHours(c.hours) ==> Span(c.hours.value) >= d)
    case Refresh(r, k) =>
      from <= r.checkedAt <= r.enabledAt <= till && (ValidHours(r.hours) ==> Span(r.hours.value) >= d)
    case Cooldown(a, k) =>
      a != Disable && from <= till
      && (a.Enable? ==> from <= a.enabledAt <= till && (ValidHours(a.hours) ==> Span(a.hours.value) >= d))
    case IdsProbe(p, k) =>
      from <= p.checkedAt <= p.emptyAt <= till && (ValidHours(p.hours) ==> Span(p.hours.value) >= d)
  }

  /** The clock never goes back over a run, no command of which disables the cooldown. */
  predicate TimedRun(cmds: seq<Command>, times: seq<int>, d: int) {
    |times| == |cmds| + 1 && forall i :: 0 <= i < |cmds| ==> Timed(cmds[i], times[i], times[i + 1], d)
  }

  predicate Looks(e: Entry) {
    e.op == CanaryLookup && e.journal.Some?
  }

  function Start(e: Entry): int
    requires Looks(e)
  {
    e.journal.value.startedAt
  }

  ghost predicate Apart(log: seq<Entry>, d: int) {
    forall i, j :: 0 <= i < j < |log| && Looks(log[i]) && Looks(log[j]) ==> Start(log[j]) >= Start(log[i]) + 2 * d
  }

  /** Every lookup began before the policy on file did, and a full wait before if its
      journal is gone. */
  ghost predicate Behind(w: World, d: int) {
    forall i :: 0 <= i < |w.log| && Looks(w.log[i]) ==>
      w.policy.Some? && Start(w.log[i]) + (if w.journal.Some? then 0 else d) <= w.policy.value.enabledAt
  }

  ghost predicate Waiting(w: World, now: int, d: int) {
    && Apart(w.log, d)
    && Behind(w, d)
    && (w.policy.Some? ==>
          w.policy.value.enabledAt <= now && w.policy.value.enabledAt + d <= w.policy.value.passiveUntil)
  }

  /** Unless the cooldown is disabled by hand, two canary lookups start at least two
      waits apart: the hold of the first and the quiet period of a refresh. */
  lemma {:induction false} LookupsAreApart(w: World, cmds: seq<Command>, times: seq<int>, d: int)
    requires w.log == [] && d >= 0 && TimedRun(cmds, times, d)
    requires w.policy.Some? ==>
      w.policy.value.enabledAt <= times[0] && w.policy.value.enabledAt + d <= w.policy.value.passiveUntil
    ensures Waiting(Session(w, cmds), times[|cmds|], d)
  {
    if cmds != [] {
      var n := |cmds| - 1;
      assert forall i :: 0 <= i < n ==> Timed(cmds[i], times[i], times[i + 1], d) && cmds[..n][i] == cmds[i];
      LookupsAreApart(w, cmds[..n], times[..n + 1], d);
      WaitingStep(Session(w, cmds[..n]), cmds[n], times[n], times[n + 1], d);
    }
  }

  lemma PolicyWaits(w: World, p: Policy, now: int, till: int, d: int)
    requires Waiting(w, now, d) && d >= 0 && now <= p.enabledAt <= till && p.enabledAt + d <= p.passiveUntil
    ensures Waiting(Do(w, SavePolicy(p)), till, d)
  {
  }

  lemma JournalWaits(w: World, j: Journal, till: int, d: int)
    requires Waiting(w, till, d) && d >= 0
    ensures Waiting(Do(w, SaveJournal(j)), till, d)
  {
  }

  lemma OtherCallWaits(w: World, op: Remote, till: int, d: int)
    requires Waiting(w, till, d) && op != CanaryLookup
    ensures Waiting(Do(w, Call(op)), till, d)
  {
  }

  /** The one step that needs the whole argument: by now every earlier lookup is past. */
  lemma LookupWaits(w: World, till: int, d: int)
    requires Waiting(w, till, d) && w.journal.Some? && w.policy.Some?
    requires w.policy.value.enabledAt == w.journal.value.startedAt
    requires forall i :: 0 <= i < |w.log| && Looks(w.log[i]) ==> Start(w.log[i]) + 2 * d <= w.journal.value.startedAt
    ensures Waiting(Do(w, Call(CanaryLookup)), till, d)
  {
  }

  lemma WaitingStages(w: World, c: CanaryInput, till: int, d: int)
    requires d >= 0 && Waiting(w, c.checkedAt, d) && Timed(IdsCanary(c, 0), c.checkedAt, till, d)
    requires CanaryRefusal(w, c) == None && Proceeds(c)
    ensures Waiting(Held(w, c), till, d) && Waiting(Opened(w, c), till, d) && Waiting(Looked(w, c), till, d)
    ensures Waiting(Spoken(w, c), till, d) && Waiting(Recorded(w, c), till, d) && Waiting(Settled(w, c), till, d)
  {
    hide Ready, Span, Apart, Behind, SenderOf;
    PastLookups(w, c, d);
    PolicyWaits(w, PolicyFrom(c.startedAt, c.hours.value, Hold), c.checkedAt, c.startedAt, d);
    hide CanaryRefusal;
    JournalWaits(Held(w, c), Begun(c), c.startedAt, d);
    LookupWaits(Opened(w, c), c.startedAt, d);
    OtherCallWaits(Looked(w, c), CanarySend, c.startedAt, d);
    JournalWaits(Spoken(w, c), Finished(Begun(c), GuidOf(c), None), c.startedAt, d);
    JournalWaits(Recorded(w, c), Finished(Begun(c), GuidOf(c), Some(c.evidence)), c.startedAt, d);
    PolicyWaits(Recorded(w, c), PolicyFrom(c.backoffAt, c.hours.value, LookupFailed), c.startedAt, till, d);
  }

  /** A canary that is not refused finds every earlier lookup two waits back. */
  lemma PastLookups(w: World, c: CanaryInput, d: int)
    requires d >= 0 && Waiting(w, c.checkedAt, d) && c.checkedAt <= c.startedAt && CanaryRefusal(w, c) == None
    ensures forall i :: 0 <= i < |w.log| && Looks(w.log[i]) ==> Start(w.log[i]) + 2 * d <= c.startedAt
  {
  }

  lemma ArchiveWaits(w: World, till: int, d: int)
    requires Waiting(w, till, d) && w.journal.Some? && w.policy.Some?
    requires forall i :: 0 <= i < |w.log| && Looks(w.log[i]) ==> Start(w.log[i]) + d <= w.policy.value.enabledAt
    ensures Waiting(Do(w, ArchiveJournal), till, d)
  {
  }

  lemma WaitingRefresh(w: World, r: RefreshInput, till: int, d: int)
    requires d >= 0 && Waiting(w, r.checkedAt, d) && Timed(Refresh(r, 0), r.checkedAt, till, d)
    requires RefreshRefusal(w, r) == None && r.hours.Some?
    ensures Waiting(Quieted(w, r), till, d) && Waiting(Renewing(w, r), till, d)
    ensures w.journal.Some? ==> Waiting(Do(Renewing(w, r), ArchiveJournal), till, d)
  {
    hide Span;
    assert forall i :: 0 <= i < |w.log| && Looks(w.log[i]) ==> Start(w.log[i]) + d <= r.enabledAt;
    var v := Renewing(w, r);
    assert forall i :: 0 <= i < |v.log| && Looks(v.log[i]) ==> Start(v.log[i]) + d <= r.enabledAt;
    hide Apart, Behind, RefreshRefusal;
    PolicyWaits(w, PolicyFrom(r.enabledAt, r.hours.value, Refreshed), r.checkedAt, till, d);
    OtherCallWaits(Quieted(w, r), RegistrationRefresh, till, d);
    if w.journal.Some? { ArchiveWaits(v, till, d); }
  }

  lemma WaitingStep(w: World, cmd: Command, from: int, till: int, d: int)
    requires d >= 0 && Waiting(w, from, d) && Timed(cmd, from, till, d)
    ensures Waiting(Execute(w, cmd), till, d)
  {
    hide Ready, Span, Apart, Behind;
    match cmd {
      case IdsCanary(c, k) =>
        CanaryCut(w, c, k);
        if CanaryRefusal(w, c) == None && Proceeds(c) { WaitingStages(w, c, till, d); }
      case Refresh(r, k) =>
        RefreshCut(w, r, k);
        if RefreshRefusal(w, r) == None && r.hours.Some? { WaitingRefresh(w, r, till, d); }
      case Cooldown(a, k) =>
        CooldownCut(w, a, k);
        if a.Enable? && ValidHours(a.hours) {
          PolicyWaits(w, PolicyFrom(a.enabledAt, a.hours.value, Enabled), from, till, d);
        }
      case IdsProbe(p, k) =>
        ProbeCut(w, p, k);
        OtherCallWaits(w, ProbeLookup, from, d);
        if ValidHours(p.hours) {
          PolicyWaits(Do(w, Call(ProbeLookup)), PolicyFrom(p.emptyAt, p.hours.value, ProbeEmpty), from, till, d);
        }
    }
  }

  // ---- The commands ----

  /** How a command ends: done, refused with an error, or dead after its last completed step. */
  datatype Outcome = Done | Refused(why: Refusal) | Stopped | Died {
    predicate IsFailure() {
      !Done?
    }

    function PropagateFailure(): Outcome {
      this
    }
  }

  /** A profile's files as the commands use them, with a budget of awaited steps. */
  class Profile {
    var policy: Option<Policy>
    var journal: Option<Journal>
    var archived: seq<Journal>
    var log: seq<Entry>
    var budget: nat

    function Now(): World
      reads this
    {
      World(policy, journal, archived, log)
    }

    /** What is left of a run equals what the whole run was to be. */
    ghost predicate Owes(goal: World, rest: Script)
      reads this
    {
      Run(Now(), rest, budget) == goal
    }

    method Await(step: Step, ghost rest: Script, ghost goal: World) returns (o: Outcome)
      requires Owes(goal, Then(step, rest))
      modifies this
      ensures o == if old(budget) == 0 then Died else Done
      ensures o == Died ==> Now() == goal
      ensures o == Done ==> Now() == Do(old(Now()), step) && Owes(goal, rest)
    {
      if budget == 0 { return Died; }
      budget := budget - 1;
      match step {
        case Local =>
        case SavePolicy(p) => policy := Some(p);
        case DeletePolicy => policy := None;
        case SaveJournal(j) => journal := Some(j);
        case ArchiveJournal =>
          if journal.Some? { journal, archived := None, archived + [journal.value]; }
        case Call(op) => log := log + [Entry(op, policy, journal)];
      }
      return Done;
    }

    method IdsCanary(c: CanaryInput) returns (o: Outcome)
      modifies this
      ensures Now() == Run(old(Now()), CanaryScript(old(Now()), c), old(budget))
      ensures o.Refused? <==> CanaryRefusal(old(Now()), c).Some?
      ensures o.Refused? ==> Some(o.why) == CanaryRefusal(old(Now()), c)
    {
      hide Do, Available, Run;
      ghost var goal := Run(Now(), CanaryScript(Now(), c), budget);
      NothingLeft(Now(), budget);
      if journal.Some? { return Refused(Journaled); }
      if Active(policy, c.checkedAt) { return Refused(CoolingDown); }
      if c.transport.Some? && c.transport.value != "" && c.transport.value != "apns" { return Refused(WrongTransport); }
      if c.message == "" { return Refused(NoMessage); }
      if c.receiptWait == None || c.receiptWait.value < 0.0 || c.receiptWait.value > 300.0 { return Refused(BadWait); }
      if !ValidHours(c.hours) { return Refused(BadHours); }
      if c.target == None { return Refused(BadTarget); }
      if !c.loggedIn { return Refused(NotLoggedIn); }
      :- Await(Local, Then(Local, Then(Local, Then(Local, Begin(c)))), goal);
      :- Await(Local, Then(Local, Then(Local, Begin(c))), goal);
      :- Await(Local, Then(Local, Begin(c)), goal);
      :- Await(Local, Begin(c), goal);
      var sender := SenderOf(c);
      NothingLeft(Now(), budget);
      if sender == None { return Stopped; }
      var begun := Journal(c.id, c.target.value, sender.value, c.startedAt, InProgress, "", None);
      :- Await(SavePolicy(PolicyFrom(begun.startedAt, c.hours.value, Hold)),
               Then(SaveJournal(begun), Then(Call(CanaryLookup), AfterLookup(c))), goal);
      :- Await(SaveJournal(begun), Then(Call(CanaryLookup), AfterLookup(c)), goal);
      :- Await(Call(CanaryLookup), AfterLookup(c), goal);
      var ready := Available(c.lookup, c.target.value) && Available(c.lookup, sender.value);
      var guid := "";
      if ready {
        :- Await(Call(CanarySend), Record(c), goal);
        guid := c.guid;
      }
      var finished := Finished(begun, guid, None);
      ghost var tail := if Sent(c) then AwaitReceipt(c) else BackOff(c);
      :- Await(SaveJournal(finished), Then(Local, tail), goal);
      :- Await(Local, tail, goal);
      NothingLeft(Now(), budget);
      if guid == "" {
        if ready { return Stopped; }
        :- Await(SavePolicy(PolicyFrom(c.backoffAt, c.hours.value, LookupFailed)), Stop, goal);
        NothingLeft(Now(), budget);
        return Done;
      }
      finished := Finished(finished, guid, Some(c.evidence));
      :- Await(Local, Then(SaveJournal(finished), Stop), goal);
      :- Await(SaveJournal(finished), Stop, goal);
      NothingLeft(Now(), budget);
      return Done;
    }

    method RegistrationRefresh(r: RefreshInput) returns (o: Outcome)
      modifies this
      ensures Now() == Run(old(Now()), RefreshScript(old(Now()), r), old(budget))
      ensures o.Refused? <==> RefreshRefusal(old(Now()), r).Some?
      ensures o.Refused? ==> Some(o.why) == RefreshRefusal(old(Now()), r)
    {
      hide Run;
      ghost var start := Now();
      ghost var goal := Run(start, RefreshScript(start, r), budget);
      NothingLeft(start, budget);
      if Active(policy, r.checkedAt) { return Refused(CoolingDown); }
      if policy == None { return Refused(NoPolicy); }
      var previous := journal;
      if previous.Some? && previous.value.state != LookupNoSend && previous.value.state != InProgress {
        return Refused(AlreadySent);
      }
      if !r.confirm { return Refused(Unconfirmed); }
      if !ValidHours(r.hours) { return Refused(BadHours); }
      if !r.loggedIn { return Refused(NotLoggedIn); }
      var quiet := SavePolicy(PolicyFrom(r.enabledAt, r.hours.value, Refreshed));
      ghost var tail := Renewed(start, r);
      :- Await(Local, Then(Local, Then(quiet, Then(Call(Remote.RegistrationRefresh), tail))), goal);
      :- Await(Local, Then(quiet, Then(Call(Remote.RegistrationRefresh), tail)), goal);
      :- Await(quiet, Then(Call(Remote.RegistrationRefresh), tail), goal);
      :- Await(Call(Remote.RegistrationRefresh), tail, goal);
      NothingLeft(Now(), budget);
      if !r.sameDevice { return Stopped; }
      :- Await(Local, if previous.Some? then Then(ArchiveJournal, Stop) else Stop, goal);
      NothingLeft(Now(), budget);
      if previous.Some? {
        :- Await(ArchiveJournal, Stop, goal);
        NothingLeft(Now(), budget);
      }
      return Done;
    }

    method IdsCooldown(a: Action) returns (o: Outcome)
      modifies this
      ensures Now() == Run(old(Now()), CooldownScript(a), old(budget))
      ensures o == Refused(UnknownAction) <==> a == Unknown
      ensures o == Refused(BadHours) <==>
        a.Enable? && !(a.hours.Some? && 0.0 < a.hours.value <= 720.0)
    {
      ghost var goal := Run(Now(), CooldownScript(a), budget);
      match a {
        case Disable =>
          :- Await(DeletePolicy, Stop, goal);
        case Enable(hours, enabledAt) =>
          if !ValidHours(hours) { return Refused(BadHours); }
          :- Await(SavePolicy(PolicyFrom(enabledAt, hours.value, Enabled)), Stop, goal);
        case Status =>
        case Unknown => return Refused(UnknownAction);
      }
      return Done;
    }

    method IdsProbe(p: ProbeInput) returns (o: Outcome)
      modifies this
      ensures Now() == Run(old(Now()), ProbeScript(old(Now()), p), old(budget))
      ensures o == Refused(BadTarget) <==> !p.validPlan
      ensures o == Refused(CoolingDown) <==> p.validPlan && !p.force && Active(old(policy), p.checkedAt)
    {
      hide Run;
      ghost var goal := Run(Now(), ProbeScript(Now(), p), budget);
      NothingLeft(Now(), budget);
      if !p.validPlan { return Refused(BadTarget); }
      if Active(policy, p.checkedAt) && !p.force { return Refused(CoolingDown); }
      if !p.loggedIn { return Refused(NotLoggedIn); }
      ghost var tail := Then(Call(ProbeLookup), Probed(p));
      :- Await(Local, Then(Local, Then(Local, Then(Local, tail))), goal);
      :- Await(Local, Then(Local, Then(Local, tail)), goal);
      :- Await(Local, Then(Local, tail), goal);
      :- Await(Local, tail, goal);
      :- Await(Call(ProbeLookup), Probed(p), goal);
      NothingLeft(Now(), budget);
      if !p.available {
        if !ValidHours(p.hours) { return Stopped; }
        :- Await(SavePolicy(PolicyFrom(p.emptyAt, p.hours.value, ProbeEmpty)), Stop, goal);
        NothingLeft(Now(), budget);
      }
      return Done;
    }
  }

  lemma NothingLeft(w: World, k: nat)
    ensures Run(w, Stop, k) == w
  {
  }
}
