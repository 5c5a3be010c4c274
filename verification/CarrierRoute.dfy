/** The carrier-route check: an hourly ceiling over a log pruned in place, two memo maps
    pruned on write, and the order in which a check consults them. */
module CarrierRoute {
  /** Times are in nanoseconds. */
  const HOUR: int := 3_600_000_000_000
  const CEILING := 60

  // ---- The ceiling ----

  function Recent(log: seq<int>, cutoff: int): (kept: seq<int>)
    ensures |kept| <= |log|
  {
    if log == [] then []
    else Recent(log[..|log| - 1], cutoff) + if log[|log| - 1] > cutoff then [log[|log| - 1]] else []
  }

  /** The kept log after a request, and whether the request was granted. */
  function Reserved(log: seq<int>, askedAt: int, grantedAt: int): (seq<int>, bool) {
    var kept := Recent(log, askedAt - HOUR);
    if |kept| >= CEILING then (kept, false) else (kept + [grantedAt], true)
  }

  lemma {:induction false} RecentConcat(a: seq<int>, b: seq<int>, cutoff: int)
    ensures Recent(a + b, cutoff) == Recent(a, cutoff) + Recent(b, cutoff)
  {
    if b == [] {
      assert a + b == a;
    } else {
      assert (a + b)[..|a + b| - 1] == a + b[..|b| - 1];
      RecentConcat(a, b[..|b| - 1], cutoff);
    }
  }

  lemma {:induction false} RecentAll(log: seq<int>, cutoff: int)
    requires forall i :: 0 <= i < |log| ==> log[i] > cutoff
    ensures Recent(log, cutoff) == log
  {
    if log != [] { RecentAll(log[..|log| - 1], cutoff); }
  }

  lemma {:induction false} RecentTwice(log: seq<int>, early: int, late: int)
    requires early <= late
    ensures Recent(Recent(log, early), late) == Recent(log, late)
  {
    if log != [] {
      var front, x := log[..|log| - 1], log[|log| - 1];
      RecentTwice(front, early, late);
      var kept := Recent(front, early);
      assert kept + [] == kept && (kept + [x])[..|kept|] == kept;
    }
  }

  datatype Request = Request(askedAt: int, grantedAt: int)

  /** The pruned log, and every grant ever made. */
  datatype Ledger = Ledger(log: seq<int>, grants: seq<int>)

  function After(l: Ledger, r: Request): Ledger {
    var (log, granted) := Reserved(l.log, r.askedAt, r.grantedAt);
    Ledger(log, if granted then l.grants + [r.grantedAt] else l.grants)
  }

  function Requests(rs: seq<Request>): Ledger {
    if rs == [] then Ledger([], []) else After(Requests(rs[..|rs| - 1]), rs[|rs| - 1])
  }

  /** The clock does not go back. */
  ghost predicate Clocked(rs: seq<Request>) {
    && (forall i :: 0 <= i < |rs| ==> rs[i].askedAt <= rs[i].grantedAt)
    && (forall i, j :: 0 <= i < j < |rs| ==> rs[i].grantedAt <= rs[j].askedAt)
  }

  ghost predicate Sorted(times: seq<int>) {
    forall i, j :: 0 <= i <= j < |times| ==> times[i] <= times[j]
  }

  /** Any sixty-first grant comes an hour or more after the first. */
  ghost predicate Spaced(grants: seq<int>) {
    forall i, j :: 0 <= i && i + CEILING <= j < |grants| ==> grants[i] + HOUR <= grants[j]
  }

  /** Pruning has lost nothing that a later request could look at. */
  ghost predicate Pruned(l: Ledger, now: int) {
    && (forall i :: 0 <= i < |l.grants| ==> l.grants[i] <= now)
    && exists cutoff :: cutoff + HOUR <= now && l.log == Recent(l.grants, cutoff)
  }

  lemma PrunedStep(l: Ledger, now: int, r: Request)
    requires Pruned(l, now) && now <= r.askedAt <= r.grantedAt
    ensures Recent(l.log, r.askedAt - HOUR) == Recent(l.grants, r.askedAt - HOUR)
    ensures Pruned(After(l, r), r.grantedAt)
  {
    hide Recent;
    var cutoff :| cutoff + HOUR <= now && l.log == Recent(l.grants, cutoff);
    RecentTwice(l.grants, cutoff, r.askedAt - HOUR);
    RecentConcat(l.grants, [r.grantedAt], r.askedAt - HOUR);
    RecentAll([r.grantedAt], r.askedAt - HOUR);
    assert After(l, r).log == Recent(After(l, r).grants, r.askedAt - HOUR);
  }

  /** A sorted history with fewer than sixty recent grants has its sixtieth last an hour back. */
  lemma SixtiethLast(grants: seq<int>, cutoff: int)
    requires Sorted(grants) && |grants| >= CEILING && |Recent(grants, cutoff)| < CEILING
    ensures grants[|grants| - CEILING] <= cutoff
  {
    hide Recent;
    if grants[|grants| - CEILING] > cutoff {
      var n := |grants| - CEILING;
      assert grants == grants[..n] + grants[n..];
      RecentConcat(grants[..n], grants[n..], cutoff);
      RecentAll(grants[n..], cutoff);
    }
  }

  lemma SpacedAppend(grants: seq<int>, g: int)
    requires Sorted(grants) && Spaced(grants) && forall i :: 0 <= i < |grants| ==> grants[i] <= g
    requires |grants| >= CEILING ==> grants[|grants| - CEILING] + HOUR <= g
    ensures Sorted(grants + [g]) && Spaced(grants + [g])
  {
    forall i, j | 0 <= i && i + CEILING <= j < |grants + [g]| ensures (grants + [g])[i] + HOUR <= (grants + [g])[j] {
      if j == |grants| { assert grants[i] <= grants[|grants| - CEILING]; }
    }
  }

  lemma SpacedStep(l: Ledger, now: int, r: Request)
    requires Pruned(l, now) && Sorted(l.grants) && Spaced(l.grants) && now <= r.askedAt <= r.grantedAt
    ensures Sorted(After(l, r).grants) && Spaced(After(l, r).grants)
  {
    hide Recent, Sorted, Spaced;
    PrunedStep(l, now, r);
    if |Recent(l.log, r.askedAt - HOUR)| < CEILING {
      if |l.grants| >= CEILING { SixtiethLast(l.grants, r.askedAt - HOUR); }
      SpacedAppend(l.grants, r.grantedAt);
    }
  }

  lemma {:induction false} LedgerInvariant(rs: seq<Request>, now: int)
    requires Clocked(rs) && forall i :: 0 <= i < |rs| ==> rs[i].grantedAt <= now
    ensures Pruned(Requests(rs), now) && Sorted(Requests(rs).grants) && Spaced(Requests(rs).grants)
  {
    if rs == [] {
      assert Requests(rs).log == Recent(Requests(rs).grants, now - HOUR);
    } else {
      var n := |rs| - 1;
      LedgerInvariant(rs[..n], rs[n].askedAt);
      PrunedStep(Requests(rs[..n]), rs[n].askedAt, rs[n]);
      SpacedStep(Requests(rs[..n]), rs[n].askedAt, rs[n]);
    }
  }

  /** The times in an interval, its end excluded. */
  function Within(times: seq<int>, from: int, till: int): (inside: seq<int>) {
    if times == [] then []
    else
      var x := times[|times| - 1];
      Within(times[..|times| - 1], from, till) + if from <= x < till then [x] else []
  }

  /** No hour, wherever it starts, holds more than sixty grants. */
  lemma AtMostSixtyPerHour(rs: seq<Request>, from: int)
    requires Clocked(rs)
    ensures |Within(Requests(rs).grants, from, from + 3_600_000_000_000)| <= 60
  {
    LedgerInvariant(rs, if rs == [] then 0 else rs[|rs| - 1].grantedAt);
    SpacedWithin(Requests(rs).grants, from);
  }

  lemma {:induction false} SpacedWithin(grants: seq<int>, from: int)
    requires Sorted(grants) && Spaced(grants)
    ensures |Within(grants, from, from + HOUR)| <= CEILING
  {
    if grants == [] {
    } else if grants[|grants| - 1] >= from + HOUR {
      SpacedWithin(grants[..|grants| - 1], from);
    } else {
      WithinIsRecent(grants, from, from + HOUR);
      var i := |grants| - 1 - CEILING;
      assert i >= 0 ==> grants[i] + HOUR <= grants[|grants| - 1];
      if |Recent(grants, from - 1)| > CEILING { NthLast(grants, from - 1, CEILING + 1); }
    }
  }

  lemma {:induction false} WithinIsRecent(times: seq<int>, from: int, till: int)
    requires forall i :: 0 <= i < |times| ==> times[i] < till
    ensures Within(times, from, till) == Recent(times, from - 1)
  {
    if times != [] { WithinIsRecent(times[..|times| - 1], from, till); }
  }

  lemma NthLast(grants: seq<int>, cutoff: int, n: nat)
    requires Sorted(grants) && 0 < n <= |Recent(grants, cutoff)|
    ensures grants[|grants| - n] > cutoff
  {
    var m := |grants| - n;
    if grants[m] <= cutoff {
      assert grants == grants[..m + 1] + grants[m + 1..];
      RecentConcat(grants[..m + 1], grants[m + 1..], cutoff);
      RecentNone(grants[..m + 1], cutoff);
    }
  }

  lemma {:induction false} RecentNone(log: seq<int>, cutoff: int)
    requires forall i :: 0 <= i < |log| ==> log[i] <= cutoff
    ensures Recent(log, cutoff) == []
  {
    if log != [] { RecentNone(log[..|log| - 1], cutoff); }
  }

  /** A request is refused exactly when sixty grants of the full history fall within the
      hour before it, the instant an hour back excluded. */
  lemma RefusedIff(rs: seq<Request>, r: Request)
    requires Clocked(rs) && r.askedAt <= r.grantedAt && forall i :: 0 <= i < |rs| ==> rs[i].grantedAt <= r.askedAt
    ensures Reserved(Requests(rs).log, r.askedAt, r.grantedAt).1 == false
       <==> |Recent(Requests(rs).grants, r.askedAt - 3_600_000_000_000)| >= 60
  {
    hide Recent, Requests;
    LedgerInvariant(rs, r.askedAt);
    PrunedStep(Requests(rs), r.askedAt, r);
  }

  function Same(x: int, n: nat): (xs: seq<int>)
    ensures |xs| == n && forall i :: 0 <= i < n ==> xs[i] == x
  {
    seq(n, _ => x)
  }

  lemma NoneGranted()
    ensures Same(0, 0) == []
  {
  }

  lemma GrantedOnceMore(n: nat)
    requires n < CEILING
    ensures Reserved(Same(0, n), 0, 0) == (Same(0, n + 1), true) && Same(0, n) + [0] == Same(0, n + 1)
  {
    hide Recent;
    RecentAll(Same(0, n), -HOUR);
    assert Recent(Same(0, n), 0 - HOUR) == Same(0, n);
    assert Same(0, n) + [0] == Same(0, n + 1);
  }

  lemma {:induction false} GrantedAtOnce(n: nat)
    requires n <= CEILING
    ensures var rs := seq(n, _ => Request(0, 0)); Clocked(rs) && Requests(rs) == Ledger(Same(0, n), Same(0, n))
  {
    hide Reserved, Same;
    NoneGranted();
    if n == 0 {
      assert seq(n, _ => Request(0, 0)) == [];
    } else {
      var rs := seq(n, _ => Request(0, 0));
      GrantedAtOnce(n - 1);
      assert rs[..n - 1] == seq(n - 1, _ => Request(0, 0));
      GrantedOnceMore(n - 1);
    }
  }

  /** The bound is for half-open hours: sixty grants at one instant leave room for another
      exactly an hour later. */
  lemma SixtyFirstAtTheHour()
    ensures var rs := seq(60, _ => Request(0, 0)) + [Request(3_600_000_000_000, 3_600_000_000_000)];
      Clocked(rs) && Requests(rs).grants == Same(0, 60) + [3_600_000_000_000]
  {
    var before := seq(CEILING, _ => Request(0, 0));
    var rs := before + [Request(HOUR, HOUR)];
    GrantedAtOnce(CEILING);
    RecentNone(Same(0, CEILING), 0);
    assert rs[..|rs| - 1] == before;
  }

  // ---- The memos ----

  type Memo = map<string, int>

  /** One note: its time, and for each entry the reading it was pruned by. */
  datatype Note = Note(portal: string, at: int, readings: map<string, int>)

  predicate Fresh(memo: Memo, portal: string, now: int) {
    portal in memo && now - memo[portal] < HOUR
  }

  function Noted(memo: Memo, n: Note): Memo {
    var m := memo[n.portal := n.at];
    map k | k in m && !(k in n.readings && n.readings[k] - m[k] >= HOUR) :: m[k]
  }

  function Memos(ns: seq<Note>): Memo {
    if ns == [] then map[] else Noted(Memos(ns[..|ns| - 1]), ns[|ns| - 1])
  }

  /** Every note ever made, the latest per portal. */
  function History(ns: seq<Note>): Memo {
    if ns == [] then map[] else History(ns[..|ns| - 1])[ns[|ns| - 1].portal := ns[|ns| - 1].at]
  }

  ghost predicate ReadBy(ns: seq<Note>, now: int) {
    forall i, k :: 0 <= i < |ns| && k in ns[i].readings ==> ns[i].readings[k] <= now
  }

  /** What pruning removed is no longer fresh. */
  ghost predicate Forgotten(memo: Memo, history: Memo, now: int) {
    && (forall k :: k in memo ==> k in history && memo[k] == history[k])
    && (forall k :: k in history && k !in memo ==> history[k] + HOUR <= now)
  }

  lemma {:induction false} PruningInvisible(ns: seq<Note>, now: int)
    requires ReadBy(ns, now)
    ensures Forgotten(Memos(ns), History(ns), now)
  {
    if ns != [] {
      var front := ns[..|ns| - 1];
      assert forall i :: 0 <= i < |front| ==> front[i] == ns[i];
      PruningInvisible(front, now);
    }
  }

  /** A pruned memo answers as the whole history would. */
  lemma {:induction false} MemoAnswersAlike(ns: seq<Note>, portal: string, now: int)
    requires ReadBy(ns, now)
    ensures Fresh(Memos(ns), portal, now) <==> Fresh(History(ns), portal, now)
  {
    PruningInvisible(ns, now);
  }

  // ---- The check ----

  /** One check of one portal: what the classifier, the self-chat test and the client say,
      and the clock readings of its memo reads and its reservation. */
  datatype Facts = Facts(verify: bool, mine: bool, hasClient: bool,
                         verifiedRead: int, checkedRead: int, request: Request)

  datatype Lookup = Lookup(portal: string, reachable: bool, askedAt: int, notedAt: int)

  /** How far a check has come: past the first memo, or past both, read at a given time. */
  datatype Stage = Unverified(at: int) | Unanswered(at: int)

  /** The shared state, the checks under way, the portals being looked up, and the lookups made. */
  datatype State = State(ledger: Ledger, verified: Memo, unreachable: Memo,
                         checks: map<string, Stage>, pending: map<string, int>, lookups: seq<Lookup>)

  /** What a check does under the mutex, one hold at a time. */
  datatype Step =
    | ReadVerified(portal: string, verify: bool, at: int)
    | ReadUnreachable(portal: string, at: int, mine: bool, hasClient: bool)
    | Reserve(portal: string, request: Request)
    | Cancel(portal: string)
    | Answer(reachable: bool, note: Note)

  predicate InStage(s: State, portal: string, second: bool) {
    portal in s.checks && s.checks[portal].Unanswered? == second
  }

  function Next(s: State, step: Step): State {
    match step
    case ReadVerified(portal, verify, at) =>
      if !verify || Fresh(s.verified, portal, at) then s
      else s.(checks := s.checks[portal := Unverified(at)])
    case ReadUnreachable(portal, at, mine, hasClient) =>
      if !InStage(s, portal, false) then s
      else if Fresh(s.unreachable, portal, at) || mine || !hasClient then s.(checks := s.checks - {portal})
      else s.(checks := s.checks[portal := Unanswered(at)])
    case Reserve(portal, r) =>
      if !InStage(s, portal, true) then s
      else
        var granted := Reserved(s.ledger.log, r.askedAt, r.grantedAt).1;
        s.(ledger := After(s.ledger, r), checks := s.checks - {portal},
           pending := if granted then s.pending[portal := r.askedAt] else s.pending)
    case Cancel(portal) => s.(pending := s.pending - {portal})
    case Answer(reachable, n) =>
      if n.portal !in s.pending then s
      else
        var t := s.(pending := s.pending - {n.portal},
                    lookups := s.lookups + [Lookup(n.portal, reachable, s.pending[n.portal], n.at)]);
        if reachable then t.(verified := Noted(t.verified, n)) else t.(unreachable := Noted(t.unreachable, n))
  }

  const START := State(Ledger([], []), map[], map[], map[], map[], [])

  function Run(steps: seq<Step>): State {
    if steps == [] then START else Next(Run(steps[..|steps| - 1]), steps[|steps| - 1])
  }

  /** When a step began and ended. */
  predicate Spans(step: Step, from: int, till: int) {
    match step
    case ReadVerified(_, _, at) => from <= at <= till
    case ReadUnreachable(_, at, _, _) => from <= at <= till
    case Reserve(_, r) => from <= r.askedAt <= r.grantedAt <= till
    case Cancel(_) => from <= till
    case Answer(_, n) => from <= n.at <= till && forall k :: k in n.readings ==> n.at <= n.readings[k] <= till
  }

  /** Holds of the mutex follow one another in time, and a portal's sends follow one
      another; checks of different portals interleave between any two holds. */
  ghost predicate Orderly(steps: seq<Step>, times: seq<int>) {
    && |times| == |steps| + 1
    && (forall i :: 0 <= i < |steps| ==> Spans(steps[i], times[i], times[i + 1]))
    && (forall i :: 0 <= i < |steps| && steps[i].ReadVerified? ==> Idle(Run(steps[..i]), steps[i].portal))
  }

  predicate Idle(s: State, portal: string) {
    portal !in s.checks && portal !in s.pending
  }

  ghost predicate Held(s: State, l: Lookup, now: int) {
    var memo := if l.reachable then s.verified else s.unreachable;
    l.askedAt <= l.notedAt <= now && (l.notedAt + HOUR <= now || (l.portal in memo && memo[l.portal] >= l.notedAt))
  }

  /** Every lookup is still remembered, or an hour old. */
  ghost predicate Remembered(s: State, now: int) {
    forall i :: 0 <= i < |s.lookups| ==> Held(s, s.lookups[i], now)
  }

  /** All earlier lookups of a portal, or those that reached it, were noted an hour or
      more before. */
  ghost predicate Clear(s: State, portal: string, at: int, all: bool) {
    forall i :: 0 <= i < |s.lookups| && s.lookups[i].portal == portal && (all || s.lookups[i].reachable) ==>
      s.lookups[i].notedAt + HOUR <= at
  }

  /** A portal has one check under way at most, and what that has read tells true. */
  ghost predicate Told(s: State, now: int) {
    && s.checks.Keys !! s.pending.Keys
    && (forall k :: k in s.checks ==> s.checks[k].at <= now && Clear(s, k, s.checks[k].at, s.checks[k].Unanswered?))
    && (forall k :: k in s.pending ==> s.pending[k] <= now && Clear(s, k, s.pending[k], true))
  }

  /** Later lookups of a portal begin an hour or more after earlier ones were answered. */
  ghost predicate HourApart(s: State) {
    forall i, j :: 0 <= i < j < |s.lookups| && s.lookups[i].portal == s.lookups[j].portal ==>
      s.lookups[i].notedAt + HOUR <= s.lookups[j].askedAt
  }

  /** A memo is the time of a lookup that said so. */
  ghost predicate Honest(s: State) {
    && (forall k :: k in s.verified ==> Lookups(s, k, true, s.verified[k]))
    && (forall k :: k in s.unreachable ==> Lookups(s, k, false, s.unreachable[k]))
  }

  ghost predicate Lookups(s: State, portal: string, reachable: bool, at: int) {
    exists i :: 0 <= i < |s.lookups| && s.lookups[i].portal == portal
                && s.lookups[i].reachable == reachable && s.lookups[i].notedAt == at
  }

  ghost predicate Good(s: State, now: int) {
    Remembered(s, now) && Told(s, now) && HourApart(s) && Honest(s)
  }

  /** A memo that does not answer has nothing of its kind within the hour. */
  lemma SilenceIsClear(s: State, now: int, portal: string, at: int, reachable: bool)
    requires Remembered(s, now) && now <= at
    requires !Fresh(if reachable then s.verified else s.unreachable, portal, at)
    ensures forall i :: 0 <= i < |s.lookups| && s.lookups[i].portal == portal && s.lookups[i].reachable == reachable ==>
              s.lookups[i].notedAt + HOUR <= at
  {
    forall i | 0 <= i < |s.lookups| && s.lookups[i].portal == portal && s.lookups[i].reachable == reachable
      ensures s.lookups[i].notedAt + HOUR <= at
    {
      assert Held(s, s.lookups[i], now);
    }
  }

  /** A step that leaves memos and lookups alone leaves what they promise. */
  lemma MemosKept(s: State, n: State, from: int, till: int)
    requires Remembered(s, from) && HourApart(s) && Honest(s) && from <= till
    requires n.lookups == s.lookups && n.verified == s.verified && n.unreachable == s.unreachable
    ensures Remembered(n, till) && HourApart(n) && Honest(n)
  {
    forall i | 0 <= i < |n.lookups| ensures Held(n, n.lookups[i], till) {
      assert Held(s, s.lookups[i], from);
    }
    forall k | k in n.verified ensures Lookups(n, k, true, n.verified[k]) {
      assert Lookups(s, k, true, s.verified[k]);
    }
    forall k | k in n.unreachable ensures Lookups(n, k, false, n.unreachable[k]) {
      assert Lookups(s, k, false, s.unreachable[k]);
    }
  }

  lemma ClearKept(s: State, n: State, portal: string, at: int, later: int, all: bool)
    requires Clear(s, portal, at, all) && n.lookups == s.lookups && at <= later
    ensures Clear(n, portal, later, all)
  {
  }

  /** A step that moves one portal's check has only that to tell. */
  lemma ToldKept(s: State, n: State, from: int, till: int, portal: string)
    requires Told(s, from) && from <= till && n.lookups == s.lookups
    requires n.checks - {portal} == s.checks - {portal} && n.pending - {portal} == s.pending - {portal}
    requires portal in n.checks ==>
      && portal !in n.pending && n.checks[portal].at <= till
      && Clear(n, portal, n.checks[portal].at, n.checks[portal].Unanswered?)
    requires portal in n.pending ==> n.pending[portal] <= till && Clear(n, portal, n.pending[portal], true)
    ensures Told(n, till)
  {
    forall k | k in n.checks && k != portal
      ensures k !in n.pending && n.checks[k].at <= till && Clear(n, k, n.checks[k].at, n.checks[k].Unanswered?)
    {
      assert k in n.checks - {portal} && k in s.checks - {portal} && (s.checks - {portal})[k] == s.checks[k];
      assert k in n.pending ==> k in n.pending - {portal};
      ClearKept(s, n, k, s.checks[k].at, s.checks[k].at, s.checks[k].Unanswered?);
    }
    forall k | k in n.pending && k != portal ensures n.pending[k] <= till && Clear(n, k, n.pending[k], true) {
      assert k in n.pending - {portal} && k in s.pending - {portal} && (s.pending - {portal})[k] == s.pending[k];
      ClearKept(s, n, k, s.pending[k], s.pending[k], true);
    }
  }

  lemma FirstReadStep(s: State, step: Step, from: int, till: int)
    requires step.ReadVerified? && Spans(step, from, till) && Idle(s, step.portal) && Good(s, from)
    ensures Told(Next(s, step), till)
  {
    hide Fresh, Remembered, HourApart, Honest, Told;
    var n := Next(s, step);
    if step.portal in n.checks { SilenceIsClear(s, from, step.portal, step.at, true); }
    ToldKept(s, n, from, till, step.portal);
  }

  lemma SecondReadStep(s: State, step: Step, from: int, till: int)
    requires step.ReadUnreachable? && Spans(step, from, till) && Good(s, from)
    ensures Told(Next(s, step), till)
  {
    hide Fresh, Remembered, HourApart, Honest;
    var n := Next(s, step);
    var portal := step.portal;
    if portal in s.checks { assert Clear(s, portal, s.checks[portal].at, s.checks[portal].Unanswered?); }
    if portal in s.pending { assert Clear(s, portal, s.pending[portal], true); }
    if InStage(s, portal, false) && InStage(n, portal, true) {
      SilenceIsClear(s, from, portal, step.at, false);
      ClearKept(s, n, portal, s.checks[portal].at, step.at, false);
    }
    ToldKept(s, n, from, till, portal);
  }

  lemma ReserveTold(s: State, step: Step, from: int, till: int)
    requires step.Reserve? && Spans(step, from, till) && Good(s, from)
    ensures Told(Next(s, step), till)
  {
    hide Reserved, After, Remembered, HourApart, Honest;
    var n := Next(s, step);
    var portal := step.portal;
    if portal in s.checks {
      ClearKept(s, n, portal, s.checks[portal].at, step.request.askedAt, s.checks[portal].Unanswered?);
      ClearKept(s, n, portal, s.checks[portal].at, s.checks[portal].at, s.checks[portal].Unanswered?);
    }
    if portal in s.pending { ClearKept(s, n, portal, s.pending[portal], s.pending[portal], true); }
    ToldKept(s, n, from, till, portal);
  }

  lemma CancelTold(s: State, step: Step, from: int, till: int)
    requires step.Cancel? && Spans(step, from, till) && Told(s, from)
    ensures Told(Next(s, step), till)
  {
    var n := Next(s, step);
    var portal := step.portal;
    if portal in s.checks {
      ClearKept(s, n, portal, s.checks[portal].at, s.checks[portal].at, s.checks[portal].Unanswered?);
    }
    ToldKept(s, n, from, till, portal);
  }

  /** A later note of a portal, or the pruning that goes with it, forgets nothing recent. */
  lemma NotingKeeps(s: State, n: State, l: Lookup, note: Note, reachable: bool, from: int, till: int)
    requires Held(s, l, from) && from <= note.at && Spans(Answer(reachable, note), from, till)
    requires n.verified == if reachable then Noted(s.verified, note) else s.verified
    requires n.unreachable == if reachable then s.unreachable else Noted(s.unreachable, note)
    ensures Held(n, l, till)
  {
  }

  lemma AnswerHolds(s: State, step: Step, from: int, till: int)
    requires step.Answer? && Spans(step, from, till) && Remembered(s, from) && Told(s, from)
    ensures Remembered(Next(s, step), till)
  {
    hide Clear, Held, Noted;
    var n := Next(s, step);
    if n.lookups == s.lookups {
      forall i | 0 <= i < |n.lookups| ensures Held(n, n.lookups[i], till) { HeldLater(s, s.lookups[i], from, till); }
    } else {
      forall i | 0 <= i < |s.lookups| ensures Held(n, n.lookups[i], till) {
        assert n.lookups[i] == s.lookups[i];
        NotingKeeps(s, n, s.lookups[i], step.note, step.reachable, from, till);
      }
      NewIsHeld(s, step, from, till);
    }
  }

  lemma HeldLater(s: State, l: Lookup, from: int, till: int)
    requires Held(s, l, from) && from <= till
    ensures Held(s, l, till)
  {
  }

  lemma NewIsHeld(s: State, step: Step, from: int, till: int)
    requires step.Answer? && Spans(step, from, till)
    requires step.note.portal in s.pending && s.pending[step.note.portal] <= from
    ensures Held(Next(s, step), Next(s, step).lookups[|s.lookups|], till)
  {
  }

  lemma AnswerTold(s: State, step: Step, from: int, till: int)
    requires step.Answer? && Spans(step, from, till) && Told(s, from)
    ensures Told(Next(s, step), till)
  {
    hide Noted;
    var n := Next(s, step);
    forall k | k in n.checks ensures n.checks[k].at <= till && Clear(n, k, n.checks[k].at, n.checks[k].Unanswered?) {
      assert Clear(s, k, s.checks[k].at, s.checks[k].Unanswered?);
    }
    forall k | k in n.pending ensures n.pending[k] <= till && Clear(n, k, n.pending[k], true) {
      assert Clear(s, k, s.pending[k], true);
    }
  }

  lemma LookupsKept(s: State, n: State, portal: string, reachable: bool, at: int)
    requires s.lookups <= n.lookups && Lookups(s, portal, reachable, at)
    ensures Lookups(n, portal, reachable, at)
  {
    var i :| 0 <= i < |s.lookups| && s.lookups[i].portal == portal
             && s.lookups[i].reachable == reachable && s.lookups[i].notedAt == at;
    assert n.lookups[i] == s.lookups[i];
  }

  lemma AnswerHonest(s: State, step: Step)
    requires step.Answer? && Honest(s)
    ensures Honest(Next(s, step))
  {
    hide Lookups;
    var n := Next(s, step);
    if step.note.portal in s.pending {
      assert Lookups(n, step.note.portal, step.reachable, step.note.at) by { NewLookup(s, step); }
    }
    forall k | k in n.verified ensures Lookups(n, k, true, n.verified[k]) {
      if k in s.verified && n.verified[k] == s.verified[k] { LookupsKept(s, n, k, true, s.verified[k]); }
    }
    forall k | k in n.unreachable ensures Lookups(n, k, false, n.unreachable[k]) {
      if k in s.unreachable && n.unreachable[k] == s.unreachable[k] {
        LookupsKept(s, n, k, false, s.unreachable[k]);
      }
    }
  }

  lemma NewLookup(s: State, step: Step)
    requires step.Answer? && step.note.portal in s.pending
    ensures Lookups(Next(s, step), step.note.portal, step.reachable, step.note.at)
  {
    hide Noted;
    assert Next(s, step).lookups[|s.lookups|].notedAt == step.note.at;
  }

  lemma AnswerApart(s: State, step: Step, now: int)
    requires step.Answer? && Told(s, now) && HourApart(s)
    ensures HourApart(Next(s, step))
  {
    hide Noted;
    assert step.note.portal in s.pending ==> Clear(s, step.note.portal, s.pending[step.note.portal], true);
  }

  lemma GoodStep(s: State, step: Step, from: int, till: int)
    requires Good(s, from) && Spans(step, from, till) && (step.ReadVerified? ==> Idle(s, step.portal))
    ensures Good(Next(s, step), till)
  {
    hide Remembered, Told, HourApart, Honest, Fresh, Reserved, After, Noted;
    match step {
      case ReadVerified(_, _, _) =>
        FirstReadStep(s, step, from, till);
        MemosKept(s, Next(s, step), from, till);
      case ReadUnreachable(_, _, _, _) =>
        SecondReadStep(s, step, from, till);
        MemosKept(s, Next(s, step), from, till);
      case Reserve(_, _) =>
        ReserveTold(s, step, from, till);
        MemosKept(s, Next(s, step), from, till);
      case Cancel(_) =>
        CancelTold(s, step, from, till);
        MemosKept(s, Next(s, step), from, till);
      case Answer(_, _) =>
        AnswerHolds(s, step, from, till);
        AnswerTold(s, step, from, till);
        AnswerHonest(s, step);
        AnswerApart(s, step, from);
    }
  }

  lemma {:induction false} GoodRun(steps: seq<Step>, times: seq<int>)
    requires Orderly(steps, times)
    ensures Good(Run(steps), times[|steps|])
  {
    hide Good, Spans, Next;
    if steps == [] {
      StartsWell(times[0]);
    } else {
      var n := |steps| - 1;
      OrderlyFront(steps, times);
      GoodRun(steps[..n], times[..n + 1]);
      GoodStep(Run(steps[..n]), steps[n], times[n], times[n + 1]);
    }
  }

  lemma StartsWell(now: int)
    ensures Good(START, now)
  {
  }

  lemma OrderlyFront(steps: seq<Step>, times: seq<int>)
    requires Orderly(steps, times) && steps != []
    ensures Orderly(steps[..|steps| - 1], times[..|steps|])
    ensures Spans(steps[|steps| - 1], times[|steps| - 1], times[|steps|])
  {
    hide Run, Spans, Idle;
    var n := |steps| - 1;
    var front := steps[..n];
    forall i | 0 <= i < n ensures Spans(front[i], times[..n + 1][i], times[..n + 1][i + 1]) {
      assert Spans(steps[i], times[i], times[i + 1]);
    }
    forall i | 0 <= i < n && front[i].ReadVerified? ensures Idle(Run(front[..i]), front[i].portal) {
      assert front[..i] == steps[..i] && steps[i] == front[i];
    }
  }

  ghost predicate Capped(s: State, now: int) {
    && Pruned(s.ledger, now) && Sorted(s.ledger.grants) && Spaced(s.ledger.grants)
    && |s.lookups| + |s.pending| <= |s.ledger.grants|
  }

  lemma PrunedLater(l: Ledger, now: int, later: int)
    requires Pruned(l, now) && now <= later
    ensures Pruned(l, later)
  {
    hide Recent;
    var cutoff :| cutoff + HOUR <= now && l.log == Recent(l.grants, cutoff);
    assert cutoff + HOUR <= later;
  }

  lemma CappedReserve(s: State, step: Step, from: int, till: int)
    requires step.Reserve? && Capped(s, from) && Spans(step, from, till)
    ensures Capped(Next(s, step), till)
  {
    hide Recent, Pruned, Sorted, Spaced;
    var r := step.request;
    PrunedLater(s.ledger, from, till);
    PrunedLater(s.ledger, from, r.askedAt);
    PrunedStep(s.ledger, r.askedAt, r);
    SpacedStep(s.ledger, r.askedAt, r);
    PrunedLater(After(s.ledger, r), r.grantedAt, till);
    MapSizes(s.pending, step.portal, r.askedAt);
  }

  lemma MapSizes(m: map<string, int>, k: string, x: int)
    ensures |m[k := x]| <= |m| + 1
    ensures |m - {k}| == if k in m then |m| - 1 else |m|
  {
    assert m[k := x].Keys == m.Keys + {k};
    assert (m - {k}).Keys == m.Keys - {k};
  }

  lemma CappedKept(s: State, n: State, from: int, till: int)
    requires Capped(s, from) && from <= till && n.ledger == s.ledger
    requires |n.lookups| + |n.pending| <= |s.lookups| + |s.pending|
    ensures Capped(n, till)
  {
    hide Pruned, Sorted, Spaced;
    PrunedLater(s.ledger, from, till);
  }

  /** An answer moves its portal from the pending ones to the lookups. */
  lemma AnswerMoves(s: State, step: Step)
    requires step.Answer?
    ensures var n := Next(s, step);
      && n.ledger == s.ledger
      && (if step.note.portal !in s.pending then n == s
          else n.pending == s.pending - {step.note.portal} && |n.lookups| == |s.lookups| + 1)
  {
    hide Noted;
  }

  lemma OthersReserveNothing(s: State, step: Step)
    requires !step.Reserve?
    ensures var n := Next(s, step);
      n.ledger == s.ledger && |n.lookups| + |n.pending| <= |s.lookups| + |s.pending|
  {
    hide Next;
    if step.Answer? {
      AnswerMoves(s, step);
      MapSizes(s.pending, step.note.portal, 0);
    } else if step.Cancel? {
      CancelMoves(s, step);
      MapSizes(s.pending, step.portal, 0);
    } else {
      ReadsMoveNothing(s, step);
    }
  }

  lemma CancelMoves(s: State, step: Step)
    requires step.Cancel?
    ensures Next(s, step) == s.(pending := s.pending - {step.portal})
  {
  }

  lemma ReadsMoveNothing(s: State, step: Step)
    requires step.ReadVerified? || step.ReadUnreachable?
    ensures var n := Next(s, step); n.ledger == s.ledger && n.pending == s.pending && n.lookups == s.lookups
  {
    hide Fresh;
  }

  lemma CappedStep(s: State, step: Step, from: int, till: int)
    requires Capped(s, from) && Spans(step, from, till)
    ensures Capped(Next(s, step), till)
  {
    assert from <= till;
    hide Capped, Next, Spans;
    if step.Reserve? {
      CappedReserve(s, step, from, till);
    } else {
      OthersReserveNothing(s, step);
      CappedKept(s, Next(s, step), from, till);
    }
  }

  lemma {:induction false} CappedRun(steps: seq<Step>, times: seq<int>)
    requires Orderly(steps, times)
    ensures Capped(Run(steps), times[|steps|])
  {
    hide Next, Spans;
    if steps == [] {
      assert START.ledger.log == Recent(START.ledger.grants, times[0] - HOUR);
    } else {
      OrderlyFront(steps, times);
      CappedRun(steps[..|steps| - 1], times[..|steps|]);
      CappedStep(Run(steps[..|steps| - 1]), steps[|steps| - 1], times[|steps| - 1], times[|steps|]);
    }
  }

  /** However checks interleave, sixty reservations an hour is the most, and each lookup
      spends its own. */
  lemma LookupsAreCapped(steps: seq<Step>, times: seq<int>, from: int)
    requires Orderly(steps, times)
    ensures |Within(Run(steps).ledger.grants, from, from + 3_600_000_000_000)| <= 60
    ensures |Run(steps).lookups| <= |Run(steps).ledger.grants|
  {
    CappedRun(steps, times);
    SpacedWithin(Run(steps).ledger.grants, from);
  }

  /** Apple is asked about one portal at most once an hour, checks of other portals
      interleaving as they please. */
  lemma OneLookupPerHour(steps: seq<Step>, times: seq<int>, i: nat, j: nat)
    requires Orderly(steps, times) && i < j < |Run(steps).lookups|
    requires Run(steps).lookups[i].portal == Run(steps).lookups[j].portal
    ensures Run(steps).lookups[i].notedAt + 3_600_000_000_000 <= Run(steps).lookups[j].askedAt
  {
    GoodRun(steps, times);
  }

  /** A "yes" without asking rests on a lookup that said yes within the hour. */
  lemma YesRestsOnLookup(steps: seq<Step>, times: seq<int>, portal: string, readAt: int)
    requires Orderly(steps, times) && Fresh(Run(steps).verified, portal, readAt)
    ensures exists at :: Lookups(Run(steps), portal, true, at) && readAt - at < 3_600_000_000_000
  {
    GoodRun(steps, times);
    assert Lookups(Run(steps), portal, true, Run(steps).verified[portal]);
  }

  // ---- The client ----

  datatype Verdict = Known(imessage: bool) | Ask

  function Decide(verified: Memo, unreachable: Memo, portal: string, f: Facts): Verdict {
    if !f.verify then Known(false)
    else if Fresh(verified, portal, f.verifiedRead) then Known(true)
    else if Fresh(unreachable, portal, f.checkedRead) then Known(false)
    else if f.mine || !f.hasClient then Known(false)
    else Ask
  }

  /** Some lookup of the portal said so within the hour before. */
  ghost predicate Said(s: State, portal: string, reachable: bool, at: int) {
    exists i :: 0 <= i < |s.lookups| && s.lookups[i].portal == portal && s.lookups[i].reachable == reachable
                && at - s.lookups[i].notedAt < 3_600_000_000_000
  }

  lemma FreshIffSaid(s: State, now: int, portal: string, reachable: bool, at: int)
    requires Remembered(s, now) && Honest(s) && now <= at
    ensures Fresh(if reachable then s.verified else s.unreachable, portal, at) <==> Said(s, portal, reachable, at)
  {
    var memo := if reachable then s.verified else s.unreachable;
    if portal in memo { assert Lookups(s, portal, reachable, memo[portal]); }
    if Said(s, portal, reachable, at) {
      var i :| 0 <= i < |s.lookups| && s.lookups[i].portal == portal && s.lookups[i].reachable == reachable
               && at - s.lookups[i].notedAt < 3_600_000_000_000;
      assert Held(s, s.lookups[i], now);
    }
  }

  /** After any orderly run a check says "iMessage" exactly if the portal is to be verified and
      a lookup within the hour reached it, and it asks exactly if no lookup within the hour
      said anything, the portal is somebody else's and there is a client. */
  lemma VerdictIff(steps: seq<Step>, times: seq<int>, portal: string, f: Facts)
    requires Orderly(steps, times) && times[|steps|] <= f.verifiedRead <= f.checkedRead
    ensures var s := Run(steps); var verdict := Decide(s.verified, s.unreachable, portal, f);
      && (verdict == Known(true) <==> f.verify && Said(s, portal, true, f.verifiedRead))
      && (verdict == Ask <==>
            && f.verify && !Said(s, portal, true, f.verifiedRead) && !Said(s, portal, false, f.checkedRead)
            && !f.mine && f.hasClient)
  {
    hide Run, Fresh, Said;
    var now := times[|steps|];
    GoodRun(steps, times);
    FreshIffSaid(Run(steps), now, portal, true, f.verifiedRead);
    FreshIffSaid(Run(steps), now, portal, false, f.checkedRead);
  }

  /** In particular a recent "unreachable" stands until another lookup reaches the portal. */
  lemma UnreachableStands(steps: seq<Step>, times: seq<int>, portal: string, f: Facts)
    requires Orderly(steps, times) && times[|steps|] <= f.verifiedRead <= f.checkedRead
    requires Said(Run(steps), portal, false, f.checkedRead) && !Said(Run(steps), portal, true, f.verifiedRead)
    ensures Decide(Run(steps).verified, Run(steps).unreachable, portal, f) == Known(false)
  {
    VerdictIff(steps, times, portal, f);
  }

  /** The holds of one check. */
  function CheckSteps(portal: string, f: Facts): seq<Step> {
    [ReadVerified(portal, f.verify, f.verifiedRead),
     ReadUnreachable(portal, f.checkedRead, f.mine, f.hasClient),
     Reserve(portal, f.request)]
  }

  /** A check that nothing comes between asks exactly when its holds reserve. */
  lemma CheckAlone(s: State, portal: string, f: Facts)
    requires Idle(s, portal)
    ensures var steps := CheckSteps(portal, f); var n := Next(Next(Next(s, steps[0]), steps[1]), steps[2]);
      && n.checks == s.checks && n.lookups == s.lookups
      && n.ledger == (if Decide(s.verified, s.unreachable, portal, f).Ask? then After(s.ledger, f.request)
                      else s.ledger)
      && (portal in n.pending <==>
            Decide(s.verified, s.unreachable, portal, f).Ask?
            && Reserved(s.ledger.log, f.request.askedAt, f.request.grantedAt).1)
  {
    hide Fresh, Reserved, After;
    assert s.checks[portal := Unverified(f.verifiedRead)] - {portal} == s.checks;
    assert s.checks[portal := Unverified(f.verifiedRead)][portal := Unanswered(f.checkedRead)] - {portal} == s.checks;
  }

  /** The ceiling's log in the array it is pruned in, and the two memos. */
  class CarrierClient {
    const slots: array<int>
    var count: nat
    var verified: Memo
    var unreachable: Memo

    ghost predicate Valid()
      reads this, slots
    {
      slots.Length == CEILING && count <= CEILING
    }

    function Log(): seq<int>
      requires count <= slots.Length
      reads this, slots
    {
      slots[..count]
    }

    constructor ()
      ensures Valid() && fresh(slots) && Log() == [] && verified == map[] && unreachable == map[]
    {
      slots := new int[CEILING];
      count := 0;
      verified, unreachable := map[], map[];
    }

    /** Keeps the recent entries, moving them down in place. */
    method KeepRecent(cutoff: int)
      requires Valid()
      modifies this`count, slots
      ensures Valid() && Log() == Recent(old(Log()), cutoff)
    {
      ghost var was := Log();
      var kept := 0;
      for i := 0 to count
        invariant Valid() && count == |was| && kept <= i
        invariant forall k :: i <= k < count ==> slots[k] == was[k]
        invariant slots[..kept] == Recent(was[..i], cutoff)
      {
        assert was[..i + 1][..i] == was[..i];
        var at := slots[i];
        if at > cutoff {
          ghost var before := slots[..kept];
          slots[kept] := at;
          kept := kept + 1;
          assert slots[..kept] == before + [at];
        }
      }
      assert was[..count] == was;
      count := kept;
    }

    method ReserveCarrierCheck(askedAt: int, grantedAt: int) returns (granted: bool)
      requires Valid()
      modifies this`count, slots
      ensures Valid() && (Log(), granted) == Reserved(old(Log()), askedAt, grantedAt)
    {
      hide Recent;
      KeepRecent(askedAt - HOUR);
      if count >= CEILING { return false; }
      ghost var kept := Log();
      slots[count] := grantedAt;
      count := count + 1;
      assert Log() == kept + [grantedAt];
      return true;
    }

    method NoteVerifiedIMessage(portal: string, now: int, readings: map<string, int>)
      modifies this`verified
      ensures verified == Noted(old(verified), Note(portal, now, readings))
    {
      verified := DropExpired(verified[portal := now], readings);
    }

    method NoteCheckedUnreachable(portal: string, now: int, readings: map<string, int>)
      modifies this`unreachable
      ensures unreachable == Noted(old(unreachable), Note(portal, now, readings))
    {
      unreachable := DropExpired(unreachable[portal := now], readings);
    }

    /** Visits every entry and drops those an hour old by their own reading. */
    static method DropExpired(memo: Memo, readings: map<string, int>) returns (m: Memo)
      ensures m == map k | k in memo && !(k in readings && readings[k] - memo[k] >= HOUR) :: memo[k]
    {
      m := memo;
      var left := memo.Keys;
      while left != {}
        invariant left <= memo.Keys
        invariant forall k :: k in m <==> k in memo && (k in left || !(k in readings && readings[k] - memo[k] >= HOUR))
        invariant forall k :: k in m ==> m[k] == memo[k]
        decreases left
      {
        var k :| k in left;
        left := left - {k};
        if k in readings && readings[k] - memo[k] >= HOUR { m := m - {k}; }
      }
    }

    /** The memo reads and the reservation of one check. */
    method CheckCarrierRoute(portal: string, f: Facts) returns (verdict: Verdict, granted: bool)
      requires Valid()
      modifies this`count, slots
      ensures Valid() && verdict == Decide(verified, unreachable, portal, f)
      ensures verdict.Known? ==> Log() == old(Log()) && !granted
      ensures verdict.Ask? ==> (Log(), granted) == Reserved(old(Log()), f.request.askedAt, f.request.grantedAt)
    {
      granted := false;
      if !f.verify { return Known(false), false; }
      if Fresh(verified, portal, f.verifiedRead) { return Known(true), false; }
      if Fresh(unreachable, portal, f.checkedRead) { return Known(false), false; }
      if f.mine { return Known(false), false; }
      if !f.hasClient { return Known(false), false; }
      granted := ReserveCarrierCheck(f.request.askedAt, f.request.grantedAt);
      verdict := Ask;
    }
  }
}
