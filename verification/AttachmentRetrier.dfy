/** The attachment retry queue: rows come due, at most fifty are tried per tick, and
    failures move back; enqueues and restarts may fall between any two of those steps. */
module AttachmentRetrier {
  import opened Bytes

  datatype Key = Key(guid: string, index: int)

  /** Times are in milliseconds; the payload stands for the columns no statement here reads. */
  datatype Row = Row(payload: string, createdAt: int, lastAt: int, attempts: int, nextAt: int)

  type Rows = map<Key, Row>

  const BATCH := 50
  const MAX_ATTEMPTS := 30
  const MAX_LIFETIME := 7 * 24 * 3_600_000
  const TICK_LIMIT := 5 * MINUTE
  const SECOND := 1000
  const MINUTE := 60 * SECOND

  function Backoff(attempt: int): (ms: int)
    ensures 30 * SECOND <= ms <= 360 * MINUTE
  {
    match attempt
    case 1 => 30 * SECOND
    case 2 => 2 * MINUTE
    case 3 => 10 * MINUTE
    case 4 => 30 * MINUTE
    case 5 => 60 * MINUTE
    case _ => 360 * MINUTE
  }

  // ---- One attempt ----

  /** The outside world during one attempt: the bytes each download returned, whether the
      notice was found and the edit queued, and the clock from the look at the tick's
      context before the attempt to the write that ends it. */
  datatype TryInput = TryInput(startedAt: int, mmcs: Option<nat>, cloud: Option<nat>, lookupOk: bool,
                               triedAt: int, checkedAt: int, plannedAt: int, wroteAt: int)

  predicate Delivered(t: TryInput) {
    var bytes := if t.mmcs.Some? then t.mmcs else t.cloud;
    bytes.Some? && bytes.value > 0 && t.lookupOk
  }

  /** The row after an attempt, or none when it succeeded or was given up. */
  function Tried(row: Row, t: TryInput): Option<Row> {
    var attempts := row.attempts + 1;
    if Delivered(t) then None
    else if attempts >= MAX_ATTEMPTS || t.checkedAt - row.createdAt > MAX_LIFETIME then None
    else Some(row.(attempts := attempts, lastAt := t.triedAt, nextAt := t.plannedAt + Backoff(attempts)))
  }

  function TriedRows(rows: Rows, key: Key, t: TryInput): Rows {
    if key !in rows then rows
    else match Tried(rows[key], t) case None => rows - {key} case Some(row) => rows[key := row]
  }

  /** The attempt outlasted its tick: the database refuses the write that ends it. */
  predicate Overran(t: TryInput, ends: int) {
    t.wroteAt >= ends
  }

  /** The zero time of the year 1, which stands for no attempt. */
  const NEVER := -62_135_596_800_000

  function New(payload: string, now: int): Row {
    Row(payload, now, NEVER, 0, now + Backoff(1))
  }

  /** An existing row wins. */
  function InsertedRows(rows: Rows, key: Key, row: Row): Rows {
    if key in rows then rows else rows[key := row]
  }

  // ---- Batches ----

  predicate Due(rows: Rows, key: Key, now: int) {
    key in rows && rows[key].nextAt <= now
  }

  /** Some answer of "oldest first, at most limit": ties may go either way. */
  ghost predicate IsBatch(rows: Rows, now: int, limit: nat, chosen: seq<Key>) {
    && |chosen| <= limit
    && (forall i :: 0 <= i < |chosen| ==> Due(rows, chosen[i], now))
    && (forall i, j :: 0 <= i < j < |chosen| ==>
          chosen[i] != chosen[j] && rows[chosen[i]].nextAt <= rows[chosen[j]].nextAt)
    && (forall key :: Due(rows, key, now) && key !in chosen ==>
          |chosen| == limit && forall i :: 0 <= i < |chosen| ==> rows[chosen[i]].nextAt <= rows[key].nextAt)
  }

  // ---- The machine ----

  /** The table, what is left of the batch in hand and when its tick's context ends, and
      for each row the tries since it was last really inserted, and those of them whose
      outcome was never written. */
  datatype State = State(rows: Rows, queue: seq<Key>, ends: int, tries: map<Key, nat>, lost: map<Key, nat>)

  datatype Step =
    | Enqueue(key: Key, payload: string, now: int)
    | Fetch(begunAt: int, now: int, chosen: seq<Key>)
    | Try(key: Key, input: TryInput)
    | Abandon(now: int)
    | Restart(inFlight: bool)

  ghost predicate Enabled(s: State, step: Step) {
    match step
    case Enqueue(_, _, _) => true
    case Fetch(begunAt, now, chosen) => s.queue == [] && begunAt <= now && IsBatch(s.rows, now, BATCH, chosen)
    case Try(key, input) => s.queue != [] && s.queue[0] == key && input.startedAt < s.ends
    case Abandon(now) => s.queue != [] && now >= s.ends
    case Restart(inFlight) => inFlight ==> s.queue != []
  }

  function At(counts: map<Key, nat>, key: Key): nat {
    if key in counts then counts[key] else 0
  }

  /** The tick ends, and this row's try leaves no trace in the table. */
  function LosesTry(s: State, key: Key): State {
    s.(queue := [], tries := s.tries[key := At(s.tries, key) + 1], lost := s.lost[key := At(s.lost, key) + 1])
  }

  /** An attempt that overran changes no row, and the loop's next look at the context ends
      the tick. A restart keeps only the table, and the row in flight has been tried for
      nothing. */
  function Next(s: State, step: Step): State {
    match step
    case Enqueue(key, payload, now) =>
      var rows := InsertedRows(s.rows, key, New(payload, now));
      if key in s.rows then s.(rows := rows)
      else s.(rows := rows, tries := s.tries[key := 0], lost := s.lost[key := 0])
    case Fetch(begunAt, now, chosen) => s.(queue := chosen, ends := begunAt + TICK_LIMIT)
    case Try(key, input) =>
      if Overran(input, s.ends) then LosesTry(s, key)
      else s.(rows := TriedRows(s.rows, key, input), queue := if s.queue == [] then [] else s.queue[1..],
              tries := s.tries[key := At(s.tries, key) + 1])
    case Abandon(_) => s.(queue := [])
    case Restart(inFlight) => if inFlight && s.queue != [] then LosesTry(s, s.queue[0]) else s.(queue := [])
  }

  function Run(s: State, steps: seq<Step>): State
    decreases |steps|
  {
    if steps == [] then s else Run(Next(s, steps[0]), steps[1..])
  }

  ghost predicate IsRun(s: State, steps: seq<Step>)
    decreases |steps|
  {
    steps == [] || (Enabled(s, steps[0]) && IsRun(Next(s, steps[0]), steps[1..]))
  }

  const START := State(map[], [], 0, map[], map[])

  // ---- Bounded attempts ----

  ghost predicate Counted(s: State, key: Key) {
    && At(s.tries, key) <= MAX_ATTEMPTS + At(s.lost, key)
    && (key in s.rows ==>
          s.rows[key].attempts < MAX_ATTEMPTS && At(s.tries, key) == s.rows[key].attempts + At(s.lost, key))
  }

  ghost predicate Bounded(s: State) {
    && (forall i :: 0 <= i < |s.queue| ==> s.queue[i] in s.rows)
    && (forall i, j :: 0 <= i < j < |s.queue| ==> s.queue[i] != s.queue[j])
    && (forall key :: Counted(s, key))
  }

  lemma BoundedStep(s: State, step: Step)
    requires Bounded(s) && Enabled(s, step)
    ensures Bounded(Next(s, step))
  {
    hide Backoff, Delivered, Counted, TriedRows;
    var n := Next(s, step);
    forall key ensures Counted(n, key) {
      assert Counted(s, key);
      CountedStep(s, step, key);
    }
    if step.Try? { OthersUntouched(s.rows, step.key, step.input); }
  }

  lemma CountedStep(s: State, step: Step, key: Key)
    requires Counted(s, key) && Enabled(s, step)
    requires step.Try? ==> step.key in s.rows
    ensures Counted(Next(s, step), key)
  {
    hide Backoff, Delivered, IsBatch;
  }

  lemma {:induction false} BoundedRun(s: State, steps: seq<Step>)
    requires Bounded(s) && IsRun(s, steps)
    ensures Bounded(Run(s, steps))
    decreases |steps|
  {
    hide Bounded, Next;
    if steps != [] {
      BoundedStep(s, steps[0]);
      BoundedRun(Next(s, steps[0]), steps[1..]);
    }
  }

  /** However often its message is replayed, a pending row is tried at most thirty times
      and once more for each try cut by the end of its tick or by a restart; the count it
      carries is that of the others. */
  lemma AttemptsBounded(steps: seq<Step>, key: Key)
    requires IsRun(START, steps)
    ensures var s := Run(START, steps);
      && At(s.tries, key) <= 30 + At(s.lost, key)
      && (key in s.rows ==> At(s.tries, key) == s.rows[key].attempts + At(s.lost, key))
  {
    assert Bounded(START);
    BoundedRun(START, steps);
    assert Counted(Run(START, steps), key);
  }

  /** So many ticks that a restart cuts during their first attempt. */
  function CutTicks(k: Key, at: int, n: nat): seq<Step> {
    if n == 0 then [] else [Fetch(at, at, [k]), Restart(true)] + CutTicks(k, at, n - 1)
  }

  /** So many ticks, one after the other, whose only attempt outlasts them. */
  function OverrunTicks(k: Key, at: int, n: nat): seq<Step>
    decreases n
  {
    var ends := at + TICK_LIMIT;
    if n == 0 then []
    else
      [Fetch(at, at, [k]), Try(k, TryInput(at, None, None, false, ends, ends, ends, ends))]
      + OverrunTicks(k, ends, n - 1)
  }

  /** The remaining attempts of a row with j behind it, each as soon as it is due. */
  function FailedTicks(k: Key, at: int, j: nat): seq<Step>
    requires j <= MAX_ATTEMPTS
    decreases MAX_ATTEMPTS - j
  {
    if j == MAX_ATTEMPTS then []
    else
      [Fetch(at, at, [k]), Try(k, TryInput(at, None, None, false, at, at, at, at))]
      + FailedTicks(k, at + Backoff(j + 1), j + 1)
  }

  /** The table holds just this row, due, with no batch in hand. */
  ghost predicate Alone(s: State, k: Key, at: int) {
    s.queue == [] && s.rows.Keys == {k} && s.rows[k].nextAt <= at
  }

  /** A run that leaves the row as it is, after so many tries of it for nothing. */
  ghost predicate TriesInVain(s: State, steps: seq<Step>, k: Key, n: nat) {
    var t := Run(s, steps);
    && IsRun(s, steps) && t.rows == s.rows && t.queue == []
    && At(t.tries, k) == At(s.tries, k) + n && At(t.lost, k) == At(s.lost, k) + n
  }

  lemma OneCut(s: State, k: Key, at: int)
    requires Alone(s, k, at)
    ensures TriesInVain(s, [Fetch(at, at, [k]), Restart(true)], k, 1)
  {
    hide Run, IsRun;
    TwoSteps(s, Fetch(at, at, [k]), Restart(true));
  }

  lemma OneOverrun(s: State, k: Key, at: int, input: TryInput)
    requires Alone(s, k, at) && input.startedAt == at && input.wroteAt == at + TICK_LIMIT
    ensures TriesInVain(s, [Fetch(at, at, [k]), Try(k, input)], k, 1)
  {
    hide Run, IsRun, TriedRows;
    TwoSteps(s, Fetch(at, at, [k]), Try(k, input));
  }

  lemma VainConcat(s: State, a: seq<Step>, b: seq<Step>, k: Key, m: nat, n: nat)
    requires TriesInVain(s, a, k, m) && TriesInVain(Run(s, a), b, k, n)
    ensures TriesInVain(s, a + b, k, m + n)
  {
    hide Run, IsRun;
    RunConcat(s, a, b);
  }

  lemma {:induction false} CutTicksRun(s: State, k: Key, at: int, n: nat)
    requires Alone(s, k, at)
    ensures TriesInVain(s, CutTicks(k, at, n), k, n)
    decreases n
  {
    if n > 0 {
      var tick := [Fetch(at, at, [k]), Restart(true)];
      OneCut(s, k, at);
      hide Run, IsRun;
      CutTicksRun(Run(s, tick), k, at, n - 1);
      VainConcat(s, tick, CutTicks(k, at, n - 1), k, 1, n - 1);
    }
  }

  lemma {:induction false} OverrunTicksRun(s: State, k: Key, at: int, n: nat)
    requires Alone(s, k, at)
    ensures TriesInVain(s, OverrunTicks(k, at, n), k, n)
    decreases n
  {
    if n > 0 {
      var ends := at + TICK_LIMIT;
      var input := TryInput(at, None, None, false, ends, ends, ends, ends);
      var tick := [Fetch(at, at, [k]), Try(k, input)];
      OneOverrun(s, k, at, input);
      hide Run, IsRun;
      OverrunTicksRun(Run(s, tick), k, ends, n - 1);
      VainConcat(s, tick, OverrunTicks(k, ends, n - 1), k, 1, n - 1);
    }
  }

  /** How long the last attempt of a row is still away when the next comes due. */
  function Wait(j: nat): nat
    requires j < MAX_ATTEMPTS
    decreases MAX_ATTEMPTS - j
  {
    if j == MAX_ATTEMPTS - 1 then 0 else Backoff(j + 1) + Wait(j + 1)
  }

  /** Six hours. */
  const LONGEST: nat := 21_600_000

  lemma LongBackoff(attempt: int)
    requires attempt > 5
    ensures Backoff(attempt) == LONGEST
  {
  }

  lemma {:induction false} LongWaits(j: nat)
    requires 5 <= j < MAX_ATTEMPTS
    ensures Wait(j) == (29 - j) * LONGEST
    decreases 29 - j
  {
    LongBackoff(j + 1);
    hide Backoff;
    if j < MAX_ATTEMPTS - 1 {
      assert Wait(j) == Backoff(j + 1) + Wait(j + 1);
      hide Wait;
      LongWaits(j + 1);
    }
  }

  lemma ShortWaits()
    ensures Wait(0) == Backoff(1) + Backoff(2) + Backoff(3) + Backoff(4) + Backoff(5) + Wait(5)
  {
    hide Backoff;
    assert Wait(3) == Backoff(4) + Wait(4);
    assert Wait(1) == Backoff(2) + Wait(2);
  }

  /** Thirty attempts fit into the seven days of a row. */
  lemma ThirtyFit()
    ensures Backoff(1) + Wait(0) <= MAX_LIFETIME
  {
    hide Wait;
    ShortWaits();
    LongWaits(5);
  }

  /** A run that tries the row so many times, each of them counted. */
  ghost predicate Counts(s: State, steps: seq<Step>, k: Key, n: nat) {
    var t := Run(s, steps);
    IsRun(s, steps) && At(t.tries, k) == At(s.tries, k) + n && At(t.lost, k) == At(s.lost, k)
  }

  /** The row stands alone with j attempts behind it and time for the others. */
  ghost predicate Ready(s: State, k: Key, at: int, j: nat) {
    && j < MAX_ATTEMPTS && Alone(s, k, at)
    && s.rows[k].attempts == j && s.rows[k].createdAt == 0 && at + Wait(j) <= MAX_LIFETIME
  }

  lemma OneFailure(s: State, k: Key, at: int, j: nat)
    requires Ready(s, k, at, j)
    ensures var steps := [Fetch(at, at, [k]), Try(k, TryInput(at, None, None, false, at, at, at, at))];
      Counts(s, steps, k, 1) && (j + 1 < MAX_ATTEMPTS ==> Ready(Run(s, steps), k, at + Backoff(j + 1), j + 1))
  {
    hide Run, IsRun, Backoff;
    TwoSteps(s, Fetch(at, at, [k]), Try(k, TryInput(at, None, None, false, at, at, at, at)));
    assert [k][1..] == [];
  }

  lemma CountsConcat(s: State, a: seq<Step>, b: seq<Step>, k: Key, m: nat, n: nat)
    requires Counts(s, a, k, m) && Counts(Run(s, a), b, k, n)
    ensures Counts(s, a + b, k, m + n)
  {
    hide Run, IsRun;
    RunConcat(s, a, b);
  }

  lemma {:induction false} FailedTicksRun(s: State, k: Key, at: int, j: nat)
    requires Ready(s, k, at, j)
    ensures Counts(s, FailedTicks(k, at, j), k, MAX_ATTEMPTS - j)
    decreases MAX_ATTEMPTS - j
  {
    hide Run, IsRun, Backoff, Alone, FailedTicks, Wait, Counts;
    var tick := [Fetch(at, at, [k]), Try(k, TryInput(at, None, None, false, at, at, at, at))];
    OneFailure(s, k, at, j);
    NextFailure(k, at, j);
    if j + 1 < MAX_ATTEMPTS {
      var later := at + Backoff(j + 1);
      FailedTicksRun(Run(s, tick), k, later, j + 1);
      CountsConcat(s, tick, FailedTicks(k, later, j + 1), k, 1, MAX_ATTEMPTS - (j + 1));
    }
  }

  lemma NextFailure(k: Key, at: int, j: nat)
    requires j < MAX_ATTEMPTS
    ensures var tick := [Fetch(at, at, [k]), Try(k, TryInput(at, None, None, false, at, at, at, at))];
      FailedTicks(k, at, j)
      == if j + 1 < MAX_ATTEMPTS then tick + FailedTicks(k, at + Backoff(j + 1), j + 1) else tick
  {
    hide Backoff;
  }

  lemma JustEnqueued(k: Key)
    ensures var s := Run(START, [Enqueue(k, "", 0)]);
      && IsRun(START, [Enqueue(k, "", 0)]) && Alone(s, k, Backoff(1))
      && s.rows[k].attempts == s.rows[k].createdAt == 0 && At(s.tries, k) == At(s.lost, k) == 0
  {
    OneStep(START, Enqueue(k, "", 0));
  }

  /** The bound is reached, whatever the number of cut tries, and with it there is none
      that holds for all runs. */
  lemma BoundIsReached(k: Key, m: nat)
    ensures var steps := [Enqueue(k, "", 0)] + CutTicks(k, Backoff(1), m) + FailedTicks(k, Backoff(1), 0);
      && IsRun(START, steps)
      && At(Run(START, steps).tries, k) == 30 + m && At(Run(START, steps).lost, k) == m
  {
    hide Run, IsRun, Backoff, Wait, CutTicks, FailedTicks;
    var at := Backoff(1);
    var first, cut, failed := [Enqueue(k, "", 0)], CutTicks(k, at, m), FailedTicks(k, at, 0);
    JustEnqueued(k);
    CutTicksRun(Run(START, first), k, at, m);
    RunConcat(START, first, cut);
    ThirtyFit();
    FailedTicksRun(Run(START, first + cut), k, at, 0);
    RunConcat(START, first + cut, failed);
  }

  /** Overruns alone do it too: a row can be tried any number of times and count none. */
  lemma OverrunsAreUncounted(k: Key, n: nat)
    ensures var steps := [Enqueue(k, "", 0)] + OverrunTicks(k, Backoff(1), n); var s := Run(START, steps);
      && IsRun(START, steps)
      && At(s.tries, k) == n && At(s.lost, k) == n && k in s.rows && s.rows[k].attempts == 0
  {
    hide Run, IsRun, Backoff, OverrunTicks;
    JustEnqueued(k);
    OverrunTicksRun(Run(START, [Enqueue(k, "", 0)]), k, Backoff(1), n);
    RunConcat(START, [Enqueue(k, "", 0)], OverrunTicks(k, Backoff(1), n));
  }

  /** How a try is lost to its tick: of three rows whose downloads each take two minutes,
      the third is tried, not counted, and still due. */
  lemma ThirdTryIsLost(a: Key, b: Key, c: Key)
    requires a != b && b != c && a != c
    ensures var first := TryInput(30_000, None, None, false, 150_000, 150_000, 150_000, 150_000);
      var second := TryInput(150_000, None, None, false, 270_000, 270_000, 270_000, 270_000);
      var third := TryInput(270_000, None, None, false, 390_000, 390_000, 390_000, 390_000);
      var steps := [Enqueue(a, "", 0), Enqueue(b, "", 0), Enqueue(c, "", 0), Fetch(30_000, 30_000, [a, b, c]),
                    Try(a, first), Try(b, second), Try(c, third)];
      var s := Run(START, steps);
      && IsRun(START, steps)
      && At(s.tries, c) == 1 && c in s.rows && s.rows[c].attempts == 0 && Due(s.rows, c, 390_000)
  {
    hide Next, Enabled, IsBatch;
    var first := TryInput(30_000, None, None, false, 150_000, 150_000, 150_000, 150_000);
    var second := TryInput(150_000, None, None, false, 270_000, 270_000, 270_000, 270_000);
    var third := TryInput(270_000, None, None, false, 390_000, 390_000, 390_000, 390_000);
    var row := New("", 0);
    var s3 := State(map[a := row, b := row, c := row], [], 0, map[a := 0, b := 0, c := 0], map[a := 0, b := 0, c := 0]);
    var early := [Enqueue(a, "", 0), Enqueue(b, "", 0), Enqueue(c, "", 0)];
    ThreeEnqueued(a, b, c);
    var tick := [Fetch(30_000, 30_000, [a, b, c]), Try(a, first), Try(b, second), Try(c, third)];
    ThirdTryInTick(s3, a, b, c, first, second, third);
    RunConcat(START, early, tick);
    assert early + tick == [Enqueue(a, "", 0), Enqueue(b, "", 0), Enqueue(c, "", 0), Fetch(30_000, 30_000, [a, b, c]),
                            Try(a, first), Try(b, second), Try(c, third)];
  }

  lemma ThreeEnqueued(a: Key, b: Key, c: Key)
    requires a != b && b != c && a != c
    ensures var row := New("", 0); var steps := [Enqueue(a, "", 0), Enqueue(b, "", 0), Enqueue(c, "", 0)];
      && IsRun(START, steps)
      && Run(START, steps) == State(map[a := row, b := row, c := row], [], 0,
                                    map[a := 0, b := 0, c := 0], map[a := 0, b := 0, c := 0])
  {
    var row := New("", 0);
    var s1 := Next(START, Enqueue(a, "", 0));
    assert s1.rows == map[a := row] && s1.tries == s1.lost == map[a := 0];
    var s2 := Next(s1, Enqueue(b, "", 0));
    assert s2.rows == map[a := row, b := row] && s2.tries == s2.lost == map[a := 0, b := 0];
    TwoSteps(s1, Enqueue(b, "", 0), Enqueue(c, "", 0));
    assert [Enqueue(a, "", 0), Enqueue(b, "", 0), Enqueue(c, "", 0)][1..] == [Enqueue(b, "", 0), Enqueue(c, "", 0)];
  }

  lemma OneStep(s: State, p: Step)
    ensures Run(s, [p]) == Next(s, p)
    ensures IsRun(s, [p]) <==> Enabled(s, p)
  {
    hide Next, Enabled;
    assert [p][1..] == [];
  }

  lemma TwoSteps(s: State, p: Step, q: Step)
    ensures Run(s, [p, q]) == Next(Next(s, p), q)
    ensures IsRun(s, [p, q]) <==> Enabled(s, p) && Enabled(Next(s, p), q)
  {
    hide Next, Enabled;
    assert [p, q][1..] == [q];
    OneStep(Next(s, p), q);
  }

  lemma ThirdTryInTick(s: State, a: Key, b: Key, c: Key, first: TryInput, second: TryInput, third: TryInput)
    requires a != b && b != c && a != c && s.queue == [] && s.rows.Keys == {a, b, c}
    requires forall key :: key in s.rows ==> s.rows[key] == New("", 0) && At(s.tries, key) == 0
    requires first.wroteAt == 150_000 && second.wroteAt == 270_000 && third.wroteAt == 390_000
    requires first.startedAt == 30_000 && second.startedAt == 150_000 && third.startedAt == 270_000
    ensures var steps := [Fetch(30_000, 30_000, [a, b, c]), Try(a, first), Try(b, second), Try(c, third)];
      var n := Run(s, steps);
      && IsRun(s, steps)
      && At(n.tries, c) == 1 && c in n.rows && n.rows[c].attempts == 0 && Due(n.rows, c, 390_000)
  {
    hide TriedRows, IsBatch;
    var fetch := Fetch(30_000, 30_000, [a, b, c]);
    assert IsBatch(s.rows, 30_000, BATCH, [a, b, c]) by { AllThreeDue(s.rows, a, b, c); }
    var s2 := Next(Next(s, fetch), Try(a, first));
    TwoSteps(s, fetch, Try(a, first));
    OthersUntouched(s.rows, a, first);
    assert [a, b, c][1..] == [b, c];
    LastTwo(s2, b, c, second, third);
    RunConcat(s, [fetch, Try(a, first)], [Try(b, second), Try(c, third)]);
    assert [fetch, Try(a, first)] + [Try(b, second), Try(c, third)]
        == [fetch, Try(a, first), Try(b, second), Try(c, third)];
  }

  lemma AllThreeDue(rows: Rows, a: Key, b: Key, c: Key)
    requires a != b && b != c && a != c && rows.Keys == {a, b, c}
    requires forall key :: key in rows ==> rows[key] == New("", 0)
    ensures IsBatch(rows, 30_000, BATCH, [a, b, c])
  {
  }

  lemma LastTwo(s: State, b: Key, c: Key, second: TryInput, third: TryInput)
    requires b != c && s.queue == [b, c] && s.ends == 330_000
    requires c in s.rows && s.rows[c] == New("", 0) && At(s.tries, c) == 0
    requires second.wroteAt == 270_000 && third.wroteAt == 390_000
    requires second.startedAt == 150_000 && third.startedAt == 270_000
    ensures var n := Run(s, [Try(b, second), Try(c, third)]);
      && IsRun(s, [Try(b, second), Try(c, third)])
      && At(n.tries, c) == 1 && c in n.rows && n.rows[c].attempts == 0 && Due(n.rows, c, 390_000)
  {
    hide TriedRows;
    OthersUntouched(s.rows, b, second);
    assert [b, c][1..] == [c];
    TwoSteps(s, Try(b, second), Try(c, third));
  }

  lemma {:induction false} RunConcat(s: State, a: seq<Step>, b: seq<Step>)
    ensures Run(s, a + b) == Run(Run(s, a), b)
    ensures IsRun(s, a + b) <==> IsRun(s, a) && IsRun(Run(s, a), b)
    ensures Ticks(s, a + b) == Ticks(s, a) + Ticks(Run(s, a), b)
    decreases |a|
  {
    hide Next, Enabled;
    if a == [] {
      assert a + b == b;
    } else {
      assert (a + b)[1..] == a[1..] + b;
      RunConcat(Next(s, a[0]), a[1..], b);
    }
  }

  // ---- No row starves ----

  /** The other rows at or before its due time. */
  ghost function Ahead(rows: Rows, k: Key): set<Key>
    requires k in rows
  {
    set key | key in rows && key != k && rows[key].nextAt <= rows[k].nextAt
  }

  /** One for a tick that begins, taken back when it is cut. */
  function Worth(s: State, step: Step): int {
    match step
    case Fetch(_, _, _) => 1
    case Try(_, input) => if Overran(input, s.ends) then -1 else 0
    case Abandon(_) => -1
    case Restart(_) => if s.queue == [] then 0 else -1
    case Enqueue(_, _, _) => 0
  }

  /** The ticks begun and not cut by the end of their context or a restart. */
  function Ticks(s: State, steps: seq<Step>): int
    decreases |steps|
  {
    if steps == [] then 0 else Worth(s, steps[0]) + Ticks(Next(s, steps[0]), steps[1..])
  }

  predicate Since(step: Step, d: int) {
    match step
    case Enqueue(_, _, now) => now >= d
    case Fetch(_, now, _) => now >= d
    case Try(_, input) => input.plannedAt >= d
    case Abandon(_) => true
    case Restart(_) => true
  }

  /** The row still waits unchanged, and each finished tick took fifty of those ahead. */
  ghost predicate Waits(s: State, k: Key, row: Row, r: int, ticks: int) {
    && k in s.rows && s.rows[k] == row
    && |s.queue| <= BATCH
    && (forall i :: 0 <= i < |s.queue| ==> s.queue[i] in s.rows)
    && (forall i, j :: 0 <= i < j < |s.queue| ==> s.queue[i] != s.queue[j])
    && (if k in s.queue then |Ahead(s.rows, k)| + BATCH * (ticks - 1) <= r
        else
          && |Ahead(s.rows, k)| + BATCH * ticks - |s.queue| <= r
          && forall i :: 0 <= i < |s.queue| ==> s.queue[i] in Ahead(s.rows, k))
  }

  lemma WaitsEnqueue(s: State, step: Step, k: Key, row: Row, r: int, ticks: int)
    requires Waits(s, k, row, r, ticks) && step.Enqueue? && step.now >= row.nextAt
    ensures Waits(Next(s, step), k, row, r, ticks)
  {
    assert Ahead(Next(s, step).rows, k) == Ahead(s.rows, k);
  }

  lemma WaitsFetch(s: State, step: Step, k: Key, row: Row, r: int, ticks: int)
    requires Waits(s, k, row, r, ticks) && step.Fetch? && step.now >= row.nextAt && Enabled(s, step)
    ensures Waits(Next(s, step), k, row, r, ticks + 1)
  {
    assert Due(s.rows, k, step.now);
  }

  lemma WaitsTry(s: State, step: Step, k: Key, row: Row, r: int, ticks: int)
    requires Waits(s, k, row, r, ticks) && step.Try? && step.input.plannedAt >= row.nextAt
    requires Enabled(s, step) && step.key != k && !Overran(step.input, s.ends)
    ensures Waits(Next(s, step), k, row, r, ticks)
  {
    hide Backoff, Delivered;
    var n := Next(s, step);
    assert s.queue == [step.key] + n.queue;
    assert k in s.queue <==> k in n.queue;
    BackoffPositive(s.rows[step.key].attempts + 1);
    assert Ahead(n.rows, k) == Ahead(s.rows, k) - {step.key};
  }

  lemma BackoffPositive(attempt: int)
    ensures Backoff(attempt) > 0
  {
  }

  lemma WaitsCut(s: State, t: State, k: Key, row: Row, r: int, ticks: int)
    requires Waits(s, k, row, r, ticks) && s.queue != [] && t.rows == s.rows && t.queue == []
    ensures Waits(t, k, row, r, ticks - 1)
  {
  }

  lemma WaitsIdle(s: State, t: State, k: Key, row: Row, r: int, ticks: int)
    requires Waits(s, k, row, r, ticks) && t.rows == s.rows && t.queue == s.queue
    ensures Waits(t, k, row, r, ticks)
  {
  }

  lemma WaitsStep(s: State, step: Step, k: Key, row: Row, r: int, ticks: int)
    requires Waits(s, k, row, r, ticks) && Enabled(s, step) && Since(step, row.nextAt)
    requires !(step.Try? && step.key == k)
    ensures Waits(Next(s, step), k, row, r, ticks + Worth(s, step))
  {
    hide Waits, IsBatch, TriedRows, InsertedRows;
    match step {
      case Enqueue(_, _, _) => WaitsEnqueue(s, step, k, row, r, ticks);
      case Fetch(_, _, _) => WaitsFetch(s, step, k, row, r, ticks);
      case Try(_, input) =>
        if Overran(input, s.ends) {
          WaitsCut(s, Next(s, step), k, row, r, ticks);
        } else {
          WaitsTry(s, step, k, row, r, ticks);
        }
      case Abandon(_) => WaitsCut(s, Next(s, step), k, row, r, ticks);
      case Restart(_) =>
        if s.queue != [] {
          WaitsCut(s, Next(s, step), k, row, r, ticks);
        } else {
          WaitsIdle(s, Next(s, step), k, row, r, ticks);
        }
    }
  }

  lemma {:induction false} WaitsRun(s: State, steps: seq<Step>, k: Key, row: Row, r: int, ticks: int)
    requires Waits(s, k, row, r, ticks) && IsRun(s, steps)
    requires forall i :: 0 <= i < |steps| ==> Since(steps[i], row.nextAt) && !(steps[i].Try? && steps[i].key == k)
    ensures Waits(Run(s, steps), k, row, r, ticks + Ticks(s, steps))
    decreases |steps|
  {
    hide Waits, Next, Enabled, Worth;
    if steps != [] {
      WaitsStep(s, steps[0], k, row, r, ticks);
      WaitsRun(Next(s, steps[0]), steps[1..], k, row, r, ticks + Worth(s, steps[0]));
    }
  }

  /** A row with r others at or before its due time is tried within r/50 + 1 whole ticks
      of coming due, whatever is enqueued, fails or ties with it meanwhile. */
  lemma DueRowIsTried(s: State, steps: seq<Step>, k: Key)
    requires IsRun(s, steps) && s.queue == [] && Run(s, steps).queue == [] && k in s.rows
    requires forall i :: 0 <= i < |steps| ==> Since(steps[i], s.rows[k].nextAt)
    requires Ticks(s, steps) > |Ahead(s.rows, k)| / 50
    ensures exists i :: 0 <= i < |steps| && steps[i].Try? && steps[i].key == k
  {
    if forall i :: 0 <= i < |steps| ==> !(steps[i].Try? && steps[i].key == k) {
      WaitsRun(s, steps, k, s.rows[k], |Ahead(s.rows, k)|, 0);
    }
  }

  // ---- The store and the retrier ----

  /** The clock does not go back over the attempts of a tick. */
  predicate InOrder(inputs: seq<TryInput>) {
    && (forall i :: 0 <= i < |inputs| ==> inputs[i].startedAt <= inputs[i].wroteAt)
    && (forall i :: 0 <= i < |inputs| - 1 ==> inputs[i].wroteAt <= inputs[i + 1].startedAt)
  }

  /** The rows after a tick works through a queue until its context ends. */
  function Worked(rows: Rows, queue: seq<Key>, inputs: seq<TryInput>, ends: int): Rows
    requires |queue| <= |inputs|
    decreases |queue|
  {
    if queue == [] || inputs[0].startedAt >= ends || Overran(inputs[0], ends) then rows
    else Worked(TriedRows(rows, queue[0], inputs[0]), queue[1..], inputs[1..], ends)
  }

  predicate Uncut(queue: seq<Key>, inputs: seq<TryInput>, ends: int)
    requires |queue| <= |inputs|
  {
    forall i :: 0 <= i < |queue| ==> inputs[i].startedAt < ends && !Overran(inputs[i], ends)
  }

  lemma {:induction false} WorkIsRun(s: State, inputs: seq<TryInput>) returns (steps: seq<Step>)
    requires |s.queue| <= |inputs|
    ensures IsRun(s, steps) && Run(s, steps).queue == []
    ensures Run(s, steps).rows == Worked(s.rows, s.queue, inputs, s.ends)
    ensures Ticks(s, steps) == if Uncut(s.queue, inputs, s.ends) then 0 else -1
    decreases |s.queue|
  {
    hide TriedRows;
    if s.queue == [] {
      steps := [];
    } else {
      var step := if inputs[0].startedAt >= s.ends then Abandon(inputs[0].startedAt) else Try(s.queue[0], inputs[0]);
      var n := Next(s, step);
      var rest := WorkIsRun(n, inputs[1..]);
      steps := [step] + rest;
      assert steps[1..] == rest;
      if step.Try? && !Overran(inputs[0], s.ends) { UncutRest(s.queue, inputs, s.ends); }
    }
  }

  lemma UncutRest(queue: seq<Key>, inputs: seq<TryInput>, ends: int)
    requires 0 < |queue| <= |inputs| && inputs[0].startedAt < ends && !Overran(inputs[0], ends)
    ensures Uncut(queue, inputs, ends) <==> Uncut(queue[1..], inputs[1..], ends)
  {
    if Uncut(queue[1..], inputs[1..], ends) {
      forall i | 0 <= i < |queue| ensures inputs[i].startedAt < ends && !Overran(inputs[i], ends) {
        assert i > 0 ==> inputs[1..][i - 1] == inputs[i];
      }
    }
  }

  /** A tick with nothing in between is a run of the machine, counted when it is not cut. */
  lemma TickIsRun(s: State, begunAt: int, now: int, chosen: seq<Key>, inputs: seq<TryInput>) returns (steps: seq<Step>)
    requires s.queue == [] && begunAt <= now && IsBatch(s.rows, now, BATCH, chosen) && |inputs| == BATCH
    ensures IsRun(s, steps) && Run(s, steps).queue == []
    ensures Run(s, steps).rows == Worked(s.rows, chosen, inputs, begunAt + TICK_LIMIT)
    ensures Ticks(s, steps) == if Uncut(chosen, inputs, begunAt + TICK_LIMIT) then 1 else 0
  {
    hide Worked;
    var fetch := Fetch(begunAt, now, chosen);
    var rest := WorkIsRun(Next(s, fetch), inputs);
    steps := [fetch] + rest;
    assert steps[1..] == rest;
  }

  lemma {:induction false} OldestExists(rows: Rows, keys: set<Key>) returns (oldest: Key)
    requires keys != {} && keys <= rows.Keys
    ensures oldest in keys && forall key :: key in keys ==> rows[oldest].nextAt <= rows[key].nextAt
    decreases |keys|
  {
    oldest :| oldest in keys;
    if keys != {oldest} {
      var other := OldestExists(rows, keys - {oldest});
      if rows[other].nextAt < rows[oldest].nextAt { oldest := other; }
    }
  }

  /** The rows picked so far are the oldest that are due, in order; due holds the others. */
  ghost predicate Picked(rows: Rows, now: int, chosen: seq<Key>, due: set<Key>) {
    && (forall key :: key in due <==> Due(rows, key, now) && key !in chosen)
    && (forall i :: 0 <= i < |chosen| ==> Due(rows, chosen[i], now))
    && (forall i, j :: 0 <= i < j < |chosen| ==>
          chosen[i] != chosen[j] && rows[chosen[i]].nextAt <= rows[chosen[j]].nextAt)
    && (forall i, key :: 0 <= i < |chosen| && key in due ==> rows[chosen[i]].nextAt <= rows[key].nextAt)
  }

  lemma NonePicked(rows: Rows, now: int, due: set<Key>)
    requires forall key :: key in due <==> Due(rows, key, now)
    ensures Picked(rows, now, [], due)
  {
  }

  lemma OnePicked(rows: Rows, now: int, chosen: seq<Key>, due: set<Key>, k: Key)
    requires Picked(rows, now, chosen, due) && due <= rows.Keys && k in due
    requires forall key :: key in due ==> rows[k].nextAt <= rows[key].nextAt
    ensures Picked(rows, now, chosen + [k], due - {k})
  {
  }

  lemma AllPicked(rows: Rows, now: int, limit: nat, chosen: seq<Key>, due: set<Key>)
    requires Picked(rows, now, chosen, due) && |chosen| <= limit && (|chosen| == limit || due == {})
    ensures IsBatch(rows, now, limit, chosen)
  {
  }

  /** The table; a write under an ended context fails and changes nothing. */
  class PendingAttachmentStore {
    var rows: Rows

    constructor ()
      ensures rows == map[]
    {
      rows := map[];
    }

    method Insert(key: Key, row: Row)
      modifies this
      ensures rows == InsertedRows(old(rows), key, row)
    {
      if key !in rows { rows := rows[key := row]; }
    }

    method GetDue(now: int, limit: nat) returns (chosen: seq<Key>)
      ensures IsBatch(rows, now, limit, chosen)
    {
      hide Picked;
      chosen := [];
      var due := set key | key in rows && rows[key].nextAt <= now;
      NonePicked(rows, now, due);
      while |chosen| < limit && due != {}
        invariant |chosen| <= limit && due <= rows.Keys
        invariant Picked(rows, now, chosen, due)
        decreases due
      {
        ghost var oldest := OldestExists(rows, due);
        var k :| k in due && forall key :: key in due ==> rows[k].nextAt <= rows[key].nextAt;
        OnePicked(rows, now, chosen, due, k);
        chosen := chosen + [k];
        due := due - {k};
      }
      AllPicked(rows, now, limit, chosen, due);
    }

    method UpdateSchedule(key: Key, row: Row, ended: bool) returns (failed: bool)
      modifies this
      ensures failed == ended
      ensures ended || key !in old(rows) ==> rows == old(rows)
      ensures !ended && key in old(rows) ==>
        rows == old(rows)[key := old(rows)[key].(attempts := row.attempts, lastAt := row.lastAt, nextAt := row.nextAt)]
    {
      if ended { return true; }
      if key in rows {
        rows := rows[key := rows[key].(attempts := row.attempts, lastAt := row.lastAt, nextAt := row.nextAt)];
      }
      return false;
    }

    method Delete(key: Key, ended: bool) returns (failed: bool)
      modifies this
      ensures failed == ended && rows == if ended then old(rows) else old(rows) - {key}
    {
      if ended { return true; }
      rows := rows - {key};
      return false;
    }
  }

  class AttachmentRetrier {
    const store: PendingAttachmentStore

    constructor (store: PendingAttachmentStore)
      ensures this.store == store
    {
      this.store := store;
    }

    /** One round over the rows that are due, cut short when its context ends. */
    method Tick(begunAt: int, now: int, inputs: seq<TryInput>) returns (ghost chosen: seq<Key>)
      requires |inputs| == 50 && InOrder(inputs)
      modifies store
      ensures IsBatch(old(store.rows), now, 50, chosen)
      ensures store.rows == Worked(old(store.rows), chosen, inputs, begunAt + 300_000)
    {
      hide TriedRows;
      var ends := begunAt + TICK_LIMIT;
      var keys := store.GetDue(now, BATCH);
      var rows := store.rows;
      ghost var goal := Worked(rows, keys, inputs, ends);
      chosen := keys;
      assert keys[0..] == keys && inputs[0..] == inputs;
      for i := 0 to |keys|
        invariant forall k :: i <= k < |keys| ==> keys[k] in store.rows && store.rows[keys[k]] == rows[keys[k]]
        invariant Worked(store.rows, keys[i..], inputs[i..], ends) == goal
      {
        if inputs[i].startedAt >= ends { return; }
        assert keys[i..][1..] == keys[i + 1..] && inputs[i..][1..] == inputs[i + 1..];
        OthersUntouched(store.rows, keys[i], inputs[i]);
        Attempt(keys[i], rows[keys[i]], inputs[i], ends);
        assert Overran(inputs[i], ends) && i + 1 < |keys| ==> inputs[i + 1..][0].startedAt >= ends;
      }
    }

    /** A write at or after the end of the tick's context fails, and the row stays as it was. */
    method Attempt(key: Key, row: Row, t: TryInput, ends: int)
      requires key in store.rows && store.rows[key] == row
      modifies store
      ensures store.rows == if Overran(t, ends) then old(store.rows) else TriedRows(old(store.rows), key, t)
    {
      var bytes := t.mmcs;
      if bytes == None {
        bytes := t.cloud;
        if bytes == None {
          Reschedule(key, row, t, ends);
          return;
        }
      }
      if bytes.value == 0 {
        Reschedule(key, row, t, ends);
        return;
      }
      if !t.lookupOk {
        Reschedule(key, row, t, ends);
        return;
      }
      var _ := store.Delete(key, t.wroteAt >= ends);
    }

    method Reschedule(key: Key, row: Row, t: TryInput, ends: int)
      requires key in store.rows && store.rows[key] == row && !Delivered(t)
      modifies store
      ensures store.rows == if Overran(t, ends) then old(store.rows) else TriedRows(old(store.rows), key, t)
    {
      var attempts := row.attempts + 1;
      if attempts >= MAX_ATTEMPTS || t.checkedAt - row.createdAt > MAX_LIFETIME {
        var _ := store.Delete(key, t.wroteAt >= ends);
        return;
      }
      var next := row.(attempts := attempts, lastAt := t.triedAt, nextAt := t.plannedAt + Backoff(attempts));
      var _ := store.UpdateSchedule(key, next, t.wroteAt >= ends);
    }
  }

  /** A try leaves every other row as it was. */
  lemma OthersUntouched(rows: Rows, key: Key, t: TryInput)
    ensures forall k :: k in rows && k != key ==> k in TriedRows(rows, key, t) && TriedRows(rows, key, t)[k] == rows[k]
  {
  }
}
