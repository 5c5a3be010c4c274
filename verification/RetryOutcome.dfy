/** What becomes of a pending attachment: when its row appears, how a failure moves it back,
    and the only ways in which it leaves the table. */
module RetryOutcome {
  import opened Bytes
  import opened AttachmentRetrier

  /** Some bytes came, from MMCS or, where that failed, from CloudKit, and the edit that
      delivers them was queued. */
  ghost predicate Recovered(t: TryInput) {
    && t.lookupOk
    && (if t.mmcs.Some? then t.mmcs.value >= 1 else t.cloud.Some? && t.cloud.value >= 1)
  }

  /** The step is a try of the row that was written in time, and delivered it, was its thirtieth,
      or found it more than seven days old. */
  ghost predicate Ends(s: State, step: Step, key: Key) {
    && step.Try? && step.key == key && step.input.wroteAt < s.ends && key in s.rows
    && (Recovered(step.input) || s.rows[key].attempts >= 29
        || step.input.checkedAt - s.rows[key].createdAt > 604_800_000)
  }

  /** The delay after so many failures: 30 s, 2, 10, 30 and 60 minutes, then six hours. */
  lemma Delays(n: int)
    ensures Backoff(1) == 30_000 && Backoff(2) == 120_000 && Backoff(3) == 600_000
    ensures Backoff(4) == 1_800_000 && Backoff(5) == 3_600_000
    ensures n >= 6 ==> Backoff(n) == 21_600_000
  {
  }

  /** A row leaves the table only so. */
  lemma LeavesIff(s: State, step: Step, key: Key)
    requires Enabled(s, step) && key in s.rows
    ensures key !in Next(s, step).rows <==> Ends(s, step, key)
  {
    hide Backoff, IsBatch;
  }

  /** Over a whole run, a row that is gone has ended at one of its tries. */
  lemma {:induction false} GoneHasEnded(s: State, steps: seq<Step>, key: Key) returns (i: nat)
    requires IsRun(s, steps) && key in s.rows && key !in Run(s, steps).rows
    ensures i < |steps| && Ends(Run(s, steps[..i]), steps[i], key)
    decreases |steps|
  {
    hide Next, Enabled, Ends;
    LeavesIff(s, steps[0], key);
    if Ends(s, steps[0], key) {
      i := 0;
      assert steps[..0] == [];
    } else {
      var j := GoneHasEnded(Next(s, steps[0]), steps[1..], key);
      i := j + 1;
      assert steps[..i][1..] == steps[1..][..j] && steps[..i][0] == steps[0];
    }
  }

  /** A failed try written in time counts, and puts the row off by the delay its count calls for;
      every other step leaves a row that stays as it was. */
  lemma StaysAs(s: State, step: Step, key: Key)
    requires Enabled(s, step) && key in s.rows && key in Next(s, step).rows
    ensures var row, next := s.rows[key], Next(s, step).rows[key];
      if step.Try? && step.key == key && step.input.wroteAt < s.ends
      then
        && next.payload == row.payload && next.createdAt == row.createdAt
        && next.attempts == row.attempts + 1 && next.lastAt == step.input.triedAt
        && next.nextAt == step.input.plannedAt + Backoff(row.attempts + 1)
      else next == row
  {
    hide Backoff, IsBatch;
  }

  /** A row appears only by an enqueue, to be tried in thirty seconds. */
  lemma AppearsAs(s: State, step: Step, key: Key)
    requires Enabled(s, step) && key !in s.rows && key in Next(s, step).rows
    ensures step.Enqueue? && step.key == key
    ensures Next(s, step).rows[key] == Row(step.payload, step.now, -62_135_596_800_000, 0, step.now + 30_000)
  {
    hide IsBatch;
  }

  ghost predicate NeverEnds(s: State, steps: seq<Step>, key: Key)
    decreases |steps|
  {
    steps == [] || (!Ends(s, steps[0], key) && NeverEnds(Next(s, steps[0]), steps[1..], key))
  }

  /** A row keeps its payload and its age as long as it is in the table, however often it is
      enqueued again. */
  lemma {:induction false} AgeIsKept(s: State, steps: seq<Step>, key: Key)
    requires IsRun(s, steps) && key in s.rows && NeverEnds(s, steps, key)
    ensures var t := Run(s, steps);
      && key in t.rows && t.rows[key].payload == s.rows[key].payload
      && t.rows[key].createdAt == s.rows[key].createdAt && t.rows[key].attempts >= s.rows[key].attempts
    decreases |steps|
  {
    hide Next, Enabled, Ends;
    if steps != [] {
      LeavesIff(s, steps[0], key);
      StaysAs(s, steps[0], key);
      AgeIsKept(Next(s, steps[0]), steps[1..], key);
    }
  }
}
