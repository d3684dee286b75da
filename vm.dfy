/**
 * The power-state machine of one VM: reading its power state, submitting
 * power tasks and waiting for them, the retried `_invoke_*` helpers (at most
 * 12 attempts) and the confirmation poll (at most 60 attempts).
 *
 * The host is an oracle: `observe(n)` is the state the VM reports at its n-th
 * reading and `succeeds(n)` whether its n-th submitted task ends in success.
 * Attempts are counted; the fixed waits between them are not modelled.
 */
module Vm {
  import opened Wrappers
  import opened Gateway

  /** The tasks the core submits against a VM. */
  datatype PowerOp = PowerOnTask | PowerOffTask | SuspendTask | DestroyTask

  /** One remote interaction: a power-state reading, or a task submitted and waited for. */
  datatype Event = Read(state: PowerState) | Submit(op: PowerOp, succeeded: bool)

  /** How many readings and task outcomes of the oracle have been consumed. */
  datatype Pos = Pos(readings: nat, tasks: nat)

  /** The interactions of one operation, the error it ends with (if any), and the oracle position after it. */
  datatype Run = Run(events: seq<Event>, error: Option<Error>, next: Pos)

  /** `stop_after_attempt(12)` on the `_invoke_*` helpers. */
  const InvokeAttempts: nat := 12

  /** `stop_after_attempt(60)` on `_wait_until_power_state_is`. */
  const ConfirmAttempts: nat := 60

  /** A run preceded by some interactions. */
  function Prepend(prefix: seq<Event>, run: Run): Run
  {
    Run(prefix + run.events, run.error, run.next)
  }

  /** The tasks submitted in a sequence of interactions, in order. */
  function Ops(events: seq<Event>): seq<PowerOp>
  {
    if events == [] then []
    else (if events[0].Submit? then [events[0].op] else []) + Ops(events[1..])
  }

  /** The tasks of two stretches of interactions are those of the first, then those of the second. */
  lemma {:induction false} OpsOfConcat(a: seq<Event>, b: seq<Event>)
    ensures Ops(a + b) == Ops(a) + Ops(b)
  {
    if a == [] {
      assert a + b == b;
    } else {
      assert (a + b)[0] == a[0];
      assert (a + b)[1..] == a[1..] + b;
      OpsOfConcat(a[1..], b);
    }
  }

  /** `WaitForTask(vim_obj.<Op>())`: one submission, failing with the task's error when it does not succeed. */
  function SubmitRun(op: PowerOp, succeeds: nat -> bool, p: Pos): (run: Run)
  {
    Run([Submit(op, succeeds(p.tasks))],
        if succeeds(p.tasks) then None else Some(TaskFailed),
        Pos(p.readings, p.tasks + 1))
  }

  /**
   * tenacity's `retry` with `stop_after_attempt(attempts)`: run the body;
   * stop at its first normal return, retry after any error, and give up with
   * `RetryError` once no attempt is left.
   */
  function Retry(body: Pos -> Run, p: Pos, attempts: nat): (run: Run)
    decreases attempts
  {
    if attempts == 0 then Run([], Some(RetryError), p)
    else
      var first := body(p);
      if first.error.None? then first
      else Prepend(first.events, Retry(body, first.next, attempts - 1))
  }

  /**
   * The body of an `_invoke_*` helper: read the state; return at once when it
   * is already `target`, otherwise submit `op` and wait for it.
   */
  function InvokeAttemptRun(target: PowerState, op: PowerOp, observe: nat -> PowerState, succeeds: nat -> bool,
                            p: Pos): (run: Run)
  {
    var state := observe(p.readings);
    if state == target then Run([Read(state)], None, Pos(p.readings + 1, p.tasks))
    else Run([Read(state), Submit(op, succeeds(p.tasks))],
             if succeeds(p.tasks) then None else Some(TaskFailed),
             Pos(p.readings + 1, p.tasks + 1))
  }

  /** The `_invoke_*` body as the retry decorator sees it. */
  function InvokeBody(target: PowerState, op: PowerOp, observe: nat -> PowerState, succeeds: nat -> bool): Pos -> Run
  {
    (p: Pos) => InvokeAttemptRun(target, op, observe, succeeds, p)
  }

  /** An `_invoke_*` helper under `@retry(stop=stop_after_attempt(12))`. */
  function InvokeRun(target: PowerState, op: PowerOp, observe: nat -> PowerState, succeeds: nat -> bool,
                     attempts: nat, p: Pos): Run
  {
    Retry(InvokeBody(target, op, observe, succeeds), p, attempts)
  }

  /** The body of `_wait_until_power_state_is`: read the state, and ask for another attempt unless it is `expected`. */
  function ConfirmAttemptRun(expected: PowerState, observe: nat -> PowerState, p: Pos): (run: Run)
  {
    var state := observe(p.readings);
    Run([Read(state)], if state == expected then None else Some(TryAgain), Pos(p.readings + 1, p.tasks))
  }

  /** The confirmation body as the retry decorator sees it. */
  function ConfirmBody(expected: PowerState, observe: nat -> PowerState): Pos -> Run
  {
    (p: Pos) => ConfirmAttemptRun(expected, observe, p)
  }

  /** `_wait_until_power_state_is` under `@retry(stop=stop_after_attempt(60))`. */
  function WaitRun(expected: PowerState, observe: nat -> PowerState, attempts: nat, p: Pos): Run
  {
    Retry(ConfirmBody(expected, observe), p, attempts)
  }

  /** `power_on` / `power_off`: the retried invocation, then, if it succeeded, the confirmation poll. */
  function TransitionRun(target: PowerState, op: PowerOp, observe: nat -> PowerState, succeeds: nat -> bool,
                         invokeAttempts: nat, confirmAttempts: nat, p: Pos): (run: Run)
  {
    var invoke := InvokeRun(target, op, observe, succeeds, invokeAttempts, p);
    if invoke.error.Some? then invoke
    else Prepend(invoke.events, WaitRun(target, observe, confirmAttempts, invoke.next))
  }

  /** Appending interactions is associative. */
  lemma AppendAssoc(a: seq<Event>, b: seq<Event>, c: seq<Event>)
    ensures a + b + c == a + (b + c)
  {
  }

  /** Attempt `k` of an invocation starting at `p` succeeds: the state read is already `target`, or the task succeeds. */
  predicate AttemptSucceeds(target: PowerState, observe: nat -> PowerState, succeeds: nat -> bool, p: Pos, k: nat)
  {
    observe(p.readings + k) == target || succeeds(p.tasks + k)
  }

  /** Attempt `k` of a poll starting at `p` reads the expected state. */
  predicate AttemptConfirms(expected: PowerState, observe: nat -> PowerState, p: Pos, k: nat)
  {
    observe(p.readings + k) == expected
  }

  /**
   * One invocation attempt reads once and submits `op` only when the state
   * differs from `target`; it fails only when that task fails.
   */
  lemma InvokeAttemptShape(target: PowerState, op: PowerOp, observe: nat -> PowerState, succeeds: nat -> bool, p: Pos)
    ensures var a := InvokeAttemptRun(target, op, observe, succeeds, p);
      && Ops(a.events) == (if observe(p.readings) == target then [] else [op])
      && a.next == Pos(p.readings + 1, p.tasks + |Ops(a.events)|)
      && (a.error.None? <==> AttemptSucceeds(target, observe, succeeds, p, 0))
      && (a.error.Some? ==> a.next == Pos(p.readings + 1, p.tasks + 1))
  {
    var a := InvokeAttemptRun(target, op, observe, succeeds, p);
    if observe(p.readings) == target {
      assert Ops(a.events) == [] + Ops([]);
    } else {
      assert a.events[1..] == [Submit(op, succeeds(p.tasks))];
      assert Ops(a.events[1..]) == [op] + Ops([]);
    }
  }

  /** An invocation that finds the VM already in the target state submits nothing and succeeds. */
  lemma InvokeIsNoOpInTargetState(target: PowerState, op: PowerOp, observe: nat -> PowerState, succeeds: nat -> bool,
                                  attempts: nat, p: Pos)
    requires attempts > 0 && observe(p.readings) == target
    ensures var run := InvokeRun(target, op, observe, succeeds, attempts, p);
      run.error.None? && Ops(run.events) == [] && run.next.tasks == p.tasks
  {
    InvokeAttemptShape(target, op, observe, succeeds, p);
  }

  /** Every task in `ops` is `op`. */
  predicate AllAre(ops: seq<PowerOp>, op: PowerOp)
  {
    forall i :: 0 <= i < |ops| ==> ops[i] == op
  }

  /** Two stretches of tasks that are all `op` make one. */
  lemma AllAreConcat(a: seq<PowerOp>, b: seq<PowerOp>, op: PowerOp)
    requires AllAre(a, op) && AllAre(b, op)
    ensures AllAre(a + b, op)
  {
  }

  /** One attempt submits `op` at most once and consumes one task outcome per submission. */
  predicate SubmitsAtMostOnce(a: Run, q: Pos, op: PowerOp)
  {
    |Ops(a.events)| <= 1 && AllAre(Ops(a.events), op) && a.next.tasks == q.tasks + |Ops(a.events)|
  }

  /**
   * If every attempt submits `op` at most once, the retried body submits
   * only `op`, at most once per attempt, consuming one task outcome per
   * submission.
   */
  lemma {:induction false} RetryBounded(body: Pos -> Run, p: Pos, attempts: nat, op: PowerOp)
    requires forall q :: SubmitsAtMostOnce(body(q), q, op)
    ensures var run := Retry(body, p, attempts);
      && |Ops(run.events)| <= attempts
      && AllAre(Ops(run.events), op)
      && run.next.tasks == p.tasks + |Ops(run.events)|
    decreases attempts
  {
    if attempts > 0 {
      var a := body(p);
      assert SubmitsAtMostOnce(a, p, op);
      if a.error.Some? {
        var rest := Retry(body, a.next, attempts - 1);
        RetryBounded(body, a.next, attempts - 1, op);
        OpsOfConcat(a.events, rest.events);
        AllAreConcat(Ops(a.events), Ops(rest.events), op);
      }
    }
  }

  /** If no attempt submits anything, neither does the retried body, and no task outcome is consumed. */
  lemma {:induction false} RetrySubmitsNothing(body: Pos -> Run, p: Pos, attempts: nat)
    requires forall q :: Ops(body(q).events) == [] && body(q).next.tasks == q.tasks
    ensures var run := Retry(body, p, attempts);
      Ops(run.events) == [] && run.next.tasks == p.tasks
    decreases attempts
  {
    if attempts > 0 {
      var a := body(p);
      if a.error.Some? {
        var rest := Retry(body, a.next, attempts - 1);
        RetrySubmitsNothing(body, a.next, attempts - 1);
        OpsOfConcat(a.events, rest.events);
      }
    }
  }

  /**
   * The retried body fails only by giving up, and, when every attempt is a
   * single interaction, only after one interaction per attempt.
   */
  lemma {:induction false} RetryGivesUpAfterAllAttempts(body: Pos -> Run, p: Pos, attempts: nat)
    requires forall q :: |body(q).events| == 1
    ensures var run := Retry(body, p, attempts);
      run.error.Some? ==> run.error == Some(RetryError) && |run.events| == attempts
    decreases attempts
  {
    if attempts > 0 {
      var a := body(p);
      assert |a.events| == 1;
      if a.error.Some? {
        RetryGivesUpAfterAllAttempts(body, a.next, attempts - 1);
      }
    }
  }

  /** Whatever the body, the retried body's only error is the decorator giving up. */
  lemma {:induction false} RetryFailsOnlyByGivingUp(body: Pos -> Run, p: Pos, attempts: nat)
    ensures var run := Retry(body, p, attempts);
      run.error.Some? ==> run.error == Some(RetryError)
    decreases attempts
  {
    if attempts > 0 && body(p).error.Some? {
      RetryFailsOnlyByGivingUp(body, body(p).next, attempts - 1);
    }
  }

  /**
   * A retried invocation submits only `op`, at most once per attempt, and
   * consumes one task outcome per submission; it fails only by giving up.
   */
  lemma InvokeBounded(target: PowerState, op: PowerOp, observe: nat -> PowerState, succeeds: nat -> bool,
                      p: Pos, attempts: nat)
    ensures var run := InvokeRun(target, op, observe, succeeds, attempts, p);
      && |Ops(run.events)| <= attempts
      && AllAre(Ops(run.events), op)
      && run.next.tasks == p.tasks + |Ops(run.events)|
      && (run.error.Some? ==> run.error == Some(RetryError))
  {
    var body := InvokeBody(target, op, observe, succeeds);
    forall q ensures SubmitsAtMostOnce(body(q), q, op) {
      InvokeAttemptShape(target, op, observe, succeeds, q);
    }
    RetryBounded(body, p, attempts, op);
    RetryFailsOnlyByGivingUp(body, p, attempts);
  }

  /** Where the attempt `k` steps later starts, when every attempt before it failed and moved on by `next`. */
  function Advance(next: Pos -> Pos, p: Pos, k: nat): Pos
    decreases k
  {
    if k == 0 then p else Advance(next, next(p), k - 1)
  }

  /**
   * If an attempt succeeds exactly when `ok` holds at its start, and a failed
   * attempt moves on by `next`, the retried body succeeds exactly when `ok`
   * holds at the start of one of its attempts.
   */
  lemma {:induction false} RetrySucceedsIff(body: Pos -> Run, next: Pos -> Pos, ok: Pos -> bool, p: Pos, attempts: nat)
    requires forall q :: (body(q).error.None? <==> ok(q)) && (body(q).error.Some? ==> body(q).next == next(q))
    ensures Retry(body, p, attempts).error.None? <==> exists k: nat :: k < attempts && ok(Advance(next, p, k))
    decreases attempts
  {
    if attempts > 0 {
      assert Advance(next, p, 0) == p;
      if ok(p) {
        assert ok(Advance(next, p, 0));
      } else {
        assert body(p).error.Some? && body(p).next == next(p);
        RetrySucceedsIff(body, next, ok, next(p), attempts - 1);
        assert Retry(body, p, attempts).error == Retry(body, next(p), attempts - 1).error;
        if exists k: nat :: k < attempts && ok(Advance(next, p, k)) {
          var k: nat :| k < attempts && ok(Advance(next, p, k));
          assert k != 0;
          assert Advance(next, p, k) == Advance(next, next(p), k - 1);
          assert ok(Advance(next, next(p), k - 1));
          assert exists j: nat :: j < attempts - 1 && ok(Advance(next, next(p), j));
        }
        if exists k: nat :: k < attempts - 1 && ok(Advance(next, next(p), k)) {
          var k: nat :| k < attempts - 1 && ok(Advance(next, next(p), k));
          assert Advance(next, p, k + 1) == Advance(next, next(p), k);
          assert ok(Advance(next, p, k + 1));
          assert Retry(body, next(p), attempts - 1).error.None?;
          assert Retry(body, p, attempts).error.None?;
          assert exists j: nat :: j < attempts && ok(Advance(next, p, j));
        }
      }
    }
  }

  /** If every successful attempt ends with interaction `e`, so does a successful retried body. */
  lemma {:induction false} RetrySuccessEndsWith(body: Pos -> Run, e: Event, p: Pos, attempts: nat)
    requires forall q :: body(q).error.None? ==> body(q).events != [] && body(q).events[|body(q).events| - 1] == e
    ensures var run := Retry(body, p, attempts);
      run.error.None? ==> run.events != [] && run.events[|run.events| - 1] == e
    decreases attempts
  {
    if attempts > 0 && body(p).error.Some? {
      RetrySuccessEndsWith(body, e, body(p).next, attempts - 1);
    }
  }

  /** A failed attempt's move: one reading and `dt` task outcomes consumed. */
  function Moving(dt: nat): Pos -> Pos
  {
    (q: Pos) => Pos(q.readings + 1, q.tasks + dt)
  }

  /** Moving on by one reading and `dt` task outcomes `k` times moves on by `k` readings and `k * dt` outcomes. */
  lemma {:induction false} AdvanceBy(dt: nat, p: Pos, k: nat)
    requires dt <= 1
    ensures Advance(Moving(dt), p, k) == Pos(p.readings + k, p.tasks + dt * k)
    decreases k
  {
    if k > 0 {
      AdvanceBy(dt, Pos(p.readings + 1, p.tasks + dt), k - 1);
    }
  }

  /**
   * A retried invocation succeeds exactly when one of its attempts does:
   * attempt `k` reads the state at reading `p.readings + k` and, if it
   * submits, uses task outcome `p.tasks + k`.
   */
  lemma InvokeSucceedsIff(target: PowerState, op: PowerOp, observe: nat -> PowerState, succeeds: nat -> bool,
                          p: Pos, attempts: nat)
    ensures InvokeRun(target, op, observe, succeeds, attempts, p).error.None? <==>
            exists k: nat :: k < attempts && AttemptSucceeds(target, observe, succeeds, p, k)
  {
    var body := InvokeBody(target, op, observe, succeeds);
    var ok := (q: Pos) => AttemptSucceeds(target, observe, succeeds, q, 0);
    forall q ensures (body(q).error.None? <==> ok(q)) && (body(q).error.Some? ==> body(q).next == Moving(1)(q)) {
      InvokeAttemptShape(target, op, observe, succeeds, q);
    }
    RetrySucceedsIff(body, Moving(1), ok, p, attempts);
    InvokeAttemptsLineUp(target, observe, succeeds, p, attempts);
  }

  /** Attempt `k` of a run of failing invocation attempts starts at reading and task outcome `k` past the first. */
  lemma InvokeAttemptsLineUp(target: PowerState, observe: nat -> PowerState, succeeds: nat -> bool, p: Pos, attempts: nat)
    ensures (exists k: nat :: k < attempts && AttemptSucceeds(target, observe, succeeds, Advance(Moving(1), p, k), 0))
        <==> exists k: nat :: k < attempts && AttemptSucceeds(target, observe, succeeds, p, k)
  {
    if exists k: nat :: k < attempts && AttemptSucceeds(target, observe, succeeds, Advance(Moving(1), p, k), 0) {
      var k: nat :| k < attempts && AttemptSucceeds(target, observe, succeeds, Advance(Moving(1), p, k), 0);
      AdvanceBy(1, p, k);
      assert AttemptSucceeds(target, observe, succeeds, p, k);
    }
    if exists k: nat :: k < attempts && AttemptSucceeds(target, observe, succeeds, p, k) {
      var k: nat :| k < attempts && AttemptSucceeds(target, observe, succeeds, p, k);
      AdvanceBy(1, p, k);
      assert AttemptSucceeds(target, observe, succeeds, Advance(Moving(1), p, k), 0);
    }
  }

  /** The poll submits nothing, and when it fails it has read once per attempt and the decorator gave up. */
  lemma WaitSubmitsNothing(expected: PowerState, observe: nat -> PowerState, p: Pos, attempts: nat)
    ensures var run := WaitRun(expected, observe, attempts, p);
      && Ops(run.events) == []
      && run.next.tasks == p.tasks
      && (run.error.Some? ==> run.error == Some(RetryError) && |run.events| == attempts)
  {
    var body := ConfirmBody(expected, observe);
    forall q ensures Ops(body(q).events) == [] && body(q).next.tasks == q.tasks && |body(q).events| == 1 {
      assert Ops(body(q).events) == [] + Ops([]);
    }
    RetrySubmitsNothing(body, p, attempts);
    RetryGivesUpAfterAllAttempts(body, p, attempts);
  }

  /**
   * The poll succeeds exactly when one of its readings is the expected
   * state, and then its last interaction is that reading.
   */
  lemma WaitSucceedsIff(expected: PowerState, observe: nat -> PowerState, p: Pos, attempts: nat)
    ensures var run := WaitRun(expected, observe, attempts, p);
      && (run.error.None? <==> exists k: nat :: k < attempts && AttemptConfirms(expected, observe, p, k))
      && (run.error.None? ==> run.events != [] && run.events[|run.events| - 1] == Read(expected))
  {
    var body := ConfirmBody(expected, observe);
    var ok := (q: Pos) => AttemptConfirms(expected, observe, q, 0);
    forall q ensures (body(q).error.None? <==> ok(q)) && (body(q).error.Some? ==> body(q).next == Moving(0)(q)) {
    }
    RetrySucceedsIff(body, Moving(0), ok, p, attempts);
    ConfirmAttemptsLineUp(expected, observe, p, attempts);
    RetrySuccessEndsWith(body, Read(expected), p, attempts);
  }

  /** Attempt `k` of a run of failing polls reads reading `k` past the first. */
  lemma ConfirmAttemptsLineUp(expected: PowerState, observe: nat -> PowerState, p: Pos, attempts: nat)
    ensures (exists k: nat :: k < attempts && AttemptConfirms(expected, observe, Advance(Moving(0), p, k), 0))
        <==> exists k: nat :: k < attempts && AttemptConfirms(expected, observe, p, k)
  {
    if exists k: nat :: k < attempts && AttemptConfirms(expected, observe, Advance(Moving(0), p, k), 0) {
      var k: nat :| k < attempts && AttemptConfirms(expected, observe, Advance(Moving(0), p, k), 0);
      AdvanceBy(0, p, k);
      assert AttemptConfirms(expected, observe, p, k);
    }
    if exists k: nat :: k < attempts && AttemptConfirms(expected, observe, p, k) {
      var k: nat :| k < attempts && AttemptConfirms(expected, observe, p, k);
      AdvanceBy(0, p, k);
      assert AttemptConfirms(expected, observe, Advance(Moving(0), p, k), 0);
    }
  }

  /**
   * `power_on` / `power_off` return normally only after the target state has
   * been read: a successful run ends with that reading. Every task they
   * submit is `op`, at most 12 of them.
   */
  lemma TransitionConfirmed(target: PowerState, op: PowerOp, observe: nat -> PowerState, succeeds: nat -> bool,
                            invokeAttempts: nat, confirmAttempts: nat, p: Pos)
    ensures var run := TransitionRun(target, op, observe, succeeds, invokeAttempts, confirmAttempts, p);
      && (run.error.None? ==> run.events != [] && run.events[|run.events| - 1] == Read(target))
      && |Ops(run.events)| <= invokeAttempts
      && AllAre(Ops(run.events), op)
      && run.next.tasks == p.tasks + |Ops(run.events)|
  {
    var invoke := InvokeRun(target, op, observe, succeeds, invokeAttempts, p);
    InvokeBounded(target, op, observe, succeeds, p, invokeAttempts);
    if invoke.error.None? {
      var wait := WaitRun(target, observe, confirmAttempts, invoke.next);
      WaitSubmitsNothing(target, observe, invoke.next, confirmAttempts);
      WaitSucceedsIff(target, observe, invoke.next, confirmAttempts);
      OpsOfConcat(invoke.events, wait.events);
    }
  }

  /** `suspend` submits Suspend once, unconditionally, without reading the state or polling. */
  lemma SuspendSubmitsOnce(succeeds: nat -> bool, p: Pos)
    ensures var run := SubmitRun(SuspendTask, succeeds, p);
      && Ops(run.events) == [SuspendTask]
      && (forall i :: 0 <= i < |run.events| ==> run.events[i].Submit?)
      && (run.error.None? <==> succeeds(p.tasks))
  {
    var run := SubmitRun(SuspendTask, succeeds, p);
    assert Ops(run.events) == [SuspendTask] + Ops([]);
  }

  /**
   * `VM`: a handle on one remote virtual machine. `host` is the managed
   * object of the host `vm.esxi` stands for; `pos` and `events` record what
   * has been consumed from the oracle and every interaction so far.
   */
  class VM {
    const vimObj: ManagedObject
    const host: Option<ManagedObject>
    const observe: nat -> PowerState
    const succeeds: nat -> bool
    const invokeAttempts: nat
    const confirmAttempts: nat
    var pos: Pos
    var events: seq<Event>

    /** `VM(vim_obj)`: a handle on the VM with nothing consumed yet. */
    constructor(vimObj: ManagedObject, world: Inventory)
      ensures this.vimObj == vimObj && host == world.hostOf(vimObj)
      ensures observe == world.powerReadings(vimObj) && succeeds == world.taskOutcomes(vimObj)
      ensures invokeAttempts == InvokeAttempts && confirmAttempts == ConfirmAttempts
      ensures pos == Pos(0, 0) && events == []
    {
      this.vimObj := vimObj;
      host := world.hostOf(vimObj);
      observe := world.powerReadings(vimObj);
      succeeds := world.taskOutcomes(vimObj);
      invokeAttempts := InvokeAttempts;
      confirmAttempts := ConfirmAttempts;
      pos := Pos(0, 0);
      events := [];
    }

    /** The `power_state` property: the next reading of the oracle. */
    method PowerState() returns (s: PowerState)
      modifies this
      ensures s == observe(old(pos).readings)
      ensures pos == Pos(old(pos).readings + 1, old(pos).tasks) && events == old(events) + [Read(s)]
    {
      s := observe(pos.readings);
      pos := Pos(pos.readings + 1, pos.tasks);
      events := events + [Read(s)];
    }

    /** `WaitForTask(self.vim_obj.<Op>())`. */
    method RunTask(op: PowerOp) returns (err: Option<Error>)
      modifies this
      ensures var run := SubmitRun(op, succeeds, old(pos));
        events == old(events) + run.events && err == run.error && pos == run.next
    {
      var ok := succeeds(pos.tasks);
      events := events + [Submit(op, ok)];
      pos := Pos(pos.readings, pos.tasks + 1);
      err := if ok then None else Some(TaskFailed);
    }

    /** One attempt of an `_invoke_*` helper's body. */
    method InvokeAttempt(target: PowerState, op: PowerOp) returns (err: Option<Error>)
      modifies this
      ensures var run := InvokeBody(target, op, observe, succeeds)(old(pos));
        events == old(events) + run.events && err == run.error && pos == run.next
    {
      var state := PowerState();
      if state == target {
        return None;
      }
      err := RunTask(op);
    }

    /** An `_invoke_*` helper: its body retried under `stop_after_attempt(12)`. */
    method InvokeTransition(target: PowerState, op: PowerOp) returns (err: Option<Error>)
      modifies this
      ensures var run := InvokeRun(target, op, observe, succeeds, invokeAttempts, old(pos));
        events == old(events) + run.events && err == run.error && pos == run.next
    {
      err := InvokeRetrying(target, op, invokeAttempts);
    }

    /** The retry decorator around `_invoke_*`'s body, with `attemptsLeft` attempts to go. */
    method InvokeRetrying(target: PowerState, op: PowerOp, attemptsLeft: nat) returns (err: Option<Error>)
      modifies this
      ensures var run := Retry(InvokeBody(target, op, observe, succeeds), old(pos), attemptsLeft);
        events == old(events) + run.events && err == run.error && pos == run.next
      decreases attemptsLeft
    {
      if attemptsLeft == 0 {
        return Some(RetryError);
      }
      ghost var a := InvokeBody(target, op, observe, succeeds)(pos);
      err := InvokeAttempt(target, op);
      if err.None? {
        return;
      }
      ghost var rest := Retry(InvokeBody(target, op, observe, succeeds), pos, attemptsLeft - 1);
      err := InvokeRetrying(target, op, attemptsLeft - 1);
      AppendAssoc(old(events), a.events, rest.events);
    }

    /** `_invoke_power_on`. */
    method InvokePowerOn() returns (err: Option<Error>)
      modifies this
      ensures var run := InvokeRun(PoweredOn, PowerOnTask, observe, succeeds, invokeAttempts, old(pos));
        events == old(events) + run.events && err == run.error && pos == run.next
    {
      err := InvokeTransition(PoweredOn, PowerOnTask);
    }

    /** `_invoke_power_off`. */
    method InvokePowerOff() returns (err: Option<Error>)
      modifies this
      ensures var run := InvokeRun(PoweredOff, PowerOffTask, observe, succeeds, invokeAttempts, old(pos));
        events == old(events) + run.events && err == run.error && pos == run.next
    {
      err := InvokeTransition(PoweredOff, PowerOffTask);
    }

    /** `_invoke_suspend` (which `suspend` does not call). */
    method InvokeSuspend() returns (err: Option<Error>)
      modifies this
      ensures var run := InvokeRun(Suspended, SuspendTask, observe, succeeds, invokeAttempts, old(pos));
        events == old(events) + run.events && err == run.error && pos == run.next
    {
      err := InvokeTransition(Suspended, SuspendTask);
    }

    /** One attempt of `_wait_until_power_state_is`'s body. */
    method ConfirmAttempt(expected: PowerState) returns (err: Option<Error>)
      modifies this
      ensures var run := ConfirmBody(expected, observe)(old(pos));
        events == old(events) + run.events && err == run.error && pos == run.next
    {
      var current := PowerState();
      err := if current == expected then None else Some(TryAgain);
    }

    /** `_wait_until_power_state_is`: its body retried under `stop_after_attempt(60)`. */
    method WaitUntilPowerStateIs(expected: PowerState) returns (err: Option<Error>)
      modifies this
      ensures var run := WaitRun(expected, observe, confirmAttempts, old(pos));
        events == old(events) + run.events && err == run.error && pos == run.next
    {
      err := ConfirmRetrying(expected, confirmAttempts);
    }

    /** The retry decorator around the confirmation poll's body, with `attemptsLeft` attempts to go. */
    method ConfirmRetrying(expected: PowerState, attemptsLeft: nat) returns (err: Option<Error>)
      modifies this
      ensures var run := Retry(ConfirmBody(expected, observe), old(pos), attemptsLeft);
        events == old(events) + run.events && err == run.error && pos == run.next
      decreases attemptsLeft
    {
      if attemptsLeft == 0 {
        return Some(RetryError);
      }
      ghost var a := ConfirmBody(expected, observe)(pos);
      err := ConfirmAttempt(expected);
      if err.None? {
        return;
      }
      ghost var rest := Retry(ConfirmBody(expected, observe), pos, attemptsLeft - 1);
      err := ConfirmRetrying(expected, attemptsLeft - 1);
      AppendAssoc(old(events), a.events, rest.events);
    }

    /** `power_on`: invoke, then confirm `poweredOn`. */
    method PowerOn() returns (err: Option<Error>)
      modifies this
      ensures var run := TransitionRun(PoweredOn, PowerOnTask, observe, succeeds, invokeAttempts, confirmAttempts, old(pos));
        events == old(events) + run.events && err == run.error && pos == run.next
    {
      err := InvokePowerOn();
      if err.Some? {
        return;
      }
      err := WaitUntilPowerStateIs(PoweredOn);
    }

    /** `power_off`: invoke, then confirm `poweredOff`. */
    method PowerOff() returns (err: Option<Error>)
      modifies this
      ensures var run := TransitionRun(PoweredOff, PowerOffTask, observe, succeeds, invokeAttempts, confirmAttempts, old(pos));
        events == old(events) + run.events && err == run.error && pos == run.next
    {
      err := InvokePowerOff();
      if err.Some? {
        return;
      }
      err := WaitUntilPowerStateIs(PoweredOff);
    }

    /** `suspend`: one Suspend task, waited for, with no state check and no confirmation. */
    method Suspend() returns (err: Option<Error>)
      modifies this
      ensures var run := SubmitRun(SuspendTask, succeeds, old(pos));
        events == old(events) + run.events && err == run.error && pos == run.next
    {
      err := RunTask(SuspendTask);
    }
  }
}
