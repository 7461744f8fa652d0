/**
 The shape of a failing run. A run fails at one point, deep inside a chain of reactions.
 Its trace is a clean part, the record of that one failure, and then the compensations of
 the enclosing reactions, innermost first, all given the error that is finally returned.
 */
module FailureShape {
  import opened Wrappers
  import opened Schema
  import opened Errors
  import opened Semantics
  import Scheduler
  import D = DepthLimit
  import I = Invariants
  import R = Replay

  /** An event that records no failure. */
  predicate Clean(e: TraceEvent) {
    !e.ActionFailed? && !e.Rollbacked? && !e.ReactionCompensated?
  }

  ghost predicate AllClean(trace: seq<TraceEvent>) {
    forall e :: e in trace ==> Clean(e)
  }

  /** `m'` is `m` with `added` at the end of its trace. */
  predicate Adds(m: Machine, m': Machine, added: seq<TraceEvent>) {
    m'.trace == m.trace + added
  }

  /**
   The parts of a failing run. `path` lists the enclosing reactions, outermost first, and
   `undo` what the compensation of each of them left in the trace.
   */
  datatype Crash = Crash(clean: seq<TraceEvent>, broken: seq<TraceEvent>, path: seq<ReactionDef>,
                         undo: seq<seq<TraceEvent>>)

  /** The compensations as they are recorded: innermost first. */
  function Unwound(undo: seq<seq<TraceEvent>>): seq<TraceEvent> {
    if undo == [] then [] else Unwound(undo[1..]) + undo[0]
  }

  /** Each reaction of `path` starts where the one before it leads, the first one at `cause`. */
  ghost predicate ReactionChain(env: Env, path: seq<ReactionDef>, cause: string) {
    path != [] ==>
      path[0] in env.reactions && path[0].fromSignal == cause && ReactionChain(env, path[1..], path[0].toSignal)
  }

  /** The signal at the end of the chain. */
  function Site(path: seq<ReactionDef>, cause: string): string {
    if path == [] then cause else path[|path| - 1].toSignal
  }

  /** What an action that failed with `error` leaves in the trace. */
  ghost predicate ActionRecord(env: Env, signalId: string, record: seq<TraceEvent>, error: EngineError) {
    if error.ActionNotFound? then record == [] && error.actionId !in env.actions
    else
      && error.ActionExecutionError?
      && exists a :: a in env.actions && record == [ActionFailed(signalId, a, error.message)]
  }

  /** What the failing transition leaves in the trace: nothing, or its failed action and its rollback. */
  ghost predicate FailureRecord(env: Env, signalId: string, record: seq<TraceEvent>, error: EngineError) {
    || (record == [] && !error.ActionNotFound? && !error.ActionExecutionError?)
    || ActionRecord(env, signalId, record, error)
    || (record != [] && record[|record| - 1].Rollbacked? && record[|record| - 1].signalId == signalId
        && ActionRecord(env, signalId, record[..|record| - 1], error))
  }

  /** The compensation of one reaction: its `on_fail` action, if any, is run and recorded once. */
  ghost predicate UndoRecord(env: Env, r: ReactionDef, record: seq<TraceEvent>, error: EngineError) {
    match r.onFail
    case None => record == []
    case Some(a) =>
      var last := ReactionCompensated(r.fromSignal, Head(r), a, Display(error));
      if a !in env.actions then record == [ActionStarted(r.toSignal, a), last]
      else
        || record == [ActionStarted(r.toSignal, a), ActionSucceeded(r.toSignal, a), last]
        || exists text :: record == [ActionStarted(r.toSignal, a), ActionFailed(r.toSignal, a, text), last]
  }

  ghost predicate UndoRecords(env: Env, path: seq<ReactionDef>, undo: seq<seq<TraceEvent>>, error: EngineError) {
    |undo| == |path| && forall i :: 0 <= i < |path| ==> UndoRecord(env, path[i], undo[i], error)
  }

  /** A run from `m` to `m'`, started by `cause` with `fuel` levels, failed with `error` as `c` says. */
  ghost predicate FailsAs(env: Env, fuel: nat, m: Machine, m': Machine, cause: string, error: EngineError, c: Crash) {
    && Adds(m, m', c.clean + c.broken + Unwound(c.undo))
    && AllClean(c.clean)
    && ReactionChain(env, c.path, cause)
    && FailureRecord(env, Site(c.path, cause), c.broken, error)
    && UndoRecords(env, c.path, c.undo, error)
    && (error.CascadeDepthExceeded? ==> |c.path| == fuel)
  }

  // ---- One transition ------------------------------------------------------------------

  lemma {:induction false} ActionsShape(env: Env, m: Machine, ids: seq<string>, ctx: ActionContext)
      returns (clean: seq<TraceEvent>, broken: seq<TraceEvent>)
    ensures var p := RunActions(env, m, ids, ctx);
            Adds(m, p.machine, clean + broken) && AllClean(clean)
            && match p.error
               case None => broken == []
               case Some(e) => ActionRecord(env, ctx.signalId, broken, e)
    decreases |ids|
  {
    if ids == [] {
      clean, broken := [], [];
    } else {
      var (m1, error) := RunAction(env, m, ctx.signalId, ids[0], ctx);
      var started := ActionStarted(ctx.signalId, ids[0]);
      if error.Some? {
        clean := [started];
        broken := if ids[0] in env.actions then [m1.trace[|m.trace| + 1]] else [];
        assert m1.trace == m.trace + (clean + broken);
      } else {
        var clean1, broken1 := ActionsShape(env, m1, ids[1..], ctx);
        var done := [started, ActionSucceeded(ctx.signalId, ids[0])];
        clean, broken := done + clean1, broken1;
        assert m1.trace == m.trace + done;
        assert m1.trace + (clean1 + broken1) == m.trace + (clean + broken);
      }
    }
  }

  lemma TransitShape(env: Env, m: Machine, actions: ActionBinding, ctx: ActionContext)
      returns (clean: seq<TraceEvent>, broken: seq<TraceEvent>)
    requires ctx.signalId in m.signals && ctx.fromState == m.Current(ctx.signalId)
    ensures var (m', outcome) := Transit(env, m, actions, ctx);
            Adds(m, m', clean + broken) && AllClean(clean)
            && match outcome
               case Success(_) => broken == []
               case Failure(e) => FailureRecord(env, ctx.signalId, broken, e)
  {
    hide Transit, RunActions;
    I.TransitOutcome(env, m, actions, ctx);
    var (m', outcome) := Transit(env, m, actions, ctx);
    var leave := RunActions(env, m, actions.onExit, ctx);
    clean, broken := ActionsShape(env, m, actions.onExit, ctx);
    if leave.error.None? {
      var clean2, broken2 := ActionsShape(env, leave.machine, actions.onTransition + actions.onEnter, ctx);
      var last := m'.trace[|m'.trace| - 1];
      if outcome.Success? {
        clean, broken := clean + clean2 + [last], [];
      } else {
        clean, broken := clean + clean2, broken2 + [last];
        assert broken[..|broken| - 1] == broken2;
      }
      assert m'.trace == m.trace + (clean + broken);
    }
  }

  lemma AttemptShape(env: Env, m: Machine, signalId: string, event: string, payload: Option<Json>)
      returns (clean: seq<TraceEvent>, broken: seq<TraceEvent>)
    ensures var (m', outcome) := Attempt(env, m, signalId, event, payload);
            Adds(m, m', clean + broken) && AllClean(clean)
            && match outcome
               case Success(_) => broken == []
               case Failure(e) => FailureRecord(env, signalId, broken, e)
  {
    hide Transit, Find;
    var received := EventReceived(signalId, event, payload);
    clean, broken := [received], [];
    if signalId in m.signals {
      var current := m.signals[signalId].current;
      var found := Find(env.transitions, signalId, event, current);
      if found.Some? {
        var ctx := ActionContext(signalId, current, found.value.to, event, payload, None);
        if Blocked(env, found.value.guard, ctx).None? {
          var clean1, broken1 := TransitShape(env, m.Push(received), found.value.actions, ctx);
          clean, broken := [received] + clean1, broken1;
          assert m.trace + [received] + (clean1 + broken1) == m.trace + (clean + broken);
        }
      }
    }
  }

  // ---- Cascades ------------------------------------------------------------------------

  /** A run that succeeds records no failure. */
  lemma {:induction false} SendClean(env: Env, fuel: nat, m: Machine, signalId: string, event: string,
                                     payload: Option<Json>, parent: Option<Json>) returns (clean: seq<TraceEvent>)
    requires Send(env, fuel, m, signalId, event, payload, parent).1.Success?
    ensures Adds(m, Send(env, fuel, m, signalId, event, payload, parent).0, clean) && AllClean(clean)
    decreases fuel, 0, 0
  {
    hide Attempt, AllClean;
    var (m1, attempt) := Attempt(env, m, signalId, event, payload);
    var clean1, broken := AttemptShape(env, m, signalId, event, payload);
    assert clean1 + broken == clean1;
    var scheduled := Scheduler.Schedule(Matching(env.reactions, signalId, attempt.value.to));
    var clean2 := FireAllClean(env, fuel - 1, m1, scheduled, parent, signalId);
    clean := clean1 + clean2;
    CleanTwice(m, m1, FireAll(env, fuel - 1, m1, scheduled, parent, signalId).0, clean1, clean2);
  }

  lemma {:induction false} FireAllClean(env: Env, fuel: nat, m: Machine, rs: seq<ReactionDef>, parent: Option<Json>,
                                        cause: string)
      returns (clean: seq<TraceEvent>)
    requires FireAll(env, fuel, m, rs, parent, cause).1.None?
    ensures Adds(m, FireAll(env, fuel, m, rs, parent, cause).0, clean) && AllClean(clean)
    decreases fuel, 2, |rs|
  {
    if rs == [] {
      clean := [];
    } else {
      var m1 := Fire(env, fuel, m, rs[0], parent, cause).0;
      var clean1 := FireClean(env, fuel, m, rs[0], parent, cause);
      var clean2 := FireAllClean(env, fuel, m1, rs[1..], parent, cause);
      CleanTwice(m, m1, FireAll(env, fuel, m1, rs[1..], parent, cause).0, clean1, clean2);
      clean := clean1 + clean2;
    }
  }

  lemma GateShape(env: Env, m: Machine, r: ReactionDef, parent: Option<Json>, cause: string)
    returns (gate: seq<TraceEvent>)
    ensures Adds(m, Gate(env, m, r, parent, cause).0, gate) && AllClean(gate)
  {
    gate := Gate(env, m, r, parent, cause).0.trace[|m.trace|..];
  }

  /** What is added first is clean, what is added next is clean: all is clean. */
  lemma CleanTwice(m: Machine, m1: Machine, m2: Machine, a: seq<TraceEvent>, b: seq<TraceEvent>)
    requires Adds(m, m1, a) && Adds(m1, m2, b) && AllClean(a) && AllClean(b)
    ensures Adds(m, m2, a + b) && AllClean(a + b)
  {
    assert m.trace + a + b == m.trace + (a + b);
  }

  lemma {:induction false} FireClean(env: Env, fuel: nat, m: Machine, r: ReactionDef, parent: Option<Json>,
                                     cause: string)
      returns (clean: seq<TraceEvent>)
    requires Fire(env, fuel, m, r, parent, cause).1.None?
    ensures Adds(m, Fire(env, fuel, m, r, parent, cause).0, clean) && AllClean(clean)
    decreases fuel, 1, 0
  {
    hide Gate, Adds, AllClean;
    var (m1, open) := Gate(env, m, r, parent, cause);
    clean := GateShape(env, m, r, parent, cause);
    if open {
      var m2 := Send(env, fuel, m1, r.toSignal, r.event, r.payload, r.payload).0;
      var clean1 := SendClean(env, fuel, m1, r.toSignal, r.event, r.payload, r.payload);
      CleanTwice(m, m1, m2, clean, clean1);
      clean := clean + clean1;
    }
  }

  lemma CompensateShape(env: Env, m: Machine, r: ReactionDef, parent: Option<Json>, error: EngineError)
    returns (record: seq<TraceEvent>)
    ensures Adds(m, Compensate(env, m, r, parent, r.fromSignal, error), record)
    ensures UndoRecord(env, r, record, error)
    ensures Compensate(env, m, r, parent, r.fromSignal, error).signals == m.signals
  {
    var m' := Compensate(env, m, r, parent, r.fromSignal, error);
    record := m'.trace[|m.trace|..];
    if r.onFail.Some? && r.onFail.value in env.actions {
      assert |record| == 3;
      if record[1].ActionFailed? {
        assert record == [ActionStarted(r.toSignal, r.onFail.value),
                          ActionFailed(r.toSignal, r.onFail.value, record[1].message),
                          ReactionCompensated(r.fromSignal, Head(r), r.onFail.value, Display(error))];
      }
    }
  }

  lemma {:induction false} SendFails(env: Env, fuel: nat, m: Machine, signalId: string, event: string,
                                     payload: Option<Json>, parent: Option<Json>) returns (c: Crash)
    requires Send(env, fuel, m, signalId, event, payload, parent).1.Failure?
    ensures var (m', outcome) := Send(env, fuel, m, signalId, event, payload, parent);
            FailsAs(env, fuel, m, m', signalId, outcome.error, c)
    decreases fuel, 0, 0
  {
    hide Attempt, FailsAs, Adds, AllClean;
    if fuel == 0 {
      c := Crash([], [], [], []);
      FailsOutright(env, 0, m, m, signalId, CascadeDepthExceeded, [], []);
    } else {
      var (m1, attempt) := Attempt(env, m, signalId, event, payload);
      var clean, broken := AttemptShape(env, m, signalId, event, payload);
      if attempt.Failure? {
        D.AttemptNeverExceeds(env, m, signalId, event, payload);
        c := Crash(clean, broken, [], []);
        FailsOutright(env, fuel, m, m1, signalId, attempt.error, clean, broken);
      } else {
        assert clean + broken == clean;
        var scheduled := Scheduler.Schedule(Matching(env.reactions, signalId, attempt.value.to));
        I.ScheduledReacts(env.reactions, signalId, attempt.value.to);
        c := FireAllFails(env, fuel - 1, m1, scheduled, parent, signalId);
        var (m2, error) := FireAll(env, fuel - 1, m1, scheduled, parent, signalId);
        c := FailsLater(env, fuel, m, m1, m2, signalId, error.value, clean, c);
      }
    }
  }

  /** A transition that fails by itself, or a depth limit that is already exhausted. */
  lemma FailsOutright(env: Env, fuel: nat, m: Machine, m': Machine, cause: string, error: EngineError,
                      clean: seq<TraceEvent>, broken: seq<TraceEvent>)
    requires Adds(m, m', clean + broken) && AllClean(clean) && FailureRecord(env, cause, broken, error)
    requires error.CascadeDepthExceeded? ==> fuel == 0
    ensures FailsAs(env, fuel, m, m', cause, error, Crash(clean, broken, [], []))
  {
    assert clean + broken + Unwound([]) == clean + broken;
  }

  /** A failure after a clean part. */
  lemma FailsLater(env: Env, fuel: nat, m: Machine, m1: Machine, m2: Machine, cause: string, error: EngineError,
                   clean: seq<TraceEvent>, later: Crash) returns (c: Crash)
    requires Adds(m, m1, clean) && AllClean(clean) && FailsAs(env, fuel, m1, m2, cause, error, later)
    ensures FailsAs(env, fuel, m, m2, cause, error, c)
  {
    hide FailureRecord, UndoRecords, ReactionChain;
    c := later.(clean := clean + later.clean);
    assert m.trace + clean + (later.clean + later.broken + Unwound(later.undo))
        == m.trace + (c.clean + c.broken + Unwound(c.undo));
  }

  lemma {:induction false} FireAllFails(env: Env, fuel: nat, m: Machine, rs: seq<ReactionDef>, parent: Option<Json>,
                                        cause: string)
      returns (c: Crash)
    requires forall r :: r in rs ==> r in env.reactions && r.fromSignal == cause
    requires FireAll(env, fuel, m, rs, parent, cause).1.Some?
    ensures var (m', error) := FireAll(env, fuel, m, rs, parent, cause);
            FailsAs(env, fuel + 1, m, m', cause, error.value, c)
    decreases fuel, 2, |rs|
  {
    hide FailsAs, Adds, AllClean;
    var (m1, error) := Fire(env, fuel, m, rs[0], parent, cause);
    if error.Some? {
      c := FireFails(env, fuel, m, rs[0], parent);
    } else {
      var clean := FireClean(env, fuel, m, rs[0], parent, cause);
      c := FireAllFails(env, fuel, m1, rs[1..], parent, cause);
      var (m2, error') := FireAll(env, fuel, m1, rs[1..], parent, cause);
      c := FailsLater(env, fuel + 1, m, m1, m2, cause, error'.value, clean, c);
    }
  }

  lemma {:induction false} FireFails(env: Env, fuel: nat, m: Machine, r: ReactionDef, parent: Option<Json>)
    returns (c: Crash)
    requires r in env.reactions
    requires Fire(env, fuel, m, r, parent, r.fromSignal).1.Some?
    ensures var (m', error) := Fire(env, fuel, m, r, parent, r.fromSignal);
            FailsAs(env, fuel + 1, m, m', r.fromSignal, error.value, c)
    decreases fuel, 1, 0
  {
    hide Compensate, FailsAs, Gate, Adds, AllClean;
    var (m1, _) := Gate(env, m, r, parent, r.fromSignal);
    var gate := GateShape(env, m, r, parent, r.fromSignal);
    var (m2, outcome) := Send(env, fuel, m1, r.toSignal, r.event, r.payload, r.payload);
    var inner := SendFails(env, fuel, m1, r.toSignal, r.event, r.payload, r.payload);
    var record := CompensateShape(env, m2, r, parent, outcome.error);
    var m3 := Compensate(env, m2, r, parent, r.fromSignal, outcome.error);
    c := Wrapped(r, gate, inner, record);
    WrapFailure(env, fuel, m, m1, m2, m3, r, outcome.error, gate, inner, record);
  }

  /** The failure of a reaction's cascade, seen from outside the reaction. */
  function Wrapped(r: ReactionDef, gate: seq<TraceEvent>, inner: Crash, record: seq<TraceEvent>): Crash {
    Crash(gate + inner.clean, inner.broken, [r] + inner.path, [record] + inner.undo)
  }

  lemma Regroup(t: seq<TraceEvent>, gate: seq<TraceEvent>, clean: seq<TraceEvent>, broken: seq<TraceEvent>,
                undo: seq<TraceEvent>, record: seq<TraceEvent>)
    ensures t + gate + (clean + broken + undo) + record == t + (gate + clean + broken + (undo + record))
  {}

  lemma WrapFailure(env: Env, fuel: nat, m: Machine, m1: Machine, m2: Machine, m3: Machine, r: ReactionDef,
                    error: EngineError, gate: seq<TraceEvent>, inner: Crash, record: seq<TraceEvent>)
    requires r in env.reactions
    requires Adds(m, m1, gate) && AllClean(gate)
    requires FailsAs(env, fuel, m1, m2, r.toSignal, error, inner)
    requires Adds(m2, m3, record) && UndoRecord(env, r, record, error)
    ensures FailsAs(env, fuel + 1, m, m3, r.fromSignal, error, Wrapped(r, gate, inner, record))
  {
    WrapAdds(m, m1, m2, m3, r, gate, inner, record);
    WrapChain(env, r, gate, inner, record);
    WrapUndo(env, r, gate, inner, record, error);
    hide FailureRecord, UndoRecords, UndoRecord, Unwound, Adds, ReactionChain, Site;
  }

  lemma WrapChain(env: Env, r: ReactionDef, gate: seq<TraceEvent>, inner: Crash, record: seq<TraceEvent>)
    requires r in env.reactions && ReactionChain(env, inner.path, r.toSignal)
    ensures var path := Wrapped(r, gate, inner, record).path;
            |path| == |inner.path| + 1 && ReactionChain(env, path, r.fromSignal)
            && Site(path, r.fromSignal) == Site(inner.path, r.toSignal)
  {
    assert Wrapped(r, gate, inner, record).path[1..] == inner.path;
  }

  lemma WrapUndo(env: Env, r: ReactionDef, gate: seq<TraceEvent>, inner: Crash, record: seq<TraceEvent>,
                 error: EngineError)
    requires UndoRecords(env, inner.path, inner.undo, error) && UndoRecord(env, r, record, error)
    ensures var c := Wrapped(r, gate, inner, record); UndoRecords(env, c.path, c.undo, error)
  {
    hide UndoRecord;
  }

  lemma WrapAdds(m: Machine, m1: Machine, m2: Machine, m3: Machine, r: ReactionDef, gate: seq<TraceEvent>, inner: Crash,
                 record: seq<TraceEvent>)
    requires Adds(m, m1, gate) && Adds(m1, m2, inner.clean + inner.broken + Unwound(inner.undo)) && Adds(m2, m3, record)
    ensures var c := Wrapped(r, gate, inner, record); Adds(m, m3, c.clean + c.broken + Unwound(c.undo))
  {
    var c := Wrapped(r, gate, inner, record);
    assert c.undo[1..] == inner.undo;
    assert Unwound(c.undo) == Unwound(inner.undo) + record;
    hide Unwound;
    Regroup(m.trace, gate, inner.clean, inner.broken, Unwound(inner.undo), record);
  }

  // ---- Main results --------------------------------------------------------------------

  /** The compensations recorded in a trace, in order. */
  function Compensations(trace: seq<TraceEvent>): seq<TraceEvent> {
    if trace == [] then []
    else (if trace[0].ReactionCompensated? then [trace[0]] else []) + Compensations(trace[1..])
  }

  /** One compensation for each reaction of `path` with an `on_fail` action, innermost first. */
  function Due(path: seq<ReactionDef>, error: EngineError): seq<TraceEvent> {
    if path == [] then []
    else
      Due(path[1..], error) +
      if path[0].onFail.Some? then
        [ReactionCompensated(path[0].fromSignal, Head(path[0]), path[0].onFail.value, Display(error))]
      else []
  }

  function Rollbacks(trace: seq<TraceEvent>): nat {
    if trace == [] then 0 else (if trace[0].Rollbacked? then 1 else 0) + Rollbacks(trace[1..])
  }

  lemma CountConcat(a: seq<TraceEvent>, b: seq<TraceEvent>)
    ensures Compensations(a + b) == Compensations(a) + Compensations(b)
    ensures Rollbacks(a + b) == Rollbacks(a) + Rollbacks(b)
  {
    CompensationsConcat(a, b);
    RollbacksConcat(a, b);
  }

  lemma {:induction false} CompensationsConcat(a: seq<TraceEvent>, b: seq<TraceEvent>)
    ensures Compensations(a + b) == Compensations(a) + Compensations(b)
  {
    if a == [] {
      assert a + b == b;
    } else {
      assert (a + b)[1..] == a[1..] + b;
      CompensationsConcat(a[1..], b);
      var head := if a[0].ReactionCompensated? then [a[0]] else [];
      assert Compensations(a + b) == head + Compensations(a[1..] + b);
    }
  }

  lemma {:induction false} RollbacksConcat(a: seq<TraceEvent>, b: seq<TraceEvent>)
    ensures Rollbacks(a + b) == Rollbacks(a) + Rollbacks(b)
  {
    if a == [] {
      assert a + b == b;
    } else {
      assert (a + b)[1..] == a[1..] + b;
      RollbacksConcat(a[1..], b);
    }
  }

  lemma {:induction false} CleanCounts(clean: seq<TraceEvent>)
    requires AllClean(clean)
    ensures Compensations(clean) == [] && Rollbacks(clean) == 0
  {
    if clean != [] {
      assert Clean(clean[0]);
      CleanCounts(clean[1..]);
    }
  }

  lemma FailureRecordCounts(env: Env, signalId: string, record: seq<TraceEvent>, error: EngineError)
    requires FailureRecord(env, signalId, record, error)
    ensures Compensations(record) == [] && Rollbacks(record) <= 1
    ensures forall e :: e in record ==> !e.StateChanged?
  {
    if record != [] && record[|record| - 1].Rollbacked? {
      var front, last := record[..|record| - 1], record[|record| - 1];
      assert record == front + [last];
      CountConcat(front, [last]);
      assert !ActionRecord(env, signalId, record, error);
      assert |front| <= 1;
    }
  }

  lemma UndoRecordCounts(env: Env, r: ReactionDef, record: seq<TraceEvent>, error: EngineError)
    requires UndoRecord(env, r, record, error)
    ensures Compensations(record) == Due([r], error) && Rollbacks(record) == 0
    ensures forall e :: e in record ==> !e.StateChanged?
  {
    if r.onFail.Some? {
      var front, last := record[..|record| - 1], record[|record| - 1];
      assert record == front + [last];
      CountConcat(front, [last]);
      if |front| == 2 {
        assert front == [front[0]] + [front[1]];
        CountConcat([front[0]], [front[1]]);
      }
    }
  }

  lemma {:induction false} UndoRecordsCount(env: Env, path: seq<ReactionDef>, undo: seq<seq<TraceEvent>>,
                                            error: EngineError)
    requires UndoRecords(env, path, undo, error)
    ensures Compensations(Unwound(undo)) == Due(path, error) && Rollbacks(Unwound(undo)) == 0
    ensures forall e :: e in Unwound(undo) ==> !e.StateChanged?
    decreases |path|
  {
    if path != [] {
      hide UndoRecord, Compensations, Rollbacks, Due;
      UndoRecordsCount(env, path[1..], undo[1..], error);
      UndoRecordCounts(env, path[0], undo[0], error);
      CountConcat(Unwound(undo[1..]), undo[0]);
      DueSplit(path, error);
    }
  }

  lemma DueSplit(path: seq<ReactionDef>, error: EngineError)
    requires path != []
    ensures Due(path, error) == Due(path[1..], error) + Due([path[0]], error)
  {
    assert Due([path[0]][1..], error) == [];
  }

  lemma {:induction false} ReplayedQuiet(s: R.States, a: seq<TraceEvent>, b: seq<TraceEvent>)
    requires forall e :: e in b ==> !e.StateChanged?
    ensures R.Replayed(s, a + b) == R.Replayed(s, a)
    decreases |b|
  {
    if b == [] {
      assert a + b == a;
    } else {
      assert (a + b)[..|a + b| - 1] == a + b[..|b| - 1];
      ReplayedQuiet(s, a, b[..|b| - 1]);
    }
  }

  /**
   An event that fails leaves a clean trace, one failure, and the compensations due: one for
   each enclosing reaction with `on_fail`, innermost first, all with the error returned. At
   most one transition is rolled back, and no state changes after the clean part.
   */
  lemma FailingRun(env: Env, limit: nat, m: Machine, i: Input) returns (c: Crash)
    requires Deliver(env, limit, m, i).1.Failure?
    ensures var (m', outcome) := Deliver(env, limit, m, i);
            && FailsAs(env, limit + 1, m, m', i.signalId, outcome.error, c)
            && Compensations(m'.trace[|m.trace|..]) == Due(c.path, outcome.error)
            && Rollbacks(m'.trace[|m.trace|..]) <= 1
            && R.Currents(m'.signals) == R.Replayed(R.Currents(m.signals), c.clean)
  {
    hide Send, FailureRecord, UndoRecords, AllClean, Compensations, Due, Rollbacks;
    var (m', outcome) := Deliver(env, limit, m, i);
    c := SendFails(env, limit + 1, m, i.signalId, i.event, i.payload, i.payload);
    var added := m'.trace[|m.trace|..];
    var undo := Unwound(c.undo);
    assert added == c.clean + c.broken + undo == c.clean + (c.broken + undo);
    CleanCounts(c.clean);
    FailureRecordCounts(env, Site(c.path, i.signalId), c.broken, outcome.error);
    UndoRecordsCount(env, c.path, c.undo, outcome.error);
    CountConcat(c.clean + c.broken, undo);
    CountConcat(c.clean, c.broken);
    DeliverContinues(env, limit, m, i);
    ReplayedQuiet(R.Currents(m.signals), c.clean, c.broken + undo);
  }

  lemma DeliverContinues(env: Env, limit: nat, m: Machine, i: Input)
    ensures R.Continues(m, Deliver(env, limit, m, i).0)
  {
    hide R.Continues, Deliver;
    R.SessionContinues(env, limit, m, [i]);
    assert [i][1..] == [];
    assert Session(env, limit, Deliver(env, limit, m, i).0, [i][1..]).0 == Deliver(env, limit, m, i).0;
  }

  /** An event that succeeds records no failed action, no rollback and no compensation. */
  lemma SucceedingRun(env: Env, limit: nat, m: Machine, i: Input)
    requires Deliver(env, limit, m, i).1.Success?
    ensures var m' := Deliver(env, limit, m, i).0;
            m.trace <= m'.trace && AllClean(m'.trace[|m.trace|..])
  {
    var clean := SendClean(env, limit + 1, m, i.signalId, i.event, i.payload, i.payload);
    assert (m.trace + clean)[|m.trace|..] == clean;
  }
}
