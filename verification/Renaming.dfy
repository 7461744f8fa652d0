/** Renaming the signal ids in everything a run reads and leaves behind. */
module Renaming {
  import opened Wrappers
  import opened Schema
  import opened Errors
  import opened Semantics
  import S = Scheduler

  type Names = string -> string

  function RenReaction(f: Names, r: ReactionDef): ReactionDef {
    r.(fromSignal := f(r.fromSignal), toSignal := f(r.toSignal))
  }

  function RenReactions(f: Names, rs: seq<ReactionDef>): (renamed: seq<ReactionDef>)
    ensures |renamed| == |rs|
  {
    if rs == [] then [] else [RenReaction(f, rs[0])] + RenReactions(f, rs[1..])
  }

  function RenTransitions(f: Names, ts: seq<TransitionDef>): (renamed: seq<TransitionDef>)
    ensures |renamed| == |ts|
  {
    if ts == [] then [] else [ts[0].(signalId := f(ts[0].signalId))] + RenTransitions(f, ts[1..])
  }

  function RenSignals(f: Names, signals: seq<SignalDef>): (renamed: seq<SignalDef>)
    ensures |renamed| == |signals|
    ensures forall i :: 0 <= i < |signals| ==> renamed[i] == signals[i].(id := f(signals[i].id))
  {
    seq(|signals|, i requires 0 <= i < |signals| => signals[i].(id := f(signals[i].id)))
  }

  function RenMessage(f: Names, m: Message): Message {
    match m
    case Text(_) => m
    case Display(e) => Display(RenError(f, e))
  }

  function RenError(f: Names, e: EngineError): EngineError {
    match e
    case SignalNotFound(id) => SignalNotFound(f(id))
    case StateNotFound(id, state) => StateNotFound(f(id), state)
    case TransitionNotFound(id, event) => TransitionNotFound(f(id), event)
    case GuardBlocked(id, event, guard) => GuardBlocked(f(id), event, guard)
    case ReactionSignalNotFound(id) => ReactionSignalNotFound(f(id))
    case ActionExecutionError(m) => ActionExecutionError(RenMessage(f, m))
    case _ => e
  }

  function RenMaybeError(f: Names, e: Option<EngineError>): Option<EngineError> {
    match e
    case None => None
    case Some(error) => Some(RenError(f, error))
  }

  function RenOutcome(f: Names, o: Outcome): Outcome {
    match o
    case Success(r) => Success(r.(signalId := f(r.signalId)))
    case Failure(e) => Failure(RenError(f, e))
  }

  function RenHead(f: Names, h: ReactionHead): ReactionHead {
    h.(fromSignal := f(h.fromSignal), toSignal := f(h.toSignal))
  }

  function RenEvent(f: Names, e: TraceEvent): TraceEvent {
    match e
    case EventReceived(id, event, payload) => EventReceived(f(id), event, payload)
    case ActionStarted(id, a) => ActionStarted(f(id), a)
    case ActionSucceeded(id, a) => ActionSucceeded(f(id), a)
    case ActionFailed(id, a, m) => ActionFailed(f(id), a, RenMessage(f, m))
    case StateChanged(id, x, y) => StateChanged(f(id), x, y)
    case Rollbacked(id, x, y) => Rollbacked(f(id), x, y)
    case ReactionGuardEvaluated(id, h, g, o) => ReactionGuardEvaluated(f(id), RenHead(f, h), g, o)
    case ReactionCompensated(id, h, a, m) => ReactionCompensated(f(id), RenHead(f, h), a, RenMessage(f, m))
  }

  function RenTrace(f: Names, trace: seq<TraceEvent>): (renamed: seq<TraceEvent>)
    ensures |renamed| == |trace|
    ensures forall i :: 0 <= i < |trace| ==> renamed[i] == RenEvent(f, trace[i])
  {
    seq(|trace|, i requires 0 <= i < |trace| => RenEvent(f, trace[i]))
  }

  function RenContext(f: Names, ctx: ActionContext): ActionContext {
    ctx.(signalId := f(ctx.signalId),
         failure := match ctx.failure case None => None case Some(m) => Some(RenMessage(f, m)))
  }

  function RenCalls(f: Names, calls: seq<ActionCall>): (renamed: seq<ActionCall>)
    ensures |renamed| == |calls|
    ensures forall i :: 0 <= i < |calls| ==> renamed[i] == ActionCall(calls[i].actionId, RenContext(f, calls[i].ctx))
  {
    seq(|calls|, i requires 0 <= i < |calls| => ActionCall(calls[i].actionId, RenContext(f, calls[i].ctx)))
  }

  // ---- Renaming nothing ----------------------------------------------------------------

  const SAME: Names := (id: string) => id

  lemma {:induction false} SameError(e: EngineError)
    ensures RenError(SAME, e) == e
  {
    if e.ActionExecutionError? {
      SameMessage(e.message);
    }
  }

  lemma {:induction false} SameMessage(m: Message)
    ensures RenMessage(SAME, m) == m
  {
    if m.Display? {
      SameError(m.error);
    }
  }

  lemma SameEvent(e: TraceEvent)
    ensures RenEvent(SAME, e) == e
  {
    if e.ActionFailed? || e.ReactionCompensated? {
      SameMessage(e.message);
    }
  }

  lemma SameTrace(trace: seq<TraceEvent>)
    ensures RenTrace(SAME, trace) == trace
  {
    forall e { SameEvent(e); }
  }

  lemma SameContext(ctx: ActionContext)
    ensures RenContext(SAME, ctx) == ctx
  {
    if ctx.failure.Some? {
      SameMessage(ctx.failure.value);
    }
  }

  lemma SameCalls(calls: seq<ActionCall>)
    ensures RenCalls(SAME, calls) == calls
  {
    forall ctx { SameContext(ctx); }
  }

  lemma {:induction false} SameReactions(rs: seq<ReactionDef>)
    ensures RenReactions(SAME, rs) == rs
  {
    if rs != [] {
      SameReactions(rs[1..]);
    }
  }

  // ---- The fork/join order does not depend on names ------------------------------------

  lemma {:induction false} RenConcat(f: Names, a: seq<ReactionDef>, b: seq<ReactionDef>)
    ensures RenReactions(f, a + b) == RenReactions(f, a) + RenReactions(f, b)
  {
    if a == [] {
      assert a + b == b;
    } else {
      assert (a + b)[1..] == a[1..] + b;
      RenConcat(f, a[1..], b);
    }
  }

  lemma {:induction false} RenMembers(f: Names, rs: seq<ReactionDef>, g: string)
    ensures S.Members(RenReactions(f, rs), g) == S.Members(rs, g)
  {
    if rs != [] {
      RenMembers(f, rs[1..], g);
    }
  }

  lemma {:induction false} RenSift(f: Names, rs: seq<ReactionDef>, done: set<string>, met: bool)
    ensures S.Sift(RenReactions(f, rs), done, met) == RenReactions(f, S.Sift(rs, done, met))
  {
    if rs != [] {
      RenSift(f, rs[1..], done, met);
      var first := if S.Satisfied(rs[0], done) == met then [rs[0]] else [];
      RenConcat(f, first, S.Sift(rs[1..], done, met));
    }
  }

  lemma {:induction false} RenSplit(f: Names, rs: seq<ReactionDef>, free: bool)
    ensures S.Split(RenReactions(f, rs), free) == RenReactions(f, S.Split(rs, free))
  {
    if rs != [] {
      RenSplit(f, rs[1..], free);
      var first := if (rs[0].needs == []) == free then [rs[0]] else [];
      RenConcat(f, first, S.Split(rs[1..], free));
    }
  }

  function RenQueue(f: Names, q: S.Queue): S.Queue {
    q.(ready := RenReactions(f, q.ready), waiting := RenReactions(f, q.waiting))
  }

  lemma RenStep(f: Names, matched: seq<ReactionDef>, q: S.Queue)
    requires q.ready != []
    ensures S.Step(RenReactions(f, matched), RenQueue(f, q)) == RenQueue(f, S.Step(matched, q))
  {
    var r, rest := q.ready[0], q.(ready := q.ready[1..]);
    RenSettle(f, matched, rest, r);
    hide S.Settle;
    assert RenQueue(f, q).(ready := RenQueue(f, q).ready[1..]) == RenQueue(f, rest);
  }

  lemma RenSettle(f: Names, matched: seq<ReactionDef>, q: S.Queue, r: ReactionDef)
    ensures S.Settle(RenReactions(f, matched), RenQueue(f, q), RenReaction(f, r))
            == RenQueue(f, S.Settle(matched, q, r))
  {
    hide S.Sift, S.Members, RenReactions;
    if r.joinGroup.Some? {
      var g := r.joinGroup.value;
      var done, q' := q.done + {g}, RenQueue(f, q);
      RenMembers(f, matched, g);
      assert S.Done(q', g) == S.Done(q, g) && q'.done == q.done;
      RenSift(f, q.waiting, done, true);
      RenSift(f, q.waiting, done, false);
      RenConcat(f, q.ready, S.Sift(q.waiting, done, true));
      var n := S.Done(q, g) + 1;
      var next, next' := S.Settle(matched, q, r), S.Settle(RenReactions(f, matched), q', RenReaction(f, r));
      assert next.doneCount == q.doneCount[g := n] == next'.doneCount;
      assert next.done == next'.done;
      assert next'.ready == RenReactions(f, next.ready) && next'.waiting == RenReactions(f, next.waiting);
    }
  }

  lemma {:induction false} RenOrder(f: Names, matched: seq<ReactionDef>, q: S.Queue)
    ensures S.Order(RenReactions(f, matched), RenQueue(f, q)) == RenReactions(f, S.Order(matched, q))
    decreases |q.ready| + |q.waiting|
  {
    if q.ready != [] {
      S.StepShrinks(matched, q);
      RenStep(f, matched, q);
      RenOrder(f, matched, S.Step(matched, q));
      hide S.Step;
      RenConcat(f, [q.ready[0]], S.Order(matched, S.Step(matched, q)));
      assert RenReactions(f, [q.ready[0]]) == [RenReaction(f, q.ready[0])];
    }
  }

  lemma RenSchedule(f: Names, matched: seq<ReactionDef>)
    ensures S.Schedule(RenReactions(f, matched)) == RenReactions(f, S.Schedule(matched))
  {
    RenSplit(f, matched, true);
    RenSplit(f, matched, false);
    RenOrder(f, matched, S.Start(matched));
  }
}
