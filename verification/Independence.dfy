/**
 Independence of cascade branches. A cascade stays among the signals its reactions lead to:
 it changes no other, and no other influences it. With stateless callbacks, two branches
 that lead to disjoint sets of signals can therefore fire in either order.
 */
module Independence {
  import opened Wrappers
  import opened Schema
  import opened Errors
  import opened Semantics
  import opened Renaming
  import Scheduler
  import I = Invariants
  import L = Lowering
  import F = FailureShape
  import Sim = Simulation

  // ---- The signals a cascade can reach -------------------------------------------------

  /** A chain of reactions leads from signal `a` to signal `b`. */
  ghost predicate Reaches(env: Env, a: string, b: string) {
    exists path :: F.ReactionChain(env, path, a) && F.Site(path, a) == b
  }

  lemma {:induction false} ChainSnoc(env: Env, path: seq<ReactionDef>, a: string, r: ReactionDef)
    requires F.ReactionChain(env, path, a) && r in env.reactions && r.fromSignal == F.Site(path, a)
    ensures F.ReactionChain(env, path + [r], a) && F.Site(path + [r], a) == r.toSignal
    decreases |path|
  {
    if path == [] {
      assert [] + [r] == [r];
    } else {
      assert (path + [r])[1..] == path[1..] + [r];
      ChainSnoc(env, path[1..], path[0].toSignal, r);
    }
  }

  /** The signals reachable from `a` include `a` and are closed under the reactions. */
  lemma ReachIsConfined(env: Env, a: string)
    ensures Reaches(env, a, a) && I.Confined(env, b => Reaches(env, a, b))
  {
    assert F.ReactionChain(env, [], a) && F.Site([], a) == a;
    forall r | r in env.reactions && Reaches(env, a, r.fromSignal)
      ensures Reaches(env, a, r.toSignal)
    {
      var path :| F.ReactionChain(env, path, a) && F.Site(path, a) == r.fromSignal;
      ChainSnoc(env, path, a, r);
    }
  }

  // ---- A cascade writes only what it can reach -----------------------------------------

  /** `m'` differs from `m` only in the current states of signals in `live` and in its records about them. */
  ghost predicate Within(live: string -> bool, m: Machine, m': Machine) {
    && m.trace <= m'.trace && (forall e :: e in m'.trace[|m.trace|..] ==> live(e.signalId))
    && m.calls <= m'.calls && (forall c :: c in m'.calls[|m.calls|..] ==> live(c.ctx.signalId))
    && SameRoster(m, m')
    && (forall id :: id in m.signals && id in m'.signals && !live(id) ==> m'.signals[id] == m.signals[id])
  }

  /** The same signals with the same state spaces. */
  ghost predicate SameRoster(m: Machine, m': Machine) {
    && m'.signals.Keys == m.signals.Keys
    && forall id :: id in m.signals && id in m'.signals ==>
         m'.signals[id] == m.signals[id].(current := m'.signals[id].current)
  }

  lemma GrowWithin(live: string -> bool, m0: Machine, m: Machine, m': Machine, added: seq<TraceEvent>,
                   calls: seq<ActionCall>)
    requires Within(live, m0, m) && m'.signals == m.signals
    requires m'.trace == m.trace + added && m'.calls == m.calls + calls
    requires (forall e :: e in added ==> live(e.signalId)) && forall c :: c in calls ==> live(c.ctx.signalId)
    ensures Within(live, m0, m')
  {
    assert m'.trace[|m0.trace|..] == m.trace[|m0.trace|..] + added;
    assert m'.calls[|m0.calls|..] == m.calls[|m0.calls|..] + calls;
  }

  lemma ActWithin(env: Env, live: string -> bool, m0: Machine, m: Machine, a: string, ctx: ActionContext)
    requires Within(live, m0, m) && live(ctx.signalId)
    ensures Within(live, m0, RunAction(env, m, ctx.signalId, a, ctx).0)
  {
    hide Within;
    var m1 := m.Push(ActionStarted(ctx.signalId, a));
    var m' := RunAction(env, m, ctx.signalId, a, ctx).0;
    GrowWithin(live, m0, m, m1, [ActionStarted(ctx.signalId, a)], []);
    if a in env.actions {
      GrowWithin(live, m0, m1, m', [m'.trace[|m1.trace|]], [ActionCall(a, ctx)]);
    }
  }

  lemma MicroWithin(env: Env, live: string -> bool, m0: Machine, m: Machine, x: I.Micro)
    requires Within(live, m0, m) && I.Legal(env, live, m, x)
    ensures Within(live, m0, I.Apply(env, m, x))
  {
    var m' := I.Apply(env, m, x);
    if x.Act? {
      ActWithin(env, live, m0, m, x.actionId, x.ctx);
    } else {
      var last := m'.trace[|m.trace|];
      assert m'.trace == m.trace + [last] && m'.calls == m.calls;
      assert m'.trace[|m0.trace|..] == m.trace[|m0.trace|..] + [last];
    }
  }

  lemma WithinIsInductive(env: Env, live: string -> bool, m: Machine)
    ensures I.Inductive(env, live, m' => Within(live, m, m')) && Within(live, m, m)
  {
    forall m', x {:trigger I.Apply(env, m', x)} | Within(live, m, m') && I.Legal(env, live, m', x)
      ensures Within(live, m, I.Apply(env, m', x))
    {
      MicroWithin(env, live, m, m', x);
    }
  }

  /** A send changes nothing outside the signals reachable from its own. */
  lemma SendWritesWithinReach(env: Env, fuel: nat, m: Machine, id: string, event: string, payload: Option<Json>,
                              parent: Option<Json>)
    ensures Within(b => Reaches(env, id, b), m, Send(env, fuel, m, id, event, payload, parent).0)
  {
    hide Reaches, Within, Send;
    var live := (b: string) => Reaches(env, id, b);
    ReachIsConfined(env, id);
    WithinIsInductive(env, live, m);
    I.SendKeeps(env, live, m' => Within(live, m, m'), fuel, m, id, event, payload, parent);
  }

  // ---- A cascade reads only what it can reach ------------------------------------------

  /** The callbacks keep no state: what they answer depends on the call alone. */
  ghost predicate Stateless(env: Env) {
    forall a, calls, calls', ctx {:trigger env.actions[a](calls, ctx), env.actions[a](calls', ctx)} ::
      a in env.actions ==>
      env.actions[a](calls, ctx) == env.actions[a](calls', ctx)
  }

  ghost predicate AgreeOn(live: string -> bool, m: Machine, m': Machine) {
    && (forall id :: live(id) ==> (id in m.signals <==> id in m'.signals))
    && (forall id :: live(id) && id in m.signals ==> m'.signals[id].current == m.signals[id].current)
  }

  lemma SelfCorresponds(env: Env, live: string -> bool)
    requires I.Confined(env, live)
    ensures Sim.Corresponds(env, env, SAME, live, Sim.ANYWHERE)
  {
    forall id, s ensures Matching(env.reactions, id, s) == RenReactions(SAME, Matching(env.reactions, id, s)) {
      SameReactions(Matching(env.reactions, id, s));
    }
  }

  /** From now on the callbacks answer alike, whichever of the two lists of calls came before. */
  ghost predicate AnswerAlikeAfter(env: Env, past: seq<ActionCall>, past': seq<ActionCall>) {
    forall a, calls, ctx :: a in env.actions ==> env.actions[a](past' + calls, ctx) == env.actions[a](past + calls, ctx)
  }

  lemma AlikeAnswers(env: Env, live: string -> bool, past: seq<ActionCall>, past': seq<ActionCall>)
    requires AnswerAlikeAfter(env, past, past')
    ensures Sim.AnswerAlike(env, env, SAME, live, past, past')
  {
    forall a, calls, ctx | a in env.actions
      ensures env.actions[a](past' + RenCalls(SAME, calls), RenContext(SAME, ctx)) ==
              RenMaybeError(SAME, env.actions[a](past + calls, ctx))
    {
      SameCalls(calls);
      SameContext(ctx);
      if env.actions[a](past + calls, ctx).Some? {
        SameError(env.actions[a](past + calls, ctx).value);
      }
    }
  }

  lemma StatelessAlike(env: Env, past: seq<ActionCall>, past': seq<ActionCall>)
    requires Stateless(env)
    ensures AnswerAlikeAfter(env, past, past')
  {
    forall a, calls, ctx | a in env.actions
      ensures env.actions[a](past' + calls, ctx) == env.actions[a](past + calls, ctx)
    {}
  }

  lemma AgreementShows(live: string -> bool, m: Machine, m': Machine)
    requires AgreeOn(live, m, m')
    ensures Sim.Shows(Sim.Origin(m, m'), SAME, live, Sim.ANYWHERE, m, m')
  {
    assert m.trace[|m.trace|..] == [] && m.calls[|m.calls|..] == [];
  }

  lemma ShownAgrees(live: string -> bool, o: Sim.Origin, m: Machine, m': Machine)
    requires Sim.Shows(o, SAME, live, Sim.ANYWHERE, m, m')
    ensures AgreeOn(live, m, m')
    ensures |o.m.trace| <= |m.trace| && |o.m'.trace| <= |m'.trace| && m'.trace[|o.m'.trace|..] == m.trace[|o.m.trace|..]
  {
    SameTrace(m.trace[|o.m.trace|..]);
  }

  /**
   A send reads nothing outside the signals reachable from its own: started in two machines
   that agree on those, with callbacks that answer alike after the calls made in either, it
   ends with the same outcome, the same new trace, and in agreement.
   */
  lemma SendReadsWithinReach(env: Env, fuel: nat, m: Machine, m': Machine, id: string, event: string,
                             payload: Option<Json>, parent: Option<Json>)
    requires AnswerAlikeAfter(env, m.calls, m'.calls) && AgreeOn(b => Reaches(env, id, b), m, m')
    ensures SendsAlike(env, fuel, m, m', id, event, payload, parent)
  {
    hide Reaches, Send, AgreeOn, AnswerAlikeAfter;
    var live := (b: string) => Reaches(env, id, b);
    var o := Sim.Origin(m, m');
    ReachIsConfined(env, id);
    SelfCorresponds(env, live);
    AlikeAnswers(env, live, m.calls, m'.calls);
    AgreementShows(live, m, m');
    Sim.SendShows(env, env, o, SAME, live, Sim.ANYWHERE, fuel, m, m', id, event, payload, parent);
    var (m1, outcome) := Send(env, fuel, m, id, event, payload, parent);
    var (m1', _) := Send(env, fuel, m', id, event, payload, parent);
    ShownAgrees(live, o, m1, m1');
    L.SameOutcome(outcome);
  }

  /** The send has the same outcome and the same new trace from both machines, and ends in agreement. */
  ghost predicate SendsAlike(env: Env, fuel: nat, m: Machine, m': Machine, id: string, event: string,
                             payload: Option<Json>, parent: Option<Json>) {
    var (m1, outcome) := Send(env, fuel, m, id, event, payload, parent);
    var (m1', outcome') := Send(env, fuel, m', id, event, payload, parent);
    && outcome' == outcome && AgreeOn(b => Reaches(env, id, b), m1, m1')
    && |m.trace| <= |m1.trace| && |m'.trace| <= |m1'.trace| && m1'.trace[|m'.trace|..] == m1.trace[|m.trace|..]
  }

  /** Any callbacks answer alike when the same calls were made: then only the reachable signals matter. */
  lemma SameHistoryReadsWithinReach(env: Env, fuel: nat, m: Machine, m': Machine, id: string, event: string,
                                    payload: Option<Json>, parent: Option<Json>)
    requires m.calls == m'.calls && AgreeOn(b => Reaches(env, id, b), m, m')
    ensures SendsAlike(env, fuel, m, m', id, event, payload, parent)
  {
    hide SendsAlike, AgreeOn;
    SendReadsWithinReach(env, fuel, m, m', id, event, payload, parent);
  }

  /** Stateless callbacks answer alike whatever was called before. */
  lemma StatelessReadsWithinReach(env: Env, fuel: nat, m: Machine, m': Machine, id: string, event: string,
                                  payload: Option<Json>, parent: Option<Json>)
    requires Stateless(env) && AgreeOn(b => Reaches(env, id, b), m, m')
    ensures SendsAlike(env, fuel, m, m', id, event, payload, parent)
  {
    hide SendsAlike, AgreeOn, Stateless, AnswerAlikeAfter;
    StatelessAlike(env, m.calls, m'.calls);
    SendReadsWithinReach(env, fuel, m, m', id, event, payload, parent);
  }

  // ---- Branches commute ----------------------------------------------------------------

  /** Firing a list among `live` from agreeing machines: the same error, and still in agreement. */
  lemma FireAllReads(env: Env, live: string -> bool, fuel: nat, m: Machine, m': Machine, rs: seq<ReactionDef>,
                     parent: Option<Json>, cause: string)
    requires AnswerAlikeAfter(env, m.calls, m'.calls) && I.Confined(env, live) && AgreeOn(live, m, m')
    requires forall r :: r in rs ==> live(r.toSignal)
    ensures var (m1, error) := FireAll(env, fuel, m, rs, parent, cause);
            var (m1', error') := FireAll(env, fuel, m', rs, parent, cause);
            error' == error && AgreeOn(live, m1, m1')
  {
    hide FireAll, AgreeOn, AnswerAlikeAfter;
    var o := Sim.Origin(m, m');
    SelfCorresponds(env, live);
    AlikeAnswers(env, live, m.calls, m'.calls);
    AgreementShows(live, m, m');
    Sim.FireAllShows(env, env, o, SAME, live, Sim.ANYWHERE, fuel, m, m', rs, parent, cause);
    SameReactions(rs);
    var (m1, error) := FireAll(env, fuel, m, rs, parent, cause);
    var (m1', _) := FireAll(env, fuel, m', rs, parent, cause);
    ShownAgrees(live, o, m1, m1');
    if error.Some? {
      SameError(error.value);
    }
  }

  /** Firing one reaction of `cause` changes no signal outside `live`, where its target lives. */
  lemma FireWrites(env: Env, live: string -> bool, fuel: nat, m: Machine, r: ReactionDef, parent: Option<Json>,
                   cause: string)
    requires I.Confined(env, live) && live(r.toSignal)
    ensures var m' := Fire(env, fuel, m, r, parent, cause).0;
            SameRoster(m, m') && forall id :: id in m.signals && id in m'.signals && !live(id)
                                   ==> m'.signals[id] == m.signals[id]
  {
    hide Within, Compensate;
    var (m1, open) := Gate(env, m, r, parent, cause);
    assert m1.signals == m.signals;
    if open {
      WithinIsInductive(env, live, m1);
      I.SendKeeps(env, live, m' => Within(live, m1, m'), fuel, m1, r.toSignal, r.event, r.payload, r.payload);
      var (m2, outcome) := Send(env, fuel, m1, r.toSignal, r.event, r.payload, r.payload);
      WithinWrites(live, m1, m2);
      if outcome.Failure? {
        CompensateWritesNothing(env, m2, r, parent, cause, outcome.error);
      }
    }
  }

  lemma WithinWrites(live: string -> bool, m: Machine, m': Machine)
    requires Within(live, m, m')
    ensures SameRoster(m, m') && forall id :: id in m.signals && id in m'.signals && !live(id)
                                   ==> m'.signals[id] == m.signals[id]
  {}

  lemma CompensateWritesNothing(env: Env, m: Machine, r: ReactionDef, parent: Option<Json>, cause: string,
                                error: EngineError)
    ensures Compensate(env, m, r, parent, cause, error).signals == m.signals
  {}

  lemma FireOne(env: Env, fuel: nat, m: Machine, r: ReactionDef, parent: Option<Json>, cause: string)
    ensures FireAll(env, fuel, m, [r], parent, cause) == Fire(env, fuel, m, r, parent, cause)
  {
    var (m1, error) := Fire(env, fuel, m, r, parent, cause);
    assert FireAll(env, fuel, m1, [r][1..], parent, cause) == (m1, None);
  }

  /**
   Two branches over disjoint sets of signals that succeed in one order also succeed in the
   other, and leave the same states.
   */
  lemma BranchesCommute(env: Env, liveA: string -> bool, liveB: string -> bool, fuel: nat, m: Machine,
                        a: ReactionDef, b: ReactionDef, parent: Option<Json>, cause: string)
    requires Stateless(env) && I.Confined(env, liveA) && I.Confined(env, liveB)
    requires liveA(a.toSignal) && liveB(b.toSignal) && forall id :: !(liveA(id) && liveB(id))
    requires FireAll(env, fuel, m, [a, b], parent, cause).1 == None
    ensures FireAll(env, fuel, m, [b, a], parent, cause).1 == None
    ensures FireAll(env, fuel, m, [b, a], parent, cause).0.signals
            == FireAll(env, fuel, m, [a, b], parent, cause).0.signals
  {
    hide Fire, Stateless, AnswerAlikeAfter;
    FireTwo(env, fuel, m, a, b, parent, cause);
    FireTwo(env, fuel, m, b, a, parent, cause);
    var (mA, errorA) := Fire(env, fuel, m, a, parent, cause);
    var mAB := Fire(env, fuel, mA, b, parent, cause).0;
    FireWrites(env, liveA, fuel, m, a, parent, cause);
    FireWrites(env, liveB, fuel, mA, b, parent, cause);
    FireOne(env, fuel, m, b, parent, cause);
    FireOne(env, fuel, mA, b, parent, cause);
    StatelessAlike(env, mA.calls, m.calls);
    FireAllReads(env, liveB, fuel, mA, m, [b], parent, cause);
    var (mB, errorB) := Fire(env, fuel, m, b, parent, cause);
    FireWrites(env, liveB, fuel, m, b, parent, cause);
    FireOne(env, fuel, m, a, parent, cause);
    FireOne(env, fuel, mB, a, parent, cause);
    StatelessAlike(env, m.calls, mB.calls);
    FireAllReads(env, liveA, fuel, m, mB, [a], parent, cause);
    var mBA := Fire(env, fuel, mB, a, parent, cause).0;
    FireWrites(env, liveA, fuel, mB, a, parent, cause);
    forall id | id in m.signals ensures mBA.signals[id] == mAB.signals[id] {
      if liveA(id) {
        assert mBA.signals[id].current == mA.signals[id].current == mAB.signals[id].current;
      } else if liveB(id) {
        assert mAB.signals[id].current == mB.signals[id].current == mBA.signals[id].current;
      }
    }
  }

  lemma FireTwo(env: Env, fuel: nat, m: Machine, a: ReactionDef, b: ReactionDef, parent: Option<Json>, cause: string)
    ensures FireAll(env, fuel, m, [a, b], parent, cause)
         == var (m1, error) := Fire(env, fuel, m, a, parent, cause);
            if error.Some? then (m1, error) else Fire(env, fuel, m1, b, parent, cause)
  {
    assert [a, b][1..] == [b];
    FireOne(env, fuel, Fire(env, fuel, m, a, parent, cause).0, b, parent, cause);
  }

  lemma {:induction false} FireAllConcat(env: Env, fuel: nat, m: Machine, a: seq<ReactionDef>, b: seq<ReactionDef>,
                                         parent: Option<Json>, cause: string)
    ensures FireAll(env, fuel, m, a + b, parent, cause)
         == var (m1, error) := FireAll(env, fuel, m, a, parent, cause);
            if error.Some? then (m1, error) else FireAll(env, fuel, m1, b, parent, cause)
    decreases |a|
  {
    if a == [] {
      assert a + b == b;
    } else {
      assert (a + b)[1..] == a[1..] + b;
      FireAllConcat(env, fuel, Fire(env, fuel, m, a[0], parent, cause).0, a[1..], b, parent, cause);
    }
  }

  /**
   Anywhere in a dispatch, two adjacent branches over disjoint sets of signals that both
   succeed can be swapped: the dispatch ends with the same error or success and in the
   same states.
   */
  lemma AdjacentBranchesSwap(env: Env, liveA: string -> bool, liveB: string -> bool, fuel: nat, m: Machine,
                             before: seq<ReactionDef>, a: ReactionDef, b: ReactionDef, after: seq<ReactionDef>,
                             parent: Option<Json>, cause: string)
    requires Stateless(env) && I.Confined(env, liveA) && I.Confined(env, liveB)
    requires liveA(a.toSignal) && liveB(b.toSignal) && forall id :: !(liveA(id) && liveB(id))
    requires FireAll(env, fuel, m, before + [a, b], parent, cause).1 == None
    ensures var (m1, error) := FireAll(env, fuel, m, before + [a, b] + after, parent, cause);
            var (m2, error') := FireAll(env, fuel, m, before + [b, a] + after, parent, cause);
            error' == error && m2.signals == m1.signals
  {
    hide FireAll, Fire, Stateless;
    FireAllConcat(env, fuel, m, before, [a, b], parent, cause);
    FireAllConcat(env, fuel, m, before, [b, a], parent, cause);
    FireAllConcat(env, fuel, m, before + [a, b], after, parent, cause);
    FireAllConcat(env, fuel, m, before + [b, a], after, parent, cause);
    var (m0, _) := FireAll(env, fuel, m, before, parent, cause);
    BranchesCommute(env, liveA, liveB, fuel, m0, a, b, parent, cause);
    var ab, ba := FireAll(env, fuel, m0, [a, b], parent, cause).0, FireAll(env, fuel, m0, [b, a], parent, cause).0;
    SameStatesRunAlike(env, fuel, ab, ba, after, parent, cause);
  }

  /** The trace and the past calls do not influence a dispatch with stateless callbacks. */
  lemma SameStatesRunAlike(env: Env, fuel: nat, m: Machine, m': Machine, rs: seq<ReactionDef>, parent: Option<Json>,
                           cause: string)
    requires Stateless(env) && m.signals == m'.signals
    ensures FireAll(env, fuel, m, rs, parent, cause).1 == FireAll(env, fuel, m', rs, parent, cause).1
    ensures FireAll(env, fuel, m, rs, parent, cause).0.signals == FireAll(env, fuel, m', rs, parent, cause).0.signals
  {
    hide Stateless, Fire, AnswerAlikeAfter;
    var all := (id: string) => true;
    StatelessAlike(env, m.calls, m'.calls);
    FireAllReads(env, all, fuel, m, m', rs, parent, cause);
    FireAllRoster(env, fuel, m, rs, parent, cause);
    FireAllRoster(env, fuel, m', rs, parent, cause);
  }

  lemma {:induction false} FireAllRoster(env: Env, fuel: nat, m: Machine, rs: seq<ReactionDef>, parent: Option<Json>,
                                         cause: string)
    ensures SameRoster(m, FireAll(env, fuel, m, rs, parent, cause).0)
    decreases |rs|
  {
    hide Fire;
    if rs != [] {
      FireWrites(env, (id: string) => true, fuel, m, rs[0], parent, cause);
      FireAllRoster(env, fuel, Fire(env, fuel, m, rs[0], parent, cause).0, rs[1..], parent, cause);
    }
  }

  /**
   The order of two adjacent branches of a fork in the source does not matter: when they
   lead to disjoint sets of signals and both succeed, the whole dispatch, joins included,
   ends with the same error or success and in the same states.
   */
  lemma ForkBranchesCommute(env: Env, liveA: string -> bool, liveB: string -> bool, fuel: nat, m: Machine,
                            front: seq<ReactionDef>, a: ReactionDef, b: ReactionDef, rest: seq<ReactionDef>,
                            parent: Option<Json>, cause: string) returns (s: Scheduler.Swap)
    requires Stateless(env) && I.Confined(env, liveA) && I.Confined(env, liveB)
    requires liveA(a.toSignal) && liveB(b.toSignal) && forall id :: !(liveA(id) && liveB(id))
    requires a.needs == b.needs == [] && a.joinGroup == b.joinGroup
    ensures Scheduler.Schedule(front + [a, b] + rest) == s.before + [a, b] + s.after
    ensures FireAll(env, fuel, m, s.before + [a, b], parent, cause).1 == None ==>
              var (m1, error) := FireAll(env, fuel, m, Scheduler.Schedule(front + [a, b] + rest), parent, cause);
              var (m2, error') := FireAll(env, fuel, m, Scheduler.Schedule(front + [b, a] + rest), parent, cause);
              error' == error && m2.signals == m1.signals
  {
    hide FireAll, Stateless, Scheduler.Schedule;
    s := Scheduler.ScheduleSwap(front, a, b, rest);
    if FireAll(env, fuel, m, s.before + [a, b], parent, cause).1 == None {
      AdjacentBranchesSwap(env, liveA, liveB, fuel, m, s.before, a, b, s.after, parent, cause);
    }
  }
}
