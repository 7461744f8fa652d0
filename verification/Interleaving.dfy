/**
 An instance among other signals. Events to signals that lead nowhere near the instance may
 come between the events to its own: for callbacks that remember no calls but the instance's,
 the instance still runs as its component alone, on its own events.
 */
module Interleaving {
  import opened Wrappers
  import opened Schema
  import opened Errors
  import opened Semantics
  import opened Renaming
  import opened Compose
  import opened Validation
  import D = Independence
  import I = Invariants
  import N = Instances
  import Sim = Simulation

  /** An event to a signal of the component, by its own name, or to another signal of the flat schema. */
  datatype Step = Own(input: Input) | Foreign(input: Input)

  function FlatInputs(f: Names, steps: seq<Step>): seq<Input> {
    if steps == [] then []
    else
      var i := steps[0].input;
      [if steps[0].Own? then i.(signalId := f(i.signalId)) else i] + FlatInputs(f, steps[1..])
  }

  function OwnInputs(steps: seq<Step>): seq<Input> {
    if steps == [] then [] else (if steps[0].Own? then [steps[0].input] else []) + OwnInputs(steps[1..])
  }

  /** Of the outcomes of all steps, those of the instance's own. */
  function OwnOutcomes(steps: seq<Step>, outcomes: seq<Outcome>): seq<Outcome>
    requires |steps| == |outcomes|
  {
    if steps == [] then [] else (if steps[0].Own? then [outcomes[0]] else []) + OwnOutcomes(steps[1..], outcomes[1..])
  }

  function RenOutcomes(f: Names, outcomes: seq<Outcome>): seq<Outcome> {
    if outcomes == [] then [] else [RenOutcome(f, outcomes[0])] + RenOutcomes(f, outcomes[1..])
  }

  // ---- What is the instance's own ------------------------------------------------------

  /** The new name of a live signal. */
  ghost predicate Owns(f: Names, live: string -> bool, id': string) {
    exists id :: live(id) && f(id) == id'
  }

  /** The records about the instance's signals, in order. */
  ghost function OwnTrace(f: Names, live: string -> bool, trace: seq<TraceEvent>): seq<TraceEvent> {
    if trace == [] then []
    else OwnTrace(f, live, trace[..|trace| - 1]) +
         if Owns(f, live, trace[|trace| - 1].signalId) then [trace[|trace| - 1]] else []
  }

  /** The action calls for the instance's signals, in order. */
  ghost function OwnCalls(f: Names, live: string -> bool, calls: seq<ActionCall>): seq<ActionCall> {
    if calls == [] then []
    else OwnCalls(f, live, calls[..|calls| - 1]) +
         if Owns(f, live, calls[|calls| - 1].ctx.signalId) then [calls[|calls| - 1]] else []
  }

  lemma {:induction false} OwnTraceGrows(f: Names, live: string -> bool, past: seq<TraceEvent>, added: seq<TraceEvent>)
    ensures (forall e :: e in added ==> Owns(f, live, e.signalId)) ==>
              OwnTrace(f, live, past + added) == OwnTrace(f, live, past) + added
    ensures (forall e :: e in added ==> !Owns(f, live, e.signalId)) ==>
              OwnTrace(f, live, past + added) == OwnTrace(f, live, past)
    decreases |added|
  {
    hide Owns;
    if added == [] {
      assert past + added == past;
    } else {
      var front := added[..|added| - 1];
      assert (past + added)[..|past + added| - 1] == past + front;
      assert added == front + [added[|added| - 1]];
      OwnTraceGrows(f, live, past, front);
    }
  }

  lemma {:induction false} OwnCallsGrow(f: Names, live: string -> bool, past: seq<ActionCall>, added: seq<ActionCall>)
    ensures (forall c :: c in added ==> Owns(f, live, c.ctx.signalId)) ==>
              OwnCalls(f, live, past + added) == OwnCalls(f, live, past) + added
    ensures (forall c :: c in added ==> !Owns(f, live, c.ctx.signalId)) ==>
              OwnCalls(f, live, past + added) == OwnCalls(f, live, past)
    decreases |added|
  {
    hide Owns;
    if added == [] {
      assert past + added == past;
    } else {
      var front := added[..|added| - 1];
      assert (past + added)[..|past + added| - 1] == past + front;
      assert added == front + [added[|added| - 1]];
      OwnCallsGrow(f, live, past, front);
    }
  }

  lemma RenTraceConcat(f: Names, a: seq<TraceEvent>, b: seq<TraceEvent>)
    ensures RenTrace(f, a + b) == RenTrace(f, a) + RenTrace(f, b)
  {}

  lemma LiveTraceOwned(f: Names, live: string -> bool, added: seq<TraceEvent>)
    requires forall e :: e in added ==> live(e.signalId)
    ensures forall e :: e in RenTrace(f, added) ==> Owns(f, live, e.signalId)
  {
    forall i | 0 <= i < |added| ensures Owns(f, live, RenTrace(f, added)[i].signalId) {
      assert added[i] in added;
    }
  }

  lemma LiveTraceGrows(f: Names, live: string -> bool, past: seq<TraceEvent>, past': seq<TraceEvent>,
                       added: seq<TraceEvent>)
    requires OwnTrace(f, live, past') == RenTrace(f, past) && forall e :: e in added ==> live(e.signalId)
    ensures OwnTrace(f, live, past' + RenTrace(f, added)) == RenTrace(f, past + added)
  {
    hide OwnTrace, Owns, RenTrace;
    LiveTraceOwned(f, live, added);
    OwnTraceGrows(f, live, past', RenTrace(f, added));
    RenTraceConcat(f, past, added);
  }

  lemma RenCallsConcat(f: Names, a: seq<ActionCall>, b: seq<ActionCall>)
    ensures RenCalls(f, a + b) == RenCalls(f, a) + RenCalls(f, b)
  {}

  lemma LiveCallsOwned(f: Names, live: string -> bool, added: seq<ActionCall>)
    requires Sim.CallsWithin(live, added)
    ensures forall c :: c in RenCalls(f, added) ==> Owns(f, live, c.ctx.signalId)
  {
    forall i | 0 <= i < |added| ensures Owns(f, live, RenCalls(f, added)[i].ctx.signalId) {
      assert added[i] in added;
    }
  }

  lemma LiveCallsGrow(f: Names, live: string -> bool, past: seq<ActionCall>, past': seq<ActionCall>,
                      added: seq<ActionCall>)
    requires OwnCalls(f, live, past') == RenCalls(f, past) && Sim.CallsWithin(live, added)
    ensures OwnCalls(f, live, past' + RenCalls(f, added)) == RenCalls(f, past + added)
  {
    hide OwnCalls, Owns, RenCalls;
    LiveCallsOwned(f, live, added);
    OwnCallsGrow(f, live, past', RenCalls(f, added));
    RenCallsConcat(f, past, added);
  }

  /**
   `m'` mirrors `m`: the live signals are there in both machines, in the same states, and what
   is recorded and called for them is the same, whatever lies in between.
   */
  ghost predicate Mirrors(f: Names, live: string -> bool, m: Machine, m': Machine) {
    && (forall id :: live(id) ==>
          id in m.signals && f(id) in m'.signals && m'.signals[f(id)].current == m.signals[id].current)
    && OwnTrace(f, live, m'.trace) == RenTrace(f, m.trace)
    && OwnCalls(f, live, m'.calls) == RenCalls(f, m.calls)
  }

  /** The callbacks answer alike for the instance as long as what was called for the instance itself is alike. */
  ghost predicate SeparatelyAlike(env: Env, env': Env, f: Names, live: string -> bool) {
    forall a, past, past', ctx: ActionContext ::
      a in env.actions && a in env'.actions && live(ctx.signalId) && OwnCalls(f, live, past') == RenCalls(f, past) ==>
        env'.actions[a](past', RenContext(f, ctx)) == RenMaybeError(f, env.actions[a](past, ctx))
  }

  /** Callbacks without memory do. */
  lemma MemorylessAreSeparate(env: Env, env': Env, f: Names, live: string -> bool)
    requires D.Stateless(env) && D.Stateless(env') && Sim.AnswerAlike(env, env', f, live, [], [])
    ensures SeparatelyAlike(env, env', f, live)
  {
    forall a, past, past', ctx: ActionContext | a in env.actions && a in env'.actions && live(ctx.signalId)
      ensures env'.actions[a](past', RenContext(f, ctx)) == RenMaybeError(f, env.actions[a](past, ctx))
    {
      var none: seq<ActionCall> := [];
      assert none + none == none && none + RenCalls(f, none) == none && Sim.CallsWithin(live, none);
      assert env'.actions[a](none + RenCalls(f, none), RenContext(f, ctx))
          == RenMaybeError(f, env.actions[a](none + none, ctx));
      assert env'.actions[a](past', RenContext(f, ctx)) == env'.actions[a]([], RenContext(f, ctx));
      assert env.actions[a](past, ctx) == env.actions[a]([], ctx);
    }
  }

  lemma MirroredAnswers(env: Env, env': Env, f: Names, live: string -> bool, m: Machine, m': Machine)
    requires SeparatelyAlike(env, env', f, live) && Mirrors(f, live, m, m')
    ensures Sim.AnswerAlike(env, env', f, live, m.calls, m'.calls)
  {
    hide OwnCalls, RenCalls, RenContext, OwnTrace, RenTrace;
    forall a, calls: seq<ActionCall>, ctx: ActionContext |
      a in env.actions && a in env'.actions && live(ctx.signalId) && Sim.CallsWithin(live, calls)
      ensures env'.actions[a](m'.calls + RenCalls(f, calls), RenContext(f, ctx))
           == RenMaybeError(f, env.actions[a](m.calls + calls, ctx))
    {
      LiveCallsGrow(f, live, m.calls, m'.calls, calls);
    }
  }

  /** No cascade from `id` comes to a live signal. */
  ghost predicate KeepsAway(env': Env, f: Names, live: string -> bool, id: string) {
    forall own :: live(own) ==> !D.Reaches(env', id, f(own))
  }

  // ---- One event -----------------------------------------------------------------------

  lemma SessionCount(env: Env, limit: nat, m: Machine, inputs: seq<Input>)
    ensures |Session(env, limit, m, inputs).1| == |inputs|
    decreases |inputs|
  {
    hide Deliver;
    if inputs != [] {
      SessionCount(env, limit, Deliver(env, limit, m, inputs[0]).0, inputs[1..]);
    }
  }

  lemma {:induction false} FlatCount(f: Names, steps: seq<Step>)
    ensures |FlatInputs(f, steps)| == |steps|
  {
    if steps != [] {
      FlatCount(f, steps[1..]);
    }
  }

  lemma OwnStep(env: Env, env': Env, f: Names, live: string -> bool, limit: nat, m: Machine, m': Machine, i: Input)
    requires Sim.Corresponds(env, env', f, live, Sim.ANYWHERE) && SeparatelyAlike(env, env', f, live)
    requires Mirrors(f, live, m, m') && live(i.signalId)
    ensures var (m1, outcome) := Deliver(env, limit, m, i);
            var (m1', outcome') := Deliver(env', limit, m', i.(signalId := f(i.signalId)));
            Mirrors(f, live, m1, m1') && outcome' == RenOutcome(f, outcome)
  {
    var o := Sim.Origin(m, m');
    assert I.Confined(env, live);
    MirroredAnswers(env, env', f, live, m, m');
    MirrorShows(f, live, m, m');
    hide Sim.Corresponds, Sim.AnswerAlike, Sim.Shows, Send, SeparatelyAlike, Mirrors, D.Within;
    Sim.SendShows(env, env', o, f, live, Sim.ANYWHERE, limit + 1, m, m', i.signalId, i.event, i.payload, i.payload);
    D.WithinIsInductive(env, live, m);
    I.SendKeeps(env, live, m1 => D.Within(live, m, m1), limit + 1, m, i.signalId, i.event, i.payload, i.payload);
    ShownMirrors(f, live, m, m', Deliver(env, limit, m, i).0,
                 Deliver(env', limit, m', i.(signalId := f(i.signalId))).0);
  }

  lemma MirrorShows(f: Names, live: string -> bool, m: Machine, m': Machine)
    requires Mirrors(f, live, m, m')
    ensures Sim.Shows(Sim.Origin(m, m'), f, live, Sim.ANYWHERE, m, m')
  {
    hide OwnTrace, OwnCalls;
    assert m.trace[|m.trace|..] == [] && m.calls[|m.calls|..] == [];
  }

  /** What the live signals did is all there, renamed, and is all that was added. */
  lemma ShownMirrors(f: Names, live: string -> bool, m: Machine, m': Machine, m1: Machine, m1': Machine)
    requires Mirrors(f, live, m, m') && D.Within(live, m, m1)
    requires Sim.Shows(Sim.Origin(m, m'), f, live, Sim.ANYWHERE, m1, m1')
    ensures Mirrors(f, live, m1, m1')
  {
    hide OwnTrace, OwnCalls, RenTrace, RenCalls, D.SameRoster;
    var added, calls := m1.trace[|m.trace|..], m1.calls[|m.calls|..];
    assert m1.trace == m.trace + added && m1.calls == m.calls + calls;
    LiveTraceGrows(f, live, m.trace, m'.trace, added);
    LiveCallsGrow(f, live, m.calls, m'.calls, calls);
    StillThere(live, m, m1);
  }

  lemma StillThere(live: string -> bool, m: Machine, m1: Machine)
    requires D.Within(live, m, m1)
    ensures m1.signals.Keys == m.signals.Keys
  {}

  lemma ForeignStep(env': Env, f: Names, live: string -> bool, limit: nat, m: Machine, m': Machine, i: Input)
    requires Mirrors(f, live, m, m') && KeepsAway(env', f, live, i.signalId)
    ensures Mirrors(f, live, m, Deliver(env', limit, m', i).0)
  {
    hide Send, D.Reaches, OwnTrace, OwnCalls;
    D.SendWritesWithinReach(env', limit + 1, m', i.signalId, i.event, i.payload, i.payload);
    var m1' := Deliver(env', limit, m', i).0;
    var added, calls := m1'.trace[|m'.trace|..], m1'.calls[|m'.calls|..];
    assert m1'.trace == m'.trace + added && m1'.calls == m'.calls + calls;
    OwnTraceGrows(f, live, m'.trace, added);
    OwnCallsGrow(f, live, m'.calls, calls);
  }

  // ---- Sessions ------------------------------------------------------------------------

  /**
   Both sessions leave the live signals in the same states, with the same outcomes for their
   events, and the same records and calls for them.
   */
  ghost predicate RunsAlike(env: Env, env': Env, f: Names, live: string -> bool, limit: nat, m: Machine, m': Machine,
                            steps: seq<Step>) {
    var (m1, outcomes) := Session(env, limit, m, OwnInputs(steps));
    var (m1', outcomes') := Session(env', limit, m', FlatInputs(f, steps));
    Mirrors(f, live, m1, m1') && |outcomes'| == |steps| && OwnOutcomes(steps, outcomes') == RenOutcomes(f, outcomes)
  }

  lemma {:induction false} StepsRunAlike(env: Env, env': Env, f: Names, live: string -> bool, limit: nat, m: Machine,
                                         m': Machine, steps: seq<Step>)
    requires Sim.Corresponds(env, env', f, live, Sim.ANYWHERE) && SeparatelyAlike(env, env', f, live)
    requires Mirrors(f, live, m, m')
    requires forall s :: s in steps ==> if s.Own? then live(s.input.signalId)
               else KeepsAway(env', f, live, s.input.signalId)
    ensures RunsAlike(env, env', f, live, limit, m, m', steps)
    decreases |steps|
  {
    hide Sim.Corresponds, SeparatelyAlike, Mirrors, KeepsAway, Deliver, RenOutcome;
    FlatCount(f, steps);
    SessionCount(env', limit, m', FlatInputs(f, steps));
    if steps != [] {
      var i, rest := steps[0].input, steps[1..];
      assert steps[0] in steps;
      if steps[0].Own? {
        var flat := i.(signalId := f(i.signalId));
        OwnStep(env, env', f, live, limit, m, m', i);
        StepsRunAlike(env, env', f, live, limit, Deliver(env, limit, m, i).0, Deliver(env', limit, m', flat).0, rest);
        assert OwnInputs(steps)[1..] == OwnInputs(rest) && FlatInputs(f, steps)[1..] == FlatInputs(f, rest);
      } else {
        ForeignStep(env', f, live, limit, m, m', i);
        StepsRunAlike(env, env', f, live, limit, m, Deliver(env', limit, m', i).0, rest);
        assert OwnInputs(steps) == OwnInputs(rest) && FlatInputs(f, steps)[1..] == FlatInputs(f, rest);
      }
    }
  }

  /**
   The main result. An instance as in `Instances.WiredInstanceRunsAsComponent`, and a session
   of its own events and of events whose cascades do not come to it, in any order: its signals
   end in the states, its events have the outcomes, and what is recorded and called for it is
   what it is, of the component alone on its events.
   */
  lemma InterleavedInstanceRunsAsComponent(schema: TopologySchema, k: nat, w: Wired, before: Part, after: Part,
                                           actions: map<string, ActionFn>, actions': map<string, ActionFn>,
                                           guards: GuardFn, limit: nat, steps: seq<Step>)
    requires k < |schema.instances| && Expanded(schema).Success?
    requires Elaborate(Components(schema), schema.instances[k]) == Success(w)
    requires var flat := Expanded(schema).value;
             Part(flat.signals, flat.transitions, flat.reactions) == Join(Join(before, Placed(w)), after)
    requires WellFormed(N.Alone(w.part)) && N.Apart(w, before) && N.Apart(w, after)
    requires actions.Keys == actions'.Keys
    requires SeparatelyAlike(EnvOf(N.Alone(w.part), actions, guards), EnvOf(Expanded(schema).value, actions', guards),
                             Rewired(w.remap), id => Declared(w.part.signals, id))
    requires forall s :: s in steps ==>
               if s.Own? then Declared(w.part.signals, s.input.signalId)
               else KeepsAway(EnvOf(Expanded(schema).value, actions', guards), Rewired(w.remap),
                           id => Declared(w.part.signals, id), s.input.signalId)
    ensures var flat := Expanded(schema).value;
            RunsAlike(EnvOf(N.Alone(w.part), actions, guards), EnvOf(flat, actions', guards), Rewired(w.remap),
                      id => Declared(w.part.signals, id), limit, InitialMachine(N.Alone(w.part)), InitialMachine(flat),
                      steps)
  {
    var _, _, _ := ExpansionRenamesInjectively(schema, k);
    hide Elaborate, Expanded, N.Apart, SeparatelyAlike, Mirrors, Sim.Corresponds, RunsAlike, KeepsAway;
    var flat, live := Expanded(schema).value, (id: string) => Declared(w.part.signals, id);
    var m, m' := InitialMachine(N.Alone(w.part)), InitialMachine(flat);
    N.PlacedCorresponds(w, before, after, flat, actions, actions', guards);
    assert flat.signals == Join(Join(before, Placed(w)), after).signals;
    InitiallyMirrors(w, before, after, flat);
    StepsRunAlike(EnvOf(N.Alone(w.part), actions, guards), EnvOf(flat, actions', guards), Rewired(w.remap), live,
                  limit, m, m', steps);
  }

  lemma InitiallyMirrors(w: Wired, before: Part, after: Part, flat: TopologySchema)
    requires DistinctIds(w.part.signals) && DistinctIds(flat.signals)
    requires flat.signals == before.signals + RenSignals(Rewired(w.remap), w.part.signals) + after.signals
    ensures Mirrors(Rewired(w.remap), id => Declared(w.part.signals, id), InitialMachine(N.Alone(w.part)),
                    InitialMachine(flat))
  {
    hide InitialStates, Declared, DistinctIds, Rewired, RenSignals;
    forall id | Declared(w.part.signals, id)
      ensures var states, states', id' := InitialStates(w.part.signals), InitialStates(flat.signals),
              Rewired(w.remap)(id);
              id in states && id' in states' && states'[id'].current == states[id].current
    {
      N.PlacedState(Rewired(w.remap), before.signals, w.part.signals, after.signals, id);
    }
  }
}
