/**
 The fork/join order of a dispatch (src/engine.rs, `dispatch_reactions`).

 The loop there interleaves two things: it decides which reaction comes next, and it
 fires it. As a failing reaction aborts the loop, the order never depends on what firing
 does, so it is a function of the matched reactions alone: `Schedule`. This module
 proves what that order is; `Engine` proves that the loop follows it.
 */
module Scheduler {
  import opened Wrappers
  import opened Schema

  // ---- The order the loop takes --------------------------------------------------------

  /** The reactions of `rs` that belong to the fork group `g`. */
  function Members(rs: seq<ReactionDef>, g: string): nat {
    if rs == [] then 0 else (if rs[0].joinGroup == Some(g) then 1 else 0) + Members(rs[1..], g)
  }

  /** Every group `r` waits on has completed. */
  predicate Satisfied(r: ReactionDef, done: set<string>) {
    forall g :: g in r.needs ==> g in done
  }

  /** The reactions of `rs` whose groups have (`met`) or have not (`!met`) all completed, in order. */
  function Sift(rs: seq<ReactionDef>, done: set<string>, met: bool): seq<ReactionDef> {
    if rs == [] then []
    else (if Satisfied(rs[0], done) == met then [rs[0]] else []) + Sift(rs[1..], done, met)
  }

  /** The reactions of `rs` without (`free`) or with (`!free`) dependencies, in source order. */
  function Split(rs: seq<ReactionDef>, free: bool): seq<ReactionDef> {
    if rs == [] then []
    else (if (rs[0].needs == []) == free then [rs[0]] else []) + Split(rs[1..], free)
  }

  /** The loop's variables: the queue, the held-back joins, the progress of each group. */
  datatype Queue = Queue(
    ready: seq<ReactionDef>,
    waiting: seq<ReactionDef>,
    doneCount: map<string, nat>,
    done: set<string>)

  function Done(q: Queue, g: string): nat {
    if g in q.doneCount then q.doneCount[g] else 0
  }

  function Start(matched: seq<ReactionDef>): Queue {
    Queue(Split(matched, true), Split(matched, false), map[], {})
  }

  /** Records that `r` has fired: it may complete its group, which may release joins. */
  function Settle(matched: seq<ReactionDef>, q: Queue, r: ReactionDef): Queue {
    match r.joinGroup
    case None => q
    case Some(g) =>
      var n := Done(q, g) + 1;
      var q1 := q.(doneCount := q.doneCount[g := n]);
      if Members(matched, g) == n then
        var done := q.done + {g};
        q1.(done := done, ready := q.ready + Sift(q.waiting, done, true), waiting := Sift(q.waiting, done, false))
      else q1
  }

  function Step(matched: seq<ReactionDef>, q: Queue): Queue
    requires q.ready != []
  {
    Settle(matched, q.(ready := q.ready[1..]), q.ready[0])
  }

  lemma SiftLengths(rs: seq<ReactionDef>, done: set<string>)
    ensures |Sift(rs, done, true)| + |Sift(rs, done, false)| == |rs|
  {}

  lemma StepShrinks(matched: seq<ReactionDef>, q: Queue)
    requires q.ready != []
    ensures |Step(matched, q).ready| + |Step(matched, q).waiting| == |q.ready| + |q.waiting| - 1
  {
    match q.ready[0].joinGroup
    case None =>
    case Some(g) => SiftLengths(q.waiting, q.done + {g});
  }

  /** The reactions fired from `q` on, in order, when none of them fails. */
  function Order(matched: seq<ReactionDef>, q: Queue): seq<ReactionDef>
    decreases |q.ready| + |q.waiting|
  {
    if q.ready == [] then []
    else StepShrinks(matched, q); [q.ready[0]] + Order(matched, Step(matched, q))
  }

  function Schedule(matched: seq<ReactionDef>): seq<ReactionDef> {
    Order(matched, Start(matched))
  }

  /** The loop's variables when it stops. */
  function Last(matched: seq<ReactionDef>, q: Queue): Queue
    decreases |q.ready| + |q.waiting|
  {
    if q.ready == [] then q else StepShrinks(matched, q); Last(matched, Step(matched, q))
  }

  // ---- What the order means ------------------------------------------------------------

  /** `g` has a matched member, and `fired` holds every matched member of it. */
  ghost predicate GroupIn(matched: seq<ReactionDef>, g: string, fired: set<ReactionDef>) {
    && (exists x :: x in matched && x.joinGroup == Some(g))
    && (forall x :: x in matched && x.joinGroup == Some(g) ==> x in fired)
  }

  /** All groups `r` waits on are in `fired`; trivially so when it waits on none. */
  ghost predicate Enabled(matched: seq<ReactionDef>, r: ReactionDef, fired: set<ReactionDef>) {
    forall g :: g in r.needs ==> GroupIn(matched, g, fired)
  }

  /** `s` contains every matched reaction that it enables. */
  ghost predicate Closed(matched: seq<ReactionDef>, s: set<ReactionDef>) {
    forall r :: r in matched && Enabled(matched, r, s) ==> r in s
  }

  function Elements(rs: seq<ReactionDef>): set<ReactionDef> {
    set r | r in rs
  }

  // ---- The loop invariant --------------------------------------------------------------

  /** Holds of the loop once it has fired `fired` and is left with `q`. */
  ghost predicate Progress(matched: seq<ReactionDef>, fired: seq<ReactionDef>, q: Queue) {
    Balance(matched, fired, q) && Tally(matched, fired, q) && Sides(q)
  }

  /** Every matched reaction has fired, is queued or is held back. */
  ghost predicate Balance(matched: seq<ReactionDef>, fired: seq<ReactionDef>, q: Queue) {
    && multiset(fired) + multiset(q.ready) + multiset(q.waiting) == multiset(matched)
    && (forall g :: Members(fired, g) + Members(q.ready, g) + Members(q.waiting, g) == Members(matched, g))
  }

  /** The counters count the fired members; the finished groups are those all of whose members fired. */
  ghost predicate Tally(matched: seq<ReactionDef>, fired: seq<ReactionDef>, q: Queue) {
    && (forall g :: Done(q, g) == Members(fired, g))
    && (forall g :: g in q.done <==> 0 < Members(matched, g) == Members(fired, g))
  }

  ghost predicate Sides(q: Queue) {
    && (forall r :: r in q.ready ==> Satisfied(r, q.done))
    && (forall r :: r in q.waiting ==> !Satisfied(r, q.done))
  }

  /** Every reaction of `fired` comes after all matched members of all groups it waits on. */
  ghost predicate JoinSafe(matched: seq<ReactionDef>, fired: seq<ReactionDef>) {
    forall i, g :: 0 <= i < |fired| && g in fired[i].needs ==> Completed(matched, fired[..i], g)
  }

  /** `fired` holds every matched member of `g`, as often as it was matched, and at least one. */
  ghost predicate Completed(matched: seq<ReactionDef>, fired: seq<ReactionDef>, g: string) {
    && (exists x :: x in matched && x.joinGroup == Some(g))
    && (forall x :: x in matched && x.joinGroup == Some(g) ==> multiset(fired)[x] == multiset(matched)[x])
  }

  lemma {:induction false} MembersConcat(a: seq<ReactionDef>, b: seq<ReactionDef>, g: string)
    ensures Members(a + b, g) == Members(a, g) + Members(b, g)
  {
    if a == [] {
      assert a + b == b;
    } else {
      assert (a + b)[1..] == a[1..] + b;
      MembersConcat(a[1..], b, g);
    }
  }

  lemma {:induction false} MembersPositive(rs: seq<ReactionDef>, g: string)
    ensures 0 < Members(rs, g) <==> exists x :: x in rs && x.joinGroup == Some(g)
  {
    if rs != [] {
      MembersPositive(rs[1..], g);
      assert rs == [rs[0]] + rs[1..];
    }
  }

  lemma {:induction false} SiftProperties(rs: seq<ReactionDef>, done: set<string>, met: bool)
    ensures forall r :: r in Sift(rs, done, met) ==> r in rs && Satisfied(r, done) == met
    ensures multiset(Sift(rs, done, true)) + multiset(Sift(rs, done, false)) == multiset(rs)
  {
    if rs != [] {
      SiftProperties(rs[1..], done, met);
      assert rs == [rs[0]] + rs[1..];
    }
  }

  lemma {:induction false} SiftMembers(rs: seq<ReactionDef>, done: set<string>, g: string)
    ensures Members(Sift(rs, done, true), g) + Members(Sift(rs, done, false), g) == Members(rs, g)
  {
    if rs != [] {
      SiftMembers(rs[1..], done, g);
      var met := Satisfied(rs[0], done);
      MembersConcat([rs[0]], Sift(rs[1..], done, met), g);
      assert [] + Sift(rs[1..], done, !met) == Sift(rs[1..], done, !met);
    }
  }

  lemma {:induction false} SplitProperties(rs: seq<ReactionDef>, free: bool)
    ensures forall r :: r in Split(rs, free) ==> r in rs && (r.needs == []) == free
    ensures multiset(Split(rs, true)) + multiset(Split(rs, false)) == multiset(rs)
  {
    if rs != [] {
      SplitProperties(rs[1..], free);
      assert rs == [rs[0]] + rs[1..];
    }
  }

  lemma {:induction false} SplitMembers(rs: seq<ReactionDef>, g: string)
    ensures Members(Split(rs, true), g) + Members(Split(rs, false), g) == Members(rs, g)
  {
    if rs != [] {
      SplitMembers(rs[1..], g);
      var free := rs[0].needs == [];
      MembersConcat([rs[0]], Split(rs[1..], free), g);
      assert [] + Split(rs[1..], !free) == Split(rs[1..], !free);
    }
  }

  lemma StartProgress(matched: seq<ReactionDef>)
    ensures Progress(matched, [], Start(matched))
  {
    SplitProperties(matched, true);
    SplitProperties(matched, false);
    forall g ensures Members(Split(matched, true), g) + Members(Split(matched, false), g) == Members(matched, g) {
      SplitMembers(matched, g);
    }
    forall r | r in Split(matched, false) ensures !Satisfied(r, {}) {
      assert r.needs[0] in r.needs;
    }
  }

  lemma StepProgress(matched: seq<ReactionDef>, fired: seq<ReactionDef>, q: Queue)
    requires Progress(matched, fired, q) && q.ready != []
    ensures Progress(matched, fired + [q.ready[0]], Step(matched, q))
  {
    StepBalance(matched, fired, q);
    StepTally(matched, fired, q);
    StepSides(matched, q);
  }

  /** What a step releases and what it keeps back. */
  lemma StepShape(matched: seq<ReactionDef>, q: Queue) returns (released: seq<ReactionDef>)
    requires q.ready != []
    ensures Step(matched, q).ready == q.ready[1..] + released
    ensures multiset(released) + multiset(Step(matched, q).waiting) == multiset(q.waiting)
    ensures forall g :: Members(released, g) + Members(Step(matched, q).waiting, g) == Members(q.waiting, g)
  {
    var q', rest := Step(matched, q), q.ready[1..];
    if q'.done == q.done && q'.ready == rest && q'.waiting == q.waiting {
      released := [];
    } else {
      var done := q.done + {q.ready[0].joinGroup.value};
      released := Sift(q.waiting, done, true);
      SiftProperties(q.waiting, done, true);
      forall g ensures Members(released, g) + Members(q'.waiting, g) == Members(q.waiting, g) {
        SiftMembers(q.waiting, done, g);
      }
    }
  }

  lemma StepBalance(matched: seq<ReactionDef>, fired: seq<ReactionDef>, q: Queue)
    requires Balance(matched, fired, q) && q.ready != []
    ensures Balance(matched, fired + [q.ready[0]], Step(matched, q))
  {
    var released := StepShape(matched, q);
    hide Step, Members;
    var r, rest, held := q.ready[0], q.ready[1..], Step(matched, q).waiting;
    assert q.ready == [r] + rest;
    forall g
      ensures Members(fired + [r], g) + Members(rest + released, g) + Members(held, g) == Members(matched, g)
    {
      MembersConcat(fired, [r], g);
      MembersConcat([r], rest, g);
      MembersConcat(rest, released, g);
    }
    BagBalance(fired, r, rest, released, held, q.waiting);
  }

  lemma BagBalance(fired: seq<ReactionDef>, r: ReactionDef, rest: seq<ReactionDef>,
                   released: seq<ReactionDef>, held: seq<ReactionDef>, waiting: seq<ReactionDef>)
    requires multiset(released) + multiset(held) == multiset(waiting)
    ensures multiset(fired + [r]) + multiset(rest + released) + multiset(held) ==
            multiset(fired) + multiset([r] + rest) + multiset(waiting)
  {
    assert multiset(fired + [r]) + multiset(rest + released) + multiset(held) ==
           multiset(fired) + multiset([r] + rest) + (multiset(released) + multiset(held));
  }

  lemma StepTally(matched: seq<ReactionDef>, fired: seq<ReactionDef>, q: Queue)
    requires Balance(matched, fired, q) && Tally(matched, fired, q) && q.ready != []
    ensures Tally(matched, fired + [q.ready[0]], Step(matched, q))
  {
    var r := q.ready[0];
    forall g
      ensures Members(fired + [r], g) == Members(fired, g) + if r.joinGroup == Some(g) then 1 else 0
    {
      MembersConcat(fired, [r], g);
    }
  }

  lemma StepSides(matched: seq<ReactionDef>, q: Queue)
    requires Sides(q) && q.ready != []
    ensures Sides(Step(matched, q))
  {
    var q' := Step(matched, q);
    SiftProperties(q.waiting, q'.done, true);
    SiftProperties(q.waiting, q'.done, false);
    forall r | r in q'.ready ensures Satisfied(r, q'.done) {
      if r in q.ready {
        assert Satisfied(r, q.done);
      }
    }
  }

  lemma CompletedGroup(matched: seq<ReactionDef>, fired: seq<ReactionDef>, q: Queue, g: string)
    requires Balance(matched, fired, q) && Tally(matched, fired, q) && g in q.done
    ensures Completed(matched, fired, g)
  {
    MembersPositive(matched, g);
    MembersPositive(q.ready, g);
    MembersPositive(q.waiting, g);
    forall x | x in matched && x.joinGroup == Some(g)
      ensures multiset(fired)[x] == multiset(matched)[x]
    {
      assert x !in multiset(q.ready) && x !in multiset(q.waiting);
      assert multiset(matched)[x] == multiset(fired)[x] + multiset(q.ready)[x] + multiset(q.waiting)[x];
    }
  }

  lemma JoinSafeSnoc(matched: seq<ReactionDef>, fired: seq<ReactionDef>, r: ReactionDef)
    requires JoinSafe(matched, fired)
    requires forall g :: g in r.needs ==> Completed(matched, fired, g)
    ensures JoinSafe(matched, fired + [r])
  {
    hide Completed;
    forall i, g | 0 <= i < |fired + [r]| && g in (fired + [r])[i].needs
      ensures Completed(matched, (fired + [r])[..i], g)
    {
      assert (fired + [r])[..i] == fired[..i];
      assert fired[..|fired|] == fired;
    }
  }

  /** The loop from `q` on keeps join safety, and ends with an empty queue and the invariant. */
  lemma {:induction false} OrderProgress(matched: seq<ReactionDef>, fired: seq<ReactionDef>, q: Queue)
    returns (last: Queue)
    requires Progress(matched, fired, q) && JoinSafe(matched, fired)
    ensures last == Last(matched, q) && last.ready == [] && Progress(matched, fired + Order(matched, q), last)
    ensures JoinSafe(matched, fired + Order(matched, q))
    decreases |q.ready| + |q.waiting|
  {
    hide JoinSafe, Balance, Completed, Tally, Step;
    if q.ready == [] {
      last := q;
      assert fired + [] == fired;
    } else {
      var r := q.ready[0];
      forall g | g in r.needs ensures Completed(matched, fired, g) {
        assert Satisfied(r, q.done);
        CompletedGroup(matched, fired, q, g);
      }
      JoinSafeSnoc(matched, fired, r);
      StepProgress(matched, fired, q);
      StepShrinks(matched, q);
      last := OrderProgress(matched, fired + [r], Step(matched, q));
      assert fired + [r] + Order(matched, Step(matched, q)) == fired + Order(matched, q);
    }
  }

  // ---- Main results --------------------------------------------------------------------

  /**
   Join safety: at every point of a dispatch, a reaction fires only when every group it
   waits on has a matched member and all its matched members have fired before.
   */
  lemma ScheduleIsJoinSafe(matched: seq<ReactionDef>)
    ensures JoinSafe(matched, Schedule(matched))
  {
    hide JoinSafe, Progress, Order;
    var _ := ScheduleEnd(matched);
  }

  /** The state in which the loop stops. */
  lemma ScheduleEnd(matched: seq<ReactionDef>) returns (last: Queue)
    ensures last == Last(matched, Start(matched)) && last.ready == [] && Progress(matched, Schedule(matched), last)
    ensures JoinSafe(matched, Schedule(matched))
  {
    hide Progress, Completed, Order, Last;
    StartProgress(matched);
    last := OrderProgress(matched, [], Start(matched));
    assert [] + Schedule(matched) == Schedule(matched);
  }

  /** The fired reactions are closed: nothing the dispatch could still fire is left waiting. */
  lemma ScheduleIsComplete(matched: seq<ReactionDef>)
    ensures Closed(matched, Elements(Schedule(matched)))
  {
    hide Order, JoinSafe;
    var fired := Schedule(matched);
    var last := ScheduleEnd(matched);
    forall r | r in matched && Enabled(matched, r, Elements(fired))
      ensures r in fired
    {
      if r !in fired {
        assert r in multiset(matched);
        assert r in last.waiting;
        var g :| g in r.needs && g !in last.done;
        assert GroupIn(matched, g, Elements(fired));
        MembersPositive(matched, g);
        MembersPositive(last.waiting, g);
        var x :| x in last.waiting && x.joinGroup == Some(g);
        assert x in multiset(matched);
        WaitingNeverFired(matched, fired, last, x);
      }
    }
  }

  lemma WaitingNeverFired(matched: seq<ReactionDef>, fired: seq<ReactionDef>, last: Queue, x: ReactionDef)
    requires Progress(matched, fired, last) && JoinSafe(matched, fired) && x in last.waiting
    ensures x !in fired
  {
    if x in fired {
      var i :| 0 <= i < |fired| && fired[i] == x;
      var g :| g in x.needs && g !in last.done;
      CompletedIsDone(matched, fired, last, i, g);
    }
  }

  lemma CompletedIsDone(matched: seq<ReactionDef>, fired: seq<ReactionDef>, q: Queue, i: nat, g: string)
    requires Progress(matched, fired, q) && i <= |fired| && Completed(matched, fired[..i], g)
    ensures g in q.done
  {
    MembersPositive(matched, g);
    MembersPositive(q.ready, g);
    MembersPositive(q.waiting, g);
    assert fired == fired[..i] + fired[i..];
    forall x | x in matched && x.joinGroup == Some(g)
      ensures x !in q.ready && x !in q.waiting
    {
      assert multiset(fired)[x] == multiset(fired[..i])[x] + multiset(fired[i..])[x];
      assert multiset(matched)[x] == multiset(fired)[x] + multiset(q.ready)[x] + multiset(q.waiting)[x];
    }
    forall x | x in q.ready || x in q.waiting ensures x in matched {
      assert x in multiset(matched);
    }
  }

  // ---- What is left waiting ------------------------------------------------------------

  /** `r` waits on the group of `x`. */
  predicate WaitsOn(r: ReactionDef, x: ReactionDef) {
    x.joinGroup.Some? && x.joinGroup.value in r.needs
  }

  /** `r` waits on a group that has no matched member. */
  ghost predicate Unsatisfiable(matched: seq<ReactionDef>, r: ReactionDef) {
    exists g :: g in r.needs && forall x :: x in matched ==> x.joinGroup != Some(g)
  }

  /** Matched reactions each of which waits on the next. */
  ghost predicate WaitChain(matched: seq<ReactionDef>, c: seq<ReactionDef>) {
    && c != [] && (forall i :: 0 <= i < |c| ==> c[i] in matched)
    && (forall i :: 0 <= i < |c| - 1 ==> WaitsOn(c[i], c[i + 1]))
  }

  /** A chain that ends at an unsatisfiable reaction, or at one that waits on the chain again. */
  ghost predicate Stuck(matched: seq<ReactionDef>, c: seq<ReactionDef>) {
    WaitChain(matched, c) && (Unsatisfiable(matched, c[|c| - 1])
                              || exists i :: 0 <= i < |c| && WaitsOn(c[|c| - 1], c[i]))
  }

  /** Where `x` is first in `rs`. */
  function FirstAt(rs: seq<ReactionDef>, x: ReactionDef): (i: nat)
    requires x in rs
    ensures i < |rs| && rs[i] == x && x !in rs[..i]
  {
    if rs[0] == x then 0 else 1 + FirstAt(rs[1..], x)
  }

  /** What a fired reaction waits on fired before it. */
  lemma FiredBefore(matched: seq<ReactionDef>, fired: seq<ReactionDef>, r: ReactionDef, x: ReactionDef)
    requires JoinSafe(matched, fired) && r in fired && x in matched && WaitsOn(r, x)
    ensures x in fired && FirstAt(fired, x) < FirstAt(fired, r)
  {
    var i := FirstAt(fired, r);
    assert Completed(matched, fired[..i], x.joinGroup.value);
    assert x in multiset(matched);
    assert x in fired[..i];
    var j :| 0 <= j < i && fired[..i][j] == x;
    assert !(j < FirstAt(fired, x));
  }

  lemma {:induction false} ChainFiredBefore(matched: seq<ReactionDef>, fired: seq<ReactionDef>, c: seq<ReactionDef>,
                                            i: nat, j: nat)
    requires JoinSafe(matched, fired) && WaitChain(matched, c) && i <= j < |c| && c[i] in fired
    ensures c[j] in fired && FirstAt(fired, c[j]) <= FirstAt(fired, c[i])
    decreases j
  {
    hide JoinSafe;
    if i < j {
      ChainFiredBefore(matched, fired, c, i, j - 1);
      FiredBefore(matched, fired, c[j - 1], c[j]);
    }
  }

  lemma StuckNeverFires(matched: seq<ReactionDef>, fired: seq<ReactionDef>, c: seq<ReactionDef>)
    requires JoinSafe(matched, fired) && Stuck(matched, c)
    ensures c[0] !in fired
  {
    if c[0] in fired {
      var last := c[|c| - 1];
      ChainFiredBefore(matched, fired, c, 0, |c| - 1);
      if !Unsatisfiable(matched, last) {
        hide JoinSafe;
        var i :| 0 <= i < |c| && WaitsOn(last, c[i]);
        ChainFiredBefore(matched, fired, c, 0, i);
        ChainFiredBefore(matched, fired, c, i, |c| - 1);
        FiredBefore(matched, fired, last, c[i]);
      }
    }
  }

  /** An unfired reaction is unsatisfiable or waits on another unfired one. */
  lemma UnfiredWaits(matched: seq<ReactionDef>, r: ReactionDef)
    requires r in matched && r !in Schedule(matched)
    ensures Unsatisfiable(matched, r) || exists x :: x in matched && x !in Schedule(matched) && WaitsOn(r, x)
  {
    hide Schedule;
    ScheduleIsComplete(matched);
    assert !Enabled(matched, r, Elements(Schedule(matched)));
    var g :| g in r.needs && !GroupIn(matched, g, Elements(Schedule(matched)));
    if exists x :: x in matched && x.joinGroup == Some(g) {
      var x :| x in matched && x.joinGroup == Some(g) && x !in Elements(Schedule(matched));
      assert WaitsOn(r, x);
    }
  }

  /** A chain of unfired reactions without repetition can be followed until it is stuck. */
  lemma {:induction false} FollowChain(matched: seq<ReactionDef>, c: seq<ReactionDef>) returns (stuck: seq<ReactionDef>)
    requires WaitChain(matched, c) && (forall i, j :: 0 <= i < j < |c| ==> c[i] != c[j])
    requires c[|c| - 1] !in Schedule(matched)
    ensures Stuck(matched, stuck) && stuck[0] == c[0]
    decreases |Elements(matched)| - |c|
  {
    hide Schedule, Unsatisfiable;
    var last := c[|c| - 1];
    UnfiredWaits(matched, last);
    if Unsatisfiable(matched, last) {
      return c;
    }
    var x :| x in matched && x !in Schedule(matched) && WaitsOn(last, x);
    if x in c {
      return c;
    }
    DistinctAreFew(c + [x], Elements(matched));
    stuck := FollowChain(matched, c + [x]);
  }

  lemma {:induction false} DistinctAreFew(c: seq<ReactionDef>, s: set<ReactionDef>)
    requires (forall i :: 0 <= i < |c| ==> c[i] in s) && (forall i, j :: 0 <= i < j < |c| ==> c[i] != c[j])
    ensures |c| <= |s|
  {
    if c != [] {
      var front, last := c[..|c| - 1], c[|c| - 1];
      DistinctAreFew(front, s - {last});
    }
  }

  /**
   Exactly which matched reactions never fire: those from which a chain of reactions, each
   waiting on the next, leads to one that waits on a group without matched members, or back
   into the chain.
   */
  lemma UnfiredIffStuck(matched: seq<ReactionDef>, r: ReactionDef)
    requires r in matched
    ensures r !in Schedule(matched) <==> exists c :: Stuck(matched, c) && c[0] == r
  {
    hide Schedule, JoinSafe;
    if r !in Schedule(matched) {
      var c := FollowChain(matched, [r]);
    }
    if c :| Stuck(matched, c) && c[0] == r {
      ScheduleIsJoinSafe(matched);
      StuckNeverFires(matched, Schedule(matched), c);
    }
  }

  /** What remains in `waiting` when the loop stops: exactly the unsatisfiable and the cyclic joins. */
  lemma WaitingIffStuck(matched: seq<ReactionDef>, r: ReactionDef)
    ensures r in Last(matched, Start(matched)).waiting <==> exists c :: Stuck(matched, c) && c[0] == r
  {
    hide Schedule, Last, Tally, Sides, JoinSafe;
    var last := ScheduleEnd(matched);
    assert multiset(Schedule(matched)) + multiset(last.waiting) == multiset(matched);
    if r in last.waiting {
      assert r in multiset(matched);
      WaitingNeverFired(matched, Schedule(matched), last, r);
      UnfiredIffStuck(matched, r);
    }
    if c :| Stuck(matched, c) && c[0] == r {
      UnfiredIffStuck(matched, r);
      assert r in multiset(matched);
      assert r in multiset(last.waiting);
    }
  }

  /** The fired reactions are the least closed set: each is forced by those before it. */
  lemma ScheduleIsSound(matched: seq<ReactionDef>, s: set<ReactionDef>)
    requires Closed(matched, s)
    ensures Elements(Schedule(matched)) <= s
  {
    hide Order, Progress;
    var fired := Schedule(matched);
    var last := ScheduleEnd(matched);
    FiredAreMatched(matched, fired, last);
    var i := 0;
    while i < |fired|
      invariant 0 <= i <= |fired|
      invariant forall j :: 0 <= j < i ==> fired[j] in s
    {
      forall g | g in fired[i].needs ensures GroupIn(matched, g, s) {
        assert Completed(matched, fired[..i], g);
        forall x | x in matched && x.joinGroup == Some(g) ensures x in s {
          assert x in multiset(matched);
          assert x in fired[..i];
        }
      }
      assert Enabled(matched, fired[i], s);
      i := i + 1;
    }
  }

  lemma FiredAreMatched(matched: seq<ReactionDef>, fired: seq<ReactionDef>, q: Queue)
    requires Progress(matched, fired, q)
    ensures forall r :: r in fired ==> r in matched
  {
    forall r | r in fired ensures r in matched {
      assert r in multiset(matched);
    }
  }

  /** Each matched reaction fires as often as it was matched, or never. */
  lemma ScheduleMultiplicity(matched: seq<ReactionDef>, r: ReactionDef)
    ensures multiset(Schedule(matched))[r] == if r in Schedule(matched) then multiset(matched)[r] else 0
  {
    hide Order;
    var fired := Schedule(matched);
    var last := ScheduleEnd(matched);
    if r in fired {
      if r in last.waiting {
        WaitingNeverFired(matched, fired, last, r);
      }
      assert multiset(matched)[r] == multiset(fired)[r] + multiset(last.waiting)[r];
    }
  }

  /** All reactions without dependencies come first, in source order. */
  lemma ScheduleStartsWithRoots(matched: seq<ReactionDef>)
    ensures Split(matched, true) <= Schedule(matched)
  {
    QueueIsFifo(matched, Start(matched));
  }

  lemma {:induction false} QueueIsFifo(matched: seq<ReactionDef>, q: Queue)
    ensures q.ready <= Order(matched, q)
    decreases |q.ready| + |q.waiting|
  {
    if q.ready != [] {
      StepShrinks(matched, q);
      QueueIsFifo(matched, Step(matched, q));
      var _ := StepShape(matched, q);
    }
  }

  /** Without joins the dispatch is the plain loop over the matched reactions. */
  lemma ScheduleWithoutJoins(matched: seq<ReactionDef>)
    requires forall r :: r in matched ==> r.needs == []
    ensures Schedule(matched) == matched
  {
    SplitAll(matched);
    OrderWithoutWaiting(matched, Start(matched));
  }

  lemma {:induction false} SplitAll(rs: seq<ReactionDef>)
    requires forall r :: r in rs ==> r.needs == []
    ensures Split(rs, true) == rs && Split(rs, false) == []
  {
    if rs != [] {
      SplitAll(rs[1..]);
    }
  }

  lemma {:induction false} OrderWithoutWaiting(matched: seq<ReactionDef>, q: Queue)
    requires q.waiting == []
    ensures Order(matched, q) == q.ready
    decreases |q.ready|
  {
    if q.ready != [] {
      assert Step(matched, q).ready == q.ready[1..] && Step(matched, q).waiting == [];
      OrderWithoutWaiting(matched, Step(matched, q));
    }
  }

  /** A dispatch fires at most as many reactions as were matched. */
  lemma ScheduleLength(matched: seq<ReactionDef>)
    ensures |Schedule(matched)| <= |matched|
  {
    hide Order;
    var last := ScheduleEnd(matched);
    assert |multiset(Schedule(matched))| + |multiset(last.ready)| + |multiset(last.waiting)| == |multiset(matched)|;
  }

  // ---- Swapping two members of a fork --------------------------------------------------

  /** Two orders that differ only in two neighbours. */
  datatype Swap = Swap(before: seq<ReactionDef>, after: seq<ReactionDef>)

  lemma {:induction false} OrderCongruent(matched: seq<ReactionDef>, matched': seq<ReactionDef>, q: Queue)
    requires forall g :: Members(matched, g) == Members(matched', g)
    ensures Order(matched, q) == Order(matched', q)
    decreases |q.ready| + |q.waiting|
  {
    if q.ready != [] {
      StepShrinks(matched, q);
      OrderCongruent(matched, matched', Step(matched, q));
    }
  }

  /** Firing two queued members of one group leaves the same queue whichever comes first. */
  lemma TwoSteps(matched: seq<ReactionDef>, q: Queue, a: ReactionDef, b: ReactionDef, rest: seq<ReactionDef>)
    requires q.ready == [a, b] + rest && a.joinGroup == b.joinGroup
    ensures var q' := q.(ready := [b, a] + rest);
            && |Step(matched, q).ready| > 0 && |Step(matched, q').ready| > 0
            && Step(matched, q).ready[0] == b && Step(matched, q').ready[0] == a
            && Step(matched, Step(matched, q)) == Step(matched, Step(matched, q'))
  {
    var q' := q.(ready := [b, a] + rest);
    assert q.ready[1..] == [b] + rest && q'.ready[1..] == [a] + rest;
    if a.joinGroup.Some? {
      var done := q.done + {a.joinGroup.value};
      var released := Sift(q.waiting, done, true);
      assert ([b] + rest + released)[1..] == rest + released;
      assert ([a] + rest + released)[1..] == rest + released;
      assert ([b] + rest)[1..] == rest && ([a] + rest)[1..] == rest;
    }
  }

  /** What a step releases depends on the reaction that fires and not on the rest of the queue. */
  lemma StepReleases(matched: seq<ReactionDef>, q: Queue, q': Queue) returns (released: seq<ReactionDef>)
    requires q.ready != [] && q'.ready != [] && q.ready[0] == q'.ready[0]
    requires q' == q.(ready := q'.ready)
    ensures Step(matched, q).ready == q.ready[1..] + released
    ensures Step(matched, q') == Step(matched, q).(ready := q'.ready[1..] + released)
  {
    if Step(matched, q).done == q.done && Step(matched, q).waiting == q.waiting
      && Step(matched, q).ready == q.ready[1..] {
      released := [];
    } else {
      released := Sift(q.waiting, q.done + {q.ready[0].joinGroup.value}, true);
    }
  }

  lemma {:induction false} OrderSwap(matched: seq<ReactionDef>, q: Queue, front: seq<ReactionDef>,
                                     a: ReactionDef, b: ReactionDef, rest: seq<ReactionDef>) returns (s: Swap)
    requires q.ready == front + [a, b] + rest && a.joinGroup == b.joinGroup
    ensures Order(matched, q) == s.before + [a, b] + s.after
    ensures Order(matched, q.(ready := front + [b, a] + rest)) == s.before + [b, a] + s.after
    decreases |front|
  {
    hide Order, Step;
    var q' := q.(ready := front + [b, a] + rest);
    if front == [] {
      assert q.ready == [a, b] + rest && q'.ready == [b, a] + rest;
      TwoSteps(matched, q, a, b, rest);
      s := Swap([], Order(matched, Step(matched, Step(matched, q))));
      OrderTwice(matched, q);
      OrderTwice(matched, q');
    } else {
      var r, tail := front[0], front[1..];
      assert q.ready[1..] == tail + [a, b] + rest && q'.ready[1..] == tail + [b, a] + rest;
      var released := StepReleases(matched, q, q');
      assert Step(matched, q).ready == tail + [a, b] + (rest + released);
      assert Step(matched, q') == Step(matched, q).(ready := tail + [b, a] + (rest + released));
      var later := OrderSwap(matched, Step(matched, q), tail, a, b, rest + released);
      OrderOnce(matched, q);
      OrderOnce(matched, q');
      s := Swap([r] + later.before, later.after);
      assert [r] + (later.before + [a, b] + later.after) == s.before + [a, b] + s.after;
      assert [r] + (later.before + [b, a] + later.after) == s.before + [b, a] + s.after;
    }
  }

  lemma OrderOnce(matched: seq<ReactionDef>, q: Queue)
    requires q.ready != []
    ensures Order(matched, q) == [q.ready[0]] + Order(matched, Step(matched, q))
  {}

  lemma OrderTwice(matched: seq<ReactionDef>, q: Queue)
    requires q.ready != [] && Step(matched, q).ready != []
    ensures Order(matched, q) == [q.ready[0], Step(matched, q).ready[0]]
            + Order(matched, Step(matched, Step(matched, q)))
  {}

  lemma {:induction false} SplitConcat(a: seq<ReactionDef>, b: seq<ReactionDef>, free: bool)
    ensures Split(a + b, free) == Split(a, free) + Split(b, free)
  {
    if a == [] {
      assert a + b == b;
    } else {
      assert (a + b)[1..] == a[1..] + b && (a + b)[0] == a[0];
      SplitConcat(a[1..], b, free);
      var own := if (a[0].needs == []) == free then [a[0]] else [];
      assert own + (Split(a[1..], free) + Split(b, free)) == own + Split(a[1..], free) + Split(b, free);
    }
  }

  /** Swapping two adjacent members of a fork in the source swaps just them in the dispatch. */
  lemma ScheduleSwap(front: seq<ReactionDef>, a: ReactionDef, b: ReactionDef, rest: seq<ReactionDef>) returns (s: Swap)
    requires a.needs == b.needs == [] && a.joinGroup == b.joinGroup
    ensures Schedule(front + [a, b] + rest) == s.before + [a, b] + s.after
    ensures Schedule(front + [b, a] + rest) == s.before + [b, a] + s.after
  {
    hide Order;
    var ab, ba := front + [a, b] + rest, front + [b, a] + rest;
    forall g ensures Members(ab, g) == Members(ba, g) {
      MembersConcat(front + [a, b], rest, g);
      MembersConcat(front + [b, a], rest, g);
      MembersConcat(front, [a, b], g);
      MembersConcat(front, [b, a], g);
      assert [a, b] == [a] + [b] && [b, a] == [b] + [a];
      MembersConcat([a], [b], g);
      MembersConcat([b], [a], g);
    }
    SplitOfSwap(front, a, b, rest);
    SplitOfSwap(front, b, a, rest);
    s := OrderSwap(ab, Start(ab), Split(front, true), a, b, Split(rest, true));
    OrderCongruent(ab, ba, Start(ba));
  }

  lemma SplitOfSwap(front: seq<ReactionDef>, a: ReactionDef, b: ReactionDef, rest: seq<ReactionDef>)
    requires a.needs == b.needs == []
    ensures Split(front + [a, b] + rest, true) == Split(front, true) + [a, b] + Split(rest, true)
    ensures Split(front + [a, b] + rest, false) == Split(front, false) + Split(rest, false)
  {
    SplitOfTwo(a, b);
    hide Split;
    SplitConcat(front + [a, b], rest, true);
    SplitConcat(front, [a, b], true);
    SplitConcat(front + [a, b], rest, false);
    SplitConcat(front, [a, b], false);
    assert Split(front, false) + [] == Split(front, false);
  }

  lemma SplitOfTwo(a: ReactionDef, b: ReactionDef)
    requires a.needs == b.needs == []
    ensures Split([a, b], true) == [a, b] && Split([a, b], false) == []
  {
    assert [a, b][1..] == [b] && [b][1..] == [];
    assert Split([b], true) == [b] && Split([b], false) == [];
  }
}
