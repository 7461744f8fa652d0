/** The recursive-descent parser (src/ddl/parser.rs), proved to follow the grammar. */
module DdlParser {
  import opened Wrappers
  import opened Schema
  import opened DdlSyntax
  import opened DdlGrammar

  /** A token list as the lexer delivers it: it ends with an end marker. */
  predicate Ended(ts: seq<Token>) {
    ts != [] && ts[|ts| - 1].kind == KEof
  }

  // ---- Lists built in loops ------------------------------------------------------------

  /** Phrases read so far, put before those still to be read. */
  function Onto<T>(done: seq<T>, r: Parsed<seq<T>>): Parsed<seq<T>> {
    match r
    case Failure(e) => Failure(e)
    case Success((items, ts)) => Success((done + items, ts))
  }

  lemma OntoNothing<T>(r: Parsed<seq<T>>)
    ensures Onto([], r) == r
  {
    if r.Success? {
      assert [] + r.value.0 == r.value.0;
    }
  }

  lemma OntoOne<T>(done: seq<T>, x: T, r: Parsed<seq<T>>)
    ensures Onto(done, Onto([x], r)) == Onto(done + [x], r)
  {
    if r.Success? {
      assert done + ([x] + r.value.0) == done + [x] + r.value.0;
    }
  }

  lemma OntoAll<T>(done: seq<T>, ts: seq<Token>)
    ensures Onto(done, Success(([], ts))) == Success((done, ts))
  {
    assert done + [] == done;
  }

  /** A method's outcome, and the tokens it leaves, are what the grammar says. */
  ghost predicate Follows<T(!new)>(r: Result<T, SyntaxError>, rest: seq<Token>, parsed: Parsed<T>) {
    match parsed
    case Failure(e) => r == Failure(e)
    case Success((x, ts)) => r == Success(x) && rest == ts
  }

  class Parser {
    const tokens: seq<Token>
    const src: Source
    var pos: nat
    /** The tokens not consumed yet. */
    ghost var rest: seq<Token>

    /** The position is on a token, at most on the end marker. */
    ghost predicate Valid()
      reads this
    {
      Ended(tokens) && pos < |tokens| && rest == tokens[pos..]
    }

    constructor (tokens: seq<Token>, src: Source)
      requires Ended(tokens)
      ensures Valid() && this.tokens == tokens && this.src == src && rest == tokens
    {
      this.tokens := tokens;
      this.src := src;
      pos := 0;
      rest := tokens;
    }

    function Current(): (t: Token)
      requires Valid()
      reads this
      ensures t == Peek(rest)
    {
      tokens[pos]
    }

    // ---- Tokens ------------------------------------------------------------------------

    /** Moves on, but never past the last token. */
    method Advance() returns (t: Token)
      requires Valid()
      modifies this`pos, this`rest
      ensures Valid() && t == old(Current())
      ensures t.kind != KEof ==> rest == Next(old(rest))
    {
      t := tokens[pos];
      if pos + 1 < |tokens| {
        pos := pos + 1;
        rest := rest[1..];
      }
    }

    method Eat(kind: Kind) returns (r: Status<SyntaxError>)
      requires Valid() && kind != KEof
      modifies this`pos, this`rest
      ensures Valid()
      ensures match Expect(kind, old(rest))
              case Failure(e) => r == Fail(e)
              case Success(ts) => r == Pass && rest == ts
    {
      if Current().kind != kind {
        return Fail(Blame(Current(), Wanted(kind, Current().kind)));
      }
      var _ := Advance();
      return Pass;
    }

    method ParseIdent() returns (r: Result<string, SyntaxError>)
      requires Valid()
      modifies this`pos, this`rest
      ensures Valid() && Follows(r, rest, Ident(old(rest)))
    {
      if !Current().kind.KIdentifier? {
        return Failure(Blame(Current(), WantedIdentifier(Current().kind)));
      }
      var t := Advance();
      return Success(t.kind.name);
    }

    // ---- Lists -------------------------------------------------------------------------

    method ParseMoreNames(close: Option<Kind>) returns (r: Result<seq<string>, SyntaxError>)
      requires Valid()
      modifies this`pos, this`rest
      ensures Valid() && Follows(r, rest, MoreNames(close, old(rest)))
    {
      hide Ident, Ended, Peek;
      var names: seq<string> := [];
      ghost var start := rest;
      OntoNothing(MoreNames(close, start));
      while Current().kind == KComma
        invariant Valid() && MoreNames(close, start) == Onto(names, MoreNames(close, rest))
        decreases |rest|
      {
        var _ := Advance();
        if close == Some(Current().kind) {
          OntoAll(names, rest);
          return Success(names);
        }
        var name :- ParseIdent();
        OntoOne(names, name, MoreNames(close, rest));
        names := names + [name];
      }
      OntoAll(names, rest);
      return Success(names);
    }

    method ParseStateList() returns (r: Result<seq<string>, SyntaxError>)
      requires Valid()
      modifies this`pos, this`rest
      ensures Valid() && Follows(r, rest, StateList(old(rest)))
    {
      hide Expect, Ident, MoreNames, Ended, Peek, Next;
      :- Eat(KLBracket);
      if Current().kind == KRBracket {
        var _ := Advance();
        return Success([]);
      }
      var state :- ParseIdent();
      var more :- ParseMoreNames(Some(KRBracket));
      :- Eat(KRBracket);
      return Success([state] + more);
    }

    method ParsePair() returns (r: Result<(string, string), SyntaxError>)
      requires Valid()
      modifies this`pos, this`rest
      ensures Valid() && Follows(r, rest, Pair(old(rest)))
    {
      hide Expect, Ident, Ended, Peek, Next;
      var left :- ParseIdent();
      :- Eat(KArrow);
      var right :- ParseIdent();
      return Success((left, right));
    }

    method ParsePairList() returns (r: Result<seq<(string, string)>, SyntaxError>)
      requires Valid()
      modifies this`pos, this`rest
      ensures Valid() && Follows(r, rest, PairList(old(rest)))
    {
      hide Expect, Pair, MorePairs, Ended, Peek, Next;
      :- Eat(KLBrace);
      if Current().kind == KRBrace {
        var _ := Advance();
        return Success([]);
      }
      var pair :- ParsePair();
      var more :- ParseMorePairs();
      :- Eat(KRBrace);
      return Success([pair] + more);
    }

    method ParseMorePairs() returns (r: Result<seq<(string, string)>, SyntaxError>)
      requires Valid()
      modifies this`pos, this`rest
      ensures Valid() && Follows(r, rest, MorePairs(old(rest)))
    {
      hide Pair, Ended;
      var pairs: seq<(string, string)> := [];
      ghost var start := rest;
      OntoNothing(MorePairs(start));
      while Current().kind == KComma
        invariant Valid() && MorePairs(start) == Onto(pairs, MorePairs(rest))
        decreases |rest|
      {
        var _ := Advance();
        if Current().kind == KRBrace {
          OntoAll(pairs, rest);
          return Success(pairs);
        }
        var pair :- ParsePair();
        OntoOne(pairs, pair, MorePairs(rest));
        pairs := pairs + [pair];
      }
      OntoAll(pairs, rest);
      return Success(pairs);
    }

    method ParseBindings() returns (r: Result<map<string, string>, SyntaxError>)
      requires Valid()
      modifies this`pos, this`rest
      ensures Valid()
      ensures match PairList(old(rest))
              case Failure(e) => r == Failure(e)
              case Success((pairs, ts)) => r == Success(BindingsOf(pairs)) && rest == ts
    {
      hide PairList;
      var pairs :- ParsePairList();
      var bindings: map<string, string> := map[];
      for i := 0 to |pairs|
        invariant bindings == BindingsOf(pairs[..i])
      {
        assert pairs[..i + 1][..i] == pairs[..i];
        bindings := bindings[pairs[i].0 := pairs[i].1];
      }
      assert pairs[..|pairs|] == pairs;
      return Success(bindings);
    }

    // ---- Texts taken verbatim ----------------------------------------------------------

    /** Moves to the next token that ends a guard; `last` is the position of the one before. */
    method SkipGuard() returns (last: nat)
      requires Valid() && !EndsGuard(Current().kind)
      modifies this`pos, this`rest
      ensures Valid()
      ensures var n := GuardLength(old(rest)); n > 0 && rest == old(rest)[n..] && last == old(pos) + n - 1
    {
      hide Ended;
      ghost var start := rest;
      last := pos;
      while !EndsGuard(Current().kind)
        invariant Valid() && old(pos) <= pos && rest == start[pos - old(pos)..]
        invariant pos > old(pos) ==> last == pos - 1
        invariant GuardLength(start) == pos - old(pos) + GuardLength(rest)
        decreases |rest|
      {
        last := pos;
        var _ := Advance();
      }
    }

    method ParseGuardText() returns (r: Result<(string, bool), SyntaxError>)
      requires Valid()
      modifies this`pos, this`rest
      ensures Valid() && Follows(r, rest, GuardText(src, old(rest)))
    {
      hide Expect, Verbatim, Trim, Ended;
      :- Eat(KWhen);
      if EndsGuard(Current().kind) {
        return Failure(Blame(Current(), EmptyGuard));
      }
      var first := pos;
      var last := SkipGuard();
      var text := Trim(src.lx, Verbatim(src, tokens[first], tokens[last]));
      return Success((text, last == first && tokens[first].kind.KIdentifier?));
    }

    /** Moves past the brace that closes the one just read, and returns it; without one, to an end marker. */
    method SkipBlock() returns (close: Option<Token>)
      requires Valid()
      modifies this`pos, this`rest
      ensures Valid()
      ensures match CloseBrace(old(rest), 1)
              case None => close == None && Current() == FirstEnd(old(rest))
              case Some((t, ts)) => close == Some(t) && rest == ts
    {
      hide Ended;
      ghost var start := rest;
      var depth := 1;
      while true
        invariant Valid() && depth > 0
        invariant CloseBrace(start, 1) == CloseBrace(rest, depth)
        invariant FirstEnd(start) == FirstEnd(rest)
        decreases |rest|
      {
        var t := Current();
        if t.kind == KEof {
          return None;
        }
        if t.kind == KLBrace {
          depth := depth + 1;
        } else if t.kind == KRBrace {
          depth := depth - 1;
        }
        var _ := Advance();
        if depth == 0 {
          return Some(t);
        }
      }
    }

    method ParseBraceBlock() returns (r: Result<string, SyntaxError>)
      requires Valid()
      modifies this`pos, this`rest
      ensures Valid() && Follows(r, rest, BraceBlock(src, old(rest)))
    {
      hide Expect, Verbatim, CloseBrace, FirstEnd, Ended;
      var open := Current();
      :- Eat(KLBrace);
      var close := SkipBlock();
      if close.None? {
        return Failure(Blame(Current(), UnterminatedBlock));
      }
      return Success(Verbatim(src, open, close.value));
    }

    // ---- Signals -----------------------------------------------------------------------

    method ParseHookIds() returns (r: Result<seq<string>, SyntaxError>)
      requires Valid()
      modifies this`pos, this`rest
      ensures Valid() && Follows(r, rest, HookIds(old(rest)))
    {
      hide Expect, Ident, MoreNames, Ended, Peek, Next;
      :- Eat(KColon);
      var first :- ParseIdent();
      var more :- ParseMoreNames(None);
      return Success([first] + more);
    }

    method ParseHooks() returns (r: Result<ActionBinding, SyntaxError>)
      requires Valid()
      modifies this`pos, this`rest
      ensures Valid() && Follows(r, rest, Hooks(NO_ACTIONS, old(rest)))
    {
      hide HookIds, Ended;
      var actions := NO_ACTIONS;
      var seenExit, seenTransition, seenEnter := false, false, false;
      ghost var start := rest;
      while IsHook(Current().kind)
        invariant Valid() && Hooks(NO_ACTIONS, start) == Hooks(actions, rest)
        invariant seenExit <==> actions.onExit != []
        invariant seenTransition <==> actions.onTransition != []
        invariant seenEnter <==> actions.onEnter != []
        decreases |rest|
      {
        var hook := Advance();
        var ids :- ParseHookIds();
        if hook.kind == KOnExit {
          if seenExit {
            return Failure(Blame(hook, DuplicateHook(KOnExit)));
          }
          seenExit := true;
          actions := actions.(onExit := ids);
        } else if hook.kind == KOnTransition {
          if seenTransition {
            return Failure(Blame(hook, DuplicateHook(KOnTransition)));
          }
          seenTransition := true;
          actions := actions.(onTransition := ids);
        } else {
          if seenEnter {
            return Failure(Blame(hook, DuplicateHook(KOnEnter)));
          }
          seenEnter := true;
          actions := actions.(onEnter := ids);
        }
      }
      return Success(actions);
    }

    method ParseActionBlock() returns (r: Result<ActionBinding, SyntaxError>)
      requires Valid()
      modifies this`pos, this`rest
      ensures Valid() && Follows(r, rest, ActionBlock(old(rest)))
    {
      hide Expect, Hooks, Ended, Peek, Next;
      if Current().kind != KLBrace {
        return Success(NO_ACTIONS);
      }
      var _ := Advance();
      var actions :- ParseHooks();
      :- Eat(KRBrace);
      return Success(actions);
    }

    method ParseFromState(id: string, states: seq<string>) returns (r: Result<string, SyntaxError>)
      requires Valid()
      modifies this`pos, this`rest
      ensures Valid() && Follows(r, rest, FromState(id, states, old(rest)))
    {
      hide Ident, Ended;
      var t := Current();
      if t.kind == KMul {
        var _ := Advance();
        return Success(WILDCARD);
      }
      var from :- ParseIdent();
      if from !in states {
        return Failure(Blame(t, UnknownFrom(from, id)));
      }
      return Success(from);
    }

    method ParseGuardIfAny() returns (r: Result<Option<string>, SyntaxError>)
      requires Valid()
      modifies this`pos, this`rest
      ensures Valid() && Follows(r, rest, GuardIfAny(src, old(rest)))
    {
      hide GuardText, Ended, Peek, Next;
      if Current().kind != KWhen {
        return Success(None);
      }
      var guard :- ParseGuardText();
      return Success(Some(guard.0));
    }

    method ParseToState(id: string, states: seq<string>) returns (r: Result<string, SyntaxError>)
      requires Valid()
      modifies this`pos, this`rest
      ensures Valid() && Follows(r, rest, ToState(id, states, old(rest)))
    {
      hide Expect, Ident, Ended, Peek, Next;
      :- Eat(KArrow);
      var t := Current();
      var to :- ParseIdent();
      if to !in states {
        return Failure(Blame(t, UnknownTo(to, id)));
      }
      return Success(to);
    }

    method ParseTransitionHead() returns (r: Result<string, SyntaxError>)
      requires Valid()
      modifies this`pos, this`rest
      ensures Valid() && Follows(r, rest, TransitionHead(old(rest)))
    {
      hide Expect, Ident, Ended, Peek, Next;
      :- Eat(KOn);
      var event :- ParseIdent();
      :- Eat(KFrom);
      return Success(event);
    }

    method ParseTransition(id: string, states: seq<string>) returns (r: Result<TransDecl, SyntaxError>)
      requires Valid()
      modifies this`pos, this`rest
      ensures Valid() && Follows(r, rest, Transition(src, id, states, old(rest)))
    {
      hide TransitionHead, FromState, ToState, GuardIfAny, ActionBlock, Ended;
      var event :- ParseTransitionHead();
      var from :- ParseFromState(id, states);
      var to :- ParseToState(id, states);
      var guard :- ParseGuardIfAny();
      var actions :- ParseActionBlock();
      return Success(TransDecl(event, from, to, guard, actions));
    }

    method ParseTransitions(id: string, states: seq<string>) returns (r: Result<seq<TransDecl>, SyntaxError>)
      requires Valid()
      modifies this`pos, this`rest
      ensures Valid() && Follows(r, rest, Transitions(src, id, states, old(rest)))
    {
      hide Transition, Ended;
      var transitions: seq<TransDecl> := [];
      ghost var start := rest;
      OntoNothing(Transitions(src, id, states, start));
      while Current().kind == KOn
        invariant Valid() && Transitions(src, id, states, start)
                  == Onto(transitions, Transitions(src, id, states, rest))
        decreases |rest|
      {
        var tr :- ParseTransition(id, states);
        OntoOne(transitions, tr, Transitions(src, id, states, rest));
        transitions := transitions + [tr];
      }
      OntoAll(transitions, rest);
      return Success(transitions);
    }

    method ParseSignalHead(seen: set<string>) returns (r: Result<string, SyntaxError>)
      requires Valid()
      modifies this`pos, this`rest
      ensures Valid() && Follows(r, rest, SignalHead(seen, old(rest)))
    {
      hide Expect, Ident, Ended, Peek, Next;
      :- Eat(KSignal);
      var t := Current();
      var id :- ParseIdent();
      if id in seen {
        return Failure(Blame(t, DuplicateSignal(id)));
      }
      :- Eat(KLBrace);
      return Success(id);
    }

    method ParseStatesClause() returns (r: Result<seq<string>, SyntaxError>)
      requires Valid()
      modifies this`pos, this`rest
      ensures Valid() && Follows(r, rest, StatesClause(old(rest)))
    {
      hide Expect, StateList, Ended, Peek, Next;
      :- Eat(KStates);
      :- Eat(KColon);
      r := ParseStateList();
    }

    method ParseInitialClause(states: seq<string>) returns (r: Result<string, SyntaxError>)
      requires Valid()
      modifies this`pos, this`rest
      ensures Valid() && Follows(r, rest, InitialClause(states, old(rest)))
    {
      hide Expect, Ident, Ended, Peek, Next;
      :- Eat(KInitial);
      :- Eat(KColon);
      var t := Current();
      var initial :- ParseIdent();
      if initial !in states {
        return Failure(Blame(t, UnknownInitial(initial)));
      }
      return Success(initial);
    }

    method ParseSignal(seen: set<string>) returns (r: Result<SignalDecl, SyntaxError>)
      requires Valid()
      modifies this`pos, this`rest
      ensures Valid() && Follows(r, rest, Signal(src, seen, old(rest)))
    {
      hide Expect, SignalHead, StatesClause, InitialClause, Transitions, Ended;
      var id :- ParseSignalHead(seen);
      var states :- ParseStatesClause();
      var initial :- ParseInitialClause(states);
      var transitions :- ParseTransitions(id, states);
      :- Eat(KRBrace);
      return Success(SignalDecl(id, states, initial, transitions));
    }

    // ---- Reactions -----------------------------------------------------------------------

    method ParseTrigger() returns (r: Result<(string, string), SyntaxError>)
      requires Valid()
      modifies this`pos, this`rest
      ensures Valid() && Follows(r, rest, Trigger(old(rest)))
    {
      hide Expect, Ident, Ended, Peek, Next;
      var signal :- ParseIdent();
      :- Eat(KEnters);
      var state :- ParseIdent();
      return Success((signal, state));
    }

    method ParseEffect() returns (r: Result<(string, string), SyntaxError>)
      requires Valid()
      modifies this`pos, this`rest
      ensures Valid() && Follows(r, rest, Effect(old(rest)))
    {
      hide Expect, Ident, Ended, Peek, Next;
      :- Eat(KArrow);
      var signal :- ParseIdent();
      var event :- ParseIdent();
      return Success((signal, event));
    }

    /** Looks ahead by two tokens. */
    method IsAtReactionHead() returns (yes: bool)
      requires Valid()
      ensures yes == AtReactionHead(rest)
    {
      return tokens[pos].kind == KWhen
          && pos + 1 < |tokens| && tokens[pos + 1].kind.KIdentifier?
          && pos + 2 < |tokens| && tokens[pos + 2].kind == KEnters;
    }

    method ParseRawGuardIfAny() returns (r: Result<Option<RawGuard>, SyntaxError>)
      requires Valid()
      modifies this`pos, this`rest
      ensures Valid() && Follows(r, rest, RawGuardIfAny(src, old(rest)))
    {
      hide GuardText, AtReactionHead, Ended, Peek, Next;
      var head := IsAtReactionHead();
      if Current().kind != KWhen || head {
        return Success(None);
      }
      var guard :- ParseGuardText();
      return Success(Some(if guard.1 then Ref(guard.0) else Lit(guard.0)));
    }

    method ParsePayloadIfAny() returns (r: Result<Option<string>, SyntaxError>)
      requires Valid()
      modifies this`pos, this`rest
      ensures Valid() && Follows(r, rest, PayloadIfAny(src, old(rest)))
    {
      hide Expect, BraceBlock, Ended, Peek, Next;
      if Current().kind == KWith {
        var _ := Advance();
        var text :- ParseBraceBlock();
        return Success(Some(text));
      }
      if Current().kind == KLBrace {
        var _ := Advance();
        :- Eat(KRBrace);
      }
      return Success(None);
    }

    method ParseOnFailIfAny() returns (r: Result<Option<string>, SyntaxError>)
      requires Valid()
      modifies this`pos, this`rest
      ensures Valid() && Follows(r, rest, OnFailIfAny(old(rest)))
    {
      hide Expect, Ident, Ended, Peek, Next;
      if Current().kind != KOnFail {
        return Success(None);
      }
      var _ := Advance();
      :- Eat(KColon);
      var id :- ParseIdent();
      return Success(Some(id));
    }

    method ParseReactionBody() returns (r: Result<RawReaction, SyntaxError>)
      requires Valid()
      modifies this`pos, this`rest
      ensures Valid() && Follows(r, rest, ReactionBody(src, old(rest)))
    {
      hide Expect, Trigger, Effect, RawGuardIfAny, PayloadIfAny, OnFailIfAny, Ended, Peek, Next;
      :- Eat(KWhen);
      var from :- ParseTrigger();
      var to :- ParseEffect();
      var guard :- ParseRawGuardIfAny();
      var payload :- ParsePayloadIfAny();
      var onFail :- ParseOnFailIfAny();
      return Success(RawReaction(from.0, from.1, to.0, to.1, guard, payload, None, [], onFail));
    }

    method ParseReaction() returns (r: Result<RawReaction, SyntaxError>)
      requires Valid()
      modifies this`pos, this`rest
      ensures Valid() && Follows(r, rest, Reaction(src, old(rest)))
    {
      hide Expect, ReactionBody, Ended, Peek, Next;
      :- Eat(KReaction);
      :- Eat(KLBrace);
      var reaction :- ParseReactionBody();
      :- Eat(KRBrace);
      return Success(reaction);
    }

    method ParseBodies(group: Option<string>, needs: seq<string>) returns (r: Result<seq<RawReaction>, SyntaxError>)
      requires Valid()
      modifies this`pos, this`rest
      ensures Valid() && Follows(r, rest, Bodies(src, group, needs, old(rest)))
    {
      hide ReactionBody, Ended;
      var reactions: seq<RawReaction> := [];
      ghost var start := rest;
      OntoNothing(Bodies(src, group, needs, start));
      while Current().kind == KWhen
        invariant Valid() && Bodies(src, group, needs, start) == Onto(reactions, Bodies(src, group, needs, rest))
        decreases |rest|
      {
        var body :- ParseReactionBody();
        var reaction := body.(joinGroup := group, needs := needs);
        OntoOne(reactions, reaction, Bodies(src, group, needs, rest));
        reactions := reactions + [reaction];
      }
      OntoAll(reactions, rest);
      return Success(reactions);
    }

    method ParseForkBlock(forks: nat) returns (r: Result<seq<RawReaction>, SyntaxError>)
      requires Valid()
      modifies this`pos, this`rest
      ensures Valid() && Follows(r, rest, ForkBlock(src, forks, old(rest)))
    {
      hide Expect, Bodies, Ended, Peek, Next;
      :- Eat(KFork);
      :- Eat(KLBrace);
      var reactions :- ParseBodies(Some(ForkName(forks)), []);
      :- Eat(KRBrace);
      return Success(reactions);
    }

    method ParseJoinBlock() returns (r: Result<(string, seq<RawReaction>), SyntaxError>)
      requires Valid()
      modifies this`pos, this`rest
      ensures Valid() && Follows(r, rest, JoinBlock(src, old(rest)))
    {
      hide Expect, Ident, Bodies, Ended, Peek, Next;
      :- Eat(KJoin);
      var group :- ParseIdent();
      :- Eat(KLBrace);
      var reactions :- ParseBodies(None, [group]);
      :- Eat(KRBrace);
      return Success((group, reactions));
    }

    // ---- Guards, components, instances ---------------------------------------------------

    method ParseGuard(seen: set<string>) returns (r: Result<GuardDecl, SyntaxError>)
      requires Valid()
      modifies this`pos, this`rest
      ensures Valid() && Follows(r, rest, Guard(src, seen, old(rest)))
    {
      hide Expect, Ident, BraceBlock, Unbrace, Trim, Ended, Peek, Next;
      :- Eat(KGuard);
      var t := Current();
      var id :- ParseIdent();
      if id in seen {
        return Failure(Blame(t, DuplicateGuard(id)));
      }
      var raw :- ParseBraceBlock();
      return Success(GuardDecl(id, Trim(src.lx, Unbrace(raw))));
    }

    method ParsePortDirection() returns (r: Result<PortDirection, SyntaxError>)
      requires Valid()
      modifies this`pos, this`rest
      ensures Valid() && Follows(r, rest, PortDirectionOf(old(rest)))
    {
      hide Ident, Ended, Peek, Next;
      var t := Current();
      var word :- ParseIdent();
      match Direction(word)
      case None => return Failure(Blame(t, WantedDirection(word)));
      case Some(direction) => return Success(direction);
    }

    method ParsePortSource() returns (r: Result<(string, string), SyntaxError>)
      requires Valid()
      modifies this`pos, this`rest
      ensures Valid() && Follows(r, rest, PortSource(old(rest)))
    {
      hide Expect, Ident, Ended, Peek, Next;
      var signal :- ParseIdent();
      :- Eat(KDot);
      var state :- ParseIdent();
      return Success((signal, state));
    }

    method ParseAliasIfAny() returns (r: Result<Option<string>, SyntaxError>)
      requires Valid()
      modifies this`pos, this`rest
      ensures Valid() && Follows(r, rest, AliasIfAny(old(rest)))
    {
      hide Ident, Ended, Peek, Next;
      if Current().kind != KAs {
        return Success(None);
      }
      var _ := Advance();
      var alias :- ParseIdent();
      return Success(Some(alias));
    }

    method ParsePort() returns (r: Result<PortDef, SyntaxError>)
      requires Valid()
      modifies this`pos, this`rest
      ensures Valid() && Follows(r, rest, Port(old(rest)))
    {
      hide Expect, PortDirectionOf, PortSource, AliasIfAny, Ended, Peek, Next;
      :- Eat(KPort);
      var direction :- ParsePortDirection();
      var at :- ParsePortSource();
      var alias :- ParseAliasIfAny();
      return Success(PortDef(direction, at.0, at.1, alias));
    }

    method ParseMembers(c: RawComponent) returns (r: Result<RawComponent, SyntaxError>)
      requires Valid()
      modifies this`pos, this`rest
      ensures Valid() && Follows(r, rest, Members(src, c, old(rest)))
    {
      hide Port, Signal, Reaction, Ended, Next;
      var d := c;
      ghost var start := rest;
      while true
        invariant Valid() && Members(src, c, start) == Members(src, d, rest)
        decreases |rest|
      {
        var t := Current();
        if t.kind == KPort {
          var port :- ParsePort();
          d := d.(ports := d.ports + [port]);
        } else if t.kind == KSignal {
          var signal :- ParseSignal(IdsOf(d.signals));
          d := d.(signals := d.signals + [signal]);
        } else if t.kind == KReaction {
          var reaction :- ParseReaction();
          d := d.(reactions := d.reactions + [reaction]);
        } else if t.kind == KRBrace {
          var _ := Advance();
          return Success(d);
        } else if t.kind == KFork || t.kind == KJoin {
          return Failure(Blame(t, NestedFork));
        } else if t.kind == KEof {
          return Failure(Blame(t, UnterminatedComponent(d.id)));
        } else {
          return Failure(Blame(t, WantedMember(t.kind)));
        }
      }
    }

    method ParseParamsIfAny() returns (r: Result<seq<string>, SyntaxError>)
      requires Valid()
      modifies this`pos, this`rest
      ensures Valid() && Follows(r, rest, ParamsIfAny(old(rest)))
    {
      hide Expect, StateList, Ended, Peek, Next;
      if Current().kind != KParams {
        return Success([]);
      }
      var _ := Advance();
      :- Eat(KColon);
      r := ParseStateList();
    }

    method ParseComponentHead(seen: set<string>) returns (r: Result<string, SyntaxError>)
      requires Valid()
      modifies this`pos, this`rest
      ensures Valid() && Follows(r, rest, ComponentHead(seen, old(rest)))
    {
      hide Expect, Ident, Ended, Peek, Next;
      :- Eat(KComponent);
      var t := Current();
      var id :- ParseIdent();
      if id in seen {
        return Failure(Blame(t, DuplicateComponent(id)));
      }
      :- Eat(KLBrace);
      return Success(id);
    }

    method ParseComponent(seen: set<string>) returns (r: Result<RawComponent, SyntaxError>)
      requires Valid()
      modifies this`pos, this`rest
      ensures Valid() && Follows(r, rest, Component(src, seen, old(rest)))
    {
      hide ComponentHead, ParamsIfAny, Members, Ended, Peek, Next;
      var id :- ParseComponentHead(seen);
      var params :- ParseParamsIfAny();
      r := ParseMembers(RawComponent(id, params, [], [], []));
    }

    method ParseConnectionsIfAny() returns (r: Result<seq<ConnectionDef>, SyntaxError>)
      requires Valid()
      modifies this`pos, this`rest
      ensures Valid() && Follows(r, rest, ConnectionsIfAny(old(rest)))
    {
      hide PairList, Ended, Peek, Next;
      if Current().kind != KConnect {
        return Success([]);
      }
      var _ := Advance();
      var pairs :- ParsePairList();
      return Success(ConnectionsOf(pairs));
    }

    method ParseInstantiateHead() returns (r: Result<string, SyntaxError>)
      requires Valid()
      modifies this`pos, this`rest
      ensures Valid() && Follows(r, rest, InstantiateHead(old(rest)))
    {
      hide Expect, Ident, Ended, Peek, Next;
      :- Eat(KInstantiate);
      var component :- ParseIdent();
      :- Eat(KAs);
      var _ :- ParseIdent();
      :- Eat(KWith);
      return Success(component);
    }

    method ParseInstantiate() returns (r: Result<InstanceDef, SyntaxError>)
      requires Valid()
      modifies this`pos, this`rest
      ensures Valid() && Follows(r, rest, Instantiate(old(rest)))
    {
      hide InstantiateHead, PairList, ConnectionsIfAny, BindingsOf, Ended;
      var component :- ParseInstantiateHead();
      var bindings :- ParseBindings();
      var connections :- ParseConnectionsIfAny();
      return Success(InstanceDef(component, bindings, connections));
    }

    // ---- Documents -----------------------------------------------------------------------

    method ParseItem(d: Draft) returns (r: Result<Draft, SyntaxError>)
      requires Valid()
      modifies this`pos, this`rest
      ensures Valid() && Follows(r, rest, Item(src, d, old(rest)))
    {
      hide Signal, Reaction, Guard, ForkBlock, JoinBlock, Component, Instantiate, Ended, Next;
      var t := Current();
      if t.kind == KSignal {
        var signal :- ParseSignal(IdsOf(d.signals));
        return Success(AddSignal(d, signal));
      } else if t.kind == KReaction {
        var reaction :- ParseReaction();
        return Success(AddReaction(d, reaction));
      } else if t.kind == KGuard {
        var guard :- ParseGuard(GuardIds(d));
        return Success(AddGuard(d, guard));
      } else if t.kind == KFork {
        var reactions :- ParseForkBlock(d.forks);
        return Success(AddFork(d, reactions));
      } else if t.kind == KJoin {
        var block :- ParseJoinBlock();
        return Success(AddJoin(d, block.0, block.1));
      } else if t.kind == KComponent {
        var component :- ParseComponent(ComponentIds(d));
        return Success(AddComponent(d, component));
      } else if t.kind == KInstantiate {
        var inst :- ParseInstantiate();
        return Success(AddInstance(d, inst));
      }
      return Failure(Blame(t, WantedItem(t.kind)));
    }

    method ParseDoc() returns (r: Result<DdlDoc, SyntaxError>)
      requires Valid()
      modifies this`pos, this`rest
      ensures Valid() && r == Doc(src, old(rest))
    {
      hide Item, Settled, Ended;
      var d := BLANK;
      ghost var start := rest;
      while Current().kind != KEof
        invariant Valid() && Sweep(src, BLANK, start) == Sweep(src, d, rest)
        decreases |rest|
      {
        d :- ParseItem(d);
      }
      r := Settle(d);
    }
  }

  /** The checks and look-ups that wait for the whole text. */
  method Settle(d: Draft) returns (r: Result<DdlDoc, SyntaxError>)
    ensures r == Settled(d)
  {
    hide ResolveReactions, ResolveComponents, IsFork;
    for i := 0 to |d.joins|
      invariant StrayJoin(d.joins, d.forks) == StrayJoin(d.joins[i..], d.forks)
    {
      if !IsFork(d.joins[i], d.forks) {
        return Failure(UndefinedGroup(d.joins[i], d.forks));
      }
    }
    var guards: map<string, string> := map[];
    for i := 0 to |d.guards|
      invariant guards == GuardMap(d.guards[..i])
    {
      assert d.guards[..i + 1][..i] == d.guards[..i];
      guards := guards[d.guards[i].id := d.guards[i].expr];
    }
    assert d.guards[..|d.guards|] == d.guards;
    var reactions :- ResolveReactions(guards, d.reactions);
    var components :- ResolveComponents(guards, d.components);
    return Success(DdlDoc(d.signals, reactions, d.guards, components, d.instantiates));
  }

  /** Parses a token list, as `parse` does. */
  method Parse(tokens: seq<Token>, src: Source) returns (r: Result<DdlDoc, SyntaxError>)
    requires Ended(tokens)
    ensures r == Doc(src, tokens)
  {
    var parser := new Parser(tokens, src);
    r := parser.ParseDoc();
  }
}
