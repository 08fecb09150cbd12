/** Plain greedy decoding as a function of the target alone: what one turn
    emits, what it leaves evaluated, and what it leaves pending. Every decoding
    mode of the session is proved against this one definition. */
module Decoding {
  import opened Wrappers
  import opened TargetModel

  // ----- the thinking budget -----

  datatype Boundary = Continue | NaturalClosure | ForceClosure

  datatype Budget = Budget(
    budget: nat, committed: nat, close: seq<Token>, forcedClose: seq<Token>,
    recent: seq<Token>, active: bool, forced: bool)

  function NewBudget(budget: nat, close: seq<Token>, forcedClose: seq<Token>): Budget {
    Budget(budget, 0, close, forcedClose, [], true, false)
  }

  function ForcedFirst(b: Budget): (Budget, bool) {
    if b.active && b.budget == 0 then (b.(active := false, forced := true), true) else (b, false)
  }

  function Observed(b: Budget, token: Token, enforce: bool): (r: (Budget, Boundary))
    ensures r.1 == ForceClosure ==> enforce && b.active && b.committed + 1 >= b.budget
    ensures enforce && r.1 == Continue && r.0.active ==> r.0.committed < r.0.budget
    ensures r.0.active ==> r.0.committed == b.committed + 1 && r.1 == Continue && b.active
    ensures r.0.budget == b.budget && r.0.forcedClose == b.forcedClose
  {
    if !b.active then (b, Continue)
    else
      var longer := b.recent + [token];
      var recent := if |longer| > |b.close| then longer[1..] else longer;
      var c := b.(committed := b.committed + 1, recent := recent);
      if recent == b.close then (c.(active := false), NaturalClosure)
      else if enforce && c.committed >= c.budget then (c.(active := false, forced := true), ForceClosure)
      else (c, Continue)
  }

  class ThinkingBudget {
    const budget: nat
    const closeTokens: seq<Token>
    const forcedCloseTokens: seq<Token>
    var committed: nat
    var recent: seq<Token>
    var active: bool
    var forced: bool

    function State(): Budget
      reads this
    {
      Budget(budget, committed, closeTokens, forcedCloseTokens, recent, active, forced)
    }

    constructor (limit: nat, close: seq<Token>, forcedClose: seq<Token>)
      ensures State() == NewBudget(limit, close, forcedClose)
    {
      budget, closeTokens, forcedCloseTokens := limit, close, forcedClose;
      committed, recent, active, forced := 0, [], true, false;
    }

    method ShouldForceBeforeSampling() returns (r: bool)
      modifies this
      ensures (State(), r) == ForcedFirst(old(State()))
    {
      if active && budget == 0 {
        active, forced := false, true;
        return true;
      }
      return false;
    }

    method ObserveCommitted(token: Token, enforceBudget: bool) returns (r: Boundary)
      modifies this
      ensures (State(), r) == Observed(old(State()), token, enforceBudget)
    {
      if !active { return Continue; }
      committed := committed + 1;
      recent := recent + [token];
      if |recent| > |closeTokens| { recent := recent[1..]; }
      if recent == closeTokens {
        active := false;
        return NaturalClosure;
      }
      if enforceBudget && committed >= budget {
        active, forced := false, true;
        return ForceClosure;
      }
      return Continue;
    }
  }

  /** The budget after a list of committed tokens, none of them a stop token. */
  function ObservedAll(b: Budget, tokens: seq<Token>): Budget {
    if tokens == [] then b else Observed(ObservedAll(b, tokens[..|tokens| - 1]), tokens[|tokens| - 1], true).0
  }

  predicate EndsWith(tokens: seq<Token>, tail: seq<Token>) {
    |tail| <= |tokens| && tokens[|tokens| - |tail|..] == tail
  }

  /** The last `n` tokens, or all of them when there are fewer. */
  function Tail(tokens: seq<Token>, n: nat): seq<Token> {
    if |tokens| > n then tokens[|tokens| - n..] else tokens
  }

  lemma TailPushed(tokens: seq<Token>, token: Token, n: nat)
    requires n > 0
    ensures var longer := Tail(tokens, n) + [token];
            Tail(tokens + [token], n) == if |longer| > n then longer[1..] else longer
  {
    var longer := Tail(tokens, n) + [token];
    var now := tokens + [token];
    if |tokens| >= n {
      assert longer == now[|now| - n - 1..];
      assert now[|now| - n - 1..][1..] == now[|now| - n..];
    }
  }

  lemma TailIs(tokens: seq<Token>, tail: seq<Token>)
    ensures Tail(tokens, |tail|) == tail <==> EndsWith(tokens, tail)
  {
    if |tail| == |tokens| { assert tokens[0..] == tokens; }
  }

  lemma {:induction false} RecentIsTail(limit: nat, close: seq<Token>, forcedClose: seq<Token>, seen: seq<Token>)
    requires close != [] && ObservedAll(NewBudget(limit, close, forcedClose), seen).active
    ensures var b := ObservedAll(NewBudget(limit, close, forcedClose), seen);
            && b.committed == |seen| && b.budget == limit && b.close == close && b.recent == Tail(seen, |close|)
    decreases |seen|
  {
    if seen != [] {
      var init, last := seen[..|seen| - 1], seen[|seen| - 1];
      assert init + [last] == seen;
      RecentIsTail(limit, close, forcedClose, init);
      TailPushed(init, last, |close|);
      hide Tail;
    }
  }

  /** Thinking that is still open closes naturally exactly when everything
      committed so far ends with the closing sequence, and is forced closed
      exactly when it does not and the budget is spent. */
  lemma ThinkingBoundaryIs(limit: nat, close: seq<Token>, forcedClose: seq<Token>, seen: seq<Token>, token: Token, enforce: bool)
    requires close != [] && ObservedAll(NewBudget(limit, close, forcedClose), seen).active
    ensures Observed(ObservedAll(NewBudget(limit, close, forcedClose), seen), token, enforce).1
      == if EndsWith(seen + [token], close) then NaturalClosure
         else if enforce && |seen| + 1 >= limit then ForceClosure
         else Continue
  {
    hide ObservedAll, Tail, EndsWith;
    RecentIsTail(limit, close, forcedClose, seen);
    TailPushed(seen, token, |close|);
    TailIs(seen + [token], close);
  }

  // ----- one turn -----

  /** What a turn is decoded against: the target, the stop tokens, the token
      limit, and a sink that may reject any hand-over, as a function of
      everything it has been handed in this turn. */
  datatype Turn = Turn(model: Model, isStop: Token -> bool, maxNew: nat, sinkFails: seq<Token> -> bool)

  datatype Outcome =
    | Finished(generated: seq<Token>, context: seq<Token>, pending: Option<Token>, thinking: Option<Budget>)
    | Halted(generated: seq<Token>, context: seq<Token>, token: Token)

  datatype Closing = Closed(generated: seq<Token>, context: seq<Token>) | Broken(generated: seq<Token>, context: seq<Token>, token: Token)

  /** Emit and evaluate the forced closing sequence, token by token. */
  function CloseThinking(turn: Turn, context: seq<Token>, generated: seq<Token>, closure: seq<Token>): (r: Closing)
    ensures r.Closed? ==> |r.generated| == |generated| + |closure| && r.context == context + closure
    ensures |r.generated| >= |generated|
    decreases |closure|
  {
    if closure == [] then Closed(generated, context)
    else
      var now := generated + [closure[0]];
      if turn.sinkFails(now) then Broken(now, context, closure[0])
      else
        var r := CloseThinking(turn, context + [closure[0]], now, closure[1..]);
        assert r.Closed? ==> r.context == context + closure;
        r
  }

  function Seen(thinking: Option<Budget>, token: Token, enforce: bool): (Option<Budget>, Boundary) {
    if thinking.None? then (None, Continue)
    else
      var (b, boundary) := Observed(thinking.value, token, enforce);
      (Some(b), boundary)
  }

  /** Decode from an evaluated context: one greedy token per step. */
  ghost function Decode(turn: Turn, context: seq<Token>, generated: seq<Token>, thinking: Option<Budget>): Outcome
    requires context != []
    decreases if |generated| < turn.maxNew then turn.maxNew - |generated| else 0
  {
    if |generated| >= turn.maxNew then Finished(generated, context, None, thinking)
    else
      var token := Greedy(turn.model, context);
      var now := generated + [token];
      if turn.sinkFails(now) then Halted(now, context, token)
      else
        var (after, boundary) := Seen(thinking, token, !turn.isStop(token));
        if turn.isStop(token) then Finished(now, context, Some(token), after)
        else if boundary == ForceClosure then
          match CloseThinking(turn, context + [token], now, thinking.value.forcedClose)
          case Broken(g, c, t) => Halted(g, c, t)
          case Closed(g, c) => Decode(turn, c, g, after)
        else if |now| >= turn.maxNew then Finished(now, context, Some(token), after)
        else Decode(turn, context + [token], now, after)
  }

  /** A whole turn from an evaluated context that already holds its input. */
  ghost function DecodeTurn(turn: Turn, context: seq<Token>, thinking: Option<Budget>): Outcome
    requires context != []
  {
    if thinking.Some? && ForcedFirst(thinking.value).1 then
      match CloseThinking(turn, context, [], thinking.value.forcedClose)
      case Broken(g, c, t) => Halted(g, c, t)
      case Closed(g, c) => Decode(turn, c, g, Some(ForcedFirst(thinking.value).0))
    else Decode(turn, context, [], thinking)
  }

  // ----- what plain decoding is -----

  ghost predicate Conserves(o: Outcome, start: seq<Token>) {
    match o
    case Finished(g, c, p, _) => c + (if p.Some? then [p.value] else []) == start + g
    case Halted(g, c, t) => c + [t] == start + g
  }

  lemma {:induction false} ClosingConserves(turn: Turn, context: seq<Token>, generated: seq<Token>, closure: seq<Token>, start: seq<Token>)
    requires context == start + generated
    ensures var r := CloseThinking(turn, context, generated, closure);
            if r.Closed? then r.context == start + r.generated else r.context + [r.token] == start + r.generated
    decreases |closure|
  {
    if closure != [] {
      var now := generated + [closure[0]];
      assert context + [closure[0]] == start + now;
      if !turn.sinkFails(now) {
        ClosingConserves(turn, context + [closure[0]], now, closure[1..], start);
      }
    }
  }

  /** Nothing emitted is lost: after a turn, the evaluated context plus the
      pending token is the input plus everything handed to the sink. */
  lemma {:induction false} DecodeConserves(turn: Turn, context: seq<Token>, generated: seq<Token>, thinking: Option<Budget>, start: seq<Token>)
    requires context != [] && context == start + generated
    ensures Conserves(Decode(turn, context, generated, thinking), start)
    decreases if |generated| < turn.maxNew then turn.maxNew - |generated| else 0
  {
    if |generated| < turn.maxNew {
      var token := Greedy(turn.model, context);
      var now := generated + [token];
      assert context + [token] == start + now;
      var (after, boundary) := Seen(thinking, token, !turn.isStop(token));
      if !turn.sinkFails(now) && !turn.isStop(token) {
        if boundary == ForceClosure {
          var closure := thinking.value.forcedClose;
          ClosingConserves(turn, context + [token], now, closure, start);
          var r := CloseThinking(turn, context + [token], now, closure);
          if r.Closed? { DecodeConserves(turn, r.context, r.generated, after, start); }
        } else if |now| < turn.maxNew {
          DecodeConserves(turn, context + [token], now, after, start);
        }
      }
    }
  }

  lemma TurnConserves(turn: Turn, context: seq<Token>, thinking: Option<Budget>)
    requires context != []
    ensures Conserves(DecodeTurn(turn, context, thinking), context)
  {
    assert context == context + [];
    if thinking.Some? && ForcedFirst(thinking.value).1 {
      ClosingConserves(turn, context, [], thinking.value.forcedClose, context);
      var r := CloseThinking(turn, context, [], thinking.value.forcedClose);
      if r.Closed? { DecodeConserves(turn, r.context, r.generated, Some(ForcedFirst(thinking.value).0), context); }
    } else {
      DecodeConserves(turn, context, [], thinking, context);
    }
  }

  lemma TurnEmits(turn: Turn, start: seq<Token>, thinking: Option<Budget>)
    requires start != [] && turn.maxNew > 0 && (thinking.Some? ==> thinking.value.forcedClose != [])
    ensures DecodeTurn(turn, start, thinking).generated != []
  {
    hide Greedy;
    if thinking.Some? && ForcedFirst(thinking.value).1 {
      var r := CloseThinking(turn, start, [], thinking.value.forcedClose);
      ClosingBreaksFirst(turn, start, [], thinking.value.forcedClose);
      if r.Closed? { DecodeAddsTo(turn, r.context, r.generated, Some(ForcedFirst(thinking.value).0)); }
    } else {
      DecodeAddsTo(turn, start, [], thinking);
    }
  }

  lemma {:induction false} DecodeAddsTo(turn: Turn, context: seq<Token>, generated: seq<Token>, thinking: Option<Budget>)
    requires context != []
    ensures |Decode(turn, context, generated, thinking).generated| >= |generated| + if |generated| < turn.maxNew then 1 else 0
    decreases if |generated| < turn.maxNew then turn.maxNew - |generated| else 0
  {
    hide Greedy, CloseThinking;
    if |generated| < turn.maxNew {
      var token := Greedy(turn.model, context);
      var now := generated + [token];
      var (after, boundary) := Seen(thinking, token, !turn.isStop(token));
      if !turn.sinkFails(now) && !turn.isStop(token) {
        if boundary == ForceClosure {
          var r := CloseThinking(turn, context + [token], now, thinking.value.forcedClose);
          if r.Closed? { DecodeAddsTo(turn, r.context, r.generated, after); }
        } else if |now| < turn.maxNew {
          DecodeAddsTo(turn, context + [token], now, after);
        }
      }
    }
  }

  /** `tokens` continues `start` greedily: each token is the target's own choice
      after everything before it, and the sink took all but perhaps the last. */
  ghost predicate GreedyRun(turn: Turn, start: seq<Token>, tokens: seq<Token>)
    requires start != []
  {
    && (forall i :: 0 <= i < |tokens| ==> tokens[i] == Greedy(turn.model, start + tokens[..i]))
    && (forall i :: 0 <= i < |tokens| - 1 ==> !turn.isStop(tokens[i]))
    && (forall i :: 0 < i < |tokens| ==> !turn.sinkFails(tokens[..i]))
  }

  // ----- decoding with a token already sampled and handed over -----

  /** Continue after `seed` was sampled and emitted but not yet evaluated. */
  ghost function Resume(turn: Turn, context: seq<Token>, generated: seq<Token>, pending: Option<Token>, thinking: Option<Budget>): Outcome {
    if pending.None? || |generated| >= turn.maxNew || turn.isStop(pending.value) then
      Finished(generated, context, pending, thinking)
    else Decode(turn, context + [pending.value], generated, thinking)
  }

  lemma ResumeIs(turn: Turn, context: seq<Token>, generated: seq<Token>, pending: Option<Token>, thinking: Option<Budget>)
    ensures Resume(turn, context, generated, pending, thinking) ==
      if pending.Some? && |generated| < turn.maxNew && !turn.isStop(pending.value) then
        Decode(turn, context + [pending.value], generated, thinking)
      else Finished(generated, context, pending, thinking)
  {}

  ghost function AfterClosing(turn: Turn, r: Closing, thinking: Option<Budget>): Outcome
    requires r.Closed? ==> r.context != []
  {
    match r
    case Broken(g, c, t) => Halted(g, c, t)
    case Closed(g, c) => Decode(turn, c, g, thinking)
  }

  /** One step of plain decoding, seen from the token it samples. */
  lemma DecodeStep(turn: Turn, context: seq<Token>, generated: seq<Token>, thinking: Option<Budget>)
    requires context != [] && |generated| < turn.maxNew
    ensures var token := Greedy(turn.model, context);
            var now := generated + [token];
            var (after, boundary) := Seen(thinking, token, !turn.isStop(token));
            Decode(turn, context, generated, thinking) ==
              if turn.sinkFails(now) then Halted(now, context, token)
              else if boundary == ForceClosure then
                AfterClosing(turn, CloseThinking(turn, context + [token], now, thinking.value.forcedClose), after)
              else Resume(turn, context, now, Some(token), after)
  {}

  /** Once thinking is over, observing a token changes nothing. */
  lemma DecodeStepInactive(turn: Turn, context: seq<Token>, generated: seq<Token>, thinking: Option<Budget>)
    requires context != [] && (thinking.Some? ==> !thinking.value.active)
    ensures var token := Greedy(turn.model, context);
            var now := generated + [token];
            Decode(turn, context, generated, thinking) ==
              if |generated| >= turn.maxNew then Finished(generated, context, None, thinking)
              else if turn.sinkFails(now) then Halted(now, context, token)
              else Resume(turn, context, now, Some(token), thinking)
  {}

  lemma GreedyRunExtends(turn: Turn, start: seq<Token>, tokens: seq<Token>)
    requires start != [] && GreedyRun(turn, start, tokens)
    requires tokens != [] ==> !turn.isStop(tokens[|tokens| - 1]) && !turn.sinkFails(tokens)
    ensures GreedyRun(turn, start, tokens + [Greedy(turn.model, start + tokens)])
  {
    hide Greedy;
    var now := tokens + [Greedy(turn.model, start + tokens)];
    forall i | 0 <= i < |now| ensures now[i] == Greedy(turn.model, start + now[..i]) {
      assert now[..i] == tokens[..i];
      assert i == |tokens| ==> tokens[..i] == tokens;
    }
    forall i | 0 < i < |now| ensures !turn.sinkFails(now[..i]) {
      assert now[..i] == tokens[..i];
      assert i == |tokens| ==> tokens[..i] == tokens;
    }
  }

  /** Without a thinking budget a turn is exactly the greedy run, ended by the
      first of: a rejected hand-over, a stop token, the token limit. */
  lemma {:induction false} UnbudgetedTurnIsGreedy(turn: Turn, start: seq<Token>, generated: seq<Token>)
    requires start != [] && GreedyRun(turn, start, generated) && |generated| < turn.maxNew
    requires generated != [] ==> !turn.isStop(generated[|generated| - 1]) && !turn.sinkFails(generated)
    ensures var o := Decode(turn, start + generated, generated, None);
            && GreedyRun(turn, start, o.generated) && generated < o.generated && |o.generated| <= turn.maxNew
            && (o.Halted? <==> turn.sinkFails(o.generated))
            && (o.Finished? ==> |o.generated| == turn.maxNew || turn.isStop(o.generated[|o.generated| - 1]))
            && (o.Finished? ==> o.pending == Some(o.generated[|o.generated| - 1]))
    decreases turn.maxNew - |generated|
  {
    hide GreedyRun, Decode, Greedy, CloseThinking;
    var token := Greedy(turn.model, start + generated);
    var now := generated + [token];
    assert start + now == start + generated + [token];
    GreedyRunExtends(turn, start, generated);
    DecodeStep(turn, start + generated, generated, None);
    if !turn.sinkFails(now) && !turn.isStop(token) && |now| < turn.maxNew {
      UnbudgetedTurnIsGreedy(turn, start, now);
    }
  }

  // ----- where a turn stops, whatever its thinking budget -----

  /** A closure breaks at the first token the sink refuses, with everything
      before it evaluated, and closes exactly when the sink refuses none. */
  lemma {:induction false} ClosingBreaksFirst(turn: Turn, context: seq<Token>, generated: seq<Token>, closure: seq<Token>)
    ensures var r := CloseThinking(turn, context, generated, closure);
      && (r.Closed? <==> forall k :: 0 < k <= |closure| ==> !turn.sinkFails(generated + closure[..k]))
      && (r.Closed? ==> r.generated == generated + closure && r.context == context + closure)
      && (r.Broken? ==>
           var k := |r.generated| - |generated|;
           && 0 < k <= |closure| && r.generated == generated + closure[..k] && turn.sinkFails(r.generated)
           && r.token == closure[k - 1] && r.context == context + closure[..k - 1]
           && forall j :: 0 < j < k ==> !turn.sinkFails(generated + closure[..j]))
    decreases |closure|
  {
    if closure == [] {
      assert generated + [] == generated && context + [] == context;
    } else {
      var now, more := generated + [closure[0]], closure[1..];
      ClosingBreaksFirst(turn, context + [closure[0]], now, more);
      forall k | 0 <= k <= |more|
        ensures now + more[..k] == generated + closure[..k + 1]
        ensures context + [closure[0]] + more[..k] == context + closure[..k + 1]
      {
        assert closure[..k + 1] == [closure[0]] + more[..k];
      }
      assert closure[..|closure|] == closure && more[..|more|] == more && now + [] == now;
      assert closure[..0] == [] && context + [] == context;
      assert now + more[..0] == generated + closure[..1];
      forall j | 0 < j <= |closure|
        ensures turn.sinkFails(generated + closure[..j]) == turn.sinkFails(now + more[..j - 1])
      {}
    }
  }

  /** The sink took every hand-over before the last. */
  predicate Taken(turn: Turn, tokens: seq<Token>) {
    forall i :: 0 < i < |tokens| ==> !turn.sinkFails(tokens[..i])
  }

  predicate TakenAll(turn: Turn, tokens: seq<Token>) {
    Taken(turn, tokens) && (tokens != [] ==> !turn.sinkFails(tokens))
  }

  /** A turn that goes on past whatever the sink took. */
  ghost predicate HaltsFirst(turn: Turn, o: Outcome) {
    Taken(turn, o.generated) && (o.Halted? <==> o.generated != [] && turn.sinkFails(o.generated))
  }

  lemma TakenMore(turn: Turn, tokens: seq<Token>, more: seq<Token>)
    requires TakenAll(turn, tokens) && forall j :: 0 < j < |more| ==> !turn.sinkFails(tokens + more[..j])
    ensures Taken(turn, tokens + more)
    ensures more != [] && !turn.sinkFails(tokens + more) ==> TakenAll(turn, tokens + more)
  {
    var all := tokens + more;
    forall i | 0 < i < |all| ensures !turn.sinkFails(all[..i]) {
      if i < |tokens| {
        assert all[..i] == tokens[..i];
      } else {
        assert all[..i] == tokens + more[..i - |tokens|];
        assert i == |tokens| ==> all[..i] == tokens;
      }
    }
  }

  lemma ClosingTaken(turn: Turn, context: seq<Token>, generated: seq<Token>, closure: seq<Token>)
    requires TakenAll(turn, generated)
    ensures var r := CloseThinking(turn, context, generated, closure);
      if r.Closed? then TakenAll(turn, r.generated)
      else Taken(turn, r.generated) && r.generated != [] && turn.sinkFails(r.generated)
  {
    hide CloseThinking, Taken;
    ClosingBreaksFirst(turn, context, generated, closure);
    var r := CloseThinking(turn, context, generated, closure);
    if r.Closed? {
      assert generated + [] == generated && closure[..|closure|] == closure;
      TakenMore(turn, generated, closure);
    } else {
      var k := |r.generated| - |generated|;
      assert forall j :: 0 < j < k ==> closure[..k][..j] == closure[..j];
      TakenMore(turn, generated, closure[..k]);
    }
  }

  lemma {:induction false} DecodeHaltsFirst(turn: Turn, context: seq<Token>, generated: seq<Token>, thinking: Option<Budget>)
    requires context != [] && TakenAll(turn, generated)
    ensures HaltsFirst(turn, Decode(turn, context, generated, thinking))
    decreases if |generated| < turn.maxNew then turn.maxNew - |generated| else 0
  {
    if |generated| < turn.maxNew {
      var token := Greedy(turn.model, context);
      var now := generated + [token];
      TakenMore(turn, generated, [token]);
      var (after, boundary) := Seen(thinking, token, !turn.isStop(token));
      if !turn.sinkFails(now) && !turn.isStop(token) {
        if boundary == ForceClosure {
          var closure := thinking.value.forcedClose;
          ClosingTaken(turn, context + [token], now, closure);
          var r := CloseThinking(turn, context + [token], now, closure);
          if r.Closed? { DecodeHaltsFirst(turn, r.context, r.generated, after); }
        } else if |now| < turn.maxNew {
          DecodeHaltsFirst(turn, context + [token], now, after);
        }
      }
    }
  }

  /** A turn halts exactly at the first token the sink refuses, in a forced
      closure as anywhere else. */
  lemma TurnHaltsFirst(turn: Turn, context: seq<Token>, thinking: Option<Budget>)
    requires context != []
    ensures HaltsFirst(turn, DecodeTurn(turn, context, thinking))
  {
    hide Decode, CloseThinking;
    if thinking.Some? && ForcedFirst(thinking.value).1 {
      ClosingTaken(turn, context, [], thinking.value.forcedClose);
      var r := CloseThinking(turn, context, [], thinking.value.forcedClose);
      if r.Closed? { DecodeHaltsFirst(turn, r.context, r.generated, Some(ForcedFirst(thinking.value).0)); }
    } else {
      DecodeHaltsFirst(turn, context, [], thinking);
    }
  }

  // ----- the whole turn by a local rule: what comes next, and when it is over -----

  /** A budget as a turn starts with it. */
  predicate Starting(b: Option<Budget>) {
    b.Some? ==>
      b.value == NewBudget(b.value.budget, b.value.close, b.value.forcedClose) && b.value.close != [] && b.value.forcedClose != []
  }

  /** Thinking has not closed by itself within its budget. */
  predicate OpenAfter(b: Budget, tokens: seq<Token>) {
    forall k :: 0 < k <= b.budget && k <= |tokens| ==> !EndsWith(tokens[..k], b.close)
  }

  /** Position `i` belongs to the forced closure: it starts where the budget of a
      section that is still open is spent. */
  predicate InClosure(b: Option<Budget>, tokens: seq<Token>, i: nat) {
    && b.Some?
    && b.value.budget <= i < b.value.budget + |b.value.forcedClose|
    && OpenAfter(b.value, tokens)
  }

  ghost function NextToken(turn: Turn, start: seq<Token>, b: Option<Budget>, tokens: seq<Token>): Token
    requires start != []
  {
    if InClosure(b, tokens, |tokens|) then b.value.forcedClose[|tokens| - b.value.budget]
    else Greedy(turn.model, start + tokens)
  }

  /** Nothing comes after `tokens`: the sink refused the last, or it is a stop
      token of the target's own choosing, or the limit is reached outside the
      forced closure. */
  ghost predicate Over(turn: Turn, b: Option<Budget>, tokens: seq<Token>) {
    || (tokens != [] && turn.sinkFails(tokens))
    || (tokens != [] && turn.isStop(tokens[|tokens| - 1]) && !InClosure(b, tokens, |tokens| - 1))
    || (|tokens| >= turn.maxNew && !InClosure(b, tokens, |tokens|))
  }

  ghost predicate Follows(turn: Turn, start: seq<Token>, b: Option<Budget>, tokens: seq<Token>)
    requires start != []
  {
    forall k :: 0 <= k < |tokens| ==> !Over(turn, b, tokens[..k]) && tokens[k] == NextToken(turn, start, b, tokens[..k])
  }

  lemma FollowsMore(turn: Turn, start: seq<Token>, b: Option<Budget>, tokens: seq<Token>)
    requires start != [] && Follows(turn, start, b, tokens) && !Over(turn, b, tokens)
    ensures Follows(turn, start, b, tokens + [NextToken(turn, start, b, tokens)])
  {
    hide Over, NextToken;
    var now := tokens + [NextToken(turn, start, b, tokens)];
    forall k | 0 <= k < |now| ensures !Over(turn, b, now[..k]) && now[k] == NextToken(turn, start, b, now[..k]) {
      assert now[..k] == if k < |tokens| then tokens[..k] else tokens;
    }
  }

  /** What the state of thinking is worth once `tokens` are out: open with
      budget left, or over for good. */
  ghost predicate ThinkingIs(b: Option<Budget>, tokens: seq<Token>, thinking: Option<Budget>) {
    && (thinking.Some? <==> b.Some?)
    && (b.Some? ==>
         && thinking.value.forcedClose == b.value.forcedClose
         && if thinking.value.active then
              && thinking.value == ObservedAll(b.value, tokens) && OpenAfter(b.value, tokens)
              && |tokens| < b.value.budget && !thinking.value.forced
            else
              (if OpenAfter(b.value, tokens) then |tokens| >= b.value.budget + |b.value.forcedClose| else true)
              && (thinking.value.forced <==> OpenAfter(b.value, tokens)))
  }

  /** The budget's report at the end: whether the closure was forced. */
  ghost predicate Reports(b: Option<Budget>, tokens: seq<Token>, thinking: Option<Budget>) {
    && (thinking.Some? <==> b.Some?)
    && (b.Some? ==> (thinking.value.forced <==> |tokens| > b.value.budget && OpenAfter(b.value, tokens)))
  }

  /** `o` is a turn decoded by the local rule. */
  ghost predicate Ruled(turn: Turn, start: seq<Token>, b: Option<Budget>, o: Outcome)
    requires start != []
  {
    var g := o.generated;
    && Follows(turn, start, b, g) && Over(turn, b, g)
    && (o.Halted? <==> g != [] && turn.sinkFails(g))
    && (o.Finished? ==> (o.pending.None? <==> g == [] || InClosure(b, g, |g| - 1)))
    && (o.Finished? ==> Reports(b, g, o.thinking))
  }

  lemma OpenMore(b: Budget, tokens: seq<Token>, token: Token)
    ensures OpenAfter(b, tokens + [token])
      <==> OpenAfter(b, tokens) && (|tokens| + 1 <= b.budget ==> !EndsWith(tokens + [token], b.close))
  {
    hide EndsWith;
    var now := tokens + [token];
    assert forall k :: 0 <= k <= |tokens| ==> now[..k] == tokens[..k];
    assert now[..|now|] == now;
  }

  lemma OpenPrefix(b: Budget, tokens: seq<Token>, more: seq<Token>)
    requires |tokens| >= b.budget
    ensures OpenAfter(b, tokens + more) <==> OpenAfter(b, tokens)
  {
    hide EndsWith;
    assert forall k :: 0 <= k <= |tokens| ==> (tokens + more)[..k] == tokens[..k];
  }

  /** One observed token, seen from the tokens so far. */
  lemma SeenIs(turn: Turn, b: Option<Budget>, tokens: seq<Token>, thinking: Option<Budget>, token: Token)
    requires Starting(b) && ThinkingIs(b, tokens, thinking)
    ensures var now := tokens + [token];
      var (after, boundary) := Seen(thinking, token, !turn.isStop(token));
      && (boundary == ForceClosure ==>
           && b.Some? && |now| == b.value.budget && OpenAfter(b.value, now) && !turn.isStop(token)
           && after.Some? && !after.value.active && after.value.forced && after.value.forcedClose == b.value.forcedClose
           && thinking.value.forcedClose == b.value.forcedClose)
      && (boundary != ForceClosure && !turn.isStop(token) ==> ThinkingIs(b, now, after))
      && (boundary != ForceClosure && turn.isStop(token) ==> Reports(b, now, after))
  {
    hide EndsWith, OpenAfter;
    if b.Some? {
      var start := b.value;
      OpenMore(start, tokens, token);
      if thinking.value.active {
        hide ObservedAll;
        ThinkingBoundaryIs(start.budget, start.close, start.forcedClose, tokens, token, !turn.isStop(token));
        ObservedNext(start, tokens, token, !turn.isStop(token));
      }
    }
  }

  lemma ObservedNext(b: Budget, tokens: seq<Token>, token: Token, enforce: bool)
    requires ObservedAll(b, tokens).active
    ensures enforce ==> Observed(ObservedAll(b, tokens), token, enforce).0 == ObservedAll(b, tokens + [token])
    ensures var (now, boundary) := Observed(ObservedAll(b, tokens), token, enforce);
      && (now.active <==> boundary == Continue)
      && now.forced == (ObservedAll(b, tokens).forced || boundary == ForceClosure)
  {
    var now := tokens + [token];
    assert now[..|now| - 1] == tokens && now[|now| - 1] == token;
  }

  /** The forced closure, by the local rule. */
  lemma ClosureFollows(turn: Turn, start: seq<Token>, b: Option<Budget>, tokens: seq<Token>, n: nat)
    requires start != [] && Starting(b) && b.Some? && |tokens| == b.value.budget && OpenAfter(b.value, tokens)
    requires Follows(turn, start, b, tokens) && n <= |b.value.forcedClose|
    requires tokens != [] ==> !turn.sinkFails(tokens) && !turn.isStop(tokens[|tokens| - 1])
    requires forall j :: 0 < j < n ==> !turn.sinkFails(tokens + b.value.forcedClose[..j])
    ensures Follows(turn, start, b, tokens + b.value.forcedClose[..n])
    decreases n
  {
    hide OpenAfter, Follows, Over, NextToken;
    var forced := b.value.forcedClose;
    if n == 0 {
      assert tokens + forced[..0] == tokens;
    } else {
      ClosureFollows(turn, start, b, tokens, n - 1);
      var before := tokens + forced[..n - 1];
      ClosureNext(turn, start, b, tokens, n - 1);
      FollowsMore(turn, start, b, before);
      assert before + [forced[n - 1]] == tokens + forced[..n];
    }
  }

  lemma ClosureNext(turn: Turn, start: seq<Token>, b: Option<Budget>, tokens: seq<Token>, n: nat)
    requires start != [] && Starting(b) && b.Some? && |tokens| == b.value.budget && OpenAfter(b.value, tokens)
    requires n < |b.value.forcedClose|
    requires tokens != [] ==> !turn.sinkFails(tokens) && !turn.isStop(tokens[|tokens| - 1])
    requires n > 0 ==> !turn.sinkFails(tokens + b.value.forcedClose[..n])
    ensures !Over(turn, b, tokens + b.value.forcedClose[..n])
    ensures NextToken(turn, start, b, tokens + b.value.forcedClose[..n]) == b.value.forcedClose[n]
  {
    hide OpenAfter, Greedy;
    var before := tokens + b.value.forcedClose[..n];
    OpenPrefix(b.value, tokens, b.value.forcedClose[..n]);
    assert n == 0 ==> before == tokens;
    assert InClosure(b, before, |before|);
  }

  /** After the closure, or with the sink's refusal inside it. */
  lemma ClosedRuled(turn: Turn, start: seq<Token>, b: Option<Budget>, tokens: seq<Token>, after: Option<Budget>)
    requires start != [] && Starting(b) && b.Some? && |tokens| == b.value.budget && OpenAfter(b.value, tokens)
    requires Follows(turn, start, b, tokens)
    requires tokens != [] ==> !turn.sinkFails(tokens) && !turn.isStop(tokens[|tokens| - 1])
    requires after.Some? && !after.value.active && after.value.forced && after.value.forcedClose == b.value.forcedClose
    ensures var r := CloseThinking(turn, start + tokens, tokens, b.value.forcedClose);
      if r.Broken? then Ruled(turn, start, b, Halted(r.generated, r.context, r.token))
      else r.context == start + r.generated && Ready(turn, start, b, r.generated, after)
  {
    hide CloseThinking, OpenAfter, Follows, EndsWith;
    var forced := b.value.forcedClose;
    var r := CloseThinking(turn, start + tokens, tokens, forced);
    ClosingBreaksFirst(turn, start + tokens, tokens, forced);
    var n := |r.generated| - |tokens|;
    assert forced[..|forced|] == forced;
    ClosureFollows(turn, start, b, tokens, n);
    OpenPrefix(b.value, tokens, forced[..n]);
    if r.Closed? { assert start + tokens + forced == start + (tokens + forced); }
  }

  /** A turn that has handed over `tokens` and is not over unless by its limit. */
  ghost predicate Ready(turn: Turn, start: seq<Token>, b: Option<Budget>, tokens: seq<Token>, thinking: Option<Budget>)
    requires start != []
  {
    && Follows(turn, start, b, tokens) && ThinkingIs(b, tokens, thinking)
    && (tokens != [] ==> !turn.sinkFails(tokens))
    && (tokens != [] ==>
         InClosure(b, tokens, |tokens| - 1) || (!turn.isStop(tokens[|tokens| - 1]) && |tokens| < turn.maxNew))
  }

  lemma NotNext(b: Option<Budget>, tokens: seq<Token>, thinking: Option<Budget>)
    requires Starting(b) && ThinkingIs(b, tokens, thinking)
    ensures !InClosure(b, tokens, |tokens|) && Reports(b, tokens, thinking)
  {
    hide OpenAfter, ObservedAll;
  }

  lemma {:induction false} DecodeRuled(turn: Turn, start: seq<Token>, b: Option<Budget>, tokens: seq<Token>, thinking: Option<Budget>)
    requires start != [] && Starting(b) && Ready(turn, start, b, tokens, thinking)
    ensures Ruled(turn, start, b, Decode(turn, start + tokens, tokens, thinking))
    decreases if |tokens| < turn.maxNew then turn.maxNew - |tokens| else 0
  {
    hide Decode, CloseThinking, Greedy, Follows, ThinkingIs, OpenAfter, Seen, Reports;
    NotNext(b, tokens, thinking);
    if |tokens| >= turn.maxNew {
      DecodeDone(turn, start + tokens, tokens, thinking);
    } else {
      var token := Greedy(turn.model, start + tokens);
      var now := tokens + [token];
      assert start + now == start + tokens + [token];
      DecodeStep(turn, start + tokens, tokens, thinking);
      FollowsMore(turn, start, b, tokens);
      SeenIs(turn, b, tokens, thinking, token);
      LastIsGreedy(b, tokens, thinking, token);
      var (after, boundary) := Seen(thinking, token, !turn.isStop(token));
      if !turn.sinkFails(now) {
        if boundary == ForceClosure {
          ClosedRuled(turn, start, b, now, after);
          var r := CloseThinking(turn, start + now, now, b.value.forcedClose);
          if r.Closed? { DecodeRuled(turn, start, b, r.generated, after); }
        } else if !turn.isStop(token) {
          NotNext(b, now, after);
          if |now| < turn.maxNew { DecodeRuled(turn, start, b, now, after); }
        }
      }
    }
  }

  lemma LastIsGreedy(b: Option<Budget>, tokens: seq<Token>, thinking: Option<Budget>, token: Token)
    requires Starting(b) && ThinkingIs(b, tokens, thinking)
    ensures !InClosure(b, tokens + [token], |tokens|)
  {
    hide EndsWith, ObservedAll, OpenAfter;
    if b.Some? { OpenMore(b.value, tokens, token); }
  }

  lemma DecodeDone(turn: Turn, c: seq<Token>, generated: seq<Token>, thinking: Option<Budget>)
    requires c != [] && |generated| >= turn.maxNew
    ensures Decode(turn, c, generated, thinking) == Finished(generated, c, None, thinking)
  {}

  /** A turn, whatever its thinking budget, is the one run of tokens that the
      local rule allows: greedy, but for a forced closure that starts exactly
      where the budget of an open section is spent and runs to its end; over at
      the first refusal, sampled stop token, or limit outside the closure. */
  lemma TurnRuled(turn: Turn, start: seq<Token>, b: Option<Budget>)
    requires start != [] && Starting(b)
    ensures Ruled(turn, start, b, DecodeTurn(turn, start, b)) && Conserves(DecodeTurn(turn, start, b), start)
  {
    hide Decode, CloseThinking;
    TurnConserves(turn, start, b);
    assert start + [] == start;
    if b.Some? && b.value.budget == 0 {
      ClosedRuled(turn, start, b, [], Some(ForcedFirst(b.value).0));
      var r := CloseThinking(turn, start, [], b.value.forcedClose);
      if r.Closed? { DecodeRuled(turn, start, b, r.generated, Some(ForcedFirst(b.value).0)); }
    } else {
      DecodeRuled(turn, start, b, [], b);
    }
  }

  /** The rule leaves no choice: two turns that follow it are the same. */
  lemma {:induction false} RuleDetermines(turn: Turn, start: seq<Token>, b: Option<Budget>, x: seq<Token>, y: seq<Token>)
    requires start != [] && Follows(turn, start, b, x) && Over(turn, b, x) && Follows(turn, start, b, y) && Over(turn, b, y)
    ensures x == y
  {
    hide Over, NextToken;
    SamePrefixes(turn, start, b, x, y, if |x| <= |y| then |x| else |y|);
    assert x[..|x|] == x && y[..|y|] == y;
  }

  lemma {:induction false} SamePrefixes(turn: Turn, start: seq<Token>, b: Option<Budget>, x: seq<Token>, y: seq<Token>, n: nat)
    requires start != [] && Follows(turn, start, b, x) && Follows(turn, start, b, y) && n <= |x| && n <= |y|
    ensures x[..n] == y[..n]
    decreases n
  {
    hide Over, NextToken;
    if n > 0 {
      SamePrefixes(turn, start, b, x, y, n - 1);
      assert x[..n] == x[..n - 1] + [x[n - 1]] && y[..n] == y[..n - 1] + [y[n - 1]];
    }
  }
}
