/** The quantized runtime's session: one sequence of target state with the side
    state the two draft arms need, plain turns, and turns under the unified
    speculative policy. */
module Session {
  import opened Wrappers
  import opened TargetModel
  import opened Ngram
  import opened Decoding
  import opened MtpGap
  import opened Drafting
  import A = Arms

  const PREFILL_PASS_ROWS: nat := 512

  datatype Emission = NextStep | Reclosed | SinkBroke

  datatype TurnResult =
    | Rejected
    | Completed(generated: seq<Token>, thinking: Option<Budget>)
    | SinkFailed(generated: seq<Token>)

  /** Everything needed to resume a sequence in another session. */
  datatype Image = Image(tokens: seq<Token>, state: ModelState, mtp: Option<seq<Fed>>, hidden: Option<Row>)

  /** An image taken from a session of the same model. */
  ghost predicate Faithful(m: Model, predictor: Option<Predictor>, image: Image) {
    && image.state == StateAfter(m, image.tokens)
    && (image.tokens == [] ==> image.hidden == None)
    && (image.mtp.Some? ==>
         && predictor.Some? && image.mtp.value == Shifted(m, image.tokens)
         && image.hidden == CarryAt(m, image.tokens, |image.tokens|))
  }

  /** The check a restore makes first: one token for each evaluated position. */
  predicate Counted(image: Image) { |image.tokens| == image.state.position }

  function ContinuationInput(prompt: seq<Token>, pending: Option<Token>): seq<Token> {
    (if pending.Some? then [pending.value] else []) + prompt
  }

  /** What the index holds once a turn's input is in: it goes on from the visible
      context if it mirrored that, and starts over otherwise. */
  function Started(mirrored: bool, visible: seq<Token>, prompt: seq<Token>, pending: Option<Token>): seq<Token> {
    if mirrored then visible + prompt else ContinuationInput(prompt, pending)
  }

  function StartingBudget(options: Options): Option<Budget> {
    if options.thinking.None? then None
    else Some(NewBudget(options.thinking.value, options.close, options.forcedClose))
  }

  function TurnOf(m: Model, options: Options, sinkFails: seq<Token> -> bool): Turn {
    Turn(m, options.isStop, options.maxNew, sinkFails)
  }

  function Think(thinking: ThinkingBudget?): Option<Budget>
    reads thinking
  {
    if thinking == null then None else Some(thinking.State())
  }

  /** A predictor that has seen nothing, with nothing retained for it. */
  function FreshGap(predictor: Option<Predictor>): Gap {
    Gap(0, [], [], None, if predictor.Some? then Some([]) else None)
  }

  /** The longest draft prefix the target's own choices agree with. */
  method AcceptedDraftPrefix(m: Model, drafts: seq<Token>, rows: seq<Row>) returns (accepted: nat)
    requires |rows| > |drafts|
    ensures accepted <= |drafts|
    ensures forall j :: 0 <= j < accepted ==> m.argmax(rows[j]) == drafts[j]
    ensures accepted < |drafts| ==> m.argmax(rows[accepted]) != drafts[accepted]
  {
    accepted := 0;
    while accepted < |drafts| && m.argmax(rows[accepted]) == drafts[accepted]
      invariant accepted <= |drafts|
      invariant forall j :: 0 <= j < accepted ==> m.argmax(rows[j]) == drafts[j]
    {
      accepted := accepted + 1;
    }
  }

  function CommittedOutputs(drafts: seq<Token>, accepted: nat, authoritative: Token): seq<Token>
    requires accepted <= |drafts|
  {
    drafts[..accepted] + [authoritative]
  }

  /** How many of a pass's rows a session keeps when the sink fails on output
      `index`. */
  function HaltedPassRows(index: nat, accepted: nat): nat {
    1 + if index <= accepted then index else accepted
  }

  class Runtime {
    const model: Model
    const predictor: Option<Predictor>
    const ngram: NgramIndex
    var state: ModelState
    var pendingToken: Option<Token>
    var lastTargetHidden: Option<Row>
    /** The predictor's state, its synced position, and the retained gap. */
    var gap: Gap
    var gapValid: bool
    var snapshots: Snapshots
    /** The tokens the target state represents. */
    ghost var context: seq<Token>

    // ----- the session invariant -----

    ghost predicate TargetOk()
      reads this`state, this`context
    {
      state == StateAfter(model, context)
    }

    /** The index is never longer than the visible context, and as long as it
        only when it is the visible context. */
    ghost predicate IndexTracks(seen: seq<Token>)
      reads ngram
    {
      && ngram.Valid()
      && |ngram.tokens| <= |seen|
      && (|ngram.tokens| == |seen| ==> ngram.tokens == seen)
    }

    ghost predicate ShapeAt(n: nat)
      reads this`gap, this`gapValid, this`lastTargetHidden
    {
      && |gap.hidden| == |gap.tokens|
      && gap.synced + |gap.tokens| <= n
      && (gap.predictor.Some? <==> predictor.Some?)
      && (if gap.predictor.Some? then gap.synced <= |gap.predictor.value| else gap.synced == 0)
      && (gapValid && gap.synced > 0 ==> lastTargetHidden.Some? && (gap.tokens != [] ==> gap.prior.Some?))
    }

    ghost predicate Shape()
      reads this`context, this`gap, this`gapValid, this`lastTargetHidden
    {
      ShapeAt(|context|)
    }

    /** Gap, rows, prior row, carry and predictor stream are the target's own. */
    ghost predicate AlignedAt(c: seq<Token>)
      reads this`gap, this`lastTargetHidden
    {
      Describes(model, c, gap) && lastTargetHidden == CarryAt(model, c, |c|)
    }

    ghost predicate Aligned()
      reads this`context, this`gap, this`lastTargetHidden
    {
      AlignedAt(context)
    }

    ghost predicate Exact()
      reads this`context, this`gap
    {
      gap.synced == |context| && gap.predictor.Some? ==> |gap.predictor.value| == gap.synced
    }

    /** Mid-turn, with `c` accounted for: a tracked turn keeps the side state
        aligned, an untracked one has already fallen behind. */
    ghost predicate TracksAt(track: bool, c: seq<Token>)
      reads this`gap, this`gapValid, this`lastTargetHidden
    {
      && ShapeAt(|c|)
      && (track ==> gapValid && AlignedAt(c))
      && (!track ==> !gapValid && gap.synced + |gap.tokens| < |c|)
    }

    ghost predicate Tracks(track: bool)
      reads this`context, this`gap, this`gapValid, this`lastTargetHidden
    {
      TracksAt(track, context)
    }

    ghost function Visible(): seq<Token>
      reads this`context, this`pendingToken
    {
      context + if pendingToken.Some? then [pendingToken.value] else []
    }

    ghost predicate Valid()
      reads this, ngram
    {
      && TargetOk()
      && IndexTracks(Visible())
      && Shape() && AlignedIfCaughtUp() && Exact()
    }

    ghost predicate AlignedIfCaughtUp()
      reads this`context, this`gap, this`lastTargetHidden
    {
      gap.synced + |gap.tokens| == |context| ==> Aligned()
    }

    /** The turn ended as `o` says. */
    ghost predicate Lands(o: Outcome, r: TurnResult)
      reads this
    {
      match o
      case Finished(g, c, p, th) => r == Completed(g, th) && context == c && pendingToken == p
      case Halted(g, c, t) => r == SinkFailed(g) && context == c && pendingToken == Some(t)
    }

    constructor (m: Model, p: Option<Predictor>, index: NgramIndex)
      requires index.Valid() && index.tokens == []
      ensures Valid() && model == m && predictor == p && ngram == index
      ensures context == [] && pendingToken == None && (MtpUsable() <==> p.Some?)
    {
      model, predictor, ngram := m, p, index;
      state := NewState(m);
      pendingToken := None;
      lastTargetHidden, gapValid := None, true;
      gap := FreshGap(p);
      snapshots := Snapshots([], 0, 0);
      context := [];
      new;
      hide HiddenRow, HiddenRows, Shifted, NgramIndex.Valid, Describes, CarryAt, StateAfter, Usable, Pass;
      EmptySides();
      NothingEvaluated(m);
      FullySyncedDescribes(m, [], gap.predictor);
    }

    // ----- target passes -----

    /** One pass over `tokens` and its normalized hidden rows. */
    method Evaluate(tokens: seq<Token>) returns (rows: seq<Row>)
      requires TargetOk()
      modifies this`state, this`context
      ensures TargetOk() && context == old(context) + tokens
      ensures rows == HiddenRows(model, old(context), tokens)
    {
      hide Pass, StateAfter, HiddenRow, Usable;
      BatchedPass(model, context, tokens);
      var (after, out) := Pass(model, state, tokens);
      assert out == HiddenRows(model, context, tokens);
      state, rows, context := after, out, context + tokens;
    }

    lemma LastRow(before: seq<Token>, tokens: seq<Token>)
      requires tokens != []
      ensures HiddenRows(model, before, tokens)[|tokens| - 1] == HiddenRow(model, before + tokens)
    {
      hide HiddenRow;
      assert tokens[..|tokens| - 1 + 1] == tokens;
    }

    /** As the plain path uses it: only the last row's logits are read. */
    method Forward(tokens: seq<Token>) returns (row: Row)
      requires TargetOk() && tokens != []
      modifies this`state, this`context
      ensures TargetOk() && context == old(context) + tokens
      ensures row == HiddenRow(model, context)
    {
      hide HiddenRow, HiddenRows, StateAfter;
      var rows := Evaluate(tokens);
      LastRow(old(context), tokens);
      row := rows[|rows| - 1];
    }

    // ----- the retained gap -----

    method RetainMtpGap(tokens: seq<Token>, hidden: seq<Row>, prior: Option<Row>)
      requires |hidden| == |tokens|
      modifies this`gap
      ensures gap == Retained(old(gap), tokens, hidden, prior)
    {
      if tokens == [] { return; }
      if gap.tokens == [] { gap := gap.(prior := prior); }
      gap := gap.(tokens := gap.tokens + tokens, hidden := gap.hidden + hidden);
    }

    method CatchUpMtp()
      requires CanCatchUp(gap)
      modifies this`gap
      ensures gap == CaughtUp(old(gap), model.zero)
    {
      if gap.tokens == [] { return; }
      var rows := |gap.tokens|;
      var inputs := ShiftedHiddenInputs(gap.synced, gap.prior, gap.hidden, model.zero).value;
      var fed := gap.predictor.value[..gap.synced] + Feed(gap.tokens, inputs);
      ClearMtpGap();
      gap := gap.(predictor := Some(fed), synced := gap.synced + rows);
    }

    method ClearMtpGap()
      modifies this`gap
      ensures gap == old(gap).(tokens := [], hidden := [], prior := None)
    {
      gap := gap.(tokens := [], hidden := [], prior := None);
    }

    method TruncateMtpGap(position: nat)
      requires Shape()
      modifies this`gap, this`gapValid
      ensures gap == Truncated(old(gap), position).0
      ensures gapValid == (old(gapValid) && Truncated(old(gap), position).1)
    {
      match AfterRollback(gap.synced, |gap.tokens|, position)
      case Retain(retained) =>
        gap := gap.(tokens := gap.tokens[..retained], hidden := gap.hidden[..retained]);
        if retained == 0 { gap := gap.(prior := None); }
      case TruncatePredictor =>
        if gap.predictor.Some? { gap := gap.(predictor := Some(gap.predictor.value[..position])); }
        gap := gap.(synced := position);
        ClearMtpGap();
      case Unrecoverable =>
        gapValid := false;
        ClearMtpGap();
    }

    /** Whether the MTP arm can draft from the state this session now holds. */
    predicate MtpArmReady()
      reads this
    {
      && gapValid
      && gap.synced + |gap.tokens| == state.position
      && (state.position == 0 || lastTargetHidden.Some?)
    }

    /** Whether a turn whose mode allows the MTP arm would draft with it. */
    predicate MtpUsable()
      reads this
    {
      gap.predictor.Some? && MtpArmReady()
    }

    /** Whenever the arm reports ready, its side state is the target's own. */
    lemma ReadyMeansAligned()
      requires Valid() && MtpArmReady()
      ensures context == context[..gap.synced] + gap.tokens
      ensures gap.hidden == HiddenRows(model, context[..gap.synced], gap.tokens)
      ensures gap.tokens != [] ==> gap.prior == CarryAt(model, context, gap.synced)
      ensures lastTargetHidden == CarryAt(model, context, |context|)
      ensures gap.predictor.Some? ==> gap.predictor.value[..gap.synced] == Shifted(model, context[..gap.synced])
    {
      hide HiddenRow, HiddenRows, Shifted;
    }

    // ----- restoring and prefilling -----

    method Reset()
      requires Valid()
      modifies this, ngram
      ensures Valid() && context == [] && pendingToken == None
      ensures MtpArmReady() && (MtpUsable() <==> predictor.Some?) && ngram.tokens == []
    {
      state := NewState(model);
      pendingToken := None;
      lastTargetHidden, gapValid := None, true;
      gap := FreshGap(predictor);
      context := [];
      ngram.Clear();
      hide HiddenRow, HiddenRows, Shifted, NgramIndex.Valid, Describes, CarryAt, StateAfter, Usable, Pass;
      EmptySides();
      NothingEvaluated(model);
      FullySyncedDescribes(model, [], gap.predictor);
    }

    /** Whether an image taken now would carry the predictor's own cache. */
    predicate ImagesMtpState()
      reads this
    {
      gap.predictor.Some? && gap.synced == state.position
    }

    /** Copy everything a later session needs; a pending token or a token list
        of the wrong length is an error. */
    method SessionImage(tokens: seq<Token>) returns (r: Option<Image>)
      requires Valid()
      ensures r.None? <==> pendingToken.Some? || |tokens| != |context|
      ensures r.Some? && tokens == context ==>
        && Faithful(model, predictor, r.value) && r.value.tokens == context
        && (r.value.mtp.Some? <==> ImagesMtpState())
    {
      hide HiddenRow, HiddenRows, StateAfter, Shifted;
      if pendingToken.Some? || |tokens| != state.position { return None; }
      if ImagesMtpState() {
        assert context[..gap.synced] == context;
        assert gap.predictor.value[..gap.synced] == gap.predictor.value;
      }
      r := Some(Image(tokens, state, if ImagesMtpState() then gap.predictor else None, lastTargetHidden));
    }

    /** Adopt a previously captured session, or refuse an image whose tokens do
        not match its position and change nothing. */
    method RestoreSession(image: Image) returns (ok: bool)
      requires Valid() && (Counted(image) ==> Faithful(model, predictor, image))
      modifies this, ngram
      ensures Valid() && (ok <==> |image.tokens| == image.state.position)
      ensures ok ==> context == image.tokens && pendingToken == None
      ensures ok ==> (MtpUsable() <==> image.mtp.Some? && image.hidden.Some?) && ngram.tokens == context
      ensures !ok ==> unchanged(this) && unchanged(ngram)
    {
      hide Faithful, Valid, MtpUsable;
      ok := Counted(image);
      if ok { Adopt(image); }
    }

    /** The MTP arm resumes only when the image carried the predictor's own
        cache. */
    method Adopt(image: Image)
      requires Valid() && Faithful(model, predictor, image)
      modifies this, ngram
      ensures Valid() && context == image.tokens && pendingToken == None
      ensures (MtpUsable() <==> image.mtp.Some? && image.hidden.Some?) && ngram.tokens == context
    {
      hide HiddenRow, HiddenRows, StateAfter, Shifted, NgramIndex.Valid, Describes, CarryAt;
      state := image.state;
      pendingToken := None;
      lastTargetHidden := image.hidden;
      var restored := predictor.Some? && image.mtp.Some? && gap.predictor.Some?;
      gap := if restored then Gap(|image.tokens|, [], [], None, image.mtp) else FreshGap(predictor);
      gapValid := restored && lastTargetHidden.Some?;
      context := image.tokens;
      ngram.Clear();
      ngram.Extend(image.tokens);
      assert [] + image.tokens == image.tokens;
      if restored || image.tokens == [] { FullySyncedDescribes(model, context, gap.predictor); }
    }

    lemma FullySyncedDescribes(m: Model, tokens: seq<Token>, fed: Option<seq<Fed>>)
      requires fed.Some? ==> fed.value == Shifted(m, tokens)
      ensures Describes(m, tokens, Gap(|tokens|, [], [], None, fed))
      ensures tokens == [] ==> CarryAt(m, tokens, 0) == None && Shifted(m, []) == []
    {
      hide HiddenRow;
      assert tokens[..|tokens|] == tokens;
      EmptyHiddenRows(m, tokens);
    }

    lemma NothingEvaluated(m: Model)
      ensures StateAfter(m, []) == NewState(m)
    {}

    lemma EmptySides()
      ensures Shifted(model, []) == [] && HiddenRows(model, [], []) == []
    {}

    /** The index mirrors what the session will have seen, or starts over with
        this turn's input. */
    ghost predicate Indexed(mirrored: bool, evaluated: seq<Token>)
      reads ngram, this`context
    {
      ngram.tokens == if mirrored then context + evaluated else evaluated
    }

    /** Extend the index when it mirrors the visible context, reseed it from
        this turn's input otherwise. */
    method IndexInput(contextBefore: nat, prompt: seq<Token>, evaluated: seq<Token>, ghost carried: Option<Token>)
      requires evaluated == ContinuationInput(prompt, carried)
      requires contextBefore == |context| + (if carried.Some? then 1 else 0)
      requires IndexTracks(context + if carried.Some? then [carried.value] else [])
      modifies ngram
      ensures IndexTracks(context + evaluated)
      ensures Indexed(|old(ngram.tokens)| == contextBefore, evaluated)
    {
      hide MapOk, LastOk;
      if |ngram.tokens| == contextBefore {
        ngram.Extend(prompt);
        assert ngram.tokens == context + evaluated;
      } else {
        ngram.Clear();
        ngram.Extend(evaluated);
        assert ngram.tokens == evaluated;
        assert |evaluated| == |context + evaluated| ==> context + evaluated == evaluated;
      }
    }

    /** Take the pending token and index this turn's input after it. */
    method TakeInput(prompt: seq<Token>) returns (evaluated: seq<Token>)
      requires TargetOk() && IndexTracks(Visible())
      modifies this`pendingToken, ngram
      ensures evaluated == ContinuationInput(prompt, old(pendingToken)) && pendingToken == None
      ensures context + evaluated == old(Visible()) + prompt && IndexTracks(context + evaluated)
      ensures Indexed(|old(ngram.tokens)| == |old(Visible())|, evaluated)
    {
      hide StateAfter, NgramIndex.Valid;
      var carried := pendingToken;
      pendingToken := None;
      var contextBefore := state.position + if carried.Some? then 1 else 0;
      evaluated := ContinuationInput(prompt, carried);
      IndexInput(contextBefore, prompt, evaluated, carried);
    }

    /** Evaluate `tokens` in passes of at most `PREFILL_PASS_ROWS` rows,
        retaining the gap as it goes. */
    method PrefillInPasses(tokens: seq<Token>, track: bool) returns (row: Row)
      requires TargetOk() && tokens != []
      modifies this`state, this`context, this`gap
      ensures TargetOk() && context == old(context) + tokens && row == HiddenRow(model, context)
      ensures gap == if track then Retained(old(gap), tokens, HiddenRows(model, old(context), tokens), lastTargetHidden)
                        else old(gap)
    {
      hide HiddenRow, HiddenRows, StateAfter;
      var prior := lastTargetHidden;
      var done := 0;
      row := model.zero;
      ghost var start := context;
      assert tokens[..0] == [];
      while done < |tokens|
        invariant 0 <= done <= |tokens| && TargetOk() && context == start + tokens[..done]
        invariant lastTargetHidden == prior
        invariant gap == if track then Retained(old(gap), tokens[..done], HiddenRows(model, start, tokens[..done]), prior)
                            else old(gap)
        invariant done > 0 ==> row == HiddenRow(model, context)
      {
        var next := if done + PREFILL_PASS_ROWS <= |tokens| then done + PREFILL_PASS_ROWS else |tokens|;
        var pass := tokens[done..next];
        assert tokens[..next] == tokens[..done] + pass;
        HiddenRowsSplit(model, start, tokens[..done], pass);
        var rows := Evaluate(pass);
        assert context == start + tokens[..next];
        LastRow(start + tokens[..done], pass);
        row := rows[|rows| - 1];
        if track { RetainMtpGap(pass, rows, prior); }
        done := next;
      }
      assert tokens[..|tokens|] == tokens;
    }

    /** Evaluate `tokens` without sampling, leaving the session at the boundary
        after them; no tokens at all is an error that changes nothing. */
    method PrefillTokens(tokens: seq<Token>, trackMtp: bool) returns (ok: bool)
      requires Valid()
      modifies this, ngram
      ensures Valid() && (ok <==> tokens != [])
      ensures ok ==> pendingToken == None && context == old(Visible()) + tokens
      ensures ok ==> (MtpArmReady() <==> trackMtp && old(MtpArmReady()))
      ensures ok ==> (MtpUsable() <==> trackMtp && old(MtpUsable())) && (MtpUsable() ==> ImagesMtpState())
      ensures !ok ==> unchanged(this) && unchanged(ngram)
    {
      hide Valid, MtpArmReady, MtpUsable, ImagesMtpState, Visible;
      ok := tokens != [];
      if ok { Advance(tokens, trackMtp); }
    }

    /** The predictor is synchronised too when its gap is tracked. */
    method Advance(tokens: seq<Token>, trackMtp: bool)
      requires Valid() && tokens != []
      modifies this, ngram
      ensures Valid() && pendingToken == None && context == old(Visible()) + tokens
      ensures MtpArmReady() <==> trackMtp && old(MtpArmReady())
      ensures (MtpUsable() <==> trackMtp && old(MtpUsable())) && (MtpUsable() ==> ImagesMtpState())
    {
      hide HiddenRow, HiddenRows, StateAfter, Shifted, Describes, NgramIndex.Valid, CarryAt, MtpArmReady, MtpUsable, Indexed;
      UsableIff();
      var evaluated := TakeInput(tokens);
      gapValid := trackMtp && gapValid;
      if !gapValid { ClearMtpGap(); }
      var row := PrefillAndCarry(evaluated, gapValid);
      SyncAfterPrefill();
      UsableIff();
    }

    lemma UsableIff()
      requires TargetOk() && Shape() && AlignedIfCaughtUp()
      ensures state.position == |context|
      ensures MtpArmReady() <==> gapValid && gap.synced + |gap.tokens| == |context|
      ensures MtpUsable() <==> predictor.Some? && MtpArmReady()
    {
      hide HiddenRow, HiddenRows, StateAfter, Shifted;
    }

    /** Prefill and move the hidden-state carry to the new boundary. */
    method PrefillAndCarry(evaluated: seq<Token>, track: bool) returns (row: Row)
      requires TargetOk() && evaluated != [] && Shape() && (track ==> gapValid) && (track ==> AlignedIfCaughtUp())
      modifies this`state, this`context, this`gap, this`lastTargetHidden
      ensures TargetOk() && context == old(context) + evaluated && row == HiddenRow(model, context)
      ensures Shape() && gap.synced == old(gap.synced) && lastTargetHidden.Some?
      ensures gap.synced + |gap.tokens| == old(gap.synced + |gap.tokens|) + if track then |evaluated| else 0
      ensures track ==> gap.tokens != [] && AlignedIfCaughtUp()
    {
      hide HiddenRow, HiddenRows, StateAfter, Describes, CarryAt;
      ghost var before, start := context, gap;
      row := PrefillInPasses(evaluated, track);
      lastTargetHidden := Some(row);
      if track && start.synced + |start.tokens| == |before| {
        PrefillAligned(before, evaluated, start, row);
      }
    }

    /** Bring the predictor up to the target's position when its gap is tracked. */
    method SyncAfterPrefill()
      requires Shape() && AlignedIfCaughtUp() && gap.synced < |context| && lastTargetHidden.Some?
      requires gapValid ==> gap.tokens != []
      modifies this`gap
      ensures Shape() && AlignedIfCaughtUp() && Exact()
      ensures gap.synced + |gap.tokens| == old(gap.synced + |gap.tokens|)
      ensures gapValid && gap.predictor.Some? ==> gap.tokens == []
    {
      hide HiddenRow, HiddenRows, Shifted;
      if gapValid && gap.predictor.Some? {
        if gap.synced + |gap.tokens| == |context| { CatchUpDescribes(model, context, gap); }
        CatchUpMtp();
      }
    }

    lemma PrefillAligned(before: seq<Token>, evaluated: seq<Token>, start: Gap, row: Row)
      requires evaluated != [] && context == before + evaluated
      requires Describes(model, before, start)
      requires gap == Retained(start, evaluated, HiddenRows(model, before, evaluated), CarryAt(model, before, |before|))
      requires lastTargetHidden == Some(row) && row == HiddenRow(model, context)
      ensures Aligned()
    {
      RetainDescribes(model, before, evaluated, start);
      assert context[..|context|] == context;
    }

    // ----- the plain turn -----

    /** Evaluate the pending token, then emit and evaluate the closing sequence
        through the target alone. `row` is meaningful when the sink accepted all. */
    method ForceCloseTargetOnly(pending: Option<Token>, closure: seq<Token>, turn: Turn, before: seq<Token>)
      returns (generated: seq<Token>, row: Row, failed: bool)
      requires TargetOk() && closure != []
      modifies this`state, this`context, this`pendingToken
      ensures TargetOk() && |context| >= |old(context)|
      ensures var start := old(context) + if pending.Some? then [pending.value] else [];
              match CloseThinking(turn, start, before, closure)
              case Closed(g, c) => !failed && generated == g && context == c && c != [] && row == HiddenRow(model, c)
                                   && pendingToken == old(pendingToken)
              case Broken(g, c, t) => failed && generated == g && context == c && pendingToken == Some(t)
    {
      hide HiddenRow, StateAfter;
      generated, row := before, model.zero;
      if pending.Some? { row := Forward([pending.value]); }
      ghost var start := context;
      assert start == old(context) + if pending.Some? then [pending.value] else [];
      for i := 0 to |closure|
        invariant TargetOk() && |context| >= |start|
        invariant CloseThinking(turn, context, generated, closure[i..]) == CloseThinking(turn, start, before, closure)
        invariant i > 0 ==> context != [] && row == HiddenRow(model, context)
        invariant pendingToken == old(pendingToken)
      {
        var token := closure[i];
        assert closure[i..][0] == token && closure[i..][1..] == closure[i + 1..];
        generated := generated + [token];
        if turn.sinkFails(generated) {
          pendingToken := Some(token);
          return generated, row, true;
        }
        row := Forward([token]);
      }
      assert closure[|closure|..] == [];
      failed := false;
    }

    /** Sample, emit and evaluate one token at a time. */
    method PlainLoop(turn: Turn, first: Row, before: seq<Token>, thinking: ThinkingBudget?, closure: seq<Token>)
      returns (generated: seq<Token>, failed: bool, pending: Option<Token>)
      requires TargetOk() && context != [] && first == HiddenRow(model, context) && turn.model == model
      requires closure != [] && (thinking != null ==> thinking.forcedCloseTokens == closure)
      modifies this`state, this`context, this`pendingToken, thinking
      ensures TargetOk() && |context| >= |old(context)|
      ensures match Decode(turn, old(context), before, old(Think(thinking)))
              case Finished(g, c, p, th) => !failed && generated == g && context == c && pending == p
                                            && Think(thinking) == th && pendingToken == old(pendingToken)
              case Halted(g, c, t) => failed && generated == g && context == c && pendingToken == Some(t)
    {
      hide HiddenRow, StateAfter, Decode, CloseThinking, Decoding.Observed;
      ghost var goal := Decode(turn, context, before, Think(thinking));
      var row := first;
      generated, failed, pending := before, false, None;
      while |generated| < turn.maxNew
        invariant TargetOk() && context != [] && row == HiddenRow(model, context) && |context| >= |old(context)|
        invariant pending == None && !failed && pendingToken == old(pendingToken)
        invariant goal == Decode(turn, context, generated, Think(thinking))
        decreases turn.maxNew - |generated|
      {
        DecodeStep(turn, context, generated, Think(thinking));
        var token := model.argmax(row);
        generated := generated + [token];
        pending := Some(token);
        if turn.sinkFails(generated) {
          pendingToken := pending;
          return generated, true, None;
        }
        var isStop, boundary := turn.isStop(token), Continue;
        if thinking != null { boundary := thinking.ObserveCommitted(token, !isStop); }
        if isStop { return; }
        if boundary == ForceClosure {
          generated, row, failed := ForceCloseTargetOnly(pending, closure, turn, generated);
          if failed { return generated, true, None; }
          pending := None;
          assert context != [];
        } else {
          if |generated| >= turn.maxNew { return; }
          row := Forward([token]);
          pending := None;
        }
      }
      DecodeDone(turn, context, generated, Think(thinking));
    }

    /** A prefilled turn, decoded with the target alone. */
    method DecodePlain(turn: Turn, options: Options, first: Row) returns (r: TurnResult)
      requires TargetOk() && context != [] && first == HiddenRow(model, context)
      requires turn.model == model && options.forcedClose != [] && pendingToken == None
      modifies this`state, this`context, this`pendingToken
      ensures TargetOk() && |context| >= |old(context)| && !r.Rejected?
      ensures Lands(DecodeTurn(turn, old(context), StartingBudget(options)), r)
    {
      hide HiddenRow, StateAfter, Decode, CloseThinking, Decoding.Observed;
      var generated, row, failed := [], first, false;
      var thinking: ThinkingBudget? := null;
      if options.thinking.Some? {
        thinking := new ThinkingBudget(options.thinking.value, options.close, options.forcedClose);
        var force := thinking.ShouldForceBeforeSampling();
        if force {
          assert context + [] == context;
          generated, row, failed := ForceCloseTargetOnly(None, options.forcedClose, turn, generated);
          if failed { return SinkFailed(generated); }
        }
      }
      var pending;
      generated, failed, pending := PlainLoop(turn, row, generated, thinking, options.forcedClose);
      if failed { return SinkFailed(generated); }
      pendingToken := pending;
      r := Completed(generated, Think(thinking));
    }

    /** Continue the session from encoded tokens with the target alone. */
    method GeneratePlain(prompt: seq<Token>, options: Options, sinkFails: seq<Token> -> bool) returns (r: TurnResult)
      requires Valid() && options.forcedClose != []
      modifies this`state, this`context, this`pendingToken
      ensures Valid()
      ensures r.Rejected? <==> options.maxNew == 0 || prompt == []
      ensures r.Rejected? ==> unchanged(this)
      ensures !r.Rejected? ==>
        Lands(DecodeTurn(TurnOf(model, options, sinkFails), old(Visible()) + prompt, StartingBudget(options)), r)
      ensures !r.Rejected? ==> r.generated != []
      // The predictor's side state has fallen behind.
      ensures !r.Rejected? ==> !MtpUsable()
    {
      hide HiddenRow, StateAfter, DecodeTurn, Describes, NgramIndex.Valid, HiddenRows, Shifted;
      if options.maxNew == 0 || prompt == [] { return Rejected; }
      ghost var visible := Visible();
      var evaluated := ContinuationInput(prompt, pendingToken);
      pendingToken := None;
      var turn := TurnOf(model, options, sinkFails);
      var row := Forward(evaluated);
      assert context == visible + prompt;
      TurnConserves(turn, context, StartingBudget(options));
      TurnEmits(turn, context, StartingBudget(options));
      r := DecodePlain(turn, options, row);
      assert |Visible()| > |visible|;
    }

    // ----- the speculative policy: one committed token at a time -----

    /** Sample the next greedy token, commit it to the index and hand it over. */
    method SampleAndEmit(row: Row, turn: Turn, before: seq<Token>)
      returns (pending: Option<Token>, generated: seq<Token>, failed: bool)
      requires TargetOk() && context != [] && row == HiddenRow(model, context) && turn.model == model
      requires IndexTracks(context)
      modifies this`pendingToken, ngram
      ensures |before| >= turn.maxNew ==>
        pending == None && generated == before && !failed && IndexTracks(context) && pendingToken == old(pendingToken)
      ensures |before| < turn.maxNew ==>
        var token := Greedy(model, context);
        && generated == before + [token] && failed == turn.sinkFails(generated) && IndexTracks(context + [token])
        && (if failed then pending == None && pendingToken == Some(token)
            else pending == Some(token) && pendingToken == old(pendingToken))
      ensures Grew(old(ngram.tokens), ngram.tokens, before, generated)
    {
      hide HiddenRow, StateAfter, MapOk, LastOk;
      GrewNot(ngram.tokens, before);
      if |before| >= turn.maxNew { return None, before, false; }
      var token := model.argmax(row);
      generated := before + [token];
      GrewBy(ngram.tokens, before, [token]);
      ngram.Push(token);
      if turn.sinkFails(generated) {
        pendingToken := Some(token);
        return None, generated, true;
      }
      return Some(token), generated, false;
    }

    /** Evaluate one authoritative token, keeping the side state in step. */
    method EvaluateAuthoritative(token: Token, track: bool) returns (row: Row)
      requires TargetOk() && Tracks(track)
      modifies this`state, this`context, this`gap, this`lastTargetHidden
      ensures TargetOk() && context == old(context) + [token] && row == HiddenRow(model, context)
      ensures Tracks(track) && Exact() && gap.synced == old(gap.synced)
    {
      hide HiddenRow, HiddenRows, StateAfter, Describes, Shifted;
      var prior := lastTargetHidden;
      ghost var before, start := context, gap;
      var rows := Evaluate([token]);
      LastRow(before, [token]);
      row := rows[0];
      if track { RetainMtpGap([token], rows, prior); }
      lastTargetHidden := Some(row);
      if track { PrefillAligned(before, [token], start, row); }
    }

    /** Force-close thinking through the target model. */
    method ForceClosePolicy(pending: Option<Token>, closure: seq<Token>, turn: Turn, before: seq<Token>, track: bool)
      returns (generated: seq<Token>, row: Row, failed: bool)
      requires TargetOk() && closure != [] && Tracks(track) && Exact()
      requires IndexTracks(context + if pending.Some? then [pending.value] else [])
      modifies this`state, this`context, this`pendingToken, this`gap, this`lastTargetHidden, ngram
      ensures TargetOk() && Tracks(track) && Exact()
      ensures var start := old(context) + if pending.Some? then [pending.value] else [];
              match CloseThinking(turn, start, before, closure)
              case Closed(g, c) => !failed && generated == g && context == c && c != [] && row == HiddenRow(model, c)
                                   && pendingToken == old(pendingToken) && IndexTracks(c)
              case Broken(g, c, t) => failed && generated == g && context == c && pendingToken == Some(t)
                                      && IndexTracks(c + [t])
      ensures Grew(old(ngram.tokens), ngram.tokens, before, generated)
    {
      hide HiddenRow, StateAfter, TracksAt, NgramIndex.Valid, Grew;
      generated, row := before, model.zero;
      GrewNot(ngram.tokens, before);
      if pending.Some? { row := EvaluateAuthoritative(pending.value, track); }
      ghost var start := context;
      assert start == old(context) + if pending.Some? then [pending.value] else [];
      for i := 0 to |closure|
        invariant TargetOk() && Tracks(track) && Exact() && IndexTracks(context)
        invariant CloseThinking(turn, context, generated, closure[i..]) == CloseThinking(turn, start, before, closure)
        invariant i > 0 ==> context != [] && row == HiddenRow(model, context)
        invariant pendingToken == old(pendingToken) && Grew(old(ngram.tokens), ngram.tokens, before, generated)
      {
        var token := closure[i];
        assert closure[i..][0] == token && closure[i..][1..] == closure[i + 1..];
        GrewBy(ngram.tokens, generated, [token]);
        GrewOn(old(ngram.tokens), ngram.tokens, ngram.tokens + [token], before, generated, generated + [token]);
        generated := generated + [token];
        ngram.Push(token);
        assert IndexTracks(context + [token]);
        if turn.sinkFails(generated) {
          pendingToken := Some(token);
          return generated, row, true;
        }
        row := EvaluateAuthoritative(token, track);
      }
      assert closure[|closure|..] == [];
      failed := false;
    }

    // ----- the speculative policy: drafting -----

    /** Chain up to `depth` predictor guesses, stopping at a stop token or an
        unconfident guess, and keep the prefix above the margin gate. */
    method DraftMtp(seed: Token, depth: nat, isStop: Token -> bool) returns (drafts: seq<Token>)
      requires predictor.Some? && MayDraft()
      modifies this`gap
      ensures gap.predictor.Some? && old(gap.predictor.value) <= gap.predictor.value
      ensures gap == old(gap).(predictor := gap.predictor)
      ensures Chained(predictor.value, gap.predictor.value, |old(gap.predictor.value)|, Fed(seed, lastTargetHidden.value), depth, isStop)
      ensures Drafted(predictor.value, gap.predictor.value, |old(gap.predictor.value)|, depth, isStop, drafts)
    {
      hide Chained, Drafted, GoesOn, GuessAt;
      ghost var start, base := gap.predictor.value, |gap.predictor.value|;
      ghost var first := Fed(seed, lastTargetHidden.value);
      var token, hidden := seed, lastTargetHidden.value;
      var gated := false;
      drafts := [];
      NothingDrafted(predictor.value, start, first, isStop);
      for i := 0 to depth
        invariant gap.predictor.Some? && start <= gap.predictor.value
        invariant gap == old(gap).(predictor := gap.predictor)
        invariant |gap.predictor.value| == base + i && Chained(predictor.value, gap.predictor.value, base, first, i, isStop)
        invariant i > 0 ==> GoesOn(predictor.value, gap.predictor.value, base, i - 1, isStop)
        invariant Fed(token, hidden) == NextFed(predictor.value, gap.predictor.value, base, first)
        invariant |drafts| <= i && (!gated ==> |drafts| == i)
        invariant Drafted(predictor.value, gap.predictor.value, base, if gated then depth else i, isStop, drafts)
      {
        ghost var before := gap.predictor.value;
        var stream := gap.predictor.value + [Fed(token, hidden)];
        gap := gap.(predictor := Some(stream));
        ChainMore(predictor.value, before, base, first, isStop, depth);
        if gated {
          DraftsKept(predictor.value, before, stream, base, depth, isStop, drafts);
        } else {
          DraftMore(predictor.value, before, stream, base, depth, isStop, drafts);
        }
        var guess := predictor.value.guess(stream);
        assert guess == GuessAt(predictor.value, stream, base, i) && (GoesOn(predictor.value, stream, base, i, isStop) <==> !isStop(guess.token) && guess.confident) by {
          GuessIs(predictor.value, stream, base, i, first, isStop);
        }
        hidden := guess.hidden;
        if isStop(guess.token) || !guess.confident { break; }
        gated := gated || !guess.aboveMargin;
        if !gated { drafts := drafts + [guess.token]; }
        token := guess.token;
      }
    }

    lemma PredictorMayRunAhead(c: seq<Token>, start: Gap, ahead: Gap)
      requires Describes(model, c, start) && start.predictor.Some? && ahead.predictor.Some?
      requires start.predictor.value <= ahead.predictor.value && ahead == start.(predictor := ahead.predictor)
      ensures Describes(model, c, ahead)
    {
      hide HiddenRow, HiddenRows, Shifted;
      assert ahead.predictor.value[..start.synced] == start.predictor.value[..start.synced];
    }

    lemma OccurrenceIsLive(tokens: seq<Token>, n: nat, p: nat)
      requires OccursAt(tokens, n, p)
      ensures A.SpanLive(tokens, p + 1, n)
    {}

    lemma LiveSpan(span: Option<A.SpanCursor>, spanLen: nat)
      requires span.Some? ==> A.SpanLive(ngram.tokens, span.value.next, spanLen) && 0 < spanLen
      ensures span.Some? ==> 0 < span.value.next < |ngram.tokens|
    {}

    /** Ask the index: a live span first, a fresh key match otherwise. */
    method ProposeNgram(open: bool, draftLen: nat, budget: nat, options: Options, span: Option<A.SpanCursor>, ghost spanLen: nat)
      returns (arm: StepArm, proposal: Option<NgramDraft>, ghost len: nat)
      requires ngram.Valid() && (open ==> draftLen > 0)
      requires span.Some? ==> A.SpanLive(ngram.tokens, span.value.next, spanLen) && span.value.matchLen <= spanLen && 0 < spanLen
      requires MIN_MATCH_LEN <= options.minMatch <= MAX_MATCH_LEN
      ensures proposal.Some? ==> open && Genuine(ngram.tokens, proposal.value, len, options.isStop)
      ensures proposal.Some? ==> 0 < |proposal.value.tokens| <= budget
      ensures (arm == Plain <==> proposal.None?) && arm != Mtp && (proposal.Some? ==> proposal.value.tokens != [])
      ensures span.Some? ==> span.value.next < |ngram.tokens|
      ensures Proposed(ngram.hasher, ngram.tokens, arm, proposal, open, draftLen, budget, options, span)
    {
      hide NgramIndex.Valid, NgramIndex.LongestMatch, NgramIndex.MostRecentMatch, OccursAt, Copies, BeforeStop, Window,
           BruteForceMatch, A.SpanLive, Reaches, FromKeys;
      LiveSpan(span, spanLen);
      arm, proposal, len := Plain, None, 0;
      var limit := if draftLen <= budget then draftLen else budget;
      var keyDraft := ngram.Draft(if open && limit >= 1 then limit else 1, options.minMatch, options.isStop);
      var spanDraft := None;
      if options.tuning.spanContinuation && open && budget > 0 && span.Some? {
        spanDraft := ngram.ContinueFrom(span.value.next, limit, span.value.matchLen, options.isStop);
      }
      if open && budget > 0 {
        if spanDraft.Some? {
          arm, proposal, len := NgramSpan, spanDraft, spanLen;
        } else if keyDraft.Some? {
          arm, proposal, len := NgramKey, keyDraft, keyDraft.value.matchLen;
          OccurrenceIsLive(ngram.tokens, len, keyDraft.value.sourcePosition);
        }
      }
    }

    // ----- the speculative policy: one verification pass -----

    /** The arena describes the pass over `tokens` that began at `base`. */
    ghost predicate SnapshotsCover(base: seq<Token>, tokens: seq<Token>)
      reads this`snapshots
    {
      snapshots == PassSnapshots(model, StateAfter(model, base), tokens, |model.layers|)
    }

    /** `drafts[..accepted]` are the target's own choices after `base`, and so
        is `authoritative` after them. */
    ghost predicate TargetChose(base: seq<Token>, drafts: seq<Token>, accepted: nat, authoritative: Token)
      requires base != [] && accepted <= |drafts|
    {
      && (forall j :: 0 <= j < accepted ==> drafts[j] == Greedy(model, base + drafts[..j]))
      && authoritative == Greedy(model, base + drafts[..accepted])
    }

    /** Evaluate the pending token and its drafts in one target pass and find
        the accepted prefix and the token after it. */
    method VerifyDrafts(seed: Token, drafts: seq<Token>)
      returns (rows: seq<Row>, accepted: nat, authoritative: Token)
      requires TargetOk()
      modifies this`state, this`context, this`snapshots
      ensures TargetOk() && context == old(context) + ([seed] + drafts)
      ensures drafts != [] ==> SnapshotsCover(old(context), [seed] + drafts)
      ensures rows == HiddenRows(model, old(context), [seed] + drafts) && accepted <= |drafts|
      ensures TargetChose(old(context) + [seed], drafts, accepted, authoritative)
      ensures accepted < |drafts| ==> drafts[accepted] != authoritative
    {
      hide HiddenRow, StateAfter, PassSnapshots, Usable;
      ghost var base := context;
      var tokens := [seed] + drafts;
      if drafts != [] {
        snapshots := PassSnapshots(model, state, tokens, |model.layers|);
      }
      rows := Evaluate(tokens);
      accepted := AcceptedDraftPrefix(model, drafts, rows);
      authoritative := model.argmax(rows[accepted]);
      forall j | 0 <= j <= accepted
        ensures model.argmax(rows[j]) == Greedy(model, base + [seed] + drafts[..j])
      {
        assert base + tokens[..j + 1] == base + [seed] + drafts[..j];
      }
    }

    /** What a verified and committed pass has established. */
    ghost predicate Committed(base: seq<Token>, seed: Token, drafts: seq<Token>, accepted: nat, track: bool)
      reads this`state, this`context, this`snapshots, this`gap, this`gapValid, this`lastTargetHidden
    {
      && accepted <= |drafts| && TargetOk() && Tracks(track) && Exact()
      && context == base + ([seed] + drafts)[..1 + accepted]
      && (drafts != [] ==> SnapshotsCover(base, [seed] + drafts))
      && (gap.synced <= |base| || gap.synced == |context|)
      && (!track ==> gap.synced + |gap.tokens| < |base|)
    }

    /** Keep the committed prefix of a verified pass: roll the target back to
        the row boundary after it and bring the side state along. */
    method CommitRows(ghost base: seq<Token>, seed: Token, drafts: seq<Token>, rows: seq<Row>, accepted: nat,
                      track: bool, eager: bool) returns (committedHidden: seq<Row>)
      requires TargetOk() && context == base + ([seed] + drafts) && accepted <= |drafts|
      requires drafts != [] ==> SnapshotsCover(base, [seed] + drafts)
      requires rows == HiddenRows(model, base, [seed] + drafts) && TracksAt(track, base)
      requires track ==> predictor.Some?
      modifies this`state, this`context, this`gap, this`lastTargetHidden
      ensures TargetOk() && context == base + ([seed] + drafts)[..1 + accepted]
      ensures committedHidden == HiddenRows(model, base, ([seed] + drafts)[..1 + accepted])
      ensures Committed(base, seed, drafts, accepted, track)
      // The predictor catches up now or when it next drafts.
      ensures gap.synced == if track && eager then |context| else old(gap.synced)
    {
      hide HiddenRow, HiddenRows, StateAfter, PassSnapshots, Describes, Shifted, RollbackLayers, CarryAt;
      var tokens := [seed] + drafts;
      var committed := 1 + accepted;
      var prior := lastTargetHidden;
      ghost var start := gap;
      committedHidden := rows;
      if accepted == |drafts| {
        assert tokens[..committed] == tokens;
      } else {
        RollbackIsPrefix(model, base, tokens, committed, |tokens|);
        assert tokens[..|tokens|] == tokens;
        state := Rollback(state, snapshots, committed).value;
        context := base + tokens[..committed];
        assert tokens[..committed] + tokens[committed..] == tokens;
        HiddenRowsSplit(model, base, tokens[..committed], tokens[committed..]);
        committedHidden := rows[..committed];
      }
      LastRow(base, tokens[..committed]);
      if track { RetainMtpGap(tokens[..committed], committedHidden, prior); }
      lastTargetHidden := Some(committedHidden[committed - 1]);
      if track {
        PrefillAligned(base, tokens[..committed], start, committedHidden[committed - 1]);
        if eager {
          CatchUpDescribes(model, context, gap);
          CatchUpMtp();
        }
      }
    }

    // ----- the speculative policy: handing a pass's tokens over -----

    /** The sink failed on output `index` of a pass: leave the session at the
        boundary immediately before that token, with the token pending. */
    method HaltPass(ghost base: seq<Token>, seed: Token, drafts: seq<Token>, accepted: nat, index: nat, token: Token,
                    hidden: seq<Row>, track: bool)
      requires Committed(base, seed, drafts, accepted, track) && index <= accepted
      requires hidden == HiddenRows(model, base, ([seed] + drafts)[..1 + accepted])
      modifies this`state, this`context, this`pendingToken, this`gap, this`gapValid, this`lastTargetHidden
      ensures TargetOk() && Tracks(track) && Exact()
      ensures context == base + [seed] + drafts[..index] && pendingToken == Some(token)
    {
      hide HiddenRow, HiddenRows, StateAfter, PassSnapshots, Describes, Shifted, RollbackLayers, Truncated;
      var evaluated := HaltedPassRows(index, accepted);
      var tokens, committed := [seed] + drafts, 1 + accepted;
      assert base + tokens[..1 + index] == base + [seed] + drafts[..index];
      if evaluated < committed {
        RollbackIsPrefix(model, base, tokens, evaluated, committed);
        state := Rollback(state, snapshots, evaluated).value;
        if track { HaltedGap(base, tokens, committed, evaluated, gap, hidden); }
        if gapValid { TruncateMtpGap(state.position); }
        context := base + tokens[..evaluated];
        lastTargetHidden := Some(hidden[evaluated - 1]);
        if track { AlignedShape(); }
      }
      pendingToken := Some(token);
    }

    lemma HaltedGap(base: seq<Token>, tokens: seq<Token>, committed: nat, evaluated: nat, g: Gap, hidden: seq<Row>)
      requires 0 < evaluated < committed <= |tokens| && Describes(model, base + tokens[..committed], g)
      requires hidden == HiddenRows(model, base, tokens[..committed])
      requires g.synced <= |base| || g.synced == |base| + committed
      ensures var (after, valid) := Truncated(g, |base| + evaluated);
              && valid && Describes(model, base + tokens[..evaluated], after)
              && (after.predictor.Some? <==> g.predictor.Some?)
              && (g.predictor.None? && g.synced == 0 ==> after.synced == 0)
              && (after.synced == |base| + evaluated && after.predictor.Some? ==> |after.predictor.value| == after.synced)
      ensures Some(hidden[evaluated - 1]) == CarryAt(model, base + tokens[..evaluated], |base| + evaluated)
    {
      hide HiddenRow, HiddenRows, Describes, Shifted, Truncated;
      var full, kept := base + tokens[..committed], base + tokens[..evaluated];
      assert full[..|base| + evaluated] == kept && kept[..|kept|] == kept;
      assert tokens[..committed][..evaluated] == tokens[..evaluated];
      TruncateDescribes(model, full, g, |base| + evaluated);
      RowAt(base, tokens[..committed], evaluated - 1);
    }

    lemma AlignedShape()
      requires Aligned()
      ensures |gap.hidden| == |gap.tokens| && gap.synced + |gap.tokens| == |context|
      ensures gap.predictor.Some? ==> gap.synced <= |gap.predictor.value|
      ensures gap.synced > 0 ==> lastTargetHidden.Some? && (gap.tokens != [] ==> gap.prior.Some?)
    {
      hide HiddenRow, Shifted;
    }

    lemma RowAt(base: seq<Token>, tokens: seq<Token>, i: nat)
      requires i < |tokens|
      ensures HiddenRows(model, base, tokens)[i] == HiddenRow(model, base + tokens[..i + 1])
    {}

    /** An open thinking section still has budget, unless a stop token ended it. */
    ghost predicate ThinkingOpen(thinking: ThinkingBudget?, pending: Option<Token>, turn: Turn)
      reads thinking
    {
      (thinking != null && thinking.active && pending.Some? && !turn.isStop(pending.value)) ==>
        thinking.committed < thinking.budget
    }

    /** Hand over output `index` of a pass and observe it. A forced closure can
        only land on the last accepted draft or on the authoritative token. */
    method EmitOne(ghost base: seq<Token>, seed: Token, drafts: seq<Token>, accepted: nat, index: nat, token: Token,
                   hidden: seq<Row>, before: seq<Token>, turn: Turn, thinking: ThinkingBudget?, closure: seq<Token>,
                   track: bool)
      returns (generated: seq<Token>, pending: Option<Token>, status: Emission)
      requires Committed(base, seed, drafts, accepted, track) && index <= accepted
      requires hidden == HiddenRows(model, base, ([seed] + drafts)[..1 + accepted])
      requires token == Greedy(model, base + [seed] + drafts[..index]) && IndexTracks(base + [seed] + drafts[..index])
      requires turn.model == model && |before| < turn.maxNew && pendingToken == None
      requires index < accepted ==> token == drafts[index] && !turn.isStop(token)
      requires closure != [] && (thinking != null ==> thinking.forcedCloseTokens == closure)
      requires thinking != null && thinking.active && index < accepted && thinking.committed + 1 >= thinking.budget ==>
        index + 1 == accepted
      modifies this`state, this`context, this`pendingToken, this`gap, this`gapValid, this`lastTargetHidden, ngram, thinking
      ensures TargetOk() && Tracks(track) && Exact() && |generated| > |before|
      ensures !status.SinkBroke? ==> context != []
      ensures status.Reclosed? ==> |generated| > |before| + 1 && index + 1 >= accepted
      ensures var goal := Decode(turn, base + [seed] + drafts[..index], before, old(Think(thinking)));
              match status
              case SinkBroke =>
                pendingToken.Some? && IndexTracks(context + [pendingToken.value])
                && goal == Halted(generated, context, pendingToken.value)
              case Reclosed =>
                pendingToken == None && IndexTracks(context + if pending.Some? then [pending.value] else [])
                && goal == Resume(turn, context, generated, pending, Think(thinking))
                && thinking != null && !thinking.active
              case NextStep =>
                pendingToken == None && generated == before + [token] && Committed(base, seed, drafts, accepted, track)
                && context == old(context) && ngram.Valid() && ngram.tokens == old(ngram.tokens) + [token]
                && goal == Resume(turn, base + [seed] + drafts[..index], generated, Some(token), Think(thinking))
                && (thinking != null && thinking.active ==>
                     old(thinking.active) && thinking.committed == old(thinking.committed) + 1)
                && ThinkingOpen(thinking, Some(token), turn)
      ensures Grew(old(ngram.tokens), ngram.tokens, before, generated)
    {
      hide HiddenRow, HiddenRows, StateAfter, Decode, CloseThinking, Decoding.Observed, TracksAt, SnapshotsCover,
           NgramIndex.Valid, Resume, Exact, Greedy, Grew;
      ghost var at := base + [seed] + drafts[..index];
      ReachedContext(base, seed, drafts, index, accepted, token);
      DecodeStep(turn, at, before, Think(thinking));
      generated, pending, status := before + [token], None, NextStep;
      GrewBy(ngram.tokens, before, [token]);
      ngram.Push(token);
      if turn.sinkFails(generated) {
        HaltPass(base, seed, drafts, accepted, index, token, hidden, track);
        status := SinkBroke;
        return;
      }
      var isStop, boundary := turn.isStop(token), Continue;
      if thinking != null { boundary := thinking.ObserveCommitted(token, !isStop); }
      if boundary == ForceClosure {
        var owed := if index < accepted then None else Some(token);
        assert context + (if owed.Some? then [owed.value] else []) == at + [token];
        ghost var between, middle := ngram.tokens, generated;
        generated, pending, status := Reclose(owed, closure, turn, generated, thinking, track);
        GrewOn(old(ngram.tokens), between, ngram.tokens, before, middle, generated);
      }
    }

    /** Force the closure, then sample the token after it. */
    method Reclose(owed: Option<Token>, closure: seq<Token>, turn: Turn, before: seq<Token>, thinking: ThinkingBudget?,
                   track: bool)
      returns (generated: seq<Token>, pending: Option<Token>, status: Emission)
      requires TargetOk() && closure != [] && Tracks(track) && Exact() && turn.model == model && pendingToken == None
      requires IndexTracks(context + if owed.Some? then [owed.value] else [])
      requires thinking != null ==> !thinking.active
      modifies this`state, this`context, this`pendingToken, this`gap, this`lastTargetHidden, ngram
      ensures TargetOk() && Tracks(track) && Exact() && |generated| >= |before| && !status.NextStep?
      ensures status.Reclosed? ==> context != [] && |generated| > |before|
      ensures var start := old(context) + if owed.Some? then [owed.value] else [];
              var goal := AfterClosing(turn, CloseThinking(turn, start, before, closure), Think(thinking));
              if status.SinkBroke? then
                pendingToken.Some? && IndexTracks(context + [pendingToken.value])
                && goal == Halted(generated, context, pendingToken.value)
              else
                pendingToken == None && IndexTracks(context + if pending.Some? then [pending.value] else [])
                && goal == Resume(turn, context, generated, pending, Think(thinking))
      ensures Grew(old(ngram.tokens), ngram.tokens, before, generated)
    {
      hide HiddenRow, StateAfter, Decode, CloseThinking, NgramIndex.Valid, TracksAt, Exact, Greedy, DecodeTurn, Grew;
      var row, failed;
      pending := None;
      generated, row, failed := ForceClosePolicy(owed, closure, turn, before, track);
      if failed { return generated, None, SinkBroke; }
      ghost var between, middle := ngram.tokens, generated;
      DecodeStepInactive(turn, context, generated, Think(thinking));
      pending, generated, failed := SampleAndEmit(row, turn, generated);
      GrewOn(old(ngram.tokens), between, ngram.tokens, before, middle, generated);
      assert context + [] == context;
      status := if failed then SinkBroke else Reclosed;
    }

    lemma ReachedContext(base: seq<Token>, seed: Token, drafts: seq<Token>, index: nat, accepted: nat, token: Token)
      requires index <= accepted <= |drafts|
      ensures index < accepted && index + 1 == accepted && token == drafts[index] ==>
        base + [seed] + drafts[..index] + [token] == base + [seed] + drafts[..accepted]
      ensures base + ([seed] + drafts)[..1 + accepted] == base + [seed] + drafts[..accepted]
      ensures base + [seed] + drafts[..index] + [] == base + [seed] + drafts[..index]
      ensures base + [seed] + drafts[..accepted] + [] == base + [seed] + drafts[..accepted]
    {}

    /** Hand over the pass's accepted drafts and its authoritative token. */
    method EmitOutputs(ghost base: seq<Token>, seed: Token, drafts: seq<Token>, accepted: nat, authoritative: Token,
                       hidden: seq<Row>, before: seq<Token>, turn: Turn, thinking: ThinkingBudget?, closure: seq<Token>,
                       track: bool)
      returns (generated: seq<Token>, pending: Option<Token>, status: Emission)
      requires Committed(base, seed, drafts, accepted, track)
      requires hidden == HiddenRows(model, base, ([seed] + drafts)[..1 + accepted])
      requires IndexTracks(base + [seed]) && TargetChose(base + [seed], drafts, accepted, authoritative)
      requires turn.model == model && |before| + |drafts| < turn.maxNew && (forall t :: t in drafts ==> !turn.isStop(t))
      requires closure != [] && (thinking != null ==> thinking.forcedCloseTokens == closure)
      requires thinking != null && thinking.active ==>
        thinking.committed < thinking.budget && thinking.committed + |drafts| <= thinking.budget
      requires pendingToken == None
      modifies this`state, this`context, this`pendingToken, this`gap, this`gapValid, this`lastTargetHidden, ngram, thinking
      ensures TargetOk() && Tracks(track) && Exact() && |generated| > |before|
      ensures !status.SinkBroke? ==> context != []
      ensures var goal := Decode(turn, base + [seed], before, old(Think(thinking)));
              if status.SinkBroke? then
                pendingToken.Some? && IndexTracks(context + [pendingToken.value])
                && goal == Halted(generated, context, pendingToken.value)
              else
                pendingToken == None && IndexTracks(context + if pending.Some? then [pending.value] else [])
                && goal == Resume(turn, context, generated, pending, Think(thinking)) && ThinkingOpen(thinking, pending, turn)
      ensures status.NextStep? ==>
        && pending == Some(authoritative) && ngram.tokens == old(ngram.tokens) + drafts[..accepted] + [authoritative]
        && generated == before + drafts[..accepted] + [authoritative]
      ensures !status.SinkBroke? ==> |generated| > |before| + accepted
      ensures Grew(old(ngram.tokens), ngram.tokens, before, generated)
    {
      hide HiddenRow, HiddenRows, StateAfter, Decode, TracksAt, SnapshotsCover, Greedy, NgramIndex.Valid, Exact, Committed, Grew;
      CommittedFacts(base, seed, drafts, accepted, track);
      var outputs := CommittedOutputs(drafts, accepted, authoritative);
      ghost var goal, head := Decode(turn, base + [seed], before, Think(thinking)), base + [seed];
      generated, pending, status := before, None, NextStep;
      GrewNot(ngram.tokens, before);
      assert head + outputs[..0] == head && head + drafts[..0] == head;
      for j := 0 to |outputs|
        invariant Committed(base, seed, drafts, accepted, track) && pendingToken == None && context == old(context)
        invariant generated == before + outputs[..j] && ngram.Valid() && ngram.tokens == old(ngram.tokens) + outputs[..j]
        invariant IndexTracks(head + outputs[..j])
        invariant j <= accepted ==> goal == Decode(turn, head + drafts[..j], generated, Think(thinking))
        invariant thinking != null && thinking.active ==>
          old(thinking.active) && thinking.committed == old(thinking.committed) + j
        invariant status == NextStep && Grew(old(ngram.tokens), ngram.tokens, before, generated)
        invariant j > accepted ==> ThinkingOpen(thinking, Some(authoritative), turn)
        invariant j > accepted ==>
          goal == Resume(turn, head + drafts[..accepted], generated, Some(authoritative), Think(thinking))
      {
        OutputStep(head, drafts, accepted, authoritative, j);
        assert before + outputs[..j] + [outputs[j]] == before + outputs[..j + 1];
        ghost var between, middle := ngram.tokens, generated;
        generated, pending, status := EmitOne(base, seed, drafts, accepted, j, outputs[j], hidden, generated, turn,
                                              thinking, closure, track);
        GrewOn(old(ngram.tokens), between, ngram.tokens, before, middle, generated);
        if !status.NextStep? { return; }
      }
      assert outputs[..|outputs|] == outputs;
      pending := Some(authoritative);
      CommittedFacts(base, seed, drafts, accepted, track);
    }

    lemma OutputStep(head: seq<Token>, drafts: seq<Token>, accepted: nat, authoritative: Token, j: nat)
      requires j <= accepted <= |drafts|
      ensures var outputs := CommittedOutputs(drafts, accepted, authoritative);
              && outputs[..j] == drafts[..j] && outputs[..j] + [outputs[j]] == outputs[..j + 1]
              && head + outputs[..j] + [outputs[j]] == head + outputs[..j + 1]
              && outputs[j] == (if j < accepted then drafts[j] else authoritative)
              && (j < accepted ==> head + drafts[..j] + [drafts[j]] == head + drafts[..j + 1])
    {}

    lemma CommittedFacts(base: seq<Token>, seed: Token, drafts: seq<Token>, accepted: nat, track: bool)
      requires Committed(base, seed, drafts, accepted, track)
      ensures TargetOk() && Tracks(track) && Exact() && accepted <= |drafts|
      ensures context == base + [seed] + drafts[..accepted]
    {
      ReachedContext(base, seed, drafts, accepted, accepted, seed);
    }

    // ----- the speculative policy: the turn -----

    /** What the source checks before it drafts, ending the turn otherwise: the
        predictor stands where the target does and the carry is there. */
    predicate MayDraft()
      reads this`gap, this`state, this`lastTargetHidden
    {
      gap.predictor.Some? && |gap.predictor.value| == state.position && lastTargetHidden.Some?
    }

    /** Catch the predictor up to the target. Drafting is then never refused. */
    method PrepareMtp()
      requires TargetOk() && Tracks(true) && Exact() && predictor.Some? && context != []
      modifies this`gap
      ensures MayDraft() && Tracks(true) && gap.synced == |context|
      ensures gap.predictor == Some(Shifted(model, context)) && lastTargetHidden == Some(HiddenRow(model, context))
    {
      hide HiddenRow, HiddenRows, StateAfter, Describes, Shifted, CaughtUp;
      CatchUpDescribes(model, context, gap);
      AlignedShape();
      CatchUpMtp();
      AlignedShape();
      StreamIsShifted();
    }

    lemma StreamIsShifted()
      requires Aligned() && gap.synced == |context| && gap.predictor.Some? && |gap.predictor.value| == |context|
      ensures gap.predictor == Some(Shifted(model, context))
      ensures context != [] ==> lastTargetHidden == Some(HiddenRow(model, context))
    {
      hide HiddenRow, HiddenRows, Shifted;
      assert context[..|context|] == context && gap.predictor.value[..|context|] == gap.predictor.value;
    }

    /** Catch the predictor up to the target and draft from it. */
    method ProposeMtp(seed: Token, depth: nat, isStop: Token -> bool) returns (drafts: seq<Token>)
      requires TargetOk() && Tracks(true) && Exact() && predictor.Some? && context != []
      modifies this`gap
      ensures Tracks(true) && gap.synced == |context|
      ensures |drafts| <= depth && (forall t :: t in drafts ==> !isStop(t))
      ensures MtpDrafts(model, predictor.value, context, seed, depth, isStop, drafts)
    {
      hide HiddenRow, HiddenRows, StateAfter, Describes, Shifted, Exact, Chained, Drafted;
      PrepareMtp();
      ghost var start := gap;
      drafts := DraftMtp(seed, depth, isStop);
      PredictorMayRunAhead(context, start, gap);
      DraftsAreDepth(predictor.value, gap.predictor.value, |context|, depth, isStop, drafts);
    }

    /** Poll both arms and draft. */
    method ChooseDrafts(seed: Token, budget: nat, committedBefore: nat, options: Options, span: Option<A.SpanCursor>,
                        ghost spanLen: nat, ngramArm: A.ArmController, mtpArm: A.ArmController, track: bool)
      returns (arm: StepArm, proposal: Option<NgramDraft>, drafts: seq<Token>, ghost len: nat)
      requires TargetOk() && context != [] && Tracks(track) && Exact() && ngram.Valid() && ngramArm != mtpArm
      requires mtpArm.config.enabled == track && (track ==> predictor.Some?)
      requires 1 <= ngramArm.config.Low() <= ngramArm.len <= ngramArm.config.cap
      requires span.Some? ==> A.SpanLive(ngram.tokens, span.value.next, spanLen) && span.value.matchLen <= spanLen && 0 < spanLen
      requires MIN_MATCH_LEN <= options.minMatch <= MAX_MATCH_LEN
      modifies this`gap, ngramArm, mtpArm
      ensures Tracks(track) && 1 <= ngramArm.config.Low() <= ngramArm.len <= ngramArm.config.cap
      ensures |drafts| <= budget && (forall t :: t in drafts ==> !options.isStop(t))
      ensures proposal.Some? ==> drafts != [] && drafts == proposal.value.tokens && Genuine(ngram.tokens, proposal.value, len, options.isStop)
      ensures span.Some? ==> span.value.next < |ngram.tokens|
      ensures var ngramPolled := A.Polled(ngramArm.config, old(ngramArm.State()), committedBefore);
        var mtpPolled := A.Polled(mtpArm.config, old(mtpArm.State()), committedBefore);
        && ngramArm.State() == ngramPolled.0 && mtpArm.State() == mtpPolled.0
        && Chosen(model, predictor, ngram.hasher, ngram.tokens, context, seed, ngramPolled, mtpPolled, budget, options, span, arm, proposal, drafts)
      ensures arm == Plain <==> drafts == []
    {
      hide StateAfter, TracksAt, NgramIndex.Valid, A.SpanLive, A.Polled, Exact, Proposed, MtpDrafts;
      A.PolledLen(ngramArm.config, ngramArm.State(), committedBefore);
      var ngramOpen := ngramArm.Poll(committedBefore);
      var mtpOpen := mtpArm.Poll(committedBefore);
      arm, proposal, len := ProposeNgram(ngramOpen, ngramArm.len, budget, options, span, spanLen);
      drafts := if proposal.Some? then proposal.value.tokens else [];
      if arm == Plain && mtpOpen && budget > 0 {
        var depth := if mtpArm.len <= budget then mtpArm.len else budget;
        if depth > 0 {
          drafts := ProposeMtp(seed, depth, options.isStop);
          if drafts != [] { arm := Mtp; }
        }
      }
    }

    /** One verification pass, observed by the arm that drafted it and committed
        up to the authoritative token. */
    method VerifyAndCommit(seed: Token, drafts: seq<Token>, arm: StepArm, committedBefore: nat,
                           ngramArm: A.ArmController, mtpArm: A.ArmController, track: bool, eager: bool)
      returns (hidden: seq<Row>, accepted: nat, authoritative: Token)
      requires TargetOk() && Tracks(track) && (track ==> predictor.Some?) && ngramArm != mtpArm
      requires 1 <= ngramArm.config.Low() <= ngramArm.len <= ngramArm.config.cap
      modifies this`state, this`context, this`snapshots, this`gap, this`lastTargetHidden, ngramArm, mtpArm
      ensures Committed(old(context), seed, drafts, accepted, track)
      ensures hidden == HiddenRows(model, old(context), ([seed] + drafts)[..1 + accepted])
      ensures TargetChose(old(context) + [seed], drafts, accepted, authoritative)
      ensures accepted <= |drafts| && (accepted < |drafts| ==> drafts[accepted] != authoritative)
      ensures 1 <= ngramArm.config.Low() <= ngramArm.len <= ngramArm.config.cap
      ensures ngramArm.State() == Told(ngramArm.config, old(ngramArm.State()), |drafts|, accepted, committedBefore, IsNgram(arm))
      ensures mtpArm.State() == Told(mtpArm.config, old(mtpArm.State()), |drafts|, accepted, committedBefore, arm == Mtp)
      ensures gap.synced == if track && eager then |context| else old(gap.synced)
    {
      hide HiddenRow, HiddenRows, StateAfter, TracksAt, SnapshotsCover, TargetChose, A.Observed, Committed;
      ghost var base := context;
      var rows;
      rows, accepted, authoritative := VerifyDrafts(seed, drafts);
      if IsNgram(arm) {
        A.ObservedLen(ngramArm.config, ngramArm.State(), |drafts|, accepted, committedBefore + 1 + accepted);
        ngramArm.Observe(|drafts|, accepted, committedBefore + 1 + accepted);
      } else if arm == Mtp {
        mtpArm.Observe(|drafts|, accepted, committedBefore + 1 + accepted);
      }
      hidden := CommitRows(base, seed, drafts, rows, accepted, track, eager);
    }

    /** Draft, verify and commit. */
    method DraftAndCommit(seed: Token, budget: nat, committedBefore: nat, options: Options, ngramArm: A.ArmController,
                          mtpArm: A.ArmController, track: bool, span: Option<A.SpanCursor>, ghost spanLen: nat)
      returns (record: StepRecord, hidden: seq<Row>, authoritative: Token, ghost nextLen: nat)
      requires TargetOk() && context != [] && Tracks(track) && Exact() && ngram.Valid()
      requires ngramArm != mtpArm && mtpArm.config.enabled == track && (track ==> predictor.Some?)
      requires 1 <= ngramArm.config.Low() <= ngramArm.len <= ngramArm.config.cap
      requires span.Some? ==> A.SpanLive(ngram.tokens, span.value.next, spanLen) && span.value.matchLen <= spanLen && 0 < spanLen
      requires MIN_MATCH_LEN <= options.minMatch <= MAX_MATCH_LEN
      modifies this`state, this`context, this`gap, this`lastTargetHidden, this`snapshots, ngramArm, mtpArm
      ensures Committed(old(context), seed, record.drafts, record.accepted, track)
      ensures hidden == HiddenRows(model, old(context), ([seed] + record.drafts)[..1 + record.accepted])
      ensures TargetChose(old(context) + [seed], record.drafts, record.accepted, authoritative)
      ensures |record.drafts| <= budget && (forall t :: t in record.drafts ==> !options.isStop(t))
      ensures 1 <= ngramArm.config.Low() <= ngramArm.len <= ngramArm.config.cap
      ensures record.committedBefore == committedBefore && record.from == span
      ensures PassOf(model, predictor, ngram.hasher, ngram.tokens, old(context), seed,
                     A.Polled(ngramArm.config, old(ngramArm.State()), committedBefore),
                     A.Polled(mtpArm.config, old(mtpArm.State()), committedBefore), budget, options, record)
      ensures record.ngram == ngramArm.State() && record.mtp == mtpArm.State()
      ensures Linked(ngramArm.config, mtpArm.config, old(ngramArm.State()), old(mtpArm.State()), record)
      ensures record.next == NextSpan(ngram.tokens, record.arm, record.proposal, span, options.tuning.spanContinuation, record.accepted, authoritative)
      ensures record.next.Some? ==>
        && record.accepted == |record.drafts| && record.next.value.matchLen <= nextLen && 0 < nextLen
        && A.SpanLive(ngram.tokens + record.drafts + [authoritative], record.next.value.next, nextLen)
    {
      hide HiddenRow, HiddenRows, StateAfter, TracksAt, SnapshotsCover, Greedy, NgramIndex.Valid, Exact,
           Genuine, A.SpanLive, NextSpan, Committed, Chosen, A.Polled, Told;
      hide A.Observed;
      var arm, proposed, drafts;
      ghost var len;
      arm, proposed, drafts, len := ChooseDrafts(seed, budget, committedBefore, options, span, spanLen, ngramArm, mtpArm, track);
      ghost var base := context;
      var accepted;
      hidden, accepted, authoritative :=
        VerifyAndCommit(seed, drafts, arm, committedBefore, ngramArm, mtpArm, track, options.tuning.eagerMtpResync);
      NextSpanLive(ngram.tokens, arm, proposed, len, span, options.tuning.spanContinuation, options.isStop, accepted, authoritative);
      nextLen := len + |drafts| + 1;
      record := StepRecord(committedBefore, arm, drafts, accepted, ngramArm.State(), mtpArm.State(), span,
                           NextSpan(ngram.tokens, arm, proposed, span, options.tuning.spanContinuation, accepted, authoritative),
                           proposed);
    }

    lemma NextIsApart(record: StepRecord, next: Option<A.SpanCursor>)
      ensures forall m, p, hash, index, c: seq<Token>, seed, ngramPolled, mtpPolled, budget, options | c != [] ::
        PassOf(m, p, hash, index, c, seed, ngramPolled, mtpPolled, budget, options, record) ==>
        PassOf(m, p, hash, index, c, seed, ngramPolled, mtpPolled, budget, options, record.(next := next))
      ensures forall ngramConfig, mtpConfig, ngramBefore, mtpBefore :: Linked(ngramConfig, mtpConfig, ngramBefore, mtpBefore, record) ==>
        Linked(ngramConfig, mtpConfig, ngramBefore, mtpBefore, record.(next := next))
    {
      hide Chosen, Told, Greedy, A.Polled;
    }

    /** One step of the loop: draft, verify, commit, hand over. */
    method PolicyStep(turn: Turn, options: Options, seed: Token, before: seq<Token>, thinking: ThinkingBudget?,
                      ngramArm: A.ArmController, mtpArm: A.ArmController, track: bool,
                      span: Option<A.SpanCursor>, ghost spanLen: nat)
      returns (generated: seq<Token>, pending: Option<Token>, status: Emission, record: StepRecord, ghost nextLen: nat)
      requires TargetOk() && context != [] && Tracks(track) && Exact() && pendingToken == None
      requires IndexTracks(context + [seed]) && ThinkingOpen(thinking, Some(seed), turn) && !turn.isStop(seed)
      requires turn == TurnOf(model, options, turn.sinkFails) && |before| < turn.maxNew && options.forcedClose != []
      requires thinking != null ==> thinking.forcedCloseTokens == options.forcedClose
      requires ngramArm != mtpArm && mtpArm.config.enabled == track && (track ==> predictor.Some?)
      requires 1 <= ngramArm.config.Low() <= ngramArm.len <= ngramArm.config.cap
      requires span.Some? ==> A.SpanLive(ngram.tokens, span.value.next, spanLen) && span.value.matchLen <= spanLen && 0 < spanLen
      requires MIN_MATCH_LEN <= options.minMatch <= MAX_MATCH_LEN
      modifies this`state, this`context, this`pendingToken, this`gap, this`gapValid, this`lastTargetHidden,
               this`snapshots, ngram, thinking, ngramArm, mtpArm
      ensures TargetOk() && Tracks(track) && Exact() && |generated| > |before|
      ensures 1 <= ngramArm.config.Low() <= ngramArm.len <= ngramArm.config.cap
      ensures var goal := Decode(turn, old(context) + [seed], before, old(Think(thinking)));
              if status.SinkBroke? then
                pendingToken.Some? && IndexTracks(context + [pendingToken.value])
                && goal == Halted(generated, context, pendingToken.value)
              else
                pendingToken == None && IndexTracks(context + if pending.Some? then [pending.value] else [])
                && context != [] && goal == Resume(turn, context, generated, pending, Think(thinking))
                && ThinkingOpen(thinking, pending, turn)
      ensures record.next.Some? ==>
        && status.NextStep? && A.SpanLive(ngram.tokens, record.next.value.next, nextLen)
        && record.next.value.matchLen <= nextLen && 0 < nextLen
      ensures record.committedBefore == |before| && record.from == span
      ensures PassOf(model, predictor, ngram.hasher, old(ngram.tokens), old(context), seed,
                     A.Polled(ngramArm.config, old(ngramArm.State()), |before|),
                     A.Polled(mtpArm.config, old(mtpArm.State()), |before|),
                     StepBudget(turn.maxNew, |before|, old(Think(thinking))), options, record)
      ensures record.ngram == ngramArm.State() && record.mtp == mtpArm.State()
      ensures Linked(ngramArm.config, mtpArm.config, old(ngramArm.State()), old(mtpArm.State()), record)
      ensures !status.SinkBroke? ==> |generated| > |before| + record.accepted
      ensures Grew(old(ngram.tokens), ngram.tokens, before, generated)
      ensures HandedOver(model, options.tuning.spanContinuation, old(ngram.tokens), old(context), seed, before,
                         status.NextStep?, record, generated)
    {
      hide HiddenRow, HiddenRows, StateAfter, Decode, TracksAt, SnapshotsCover, Greedy, NgramIndex.Valid, Exact,
           A.SpanLive, NextSpan, Committed, Resume, Chosen, PassOf, Grew;
      var budget := turn.maxNew - |before| - 1;
      if thinking != null && thinking.active && thinking.budget - thinking.committed < budget {
        budget := thinking.budget - thinking.committed;
      }
      assert budget == StepBudget(turn.maxNew, |before|, Think(thinking));
      ghost var base := context;
      var hidden, authoritative;
      record, hidden, authoritative, nextLen :=
        DraftAndCommit(seed, budget, |before|, options, ngramArm, mtpArm, track, span, spanLen);
      assert record.drafts[..|record.drafts|] == record.drafts;
      generated, pending, status := EmitOutputs(base, seed, record.drafts, record.accepted, authoritative, hidden, before,
                                                turn, thinking, options.forcedClose, track);
      if !status.NextStep? {
        NextIsApart(record, None);
        record := record.(next := None);
      }
    }

    /** The generation loop of a policy turn. */
    method PolicyLoop(turn: Turn, options: Options, before: seq<Token>, first: Option<Token>, thinking: ThinkingBudget?,
                      ngramArm: A.ArmController, mtpArm: A.ArmController, track: bool)
      returns (generated: seq<Token>, failed: bool, pending: Option<Token>, records: seq<StepRecord>)
      requires TargetOk() && context != [] && Tracks(track) && Exact() && pendingToken == None
      requires IndexTracks(context + if first.Some? then [first.value] else []) && ThinkingOpen(thinking, first, turn)
      requires turn == TurnOf(model, options, turn.sinkFails) && options.forcedClose != []
      requires thinking != null ==> thinking.forcedCloseTokens == options.forcedClose
      requires ngramArm != mtpArm && mtpArm.config.enabled == track && (track ==> predictor.Some?)
      requires 1 <= ngramArm.config.Low() <= ngramArm.len <= ngramArm.config.cap
      requires MIN_MATCH_LEN <= options.minMatch <= MAX_MATCH_LEN
      modifies this`state, this`context, this`pendingToken, this`gap, this`gapValid, this`lastTargetHidden,
               this`snapshots, ngram, thinking, ngramArm, mtpArm
      ensures TargetOk() && Tracks(track) && Exact()
      ensures match Resume(turn, old(context), before, first, old(Think(thinking)))
              case Finished(g, c, p, th) =>
                && !failed && generated == g && context == c && pending == p && Think(thinking) == th && pendingToken == None
                && IndexTracks(context + if pending.Some? then [pending.value] else [])
              case Halted(g, c, t) =>
                && failed && generated == g && context == c && pendingToken == Some(t) && IndexTracks(context + [t])
      ensures Grew(old(ngram.tokens), ngram.tokens, before, generated)
      ensures Recorded(ngramArm.config, mtpArm.config, old(ngramArm.State()), old(mtpArm.State()), records)
      ensures records != [] ==> records[0].committedBefore == |before|
    {
      ghost var firstNgram, firstMtp := ngramArm.State(), mtpArm.State();
      NoRecords(ngramArm.config, mtpArm.config, firstNgram, firstMtp, |before|);
      hide HiddenRow, StateAfter, Decode, TracksAt, NgramIndex.Valid, Exact, A.SpanLive, Recorded, PassOf, Greedy,
           HandedOver, Grew, Linked, LeftBy, StepBudget, A.Polled, Resume;
      ghost var goal := Resume(turn, context, before, first, Think(thinking));
      generated, pending, failed, records := before, first, false, [];
      GrewNot(ngram.tokens, before);
      var span: Option<A.SpanCursor> := None;
      ghost var spanLen: nat := 0;
      while pending.Some? && |generated| < turn.maxNew && !turn.isStop(pending.value)
        invariant TargetOk() && context != [] && Tracks(track) && Exact() && pendingToken == None && !failed
        invariant IndexTracks(context + if pending.Some? then [pending.value] else [])
        invariant ThinkingOpen(thinking, pending, turn)
        invariant goal == Resume(turn, context, generated, pending, Think(thinking))
        invariant 1 <= ngramArm.config.Low() <= ngramArm.len <= ngramArm.config.cap
        invariant span.Some? ==>
          A.SpanLive(ngram.tokens, span.value.next, spanLen) && span.value.matchLen <= spanLen && 0 < spanLen
        invariant Grew(old(ngram.tokens), ngram.tokens, before, generated)
        invariant records != [] ==> records[0].committedBefore == |before|
        invariant Recorded(ngramArm.config, mtpArm.config, firstNgram, firstMtp, records)
        invariant LeftBy(records, |before|, firstNgram, firstMtp, |generated|, ngramArm.State(), mtpArm.State(), span)
        decreases turn.maxNew - |generated|
      {
        ResumeIs(turn, context, generated, pending, Think(thinking));
        var status, record;
        ghost var ngramBefore, mtpBefore := ngramArm.State(), mtpArm.State();
        ghost var between, middle := ngram.tokens, generated;
        generated, pending, status, record, spanLen :=
          PolicyStep(turn, options, pending.value, generated, thinking, ngramArm, mtpArm, track, span, spanLen);
        GrewOn(old(ngram.tokens), between, ngram.tokens, before, middle, generated);
        RecordMore(ngramArm.config, mtpArm.config, firstNgram, firstMtp, records, |before|,
                   ngramBefore, mtpBefore, record);
        records := records + [record];
        span := record.next;
        if status.SinkBroke? { return generated, true, None, records; }
      }
      ResumeIs(turn, context, generated, pending, Think(thinking));
    }

    /** Sample and hand over the turn's first token, closing thinking if that
        token exhausts its budget. */
    method FirstToken(row: Row, turn: Turn, before: seq<Token>, thinking: ThinkingBudget?, closure: seq<Token>, track: bool)
      returns (generated: seq<Token>, pending: Option<Token>, failed: bool)
      requires TargetOk() && context != [] && row == HiddenRow(model, context) && turn.model == model
      requires IndexTracks(context) && Tracks(track) && Exact() && pendingToken == None
      requires closure != [] && (thinking != null ==> thinking.forcedCloseTokens == closure)
      modifies this`state, this`context, this`pendingToken, this`gap, this`lastTargetHidden, ngram, thinking
      ensures TargetOk() && Tracks(track) && Exact()
      ensures var goal := Decode(turn, old(context), before, old(Think(thinking)));
              if failed then
                pendingToken.Some? && IndexTracks(context + [pendingToken.value])
                && goal == Halted(generated, context, pendingToken.value)
              else
                pendingToken == None && IndexTracks(context + if pending.Some? then [pending.value] else [])
                && context != [] && goal == Resume(turn, context, generated, pending, Think(thinking))
                && ThinkingOpen(thinking, pending, turn)
      ensures Grew(old(ngram.tokens), ngram.tokens, before, generated)
    {
      hide HiddenRow, StateAfter, Decode, CloseThinking, NgramIndex.Valid, TracksAt, Exact, Greedy, Decoding.Observed, Grew;
      ghost var at := context;
      assert context + [] == context;
      if |before| < turn.maxNew {
        DecodeStep(turn, context, before, Think(thinking));
      } else {
        DecodeDone(turn, context, before, Think(thinking));
      }
      pending, generated, failed := SampleAndEmit(row, turn, before);
      if failed || pending.None? { return; }
      var isStop, boundary := turn.isStop(pending.value), Continue;
      if thinking != null { boundary := thinking.ObserveCommitted(pending.value, !isStop); }
      if boundary == ForceClosure {
        var status;
        ghost var between, middle := ngram.tokens, generated;
        generated, pending, status := Reclose(pending, closure, turn, generated, thinking, track);
        failed := status.SinkBroke?;
        GrewOn(old(ngram.tokens), between, ngram.tokens, before, middle, generated);
      }
    }

    /** The start of a prefilled turn: thinking without a budget is closed at
        once, and then comes the first token. */
    method OpenTurn(turn: Turn, options: Options, first: Row, track: bool)
      returns (thinking: ThinkingBudget?, generated: seq<Token>, pending: Option<Token>, failed: bool)
      requires TargetOk() && context != [] && first == HiddenRow(model, context)
      requires IndexTracks(context) && Tracks(track) && Exact() && pendingToken == None
      requires turn == TurnOf(model, options, turn.sinkFails) && options.forcedClose != []
      modifies this`state, this`context, this`pendingToken, this`gap, this`lastTargetHidden, ngram
      ensures TargetOk() && Tracks(track) && Exact()
      ensures thinking != null ==> fresh(thinking) && thinking.forcedCloseTokens == options.forcedClose
      ensures var goal := DecodeTurn(turn, old(context), StartingBudget(options));
              if failed then
                pendingToken.Some? && IndexTracks(context + [pendingToken.value])
                && goal == Halted(generated, context, pendingToken.value)
              else
                pendingToken == None && IndexTracks(context + if pending.Some? then [pending.value] else [])
                && context != [] && goal == Resume(turn, context, generated, pending, Think(thinking))
                && ThinkingOpen(thinking, pending, turn)
      ensures Grew(old(ngram.tokens), ngram.tokens, [], generated)
    {
      hide HiddenRow, StateAfter, Decode, CloseThinking, NgramIndex.Valid, TracksAt, Exact, Resume, Decoding.Observed,
           PassSnapshots, Usable, Greedy, Grew;
      GrewNot(ngram.tokens, []);
      ghost var goal := DecodeTurn(turn, context, StartingBudget(options));
      var row := first;
      generated, pending, failed, thinking := [], None, false, null;
      if options.thinking.Some? {
        thinking := new ThinkingBudget(options.thinking.value, options.close, options.forcedClose);
        var force := thinking.ShouldForceBeforeSampling();
        if force {
          assert context + [] == context;
          generated, row, failed := ForceClosePolicy(None, options.forcedClose, turn, generated, track);
          if failed { return; }
        }
      }
      assert goal == Decode(turn, context, generated, Think(thinking));
      ghost var between, middle := ngram.tokens, generated;
      generated, pending, failed := FirstToken(row, turn, generated, thinking, options.forcedClose, track);
      GrewOn(old(ngram.tokens), between, ngram.tokens, [], middle, generated);
    }

    /** A prefilled turn, decoded under the policy. */
    method DecodePolicy(turn: Turn, options: Options, first: Row, ngramArm: A.ArmController, mtpArm: A.ArmController, track: bool)
      returns (r: TurnResult, records: seq<StepRecord>)
      requires TargetOk() && context != [] && first == HiddenRow(model, context)
      requires IndexTracks(context) && Tracks(track) && Exact() && pendingToken == None
      requires turn == TurnOf(model, options, turn.sinkFails) && options.forcedClose != []
      requires ngramArm != mtpArm && mtpArm.config.enabled == track && (track ==> predictor.Some?)
      requires 1 <= ngramArm.config.Low() <= ngramArm.len <= ngramArm.config.cap
      requires MIN_MATCH_LEN <= options.minMatch <= MAX_MATCH_LEN
      modifies this`state, this`context, this`pendingToken, this`gap, this`gapValid, this`lastTargetHidden,
               this`snapshots, ngram, ngramArm, mtpArm
      ensures TargetOk() && Tracks(track) && Exact() && IndexTracks(Visible()) && !r.Rejected?
      ensures Lands(DecodeTurn(turn, old(context), StartingBudget(options)), r)
      ensures Grew(old(ngram.tokens), ngram.tokens, [], r.generated)
      ensures Recorded(ngramArm.config, mtpArm.config, old(ngramArm.State()), old(mtpArm.State()), records)
    {
      hide HiddenRow, StateAfter, DecodeTurn, NgramIndex.Valid, TracksAt, Exact, Resume, Greedy, Linked, Grew;
      var thinking, generated, pending, failed := OpenTurn(turn, options, first, track);
      records := [];
      if failed { return SinkFailed(generated), records; }
      ghost var between, middle := ngram.tokens, generated;
      generated, failed, pending, records := PolicyLoop(turn, options, generated, pending, thinking, ngramArm, mtpArm, track);
      GrewOn(old(ngram.tokens), between, ngram.tokens, [], middle, generated);
      if failed { return SinkFailed(generated), records; }
      pendingToken := pending;
      r := Completed(generated, Think(thinking));
    }

    /** The turn inputs the policy refuses before it consumes anything. */
    predicate PolicyRefuses(prompt: seq<Token>, options: Options, mode: A.SpeculativeMode)
      reads this
    {
      || options.maxNew == 0
      || options.minMatch < MIN_MATCH_LEN || options.minMatch > MAX_MATCH_LEN
      || (mode.MtpOnly? && gap.predictor.None?)
      || prompt == []
      || (mode.MtpOnly? && !MtpArmReady())
    }

    /** Evaluate a turn's input, retaining the predictor's gap if the turn can
        draft with it. */
    method PrefillTurn(prompt: seq<Token>, track: bool) returns (row: Row)
      requires Valid() && prompt != [] && (track ==> MtpUsable())
      modifies this`state, this`context, this`pendingToken, this`gap, this`gapValid, this`lastTargetHidden, ngram
      ensures TargetOk() && context == old(Visible()) + prompt && row == HiddenRow(model, context)
      ensures IndexTracks(context) && Tracks(track) && Exact() && pendingToken == None
      ensures ngram.tokens == Started(|old(ngram.tokens)| == |old(Visible())|, old(Visible()), prompt, old(pendingToken))
    {
      hide HiddenRow, HiddenRows, StateAfter, Describes, NgramIndex.Valid, Shifted, CarryAt;
      var evaluated := TakeInput(prompt);
      gapValid := track;
      row := PrefillAndCarry(evaluated, track);
    }

    /** Greedy decoding under the unified speculative policy: it emits, evaluates
        and leaves pending exactly what plain decoding does. */
    method GeneratePolicy(prompt: seq<Token>, options: Options, mode: A.SpeculativeMode, sinkFails: seq<Token> -> bool)
      returns (r: TurnResult, records: seq<StepRecord>)
      requires Valid() && options.forcedClose != []
      modifies this, ngram
      ensures Valid()
      ensures r.Rejected? <==> old(PolicyRefuses(prompt, options, mode))
      ensures r.Rejected? ==> unchanged(this) && unchanged(ngram)
      ensures !r.Rejected? ==>
        Lands(DecodeTurn(TurnOf(model, options, sinkFails), old(Visible()) + prompt, StartingBudget(options)), r)
      // The MTP arm survives exactly the turns it could draft in, halted or not.
      ensures !r.Rejected? ==> (MtpUsable() <==> old(MtpUsable()) && A.AllowsMtp(mode))
      // The index has the turn's input, behind the context it mirrored if it did, and all that was handed over.
      ensures !r.Rejected? ==>
        var mirrored := |old(ngram.tokens)| == |old(Visible())|;
        ngram.tokens == Started(mirrored, old(Visible()), prompt, old(pendingToken)) + r.generated
      ensures !r.Rejected? ==> r.generated != [] && (mode.MtpOnly? ==> old(MtpUsable()))
      // Its passes start from the two arms of that mode.
      ensures r.Rejected? ==> records == []
      ensures !r.Rejected? ==> RecordedFor(options, mode, old(MtpUsable()), records)
    {
      hide HiddenRow, HiddenRows, StateAfter, DecodeTurn, Describes, NgramIndex.Valid, Shifted, CarryAt, Recorded, Started;
      if PolicyRefuses(prompt, options, mode) { return Rejected, []; }
      var (ngramConfig, mtpConfig) :=
        A.ArmConfigs(options.tuning, options.mtpDraftTokens, options.ngramDraftTokens, mode, MtpUsable());
      var track := mtpConfig.enabled;
      var ngramArm := new A.ArmController(ngramConfig);
      var mtpArm := new A.ArmController(mtpConfig);
      var row := PrefillTurn(prompt, track);
      TurnEmits(TurnOf(model, options, sinkFails), context, StartingBudget(options));
      r, records := DecodePolicy(TurnOf(model, options, sinkFails), options, row, ngramArm, mtpArm, track);
      if track { TrackedIsReady(); }
      assert r.generated[0..] == r.generated;
    }

    lemma TrackedIsReady()
      requires TargetOk() && Tracks(true) && predictor.Some?
      ensures MtpUsable()
    {
      hide HiddenRow, HiddenRows, StateAfter, Shifted;
    }

    // ----- the entry point -----

    /** Continue the session from encoded tokens in whatever mode is asked for.
        A refused turn changes nothing. */
    method Generate(prompt: seq<Token>, options: Options, sinkFails: seq<Token> -> bool)
      returns (r: TurnResult, records: seq<StepRecord>)
      requires Valid() && options.forcedClose != []
      modifies this, ngram
      ensures Valid()
      ensures r.Rejected? <==> TurnRefused(old(MtpUsable()), prompt, options)
      ensures r.Rejected? ==> unchanged(this) && unchanged(ngram)
      ensures !r.Rejected? ==>
        Lands(DecodeTurn(TurnOf(model, options, sinkFails), old(Visible()) + prompt, StartingBudget(options)), r)
      ensures !r.Rejected? ==> (MtpUsable() <==> old(MtpUsable()) && A.AllowsMtp(ModeOf(options)))
      // A turn that is not refused emits something, and one for the predictor alone can use it.
      ensures !r.Rejected? ==> r.generated != [] && (ModeOf(options).MtpOnly? ==> old(MtpUsable()))
      ensures if r.Rejected? || ModeOf(options).Off? then records == []
              else RecordedFor(options, ModeOf(options), old(MtpUsable()), records)
    {
      hide Valid, MtpArmReady, Lands, DecodeTurn, Visible, RecordedFor;
      if options.mode.Off? && options.mtpDraftTokens != 0 && options.ngramDraftTokens != 0 { return Rejected, []; }
      var mode := ModeOf(options);
      if mode.Off? {
        r := GeneratePlain(prompt, options, sinkFails);
        records := [];
      } else {
        r, records := GeneratePolicy(prompt, options, mode, sinkFails);
      }
    }
  }

  // ----- whole sessions -----

  /** Two sessions over the same visible context, decoding the same turn in any
      two modes: unless one refuses the turn, they emit the same tokens and end
      with the same evaluated context, target state and pending token, whether
      the turn completes or its sink fails. */
  method DecodeTwice(a: Runtime, b: Runtime, prompt: seq<Token>, first: Options, second: Options, sinkFails: seq<Token> -> bool)
    returns (ra: TurnResult, rb: TurnResult)
    requires a != b && a.ngram != b.ngram && a.Valid() && b.Valid()
    requires a.model == b.model && a.Visible() == b.Visible()
    requires first.forcedClose != [] && TurnOf(a.model, first, sinkFails) == TurnOf(a.model, second, sinkFails)
    requires StartingBudget(first) == StartingBudget(second) && first.forcedClose == second.forcedClose
    modifies a, b, a.ngram, b.ngram
    ensures a.Valid() && b.Valid()
    ensures ra.Rejected? <==> TurnRefused(old(a.MtpUsable()), prompt, first)
    ensures rb.Rejected? <==> TurnRefused(old(b.MtpUsable()), prompt, second)
    ensures !ra.Rejected? && !rb.Rejected? ==>
      ra == rb && a.context == b.context && a.state == b.state && a.pendingToken == b.pendingToken
  {
    hide StateAfter, DecodeTurn, HiddenRow, HiddenRows, Describes, NgramIndex.Valid;
    var passes;
    ra, passes := a.Generate(prompt, first, sinkFails);
    rb, passes := b.Generate(prompt, second, sinkFails);
  }

  datatype Op =
    | Reset
    | Prefill(tokens: seq<Token>, trackMtp: bool)
    | Restore(image: Image)
    | TurnOp(prompt: seq<Token>, options: Options, sinkFails: seq<Token> -> bool)

  /** Where a session is, and whether the MTP arm could draft from there. */
  datatype Place = Place(context: seq<Token>, pending: Option<Token>, mtp: bool)

  ghost function PlaceOf(s: Runtime): Place
    reads s
  {
    Place(s.context, s.pendingToken, s.MtpUsable())
  }

  ghost predicate Runnable(m: Model, predictor: Option<Predictor>, op: Op) {
    match op
    case Reset => true
    case Prefill(_, _) => true
    case Restore(image) => Counted(image) ==> Faithful(m, predictor, image)
    case TurnOp(_, options, _) => options.forcedClose != []
  }

  function VisibleAt(p: Place): seq<Token> {
    p.context + if p.pending.Some? then [p.pending.value] else []
  }

  predicate Refused(p: Place, op: Op) {
    match op
    case Reset => false
    case Prefill(tokens, _) => tokens == []
    case Restore(image) => |image.tokens| != image.state.position
    case TurnOp(prompt, options, _) => TurnRefused(p.mtp, prompt, options)
  }

  /** Where one operation leaves a session, by plain decoding alone. */
  ghost function Replayed(m: Model, hasMtp: bool, p: Place, op: Op): Place {
    if Refused(p, op) then p
    else
      match op
      case Reset => Place([], None, hasMtp)
      case Prefill(tokens, track) => Place(VisibleAt(p) + tokens, None, p.mtp && track)
      case Restore(image) => Place(image.tokens, None, image.mtp.Some? && image.hidden.Some?)
      case TurnOp(prompt, options, sinkFails) =>
        var mtp := p.mtp && A.AllowsMtp(ModeOf(options));
        match DecodeTurn(TurnOf(m, options, sinkFails), VisibleAt(p) + prompt, StartingBudget(options))
        case Finished(_, c, pending, _) => Place(c, pending, mtp)
        case Halted(_, c, t) => Place(c, Some(t), mtp)
  }

  ghost function Replay(m: Model, hasMtp: bool, p: Place, ops: seq<Op>): Place {
    if ops == [] then p
    else Replayed(m, hasMtp, Replay(m, hasMtp, p, ops[..|ops| - 1]), ops[|ops| - 1])
  }

  /** Any run of resets, prefills, restores and turns, in any mix of modes and
      with any sink failures, keeps the session invariant, refuses exactly the
      operations it must, and leaves the session exactly where plain decoding of
      the same run would. */
  method RunSession(s: Runtime, ops: seq<Op>) returns (refused: seq<bool>)
    requires s.Valid() && (forall op :: op in ops ==> Runnable(s.model, s.predictor, op))
    modifies s, s.ngram
    ensures s.Valid() && PlaceOf(s) == Replay(s.model, s.predictor.Some?, old(PlaceOf(s)), ops)
    ensures |refused| == |ops|
    ensures forall i :: 0 <= i < |ops| ==>
      refused[i] == Refused(Replay(s.model, s.predictor.Some?, old(PlaceOf(s)), ops[..i]), ops[i])
  {
    hide Runnable, Replayed, Refused, PlaceOf, Runtime.Valid;
    refused := [];
    ghost var start, hasMtp := PlaceOf(s), s.predictor.Some?;
    for i := 0 to |ops|
      invariant s.Valid() && PlaceOf(s) == Replay(s.model, hasMtp, start, ops[..i])
      invariant |refused| == i
      invariant forall j :: 0 <= j < i ==> refused[j] == Refused(Replay(s.model, hasMtp, start, ops[..j]), ops[j])
    {
      var no := RunOne(s, ops[i]);
      refused := refused + [no];
      assert ops[..i + 1][..i] == ops[..i];
    }
    assert ops[..|ops|] == ops;
  }

  method RunOne(s: Runtime, op: Op) returns (refused: bool)
    requires s.Valid() && Runnable(s.model, s.predictor, op)
    modifies s, s.ngram
    ensures s.Valid() && refused == Refused(old(PlaceOf(s)), op)
    ensures PlaceOf(s) == Replayed(s.model, s.predictor.Some?, old(PlaceOf(s)), op)
  {
    hide DecodeTurn, Runtime.Valid, Runtime.MtpUsable, Faithful, TurnRefused;
    refused := false;
    assert VisibleAt(PlaceOf(s)) == s.Visible();
    match op
    case Reset => s.Reset();
    case Prefill(tokens, track) =>
      var ok := s.PrefillTokens(tokens, track);
      refused := !ok;
    case Restore(image) =>
      var ok := s.RestoreSession(image);
      refused := !ok;
    case TurnOp(prompt, options, sinkFails) =>
      var r, records := s.Generate(prompt, options, sinkFails);
      refused := r.Rejected?;
  }
}
