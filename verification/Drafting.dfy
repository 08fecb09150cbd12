/** What a pass of the speculative policy drafts, from the index, the predictor
    and the two arms, and the record it leaves. */
module Drafting {
  import opened Wrappers
  import opened TargetModel
  import opened Ngram
  import opened Decoding
  import opened MtpGap
  import A = Arms

  /** The MTP predictor: what it guesses after the stream it has been fed, and
      how that guess stands against the two confidence gates. */
  datatype Guess = Guess(token: Token, hidden: Row, confident: bool, aboveMargin: bool)
  datatype Predictor = Predictor(guess: seq<Fed> -> Guess)

  datatype Options = Options(
    maxNew: nat, mode: A.SpeculativeMode, isStop: Token -> bool, tuning: A.Tuning,
    mtpDraftTokens: nat, ngramDraftTokens: nat, minMatch: nat,
    thinking: Option<nat>, close: seq<Token>, forcedClose: seq<Token>)

  function ModeOf(options: Options): A.SpeculativeMode {
    A.EffectiveMode(options.mode, options.mtpDraftTokens, options.ngramDraftTokens)
  }

  /** The turns a session refuses: contradictory flags, nothing to generate or
      to start from, and, under the policy, a match length out of range or an
      MTP-only turn that cannot draft. */
  predicate TurnRefused(mtpUsable: bool, prompt: seq<Token>, options: Options) {
    || (options.mode.Off? && options.mtpDraftTokens != 0 && options.ngramDraftTokens != 0)
    || options.maxNew == 0
    || prompt == []
    || (!ModeOf(options).Off? &&
        (options.minMatch < MIN_MATCH_LEN || options.minMatch > MAX_MATCH_LEN || (ModeOf(options).MtpOnly? && !mtpUsable)))
  }

  datatype StepArm = NgramKey | NgramSpan | Mtp | Plain

  // ----- the predictor's chain -----

  /** What the predictor guesses after step `i` of a chain that began with
      `base` already in its stream. */
  ghost function GuessAt(predictor: Predictor, stream: seq<Fed>, base: nat, i: nat): Guess
    requires base + i < |stream|
  {
    predictor.guess(stream[..base + i + 1])
  }

  /** A guess is fed back as its own token and row. */
  ghost function GuessFed(predictor: Predictor, stream: seq<Fed>, base: nat, i: nat): Fed
    requires base + i < |stream|
  {
    Fed(GuessAt(predictor, stream, base, i).token, GuessAt(predictor, stream, base, i).hidden)
  }

  /** Past `base` the stream is the seed with the carried row, and then each
      guess's own token and row, as long as none is a stop token or
      unconfident; it ends at the first that is, or after `depth` steps. */
  ghost predicate Chained(predictor: Predictor, stream: seq<Fed>, base: nat, first: Fed, depth: nat, isStop: Token -> bool) {
    && base <= |stream| <= base + depth
    && (forall k :: base <= k < |stream| ==>
         stream[k] == if k == base then first
                      else GuessFed(predictor, stream, base, k - base - 1))
    && (forall i :: 0 <= i && base + i + 1 < |stream| ==> GoesOn(predictor, stream, base, i, isStop))
    && (|stream| < base + depth ==> |stream| > base && !GoesOn(predictor, stream, base, |stream| - base - 1, isStop))
  }

  ghost predicate GoesOn(predictor: Predictor, stream: seq<Fed>, base: nat, i: nat, isStop: Token -> bool)
    requires base + i < |stream|
  {
    var g := GuessAt(predictor, stream, base, i);
    !isStop(g.token) && g.confident
  }

  /** The drafts are the chain's guesses, in order, up to the first that ends
      the chain or falls below the margin. */
  ghost predicate Drafted(predictor: Predictor, stream: seq<Fed>, base: nat, depth: nat, isStop: Token -> bool, drafts: seq<Token>)
    requires base <= |stream|
  {
    && |drafts| <= |stream| - base && |drafts| <= depth
    && (forall i :: 0 <= i < |drafts| ==>
         && drafts[i] == GuessAt(predictor, stream, base, i).token
         && GoesOn(predictor, stream, base, i, isStop) && GuessAt(predictor, stream, base, i).aboveMargin)
    && (|drafts| < depth ==>
         |drafts| < |stream| - base
         && (!GoesOn(predictor, stream, base, |drafts|, isStop) || !GuessAt(predictor, stream, base, |drafts|).aboveMargin))
  }

  /** What the chain feeds next. */
  ghost function NextFed(predictor: Predictor, stream: seq<Fed>, base: nat, first: Fed): Fed
    requires base <= |stream|
  {
    if |stream| == base then first
    else GuessFed(predictor, stream, base, |stream| - base - 1)
  }

  lemma GuessIs(predictor: Predictor, stream: seq<Fed>, base: nat, i: nat, first: Fed, isStop: Token -> bool)
    requires |stream| == base + i + 1
    ensures var guess := predictor.guess(stream);
      && guess == GuessAt(predictor, stream, base, i)
      && (GoesOn(predictor, stream, base, i, isStop) <==> !isStop(guess.token) && guess.confident)
      && NextFed(predictor, stream, base, first) == Fed(guess.token, guess.hidden)
  {
    assert stream[..base + i + 1] == stream;
  }

  lemma NothingDrafted(predictor: Predictor, stream: seq<Fed>, first: Fed, isStop: Token -> bool)
    ensures Chained(predictor, stream, |stream|, first, 0, isStop) && Drafted(predictor, stream, |stream|, 0, isStop, [])
    ensures NextFed(predictor, stream, |stream|, first) == first
  {}

  lemma GuessKept(predictor: Predictor, before: seq<Fed>, stream: seq<Fed>, base: nat)
    requires base <= |before| && before <= stream
    ensures forall j :: 0 <= j && base + j < |before| ==>
      GuessAt(predictor, stream, base, j) == GuessAt(predictor, before, base, j)
  {
    forall j | 0 <= j && base + j < |before| ensures GuessAt(predictor, stream, base, j) == GuessAt(predictor, before, base, j) {
      assert stream[..base + j + 1] == before[..base + j + 1];
    }
  }

  lemma ChainMore(predictor: Predictor, before: seq<Fed>, base: nat, first: Fed, isStop: Token -> bool, depth: nat)
    requires base <= |before| < base + depth && Chained(predictor, before, base, first, |before| - base, isStop)
    requires |before| > base ==> GoesOn(predictor, before, base, |before| - base - 1, isStop)
    ensures var i, stream := |before| - base, before + [NextFed(predictor, before, base, first)];
      && Chained(predictor, stream, base, first, i + 1, isStop)
      && (!GoesOn(predictor, stream, base, i, isStop) ==> Chained(predictor, stream, base, first, depth, isStop))
  {
    hide GuessAt;
    var stream := before + [NextFed(predictor, before, base, first)];
    GuessKept(predictor, before, stream, base);
    forall i | 0 <= i && base + i + 1 < |stream| ensures GoesOn(predictor, stream, base, i, isStop) {
      assert GoesOn(predictor, before, base, i, isStop);
    }
    forall k | base <= k < |stream|
      ensures stream[k] == if k == base then first
                           else GuessFed(predictor, stream, base, k - base - 1)
    {
      assert k < |before| ==> stream[k] == before[k];
    }
  }

  lemma DraftsKept(predictor: Predictor, before: seq<Fed>, stream: seq<Fed>, base: nat, depth: nat, isStop: Token -> bool, drafts: seq<Token>)
    requires base <= |before| && before <= stream
    requires |drafts| < depth && Drafted(predictor, before, base, depth, isStop, drafts)
    ensures Drafted(predictor, stream, base, depth, isStop, drafts)
  {
    hide GuessAt;
    GuessKept(predictor, before, stream, base);
  }

  lemma DraftMore(predictor: Predictor, before: seq<Fed>, stream: seq<Fed>, base: nat, depth: nat, isStop: Token -> bool, drafts: seq<Token>)
    requires base <= |before| && before <= stream && |stream| == |before| + 1 == base + |drafts| + 1
    requires |drafts| < depth && Drafted(predictor, before, base, |drafts|, isStop, drafts)
    ensures var g := GuessAt(predictor, stream, base, |drafts|);
      if GoesOn(predictor, stream, base, |drafts|, isStop) && g.aboveMargin then
        Drafted(predictor, stream, base, |drafts| + 1, isStop, drafts + [g.token])
      else Drafted(predictor, stream, base, depth, isStop, drafts)
  {
    hide GuessAt;
    GuessKept(predictor, before, stream, base);
  }

  /** What the predictor drafts after `c` and the seed: its chain over the
      target's own stream, up to the gates. */
  ghost predicate MtpDrafts(m: Model, predictor: Predictor, c: seq<Token>, seed: Token, depth: nat, isStop: Token -> bool, drafts: seq<Token>)
    requires c != []
  {
    exists stream ::
      Chained(predictor, stream, |c|, Fed(seed, HiddenRow(m, c)), depth, isStop)
      && Shifted(m, c) <= stream && Drafted(predictor, stream, |c|, depth, isStop, drafts)
  }

  lemma DraftsAreDepth(predictor: Predictor, stream: seq<Fed>, base: nat, depth: nat, isStop: Token -> bool, drafts: seq<Token>)
    requires base <= |stream| && Drafted(predictor, stream, base, depth, isStop, drafts)
    ensures |drafts| <= depth && (forall t :: t in drafts ==> !isStop(t))
  {}

  // ----- one pass -----

  ghost predicate FromSpan(index: seq<Token>, p: Option<NgramDraft>, limit: nat, span: A.SpanCursor, isStop: Token -> bool) {
    && p.Some? && p.value.matchLen == span.matchLen && p.value.sourcePosition + 1 == span.next
    && Copies(index, p.value, isStop) && Reaches(index, p.value, limit, isStop)
  }

  /** A live span goes on unless a stop token is next; only without one is a
      fresh key asked for. */
  ghost predicate Proposed(hash: seq<Token> -> Hash, index: seq<Token>, arm: StepArm, p: Option<NgramDraft>, open: bool,
                           draftLen: nat, budget: nat, options: Options, span: Option<A.SpanCursor>) {
    var limit := A.Least(draftLen, budget);
    if !open || budget == 0 then arm == Plain && p.None?
    else if
      options.tuning.spanContinuation && span.Some? && span.value.next < |index| && !options.isStop(index[span.value.next])
    then
      arm == NgramSpan && FromSpan(index, p, limit, span.value, options.isStop)
    else
      && arm == (if p.None? then Plain else NgramKey)
      && FromKeys(hash, index, options.minMatch, options.isStop, p)
      && (p.Some? ==> Copies(index, p.value, options.isStop) && Reaches(index, p.value, limit, options.isStop))
  }

  /** The span the next step may continue. */
  function NextSpan(index: seq<Token>, arm: StepArm, proposal: Option<NgramDraft>, span: Option<A.SpanCursor>,
                    continuation: bool, accepted: nat, authoritative: Token): Option<A.SpanCursor> {
    if IsNgram(arm) && continuation && proposal.Some? then
      var d := proposal.value;
      var follow := d.sourcePosition + 1 + |d.tokens|;
      A.ChainSpan(span, d.sourcePosition, |d.tokens|, accepted, d.matchLen,
                  if follow < |index| then Some(index[follow]) else None, authoritative)
    else None
  }

  /** A proposal copied from a live span of `len` matched tokens. */
  ghost predicate Genuine(index: seq<Token>, d: NgramDraft, len: nat, isStop: Token -> bool) {
    A.SpanLive(index, d.sourcePosition + 1, len) && d.matchLen <= len && Copies(index, d, isStop)
  }

  /** The next step inherits a span exactly when the index drafted, spans may be
      continued, the pass took the whole proposal, and with everything it
      committed the span is still a match; it is then a genuine match of the
      longer sequence, grown by all of that. */
  lemma NextSpanLive(index: seq<Token>, arm: StepArm, proposal: Option<NgramDraft>, len: nat, span: Option<A.SpanCursor>,
                     continuation: bool, isStop: Token -> bool, accepted: nat, authoritative: Token)
    requires proposal.Some? ==> Genuine(index, proposal.value, len, isStop) && proposal.value.tokens != []
    ensures var next := NextSpan(index, arm, proposal, span, continuation, accepted, authoritative);
      && (next.Some? <==>
           && (arm == NgramKey || arm == NgramSpan) && continuation && proposal.Some? && accepted == |proposal.value.tokens|
           && var follow := proposal.value.sourcePosition + 1 + accepted;
              follow < |index| && A.SpanLive(index + proposal.value.tokens + [authoritative], follow + 1, len + accepted + 1))
      && (next.Some? ==>
           && next.value.next == proposal.value.sourcePosition + accepted + 2 && next.value.matchLen == proposal.value.matchLen <= len
           && A.SpanLive(index + proposal.value.tokens + [authoritative], next.value.next, len + |proposal.value.tokens| + 1))
  {
    hide A.SpanLive, A.ChainSpan;
    if proposal.Some? {
      var d := proposal.value;
      A.ChainsIffStillLive(index, d.sourcePosition, len, d.tokens, authoritative, span, d.matchLen, accepted);
    }
  }

  /** One pass of a policy turn, as it is recorded: the arm that drafted, what it
      drafted and how much was accepted, both arms afterwards, and the span the
      pass could continue, the one it leaves, and the index's proposal. */
  datatype StepRecord = StepRecord(
    committedBefore: nat, arm: StepArm, drafts: seq<Token>, accepted: nat, ngram: A.Arm, mtp: A.Arm,
    from: Option<A.SpanCursor>, next: Option<A.SpanCursor>, proposal: Option<NgramDraft>)

  /** An arm is told how a pass went exactly when it drafted for it. */
  function Told(c: A.ArmConfig, a: A.Arm, proposed: nat, accepted: nat, committedBefore: nat, drafted: bool): A.Arm {
    if drafted then A.Observed(c, a, proposed, accepted, committedBefore + 1 + accepted) else a
  }

  /** An arm after a pass: polled, and told how the pass went if it drafted. */
  function ArmAfter(c: A.ArmConfig, a: A.Arm, record: StepRecord, drafted: bool): A.Arm {
    Told(c, A.Polled(c, a, record.committedBefore).0, |record.drafts|, record.accepted, record.committedBefore, drafted)
  }

  predicate IsNgram(arm: StepArm) { arm == NgramKey || arm == NgramSpan }

  /** A pass that starts from these two arms: an arm that does not draft is only
      polled. */
  predicate Linked(ngram: A.ArmConfig, mtp: A.ArmConfig, ngramBefore: A.Arm, mtpBefore: A.Arm, r: StepRecord) {
    && r.accepted <= |r.drafts| && (r.arm == Plain <==> r.drafts == [])
    && r.ngram == ArmAfter(ngram, ngramBefore, r, IsNgram(r.arm)) && r.mtp == ArmAfter(mtp, mtpBefore, r, r.arm == Mtp)
  }

  /** Each pass starts from the arms, and with the span, that the pass before it
      left, behind everything that pass committed. */
  predicate Recorded(ngram: A.ArmConfig, mtp: A.ArmConfig, firstNgram: A.Arm, firstMtp: A.Arm, records: seq<StepRecord>) {
    && (records != [] ==> Linked(ngram, mtp, firstNgram, firstMtp, records[0]) && records[0].from == None)
    && forall i :: 1 <= i < |records| ==> Succeeds(ngram, mtp, records[i - 1], records[i])
  }

  predicate Succeeds(ngram: A.ArmConfig, mtp: A.ArmConfig, before: StepRecord, r: StepRecord) {
    && Linked(ngram, mtp, before.ngram, before.mtp, r)
    && r.from == before.next && r.committedBefore > before.committedBefore + before.accepted
  }

  /** The passes of a turn of this mode, from its first. */
  predicate RecordedFor(options: Options, mode: A.SpeculativeMode, mtpUsable: bool, records: seq<StepRecord>) {
    var (ngram, mtp) := A.ArmConfigs(options.tuning, options.mtpDraftTokens, options.ngramDraftTokens, mode, mtpUsable);
    Recorded(ngram, mtp, A.NewArm(ngram), A.NewArm(mtp), records)
  }

  /** What a run of passes has left for the next. */
  predicate LeftBy(records: seq<StepRecord>, start: nat, firstNgram: A.Arm, firstMtp: A.Arm,
                   committed: nat, ngram: A.Arm, mtp: A.Arm, span: Option<A.SpanCursor>) {
    if records == [] then committed == start && ngram == firstNgram && mtp == firstMtp && span == None
    else
      var last := records[|records| - 1];
      && records[0].committedBefore == start && committed > last.committedBefore + last.accepted
      && ngram == last.ngram && mtp == last.mtp && span == last.next
  }

  /** Only the arm that drafted learns from a pass: it grows on full acceptance,
      and if the pass suspends it, then for a window from the last token the
      pass committed. The other arm's average and window stay. */
  lemma DrafterLearns(ngram: A.ArmConfig, mtp: A.ArmConfig, ngramBefore: A.Arm, mtpBefore: A.Arm, r: StepRecord)
    requires Linked(ngram, mtp, ngramBefore, mtpBefore, r)
    ensures r.arm == Mtp || r.arm == Plain ==> r.ngram.ewma == ngramBefore.ewma && r.ngram.window == ngramBefore.window
    ensures r.arm != Mtp ==> r.mtp.ewma == mtpBefore.ewma && r.mtp.window == mtpBefore.window
    ensures r.arm == NgramKey || r.arm == NgramSpan ==> Learned(ngram, ngramBefore, r, r.ngram)
    ensures r.arm == Mtp ==> Learned(mtp, mtpBefore, r, r.mtp)
  {
    hide A.Blended, A.Fraction;
  }

  predicate Learned(c: A.ArmConfig, before: A.Arm, r: StepRecord, now: A.Arm) {
    && r.drafts != []
    && (c.adaptive && r.accepted == |r.drafts| && before.suspendedUntil.None? ==> now.len == A.Least(before.len + c.grow, c.cap))
    && (c.backoff && before.suspendedUntil.None? ==>
         now.suspendedUntil
         == if now.ewma < c.suspendBelow then Some(r.committedBefore + r.accepted + 1 + now.window) else None)
  }

  /** An arm that no pass of a turn drafts with keeps its average. */
  lemma {:induction false} IdleArmsKeep(ngram: A.ArmConfig, mtp: A.ArmConfig, firstNgram: A.Arm, firstMtp: A.Arm,
                                        records: seq<StepRecord>, i: nat)
    requires Recorded(ngram, mtp, firstNgram, firstMtp, records) && i < |records|
    ensures (forall j :: 0 <= j <= i ==> records[j].arm == Mtp || records[j].arm == Plain) ==> records[i].ngram.ewma == firstNgram.ewma
    ensures (forall j :: 0 <= j <= i ==> records[j].arm != Mtp) ==> records[i].mtp.ewma == firstMtp.ewma
    decreases i
  {
    hide Linked;
    if i == 0 {
      DrafterLearns(ngram, mtp, firstNgram, firstMtp, records[0]);
    } else {
      IdleArmsKeep(ngram, mtp, firstNgram, firstMtp, records, i - 1);
      assert Succeeds(ngram, mtp, records[i - 1], records[i]);
      DrafterLearns(ngram, mtp, records[i - 1].ngram, records[i - 1].mtp, records[i]);
    }
  }

  lemma NoRecords(ngram: A.ArmConfig, mtp: A.ArmConfig, firstNgram: A.Arm, firstMtp: A.Arm, start: nat)
    ensures Recorded(ngram, mtp, firstNgram, firstMtp, []) && LeftBy([], start, firstNgram, firstMtp, start, firstNgram, firstMtp, None)
  {}

  lemma RecordMore(ngram: A.ArmConfig, mtp: A.ArmConfig, firstNgram: A.Arm, firstMtp: A.Arm, records: seq<StepRecord>,
                   start: nat, ngramBefore: A.Arm, mtpBefore: A.Arm, record: StepRecord)
    requires Recorded(ngram, mtp, firstNgram, firstMtp, records)
    requires LeftBy(records, start, firstNgram, firstMtp, record.committedBefore, ngramBefore, mtpBefore, record.from)
    requires Linked(ngram, mtp, ngramBefore, mtpBefore, record)
    ensures Recorded(ngram, mtp, firstNgram, firstMtp, records + [record])
    ensures (records + [record])[0].committedBefore == start
    ensures forall committed, span :: committed > record.committedBefore + record.accepted && span == record.next ==>
      LeftBy(records + [record], start, firstNgram, firstMtp, committed, record.ngram, record.mtp, span)
  {
    hide Linked;
    var all := records + [record];
    forall i | 1 <= i < |all| ensures Succeeds(ngram, mtp, all[i - 1], all[i]) {
      if i < |records| {
        assert all[i - 1] == records[i - 1] && all[i] == records[i];
      } else {
        assert all[i - 1] == records[|records| - 1] && all[i] == record;
      }
    }
  }

  /** How many drafts a pass may carry: were all of them accepted, neither the
      turn's limit nor an open section's budget could end the turn before the
      last of its outputs; and no more would do. */
  function StepBudget(maxNew: nat, generated: nat, thinking: Option<Budget>): (r: nat)
    requires generated < maxNew
    ensures generated + r + 1 <= maxNew
    ensures thinking.Some? && thinking.value.active && thinking.value.committed <= thinking.value.budget ==>
      thinking.value.committed + r <= thinking.value.budget
    ensures generated + r + 1 == maxNew
      || (thinking.Some? && thinking.value.active && thinking.value.committed + r >= thinking.value.budget)
  {
    var rest: nat := maxNew - generated - 1;
    if thinking.Some? && thinking.value.active then
      var left: nat := if thinking.value.budget >= thinking.value.committed then thinking.value.budget - thinking.value.committed else 0;
      A.Least(rest, left)
    else rest
  }

  /** The first option that applies: a live span, a key match, an MTP draft, or
      nothing; each as long as its arm and the budget allow. */
  ghost predicate Chosen(m: Model, predictor: Option<Predictor>, hash: seq<Token> -> Hash, index: seq<Token>, context: seq<Token>,
                         seed: Token, ngramPolled: (A.Arm, bool), mtpPolled: (A.Arm, bool), budget: nat, options: Options,
                         span: Option<A.SpanCursor>, arm: StepArm, proposal: Option<NgramDraft>, drafts: seq<Token>)
    requires context != []
  {
    && Proposed(hash, index, if arm == Mtp then Plain else arm, proposal, ngramPolled.1, ngramPolled.0.len, budget, options, span)
    && (if proposal.Some? then drafts == proposal.value.tokens && drafts != []
        else
          var depth := A.Least(mtpPolled.0.len, budget);
          if mtpPolled.1 && depth > 0 then
            predictor.Some? && MtpDrafts(m, predictor.value, context, seed, depth, options.isStop, drafts)
          else drafts == [])
    && (arm == Mtp <==> proposal.None? && drafts != [])
  }

  /** A pass after `context` and the seed is the one `record` tells of: what it
      drafted, and how much of it the target agreed with. */
  ghost predicate PassOf(m: Model, predictor: Option<Predictor>, hash: seq<Token> -> Hash, index: seq<Token>, context: seq<Token>,
                         seed: Token, ngramPolled: (A.Arm, bool), mtpPolled: (A.Arm, bool), budget: nat, options: Options,
                         record: StepRecord)
    requires context != []
  {
    && Chosen(m, predictor, hash, index, context, seed, ngramPolled, mtpPolled, budget, options, record.from, record.arm,
              record.proposal, record.drafts)
    && record.accepted <= |record.drafts|
    && (forall j :: 0 <= j < record.accepted ==> record.drafts[j] == Greedy(m, context + [seed] + record.drafts[..j]))
    && (record.accepted < |record.drafts| ==>
         record.drafts[record.accepted] != Greedy(m, context + [seed] + record.drafts[..record.accepted]))
  }

  /** How the pass's outputs went out. If all did, they are its accepted drafts
      and the target's choice after them, and the next pass may go on with the
      span; otherwise it may not. */
  ghost predicate HandedOver(m: Model, continuation: bool, index: seq<Token>, context: seq<Token>, seed: Token,
                             before: seq<Token>, all: bool, record: StepRecord, generated: seq<Token>)
    requires context != []
  {
    && record.accepted <= |record.drafts|
    && var authoritative := Greedy(m, context + [seed] + record.drafts[..record.accepted]);
       && record.next == (
            if all then
              NextSpan(index, record.arm, record.proposal, record.from, continuation, record.accepted, authoritative)
            else None)
       && (all ==> generated == before + record.drafts[..record.accepted] + [authoritative])
  }

  // ----- the index over a turn -----

  /** `generated` goes on from `before`, and the index took exactly what it adds. */
  predicate Grew(was: seq<Token>, now: seq<Token>, before: seq<Token>, generated: seq<Token>) {
    before <= generated && now == was + generated[|before|..]
  }

  lemma GrewNot(was: seq<Token>, before: seq<Token>)
    ensures Grew(was, was, before, before)
  {}

  lemma GrewBy(was: seq<Token>, before: seq<Token>, more: seq<Token>)
    ensures Grew(was, was + more, before, before + more)
  {
    assert (before + more)[|before|..] == more;
  }

  lemma GrewOn(was: seq<Token>, between: seq<Token>, now: seq<Token>, before: seq<Token>, middle: seq<Token>, generated: seq<Token>)
    requires Grew(was, between, before, middle) && Grew(between, now, middle, generated)
    ensures Grew(was, now, before, generated)
  {
    assert generated[|before|..] == middle[|before|..] + generated[|middle|..];
  }
}
