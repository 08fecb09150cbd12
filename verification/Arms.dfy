/** The per-arm draft controllers of the speculative policy: adaptive draft
    length, acceptance EWMA, suspension with backoff and probing. EWMAs are
    real numbers; draft lengths and windows are `usize` values. */
module Arms {
  import opened Wrappers
  import opened Indexing
  import opened TargetModel

  const USIZE_MAX: nat := 0xFFFF_FFFF_FFFF_FFFF

  datatype ArmConfig = ArmConfig(
    enabled: bool, floor: nat, cap: nat, start: nat, grow: nat,
    adaptive: bool, backoff: bool, alpha: real, suspendBelow: real,
    backoffTokens: nat, backoffCap: nat, probeLen: Option<nat>, initialEwma: real)
  {
    function Low(): (r: nat)
      ensures r <= cap && r <= floor
    {
      if floor <= cap then floor else cap
    }

    function ClampLen(x: nat): (r: nat)
      ensures Low() <= r <= cap
      ensures Low() <= x <= cap ==> r == x
    {
      if x < Low() then Low() else if x > cap then cap else x
    }
  }

  datatype Arm = Arm(len: nat, ewma: real, suspendedUntil: Option<nat>, window: nat, probing: bool)

  function NewArm(c: ArmConfig): Arm {
    Arm(c.ClampLen(c.start), c.initialEwma, None, c.backoffTokens, false)
  }

  /** Whether the arm may draft, lifting an expired suspension. */
  function Polled(c: ArmConfig, a: Arm, committed: nat): (r: (Arm, bool))
    ensures r.1 ==> c.enabled
  {
    if !c.enabled then (a, false)
    else if a.suspendedUntil.None? then (a, true)
    else if committed < a.suspendedUntil.value then (a, false)
    else (a.(suspendedUntil := None, probing := true,
             len := if c.probeLen.Some? then c.ClampLen(c.probeLen.value) else a.len), true)
  }

  function Fraction(proposed: nat, accepted: nat): (r: real)
    requires proposed > 0
    ensures accepted <= proposed ==> 0.0 <= r <= 1.0
    ensures accepted == 0 ==> r == 0.0
  {
    FractionBounds(proposed, accepted);
    accepted as real / proposed as real
  }

  lemma FractionBounds(proposed: nat, accepted: nat)
    requires proposed > 0
    ensures accepted <= proposed ==> 0.0 <= accepted as real / proposed as real <= 1.0
  {
    var p, q := proposed as real, accepted as real / proposed as real;
    assert q * p == accepted as real;
    assert q > 1.0 ==> q * p > p;
  }

  function Blended(alpha: real, fraction: real, ewma: real): real {
    alpha * fraction + (1.0 - alpha) * ewma
  }

  /** The draft length after one proposal fared `accepted` of `proposed`. */
  function AdaptedLen(c: ArmConfig, len: nat, proposed: nat, accepted: nat): nat {
    if !c.adaptive then len
    else if accepted == proposed then (if len + c.grow <= c.cap then len + c.grow else c.cap)
    else if accepted * 2 < proposed then (if len / 2 >= c.Low() then len / 2 else c.Low())
    else len
  }

  function DoubledWindow(c: ArmConfig, window: nat): nat {
    var doubled := if 2 * window <= USIZE_MAX then 2 * window else USIZE_MAX;
    if doubled <= c.backoffCap then doubled else c.backoffCap
  }

  /** Record how one proposal fared. */
  function Observed(c: ArmConfig, a: Arm, proposed: nat, accepted: nat, committed: nat): Arm {
    if proposed == 0 then a
    else
      var fraction := Fraction(proposed, accepted);
      var ewma := if a.probing then fraction else Blended(c.alpha, fraction, a.ewma);
      var b := a.(probing := false, ewma := ewma, len := AdaptedLen(c, a.len, proposed, accepted));
      if !c.backoff then b
      else if a.probing then
        if fraction >= c.suspendBelow then b.(window := c.backoffTokens)
        else
          var window := DoubledWindow(c, a.window);
          b.(window := window, suspendedUntil := Some(committed + window))
      else if ewma < c.suspendBelow then
        b.(window := c.backoffTokens, suspendedUntil := Some(committed + c.backoffTokens))
      else b
  }

  // ----- modes and the two arms' configurations -----

  datatype SpeculativeMode = Off | Auto | NgramOnly | MtpOnly

  predicate AllowsNgram(mode: SpeculativeMode) { mode.Auto? || mode.NgramOnly? }
  predicate AllowsMtp(mode: SpeculativeMode) { mode.Auto? || mode.MtpOnly? }

  const DEFAULT_NGRAM_DRAFT_CAP: nat := 7
  const DEFAULT_MTP_DEPTH_CAP: nat := 7

  datatype Tuning = Tuning(
    ngramDraftFloor: nat, mtpDepthFloor: nat, mtpDepthStart: nat,
    ngramSuspendBelow: real, mtpSuspendBelow: real, alpha: real, backoffTokens: nat, backoffCap: nat,
    spanContinuation: bool, adaptiveLength: bool, ewmaBackoff: bool, eagerMtpResync: bool)

  /** The mode a run really uses: the deprecated draft-token fields select a
      single arm when no mode was given. */
  function EffectiveMode(mode: SpeculativeMode, mtpDraftTokens: nat, ngramDraftTokens: nat): (r: SpeculativeMode)
    ensures !mode.Off? ==> r == mode
    ensures mode.Off? ==> (r.Off? <==> mtpDraftTokens + ngramDraftTokens == 0) && !r.Auto?
    ensures mode.Off? ==> (r.MtpOnly? <==> mtpDraftTokens > 0)
  {
    if mode.Off? && mtpDraftTokens > 0 then MtpOnly
    else if mode.Off? && ngramDraftTokens > 0 then NgramOnly
    else mode
  }

  /** Both arms' configurations for one run. The MTP arm is enabled only when
      the mode allows it and the predictor is usable. */
  function ArmConfigs(t: Tuning, mtpDraftTokens: nat, ngramDraftTokens: nat, mode: SpeculativeMode, mtpUsable: bool)
    : (r: (ArmConfig, ArmConfig))
    ensures r.0.enabled <==> AllowsNgram(mode)
    ensures r.1.enabled <==> AllowsMtp(mode) && mtpUsable
    ensures r.0.Low() >= 1 && r.1.Low() >= 1
  {
    var ngramCap := if ngramDraftTokens == 0 then DEFAULT_NGRAM_DRAFT_CAP else ngramDraftTokens;
    var mtpCap := if mtpDraftTokens == 0 then DEFAULT_MTP_DEPTH_CAP else mtpDraftTokens;
    var ngramFloor := if t.ngramDraftFloor < 1 then 1 else if t.ngramDraftFloor > ngramCap then ngramCap else t.ngramDraftFloor;
    var mtpFloor := if t.mtpDepthFloor < 1 then 1 else if t.mtpDepthFloor > mtpCap then mtpCap else t.mtpDepthFloor;
    (ArmConfig(AllowsNgram(mode), ngramFloor, ngramCap, ngramCap, 2, t.adaptiveLength, t.ewmaBackoff,
               t.alpha, t.ngramSuspendBelow, t.backoffTokens, t.backoffCap, None, 1.0),
     ArmConfig(AllowsMtp(mode) && mtpUsable, mtpFloor, mtpCap, t.mtpDepthStart, 1, t.adaptiveLength, t.ewmaBackoff,
               t.alpha, t.mtpSuspendBelow, t.backoffTokens, t.backoffCap, Some(mtpFloor), 1.0))
  }

  /** Which arms a mode lets draft, how long their drafts are at first, at most
      and at a probe, and how fast they grow. */
  lemma ArmsOfMode(t: Tuning, mtpDraftTokens: nat, ngramDraftTokens: nat, mode: SpeculativeMode, mtpUsable: bool)
    ensures var (ngram, mtp) := ArmConfigs(t, mtpDraftTokens, ngramDraftTokens, mode, mtpUsable);
      && (ngram.enabled <==> mode == Auto || mode == NgramOnly)
      && (mtp.enabled <==> mtpUsable && (mode == Auto || mode == MtpOnly))
      && ngram.cap == (if ngramDraftTokens > 0 then ngramDraftTokens else 7)
      && mtp.cap == (if mtpDraftTokens > 0 then mtpDraftTokens else 7)
      && NewArm(ngram).len == ngram.cap && 1 <= ngram.Low() <= ngram.cap && 1 <= mtp.Low() <= mtp.cap
      && (mtp.Low() <= t.mtpDepthStart <= mtp.cap ==> NewArm(mtp).len == t.mtpDepthStart)
      && (1 <= t.ngramDraftFloor <= ngram.cap ==> ngram.Low() == t.ngramDraftFloor)
      && (1 <= t.mtpDepthFloor <= mtp.cap ==> mtp.Low() == t.mtpDepthFloor)
      && ngram.probeLen == None && mtp.probeLen == Some(mtp.Low()) && ngram.grow == 2 && mtp.grow == 1
      && NewArm(ngram).ewma == NewArm(mtp).ewma == 1.0 && NewArm(ngram).suspendedUntil == NewArm(mtp).suspendedUntil == None
  {}

  /** An arm's other settings are the run's, the suspension bar its own. */
  lemma ArmsAreTuned(t: Tuning, mtpDraftTokens: nat, ngramDraftTokens: nat, mode: SpeculativeMode, mtpUsable: bool)
    ensures var (ngram, mtp) := ArmConfigs(t, mtpDraftTokens, ngramDraftTokens, mode, mtpUsable);
      && ngram.suspendBelow == t.ngramSuspendBelow && mtp.suspendBelow == t.mtpSuspendBelow
      && forall c :: c == ngram || c == mtp ==>
           && c.adaptive == t.adaptiveLength && c.backoff == t.ewmaBackoff && c.alpha == t.alpha
           && c.backoffTokens == t.backoffTokens && c.backoffCap == t.backoffCap
  {}

  // ----- span chaining -----

  datatype SpanCursor = SpanCursor(next: nat, matchLen: nat, links: nat)

  /** Continue a source span only when every proposed token verified and the
      token the span predicts next is the one the target chose. */
  function ChainSpan(previous: Option<SpanCursor>, sourcePosition: nat, proposed: nat, accepted: nat,
                     matchLen: nat, followToken: Option<Token>, authoritative: Token): Option<SpanCursor> {
    if proposed == 0 || accepted != proposed || followToken != Some(authoritative) then None
    else Some(SpanCursor(sourcePosition + 1 + (proposed + 1), matchLen,
                         if previous.None? then 1 else previous.value.links + 1))
  }

  /** A live span: the `len` tokens before `next` are the `len` tokens the
      sequence ends with, and `next` is still inside the sequence. */
  predicate SpanLive(tokens: seq<Token>, next: nat, len: nat) {
    len <= next < |tokens| && tokens[next - len..next] == tokens[|tokens| - len..]
  }

  /** A chained span stays a genuine match, longer by everything the pass
      committed, and its cursor stays inside the index. */
  lemma ChainedSpanStaysLive(tokens: seq<Token>, sourcePosition: nat, len: nat, drafts: seq<Token>, authoritative: Token,
                             previous: Option<SpanCursor>, matchLen: nat, accepted: nat)
    requires SpanLive(tokens, sourcePosition + 1, len) && matchLen <= len
    requires sourcePosition + 1 + |drafts| <= |tokens|
    requires drafts == tokens[sourcePosition + 1..sourcePosition + 1 + |drafts|]
    ensures var follow := sourcePosition + 1 + |drafts|;
            var span := ChainSpan(previous, sourcePosition, |drafts|, accepted, matchLen,
                                  if follow < |tokens| then Some(tokens[follow]) else None, authoritative);
            span.Some? ==>
              && span.value.matchLen <= len
              && SpanLive(tokens + drafts + [authoritative], span.value.next, len + |drafts| + 1)
  {
    var follow := sourcePosition + 1 + |drafts|;
    if follow < |tokens| && tokens[follow] == authoritative {
      var now, next := tokens + drafts + [authoritative], follow + 1;
      var grown := len + |drafts| + 1;
      var source, suffix := now[next - grown..next], now[|now| - grown..];
      forall i | 0 <= i < grown ensures source[i] == suffix[i] {
        assert source[i] == tokens[next - grown + i];
        if i < len {
          assert suffix[i] == tokens[|tokens| - len + i];
          assert tokens[sourcePosition + 1 - len..sourcePosition + 1][i] == tokens[|tokens| - len..][i];
        } else if i < len + |drafts| {
          assert suffix[i] == drafts[i - len];
          assert tokens[sourcePosition + 1..follow][i - len] == drafts[i - len];
        }
      }
    }
  }

  /** A span goes on exactly when the pass took all it proposed, the index goes
      on past the span, and with the tokens just committed the span is still a
      match, longer by all of them; it resumes after the last of them. */
  lemma ChainsIffStillLive(tokens: seq<Token>, sourcePosition: nat, len: nat, drafts: seq<Token>, authoritative: Token,
                           previous: Option<SpanCursor>, matchLen: nat, accepted: nat)
    requires SpanLive(tokens, sourcePosition + 1, len) && drafts != []
    requires sourcePosition + 1 + |drafts| <= |tokens|
    requires drafts == tokens[sourcePosition + 1..sourcePosition + 1 + |drafts|]
    ensures var follow := sourcePosition + 1 + |drafts|;
            var span := ChainSpan(previous, sourcePosition, |drafts|, accepted, matchLen,
                                  if follow < |tokens| then Some(tokens[follow]) else None, authoritative);
            && (span.Some? <==>
                 accepted == |drafts| && follow < |tokens|
                 && SpanLive(tokens + drafts + [authoritative], follow + 1, len + |drafts| + 1))
            && (span.Some? ==>
                 span.value.next == follow + 1 && span.value.matchLen == matchLen
                 && span.value.links == if previous.Some? then previous.value.links + 1 else 1)
  {
    var follow := sourcePosition + 1 + |drafts|;
    if accepted == |drafts| && follow < |tokens| {
      var now, grown := tokens + drafts + [authoritative], len + |drafts| + 1;
      if tokens[follow] == authoritative {
        ChainedSpanStaysLive(tokens, sourcePosition, len, drafts, authoritative, previous, 0, accepted);
      } else {
        assert now[follow + 1 - grown..follow + 1][grown - 1] == tokens[follow];
        assert now[|now| - grown..][grown - 1] == authoritative;
      }
    }
  }

  class ArmController {
    const config: ArmConfig
    var len: nat
    var ewma: real
    var suspendedUntil: Option<nat>
    var backoffWindow: nat
    var probing: bool

    function State(): Arm
      reads this
    {
      Arm(len, ewma, suspendedUntil, backoffWindow, probing)
    }

    constructor (c: ArmConfig)
      ensures config == c && State() == NewArm(c)
    {
      config := c;
      len := c.ClampLen(c.start);
      ewma, suspendedUntil, backoffWindow, probing := c.initialEwma, None, c.backoffTokens, false;
    }

    method Poll(committed: nat) returns (open: bool)
      modifies this
      ensures (State(), open) == Polled(config, old(State()), committed)
    {
      if !config.enabled { return false; }
      if suspendedUntil.Some? {
        if committed < suspendedUntil.value { return false; }
        suspendedUntil := None;
        probing := true;
        if config.probeLen.Some? { len := config.ClampLen(config.probeLen.value); }
      }
      return true;
    }

    method Observe(proposed: nat, accepted: nat, committed: nat)
      modifies this
      ensures State() == Observed(config, old(State()), proposed, accepted, committed)
    {
      hide Blended, Fraction;
      if proposed == 0 { return; }
      var fraction := Fraction(proposed, accepted);
      var wasProbing := probing;
      if wasProbing {
        probing := false;
        ewma := fraction;
      } else {
        ewma := Blended(config.alpha, fraction, ewma);
      }
      if config.adaptive {
        if accepted == proposed {
          len := if len + config.grow <= config.cap then len + config.grow else config.cap;
        } else if accepted * 2 < proposed {
          len := if len / 2 >= config.Low() then len / 2 else config.Low();
        }
      }
      if !config.backoff { return; }
      if wasProbing {
        if fraction >= config.suspendBelow {
          backoffWindow := config.backoffTokens;
        } else {
          backoffWindow := DoubledWindow(config, backoffWindow);
          Suspend(committed);
        }
      } else if ewma < config.suspendBelow {
        backoffWindow := config.backoffTokens;
        Suspend(committed);
      }
    }

    method Suspend(committed: nat)
      modifies this`suspendedUntil
      ensures suspendedUntil == Some(committed + backoffWindow)
    {
      suspendedUntil := Some(committed + backoffWindow);
    }
  }

  lemma PolledLen(c: ArmConfig, a: Arm, committed: nat)
    requires c.Low() <= a.len <= c.cap
    ensures c.Low() <= Polled(c, a, committed).0.len <= c.cap
  {}

  lemma ObservedLen(c: ArmConfig, a: Arm, proposed: nat, accepted: nat, committed: nat)
    requires c.Low() <= a.len <= c.cap
    ensures c.Low() <= Observed(c, a, proposed, accepted, committed).len <= c.cap
  {}

  // ----- every run -----

  datatype Event = Poll(committed: nat) | Observe(proposed: nat, accepted: nat, committed: nat)

  /** An arm together with how many probes have failed since the last
      successful probe or the last suspension that was not a failed probe. */
  datatype Tracked = Tracked(arm: Arm, failures: nat)

  function Stepped(c: ArmConfig, t: Tracked, e: Event): Tracked {
    match e
    case Poll(committed) => t.(arm := Polled(c, t.arm, committed).0)
    case Observe(proposed, accepted, committed) =>
      Tracked(
        Observed(c, t.arm, proposed, accepted, committed),
        if proposed == 0 || !c.backoff then t.failures
        else if t.arm.probing then (if Fraction(proposed, accepted) >= c.suspendBelow then 0 else t.failures + 1)
        else if Observed(c, t.arm, proposed, accepted, committed).ewma < c.suspendBelow then 0
        else t.failures)
  }

  function After(c: ArmConfig, events: seq<Event>): Tracked {
    if events == [] then Tracked(NewArm(c), 0)
    else Stepped(c, After(c, events[..|events| - 1]), events[|events| - 1])
  }

  function Pow2(k: nat): (r: nat)
    ensures r >= 1
  {
    if k == 0 then 1 else 2 * Pow2(k - 1)
  }

  function Window(c: ArmConfig, failures: nat): nat {
    var w := c.backoffTokens * Pow2(failures);
    if w <= c.backoffCap then w else c.backoffCap
  }

  lemma DoubledIsNextWindow(c: ArmConfig, k: nat)
    requires c.backoffTokens <= c.backoffCap <= USIZE_MAX
    ensures DoubledWindow(c, Window(c, k)) == Window(c, k + 1)
  {
    var w := c.backoffTokens * Pow2(k);
    assert c.backoffTokens * Pow2(k + 1) == 2 * w;
  }

  predicate HonestRun(events: seq<Event>) {
    forall e :: e in events && e.Observe? ==> e.accepted <= e.proposed
  }

  /** What holds of the arm after every run. */
  predicate ArmInvariant(c: ArmConfig, t: Tracked) {
    && c.Low() <= t.arm.len <= c.cap
    && !(t.arm.suspendedUntil.Some? && t.arm.probing)
    && t.arm.window == Window(c, t.failures)
    && (!c.backoff ==> t.arm.suspendedUntil.None? && !t.arm.probing)
  }

  /** Draft length stays in [min(floor, cap), cap], the arm is never suspended
      and probing at once, and after `k` consecutive failed probes the window
      is min(backoff_tokens * 2^k, backoff_cap). */
  lemma {:induction false} EveryRunKeepsInvariant(c: ArmConfig, events: seq<Event>)
    requires c.backoffTokens <= c.backoffCap <= USIZE_MAX
    ensures ArmInvariant(c, After(c, events))
    decreases |events|
  {
    if events == [] {
      assert Pow2(0) == 1;
    } else {
      var t := After(c, events[..|events| - 1]);
      EveryRunKeepsInvariant(c, events[..|events| - 1]);
      DoubledIsNextWindow(c, t.failures);
      assert c.backoffTokens * Pow2(0) == c.backoffTokens;
    }
  }

  lemma BlendBounds(alpha: real, fraction: real, ewma: real)
    requires 0.0 <= alpha <= 1.0 && 0.0 <= fraction <= 1.0 && 0.0 <= ewma <= 1.0
    ensures 0.0 <= Blended(alpha, fraction, ewma) <= 1.0
  {
    assert 0.0 <= alpha * fraction <= alpha;
    assert 0.0 <= (1.0 - alpha) * ewma <= 1.0 - alpha;
  }

  /** With a blend weight in [0, 1] the EWMA stays in [0, 1] over every run. */
  lemma {:induction false} EwmaStaysInUnit(c: ArmConfig, events: seq<Event>)
    requires HonestRun(events) && 0.0 <= c.alpha <= 1.0 && 0.0 <= c.initialEwma <= 1.0
    ensures 0.0 <= After(c, events).arm.ewma <= 1.0
    decreases |events|
  {
    if events != [] {
      var last := events[|events| - 1];
      assert last in events;
      EwmaStaysInUnit(c, events[..|events| - 1]);
      if last.Observe? && last.proposed > 0 {
        BlendBounds(c.alpha, Fraction(last.proposed, last.accepted), After(c, events[..|events| - 1]).arm.ewma);
      }
    }
  }

  /** The blend weight is a command-line value nothing validates. The EWMA is
      confined to [0, 1] over all runs from the shipped prior of one exactly
      when that weight is itself in [0, 1]. */
  lemma EwmaConfinedIff(c: ArmConfig)
    requires c.initialEwma == 1.0
    ensures (forall events :: HonestRun(events) ==> 0.0 <= After(c, events).arm.ewma <= 1.0)
       <==> 0.0 <= c.alpha <= 1.0
  {
    if 0.0 <= c.alpha <= 1.0 {
      forall events | HonestRun(events) ensures 0.0 <= After(c, events).arm.ewma <= 1.0 {
        EwmaStaysInUnit(c, events);
      }
    } else {
      OneRejectionLeavesUnit(c);
    }
  }

  /** With any other factor, one rejected proposal takes the average out. */
  lemma OneRejectionLeavesUnit(c: ArmConfig)
    requires c.initialEwma == 1.0 && !(0.0 <= c.alpha <= 1.0)
    ensures HonestRun([Observe(1, 0, 0)]) && !(0.0 <= After(c, [Observe(1, 0, 0)]).arm.ewma <= 1.0)
  {
    var events := [Observe(1, 0, 0)];
    assert events[..0] == [];
    assert After(c, []) == Tracked(NewArm(c), 0);
    assert After(c, events) == Stepped(c, After(c, []), events[0]);
    assert After(c, events).arm.ewma == 1.0 - c.alpha;
  }

  /** The suspension that observation `i` of a run put in force. */
  predicate Suspends(c: ArmConfig, events: seq<Event>, i: nat)
    requires i < |events|
  {
    && events[i].Observe?
    && var now := After(c, events[..i + 1]).arm;
       now.suspendedUntil == Some(events[i].committed + now.window)
  }

  /** It is the one still in force at the end. */
  predicate SetBy(c: ArmConfig, events: seq<Event>, i: nat)
    requires i < |events|
  {
    Suspends(c, events, i) && After(c, events[..i + 1]).arm.suspendedUntil == After(c, events).arm.suspendedUntil
  }

  /** Every suspension in force was set by an observation of the run, to end one
      window after it. */
  lemma {:induction false} SuspensionIsAWindow(c: ArmConfig, events: seq<Event>)
    requires After(c, events).arm.suspendedUntil.Some?
    ensures exists i :: 0 <= i < |events| && SetBy(c, events, i)
    decreases |events|
  {
    hide Fraction, AdaptedLen, Blended;
    var n := |events| - 1;
    assert events[..n + 1] == events;
    if Suspends(c, events, n) {
      assert SetBy(c, events, n);
    } else {
      SuspensionIsAWindow(c, events[..n]);
      var i :| 0 <= i < n && SetBy(c, events[..n], i);
      assert events[..n][..i + 1] == events[..i + 1];
      assert SetBy(c, events, i);
    }
  }

  /** Nothing that can happen to a suspended arm before its window ends. */
  predicate Waits(e: Event, until: nat) {
    match e
    case Poll(committed) => committed < until
    case Observe(proposed, _, _) => proposed == 0
  }

  /** A suspended arm never opens before its window ends: whatever is polled
      until then leaves it as it is, and the next poll opens it exactly from the
      end of the window on. */
  lemma {:induction false} NeverOpensEarly(c: ArmConfig, events: seq<Event>, i: nat, committed: nat)
    requires i < |events| && Suspends(c, events, i)
    requires
      var until := After(c, events[..i + 1]).arm.suspendedUntil.value;
      forall j :: i < j < |events| ==> Waits(events[j], until)
    ensures
      var now := After(c, events[..i + 1]).arm;
      && After(c, events).arm == now
      && (Polled(c, now, committed).1 <==> c.enabled && committed >= events[i].committed + now.window)
    decreases |events|
  {
    var n := |events| - 1;
    if i == n {
      assert events[..n + 1] == events;
    } else {
      var front := events[..n];
      assert front[..i + 1] == events[..i + 1];
      NeverOpensEarly(c, front, i, committed);
      assert Waits(events[n], After(c, events[..i + 1]).arm.suspendedUntil.value);
    }
  }

  /** `ewma * (1 - alpha)^n`. */
  function Decayed(alpha: real, ewma: real, n: nat): real {
    if n == 0 then ewma else (1.0 - alpha) * Decayed(alpha, ewma, n - 1)
  }

  function Power(x: real, n: nat): real {
    if n == 0 then 1.0 else x * Power(x, n - 1)
  }

  lemma {:induction false} DecayedIsPower(alpha: real, ewma: real, n: nat)
    ensures Decayed(alpha, ewma, n) == ewma * Power(1.0 - alpha, n)
  {
    if n > 0 {
      DecayedIsPower(alpha, ewma, n - 1);
      var x, p := 1.0 - alpha, Power(1.0 - alpha, n - 1);
      assert x * (ewma * p) == ewma * (x * p);
    }
  }

  lemma OneRejection(c: ArmConfig, a: Arm, proposed: nat, committed: nat)
    requires c.backoff && !a.probing && a.suspendedUntil.None? && proposed > 0
    ensures var b := Observed(c, a, proposed, 0, committed);
            && !b.probing && b.ewma == Decayed(c.alpha, a.ewma, 1)
            && b.suspendedUntil == if b.ewma < c.suspendBelow then Some(committed + c.backoffTokens) else None
  {
    assert Decayed(c.alpha, a.ewma, 1) == (1.0 - c.alpha) * Decayed(c.alpha, a.ewma, 0);
    assert c.alpha * Fraction(proposed, 0) == 0.0;
  }

  /** `n` consecutive total rejections: proposal sizes and committed counts. */
  function Rejected(c: ArmConfig, a: Arm, at: seq<(nat, nat)>): Arm {
    if at == [] then a
    else Observed(c, Rejected(c, a, at[..|at| - 1]), at[|at| - 1].0, 0, at[|at| - 1].1)
  }

  /** Consecutive total rejections suspend an open arm at the first `n` with
      `ewma * (1 - alpha)^n` below the bar, and not before. */
  lemma {:induction false} TotalRejectionsSuspend(c: ArmConfig, a: Arm, at: seq<(nat, nat)>)
    requires c.backoff && !a.probing && a.suspendedUntil.None? && at != []
    requires forall i :: 0 <= i < |at| ==> at[i].0 > 0
    requires forall j: nat :: 1 <= j < |at| ==> Decayed(c.alpha, a.ewma, j) >= c.suspendBelow
    ensures !Rejected(c, a, at).probing
    ensures Rejected(c, a, at).ewma == Decayed(c.alpha, a.ewma, |at|)
    ensures Rejected(c, a, at).suspendedUntil
      == if Decayed(c.alpha, a.ewma, |at|) < c.suspendBelow then Some(at[|at| - 1].1 + c.backoffTokens) else None
    decreases |at|
  {
    hide Observed;
    var init := at[..|at| - 1];
    if init != [] {
      TotalRejectionsSuspend(c, a, init);
      assert Decayed(c.alpha, a.ewma, |init|) >= c.suspendBelow;
    }
    OneRejection(c, Rejected(c, a, init), at[|at| - 1].0, at[|at| - 1].1);
    DecayOnce(c.alpha, a.ewma, |init|);
  }

  lemma DecayOnce(alpha: real, ewma: real, n: nat)
    ensures Decayed(alpha, Decayed(alpha, ewma, n), 1) == Decayed(alpha, ewma, n + 1)
  {
    assert Decayed(alpha, Decayed(alpha, ewma, n), 1) == (1.0 - alpha) * Decayed(alpha, Decayed(alpha, ewma, n), 0);
  }

  // ----- what a run of proposals does to the draft length and the average -----

  predicate FullyAccepted(e: Event) { e.Observe? && e.proposed > 0 && e.accepted == e.proposed }

  predicate MostlyRejected(e: Event) { e.Observe? && 2 * e.accepted < e.proposed }

  /** A proposal whose acceptance is in between, or one of an arm of fixed length. */
  predicate LeavesLength(c: ArmConfig, e: Event) {
    e.Observe? && (c.adaptive ==> !FullyAccepted(e) && !MostlyRejected(e))
  }

  function Least(a: nat, b: nat): nat { if a <= b then a else b }

  function Most(a: int, b: int): int { if a <= b then b else a }

  lemma AfterMore(c: ArmConfig, events: seq<Event>, more: seq<Event>)
    requires more != []
    ensures After(c, events + more) == Stepped(c, After(c, events + more[..|more| - 1]), more[|more| - 1])
  {
    var all := events + more;
    assert all[..|all| - 1] == events + more[..|more| - 1];
  }

  lemma {:induction false} LengthInRange(c: ArmConfig, events: seq<Event>)
    ensures c.Low() <= After(c, events).arm.len <= c.cap
    decreases |events|
  {
    hide Fraction, Blended;
    if events != [] { LengthInRange(c, events[..|events| - 1]); }
  }

  /** Consecutive full acceptances grow an adaptive arm's draft by `grow` each,
      up to its cap. */
  lemma {:induction false} AcceptanceGrows(c: ArmConfig, events: seq<Event>, more: seq<Event>)
    requires c.adaptive && forall e :: e in more ==> FullyAccepted(e)
    ensures After(c, events + more).arm.len == Least(After(c, events).arm.len + |more| * c.grow, c.cap)
    decreases |more|
  {
    hide Fraction, Blended, After;
    if more == [] {
      assert events + [] == events;
      LengthInRange(c, events);
    } else {
      AfterMore(c, events, more);
      AcceptanceGrows(c, events, more[..|more| - 1]);
      assert more[|more| - 1] in more && |more| * c.grow == (|more| - 1) * c.grow + c.grow;
    }
  }

  /** Consecutive proposals with less than half accepted halve it each time,
      down to its floor. */
  lemma {:induction false} RejectionHalves(c: ArmConfig, events: seq<Event>, more: seq<Event>)
    requires c.adaptive && forall e :: e in more ==> MostlyRejected(e)
    ensures After(c, events + more).arm.len == Most(After(c, events).arm.len / Pow2(|more|), c.Low())
    decreases |more|
  {
    hide Fraction, Blended, After;
    var len := After(c, events).arm.len;
    LengthInRange(c, events);
    if more == [] {
      assert events + [] == events && Pow2(0) == 1;
    } else {
      AfterMore(c, events, more);
      RejectionHalves(c, events, more[..|more| - 1]);
      assert more[|more| - 1] in more;
      HalvedAgain(len, Pow2(|more| - 1));
    }
  }

  lemma HalvedAgain(len: nat, p: nat)
    requires p > 0
    ensures len / (2 * p) == len / p / 2
  {
    var q, r := len / p / 2, len % p + p * (len / p % 2);
    assert len == p * (len / p) + len % p;
    assert len / p == 2 * q + len / p % 2;
    assert p * (2 * q + len / p % 2) == 2 * p * q + p * (len / p % 2);
    AtInverse(q, 2 * p, r);
    assert At(q, 2 * p, r) == len;
  }

  /** Any other proposals leave it alone. */
  lemma {:induction false} LengthStays(c: ArmConfig, events: seq<Event>, more: seq<Event>)
    requires forall e :: e in more ==> LeavesLength(c, e)
    ensures After(c, events + more).arm.len == After(c, events).arm.len
    decreases |more|
  {
    hide Fraction, Blended, After;
    if more == [] {
      assert events + [] == events;
    } else {
      AfterMore(c, events, more);
      LengthStays(c, events, more[..|more| - 1]);
      assert more[|more| - 1] in more;
    }
  }

  /** A poll lets an enabled arm draft unless a suspension still lasts. It
      changes nothing but to open a probe: of an enabled arm whose suspension
      has ended, at the probe's own length if it has one. */
  lemma PollOpensProbe(c: ArmConfig, events: seq<Event>, committed: nat)
    ensures Polled(c, After(c, events).arm, committed).1 <==>
      c.enabled && !(After(c, events).arm.suspendedUntil.Some? && committed < After(c, events).arm.suspendedUntil.value)
    ensures var (before, now) := (After(c, events).arm, After(c, events + [Poll(committed)]).arm);
      if now == before then
        !c.enabled || before.suspendedUntil.None? || committed < before.suspendedUntil.value
      else
        && c.enabled && before.suspendedUntil.Some? && committed >= before.suspendedUntil.value
        && now.probing && now.suspendedUntil.None? && now.ewma == before.ewma && now.window == before.window
        && (c.probeLen.None? ==> now.len == before.len)
        && (c.probeLen.Some? && c.Low() <= c.probeLen.value <= c.cap ==> now.len == c.probeLen.value)
  {
    AfterMore(c, events, [Poll(committed)]);
    assert events + [Poll(committed)][..0] == events;
  }

  /** After any proposal the arm is suspended, for a window from there, exactly
      when its average is then below the bar; otherwise the proposal leaves a
      suspension as it was. A probe's average is its own acceptance. */
  lemma ProposalDecides(c: ArmConfig, events: seq<Event>, proposed: nat, accepted: nat, committed: nat)
    requires c.backoff && proposed > 0
    ensures var (before, now) := (After(c, events).arm, After(c, events + [Observe(proposed, accepted, committed)]).arm);
      && now.suspendedUntil == (if now.ewma < c.suspendBelow then Some(committed + now.window) else before.suspendedUntil)
      && !now.probing
      && (before.probing ==> now.ewma == accepted as real / proposed as real)
  {
    hide Blended, AdaptedLen;
    AfterMore(c, events, [Observe(proposed, accepted, committed)]);
    assert events + [Observe(proposed, accepted, committed)][..0] == events;
  }

  /** With the same acceptance `n` times outside a probe, the average's distance
      from it shrinks by `(1 - alpha)^n`. */
  lemma {:induction false} AverageApproaches(c: ArmConfig, events: seq<Event>, more: seq<Event>, fraction: real)
    requires !After(c, events).arm.probing
    requires forall e :: e in more ==> e.Observe? && e.proposed > 0 && e.accepted as real / e.proposed as real == fraction
    ensures !After(c, events + more).arm.probing
    ensures After(c, events + more).arm.ewma == fraction + (After(c, events).arm.ewma - fraction) * Power(1.0 - c.alpha, |more|)
    decreases |more|
  {
    hide After, AdaptedLen;
    var e0 := After(c, events).arm.ewma;
    if more == [] {
      assert events + [] == events;
      assert (e0 - fraction) * Power(1.0 - c.alpha, 0) == e0 - fraction;
    } else {
      AfterMore(c, events, more);
      AverageApproaches(c, events, more[..|more| - 1], fraction);
      assert more[|more| - 1] in more;
      BlendShrinks(c.alpha, fraction, e0 - fraction, Power(1.0 - c.alpha, |more| - 1));
    }
  }

  lemma BlendShrinks(alpha: real, fraction: real, gap: real, p: real)
    ensures Blended(alpha, fraction, fraction + gap * p) == fraction + gap * ((1.0 - alpha) * p)
  {
    assert (1.0 - alpha) * (fraction + gap * p) == (1.0 - alpha) * fraction + gap * ((1.0 - alpha) * p);
  }
}
