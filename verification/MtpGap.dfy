/** The MTP predictor's side state: how far the predictor has been fed, and the
    gap of tokens and target hidden rows retained for it since. */
module MtpGap {
  import opened Wrappers
  import opened TargetModel

  /** One position of the predictor's stream: a token and the hidden row of the
      token before it. */
  datatype Fed = Fed(token: Token, input: Row)

  datatype Gap = Gap(
    synced: nat, tokens: seq<Token>, hidden: seq<Row>, prior: Option<Row>, predictor: Option<seq<Fed>>)

  // ----- what the side state should hold -----

  /** The target's hidden row just before position `n`, if there is one. */
  ghost function CarryAt(m: Model, context: seq<Token>, n: nat): Option<Row>
    requires n <= |context|
  {
    if n == 0 then None else Some(HiddenRow(m, context[..n]))
  }

  /** The target's rows for `more` after `context`. */
  ghost function HiddenRows(m: Model, context: seq<Token>, more: seq<Token>): (r: seq<Row>)
    ensures |r| == |more|
  {
    seq(|more|, i requires 0 <= i < |more| => HiddenRow(m, context + more[..i + 1]))
  }

  /** The stream the predictor is meant to see: every token with the target's
      row of the token before it, zeros before the first. */
  ghost function Shifted(m: Model, context: seq<Token>): (r: seq<Fed>)
    ensures |r| == |context|
  {
    seq(|context|, i requires 0 <= i < |context| =>
      Fed(context[i], if i == 0 then m.zero else HiddenRow(m, context[..i])))
  }

  /** The gap reaches from the predictor's synced position to the end of
      `context`, its rows are the target's, and the predictor's own stream is
      right up to where it is synced. */
  ghost predicate Describes(m: Model, context: seq<Token>, g: Gap) {
    && g.synced + |g.tokens| == |context|
    && context == context[..g.synced] + g.tokens
    && g.hidden == HiddenRows(m, context[..g.synced], g.tokens)
    && (g.tokens != [] ==> g.prior == CarryAt(m, context, g.synced))
    && (g.predictor.Some? ==>
         g.synced <= |g.predictor.value| && g.predictor.value[..g.synced] == Shifted(m, context[..g.synced]))
  }

  // ----- the operations -----

  /** The inputs of one catch-up pass: the rows shifted right by one position. */
  function ShiftedHiddenInputs(position: nat, previous: Option<Row>, rows: seq<Row>, zero: Row): (r: Option<seq<Row>>)
    requires rows != []
    ensures r.None? <==> previous.None? && position != 0
    ensures r.Some? ==> |r.value| == |rows|
  {
    if previous.None? && position != 0 then None
    else Some([if previous.Some? then previous.value else zero] + rows[..|rows| - 1])
  }

  function Feed(tokens: seq<Token>, inputs: seq<Row>): (r: seq<Fed>)
    requires |tokens| == |inputs|
    ensures |r| == |tokens|
  {
    seq(|tokens|, i requires 0 <= i < |tokens| => Fed(tokens[i], inputs[i]))
  }

  function Retained(g: Gap, tokens: seq<Token>, hidden: seq<Row>, prior: Option<Row>): Gap {
    if tokens == [] then g
    else g.(tokens := g.tokens + tokens, hidden := g.hidden + hidden,
            prior := if g.tokens == [] then prior else g.prior)
  }

  /** Whether a catch-up can run: the source reports an error otherwise. */
  predicate CanCatchUp(g: Gap) {
    g.tokens != [] ==>
      && g.predictor.Some? && g.synced <= |g.predictor.value|
      && |g.hidden| == |g.tokens| && (g.synced == 0 || g.prior.Some?)
  }

  function CaughtUp(g: Gap, zero: Row): Gap
    requires CanCatchUp(g)
  {
    if g.tokens == [] then g
    else
      var inputs := ShiftedHiddenInputs(g.synced, g.prior, g.hidden, zero).value;
      Gap(g.synced + |g.tokens|, [], [], None, Some(g.predictor.value[..g.synced] + Feed(g.tokens, inputs)))
  }

  datatype GapAfterRollback = Retain(n: nat) | TruncatePredictor | Unrecoverable

  function AfterRollback(synced: nat, gapLen: nat, position: nat): GapAfterRollback {
    if position < synced then TruncatePredictor
    else if position - synced <= gapLen then Retain(position - synced)
    else Unrecoverable
  }

  /** The gap after a rollback to `position`, and whether it is still valid. */
  function Truncated(g: Gap, position: nat): (Gap, bool)
    requires |g.hidden| == |g.tokens|
    requires g.predictor.Some? ==> g.synced <= |g.predictor.value|
  {
    match AfterRollback(g.synced, |g.tokens|, position)
    case Retain(n) => (g.(tokens := g.tokens[..n], hidden := g.hidden[..n], prior := if n == 0 then None else g.prior), true)
    case TruncatePredictor =>
      (Gap(position, [], [], None, if g.predictor.Some? then Some(g.predictor.value[..position]) else None), true)
    case Unrecoverable => (Gap(g.synced, [], [], None, g.predictor), false)
  }

  // ----- the operations keep the side state right -----

  lemma HiddenRowsSplit(m: Model, context: seq<Token>, xs: seq<Token>, ys: seq<Token>)
    ensures HiddenRows(m, context, xs + ys) == HiddenRows(m, context, xs) + HiddenRows(m, context + xs, ys)
  {
    hide HiddenRow;
    var whole := HiddenRows(m, context, xs + ys);
    var left, right := HiddenRows(m, context, xs), HiddenRows(m, context + xs, ys);
    forall i | 0 <= i < |xs| + |ys| ensures whole[i] == (left + right)[i] {
      if i < |xs| {
        assert (xs + ys)[..i + 1] == xs[..i + 1];
      } else {
        assert context + (xs + ys)[..i + 1] == context + xs + ys[..i - |xs| + 1];
      }
    }
  }

  lemma ShiftedPrefix(m: Model, context: seq<Token>, n: nat)
    requires n <= |context|
    ensures Shifted(m, context)[..n] == Shifted(m, context[..n])
  {
    hide HiddenRow;
    forall i | 0 <= i < n ensures Shifted(m, context)[i] == Shifted(m, context[..n])[i] {
      assert context[..n][..i] == context[..i];
    }
  }

  /** Retaining a committing pass's rows extends the description to its end. */
  lemma RetainDescribes(m: Model, context: seq<Token>, more: seq<Token>, g: Gap)
    requires Describes(m, context, g) && more != []
    ensures Describes(m, context + more,
                      Retained(g, more, HiddenRows(m, context, more), CarryAt(m, context, |context|)))
  {
    hide HiddenRow, HiddenRows, Shifted;
    var now, base := context + more, context[..g.synced];
    assert now[..g.synced] == base;
    HiddenRowsSplit(m, base, g.tokens, more);
    assert base + g.tokens == context;
    assert context[..|context|] == context && now[..|context|] == context;
    assert base + (g.tokens + more) == now;
  }

  /** Catching up leaves the predictor holding exactly the shifted stream. */
  lemma CatchUpDescribes(m: Model, context: seq<Token>, g: Gap)
    requires Describes(m, context, g) && g.predictor.Some?
    ensures CanCatchUp(g)
    ensures var now := CaughtUp(g, m.zero);
            && Describes(m, context, now) && now.synced == |context| && now.tokens == [] && now.predictor.Some?
            && (if g.tokens == [] then now == g else now.predictor == Some(Shifted(m, context)))
  {
    hide HiddenRow, HiddenRows, Feed, Shifted;
    if g.tokens == [] {
      assert context[..g.synced] == context;
    } else {
      var base := context[..g.synced];
      var inputs := ShiftedHiddenInputs(g.synced, g.prior, g.hidden, m.zero).value;
      FedIsShifted(m, context, g.synced, g.tokens, inputs);
      ShiftedPrefix(m, context, g.synced);
      var want := Shifted(m, context);
      assert want[..g.synced] + want[g.synced..] == want;
      assert CaughtUp(g, m.zero).predictor == Some(want);
      assert context[..|context|] == context && want[..|context|] == want;
      EmptyHiddenRows(m, context);
    }
  }

  lemma EmptyHiddenRows(m: Model, context: seq<Token>)
    ensures HiddenRows(m, context, []) == []
  {}

  lemma FedIsShifted(m: Model, context: seq<Token>, synced: nat, tokens: seq<Token>, inputs: seq<Row>)
    requires synced <= |context| && tokens != [] && context == context[..synced] + tokens
    requires Some(inputs) == ShiftedHiddenInputs(synced, CarryAt(m, context, synced),
                                                 HiddenRows(m, context[..synced], tokens), m.zero)
    ensures Feed(tokens, inputs) == Shifted(m, context)[synced..]
  {
    hide HiddenRow;
    var want, fed := Shifted(m, context)[synced..], Feed(tokens, inputs);
    forall i | 0 <= i < |tokens| ensures fed[i] == want[i] {
      assert want[i] == Shifted(m, context)[synced + i];
      if i > 0 {
        assert inputs[i] == HiddenRow(m, context[..synced] + tokens[..i]);
        assert context[..synced] + tokens[..i] == context[..synced + i];
      }
    }
  }

  /** A rollback inside the described stretch keeps exactly the entries of the
      rows that stay, and the arm's invariant with them. */
  lemma TruncateDescribes(m: Model, context: seq<Token>, g: Gap, position: nat)
    requires Describes(m, context, g) && position <= |context|
    ensures Truncated(g, position).1
    ensures Describes(m, context[..position], Truncated(g, position).0)
    ensures position >= g.synced ==>
      Truncated(g, position).0.synced == g.synced && Truncated(g, position).0.predictor == g.predictor
    ensures position < g.synced ==> Truncated(g, position).0.synced == position
    ensures position < g.synced ==>
      Truncated(g, position).0.predictor
      == if g.predictor.Some? then Some(Shifted(m, context[..position])) else None
  {
    var kept := context[..position];
    if position < g.synced {
      assert kept[..position] == kept;
      assert context[..g.synced][..position] == kept;
      if g.predictor.Some? {
        ShiftedPrefix(m, context[..g.synced], position);
        assert g.predictor.value[..position] == g.predictor.value[..g.synced][..position];
      }
    } else {
      hide HiddenRow, Shifted;
      var n := position - g.synced;
      var base := context[..g.synced];
      assert kept[..g.synced] == base;
      assert kept == base + g.tokens[..n];
      assert g.tokens[..n] + g.tokens[n..] == g.tokens;
      HiddenRowsSplit(m, base, g.tokens[..n], g.tokens[n..]);
      if n > 0 { assert kept[..g.synced] == context[..g.synced]; }
    }
  }
}
