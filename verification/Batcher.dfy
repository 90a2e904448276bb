/**
 * The token-budget embedding batcher.
 *
 * `State` is what the batcher's lock protects together with what the outside
 * world has seen of it (the batches sent, the futures resolved); `Submit`,
 * `TimerFires` and `Close` are the three critical sections. The class does the
 * same in place and is proved to move its state exactly as these functions do.
 * The theorems range over every sequence of critical sections.
 */
module TokenBudgetBatching {
  import opened Prelude

  type Vector = seq<real>

  /** What one call of the embedding function did. */
  datatype Reply = Vectors(vectors: seq<Vector>) | Raised(error: string)

  datatype Outcome = Result(vector: Vector) | Failed(error: string)

  const ZIP_LENGTH_ERROR := "zip() arguments differ in length"

  datatype Config = Config(countTokens: string -> nat, tokenBudget: int, maxBatchSize: int)

  /** A waiting text; its future is named by its position in submission order. */
  datatype Item = Item(text: string, tokens: nat, future: nat)

  datatype Sent = Sent(batch: seq<Item>, reply: Reply)

  datatype State = State(
    pending: seq<Item>,
    tokens: int,
    timerArmed: bool,
    texts: seq<string>,              // every text accepted so far
    sent: seq<Sent>,                 // every call of the embedding function
    resolved: seq<(nat, Outcome)>,   // every resolution of a future, in order
    stranded: seq<nat>)              // futures dropped unresolved

  datatype Event = Submission(text: string, reply: Reply) | Timer(reply: Reply) | Closing(reply: Reply)

  const INITIAL := State([], 0, false, [], [], [], [])

  function Texts(items: seq<Item>): seq<string> {
    seq(|items|, i requires 0 <= i < |items| => items[i].text)
  }

  function Futures(items: seq<Item>): seq<nat> {
    seq(|items|, i requires 0 <= i < |items| => items[i].future)
  }

  function TokenSum(cfg: Config, texts: seq<string>): nat {
    if texts == [] then 0
    else TokenSum(cfg, texts[..|texts| - 1]) + cfg.countTokens(texts[|texts| - 1])
  }

  /** A batch the provider may be given: one text of any length, or texts within both limits. */
  predicate Feasible(cfg: Config, batch: seq<string>) {
    |batch| == 1 || (1 < |batch| <= cfg.maxBatchSize && TokenSum(cfg, batch) <= cfg.tokenBudget)
  }

  /** What waiter `i` of a batch receives: its own vector, or the error. */
  function OutcomeAt(i: nat, reply: Reply): Outcome {
    match reply
    case Raised(e) => Failed(e)
    case Vectors(vs) => if i < |vs| then Result(vs[i]) else Failed(ZIP_LENGTH_ERROR)
  }

  function Deliver(batch: seq<Item>, reply: Reply): seq<(nat, Outcome)> {
    seq(|batch|, i requires 0 <= i < |batch| => (batch[i].future, OutcomeAt(i, reply)))
  }

  // ------------------------------------------------------------------ steps

  /** A zero budget makes the log line's division raise after the batch has been detached. */
  predicate FlushRaises(cfg: Config, s: State) {
    s.pending != [] && cfg.tokenBudget == 0
  }

  function Flush(cfg: Config, s: State, reply: Reply): State {
    if s.pending == [] then s
    else
      var emptied := s.(pending := [], tokens := 0, timerArmed := false);
      if FlushRaises(cfg, s) then emptied.(stranded := s.stranded + Futures(s.pending))
      else emptied.(sent := s.sent + [Sent(s.pending, reply)],
                    resolved := s.resolved + Deliver(s.pending, reply))
  }

  predicate MustFlush(cfg: Config, s: State, text: string) {
    s.tokens + cfg.countTokens(text) > cfg.tokenBudget || |s.pending| >= cfg.maxBatchSize
  }

  function Append(cfg: Config, s: State, text: string): State {
    s.(pending := s.pending + [Item(text, cfg.countTokens(text), |s.texts|)],
       tokens := s.tokens + cfg.countTokens(text),
       timerArmed := s.timerArmed || s.pending == [],
       texts := s.texts + [text])
  }

  function Submit(cfg: Config, s: State, text: string, reply: Reply): State {
    var flushing := MustFlush(cfg, s, text);
    var s1 := if flushing then Flush(cfg, s, reply) else s;
    if flushing && FlushRaises(cfg, s) then s1
    else Append(cfg, s1, text)
  }

  function TimerFires(cfg: Config, s: State, reply: Reply): State {
    if s.timerArmed then Flush(cfg, s, reply).(timerArmed := false) else s
  }

  function Close(cfg: Config, s: State, reply: Reply): State {
    Flush(cfg, s, reply)
  }

  function Step(cfg: Config, s: State, e: Event): State {
    match e
    case Submission(text, reply) => Submit(cfg, s, text, reply)
    case Timer(reply) => TimerFires(cfg, s, reply)
    case Closing(reply) => Close(cfg, s, reply)
  }

  function Run(cfg: Config, events: seq<Event>): State {
    if events == [] then INITIAL
    else Step(cfg, Run(cfg, events[..|events| - 1]), events[|events| - 1])
  }

  // -------------------------------------------------------------- invariant

  function Batches(sent: seq<Sent>): seq<seq<Item>> {
    seq(|sent|, i requires 0 <= i < |sent| => sent[i].batch)
  }

  function Deliveries(sent: seq<Sent>): seq<seq<(nat, Outcome)>> {
    seq(|sent|, i requires 0 <= i < |sent| => Deliver(sent[i].batch, sent[i].reply))
  }

  /** What holds whenever the lock is free. */
  ghost predicate LockInvariant(cfg: Config, s: State) {
    && s.tokens == TokenSum(cfg, Texts(s.pending))
    && (s.pending == [] || Feasible(cfg, Texts(s.pending)))
    && (s.timerArmed <==> s.pending != [])
  }

  /** Every accepted future is in exactly one place: sent, stranded or pending, in submission order. */
  ghost predicate Accounted(cfg: Config, s: State) {
    && (forall b :: b in s.sent ==> Feasible(cfg, Texts(b.batch)))
    && s.resolved == Flatten(Deliveries(s.sent))
    && (cfg.tokenBudget == 0 ==> s.sent == [])
    && (cfg.tokenBudget != 0 ==> s.stranded == [] && InOrder(s.texts, Flatten(Batches(s.sent)) + s.pending))
    && (cfg.tokenBudget == 0 ==> s.stranded + Futures(s.pending) == Upto(|s.texts|))
  }

  /** `items` are the accepted texts, each carrying its own submission number. */
  ghost predicate InOrder(texts: seq<string>, items: seq<Item>) {
    && |items| == |texts|
    && forall i :: 0 <= i < |items| ==> items[i].text == texts[i] && items[i].future == i
  }

  function Upto(n: nat): seq<nat> { seq(n, i => i) }

  lemma TextsAppend(items: seq<Item>, x: Item)
    ensures Texts(items + [x]) == Texts(items) + [x.text]
  {}

  lemma TokenSumAppend(cfg: Config, texts: seq<string>, t: string)
    ensures TokenSum(cfg, texts + [t]) == TokenSum(cfg, texts) + cfg.countTokens(t)
  {
    assert (texts + [t])[..|texts|] == texts;
  }

  lemma FlushKeeps(cfg: Config, s: State, reply: Reply)
    requires LockInvariant(cfg, s) && Accounted(cfg, s)
    ensures LockInvariant(cfg, Flush(cfg, s, reply)) && Accounted(cfg, Flush(cfg, s, reply))
  {
    var r := Flush(cfg, s, reply);
    if s.pending != [] {
      if cfg.tokenBudget == 0 {
        assert r.stranded + Futures([]) == s.stranded + Futures(s.pending);
      } else {
        assert Batches(r.sent) == Batches(s.sent) + [s.pending];
        assert Deliveries(r.sent) == Deliveries(s.sent) + [Deliver(s.pending, reply)];
        FlattenAppend(Batches(s.sent), s.pending);
        FlattenAppend(Deliveries(s.sent), Deliver(s.pending, reply));
        assert Flatten(Batches(r.sent)) + r.pending == Flatten(Batches(s.sent)) + s.pending;
      }
    }
  }

  lemma AppendKeepsLock(cfg: Config, s: State, text: string)
    requires LockInvariant(cfg, s) && (s.pending == [] || !MustFlush(cfg, s, text))
    ensures LockInvariant(cfg, Append(cfg, s, text))
  {
    TextsAppend(s.pending, Item(text, cfg.countTokens(text), |s.texts|));
    TokenSumAppend(cfg, Texts(s.pending), text);
  }

  lemma AppendKeepsAccount(cfg: Config, s: State, text: string)
    requires Accounted(cfg, s)
    ensures Accounted(cfg, Append(cfg, s, text))
  {
    var x := Item(text, cfg.countTokens(text), |s.texts|);
    var r := Append(cfg, s, text);
    if cfg.tokenBudget != 0 {
      assert Flatten(Batches(r.sent)) + r.pending == (Flatten(Batches(s.sent)) + s.pending) + [x];
    } else {
      assert Futures(r.pending) == Futures(s.pending) + [|s.texts|];
      assert r.stranded + Futures(r.pending) == (s.stranded + Futures(s.pending)) + [|s.texts|];
    }
  }

  lemma SubmitKeeps(cfg: Config, s: State, text: string, reply: Reply)
    requires LockInvariant(cfg, s) && Accounted(cfg, s)
    ensures LockInvariant(cfg, Submit(cfg, s, text, reply)) && Accounted(cfg, Submit(cfg, s, text, reply))
  {
    FlushKeeps(cfg, s, reply);
    var s1 := if MustFlush(cfg, s, text) then Flush(cfg, s, reply) else s;
    AppendKeepsLock(cfg, s1, text);
    AppendKeepsAccount(cfg, s1, text);
  }

  /** After any critical sections: counter exact, pending within limits, timer live iff work waits. */
  lemma {:induction false} AlwaysInvariant(cfg: Config, events: seq<Event>)
    ensures LockInvariant(cfg, Run(cfg, events)) && Accounted(cfg, Run(cfg, events))
  {
    if events == [] {
    } else {
      var before := events[..|events| - 1];
      AlwaysInvariant(cfg, before);
      var s := Run(cfg, before);
      match events[|events| - 1]
      case Submission(text, reply) => SubmitKeeps(cfg, s, text, reply);
      case Timer(reply) => FlushKeeps(cfg, s, reply);
      case Closing(reply) => FlushKeeps(cfg, s, reply);
    }
  }

  // ----------------------------------------------------------- exactly once

  /** `outcome` is what the reply to `item`'s batch holds at `item`'s own position. */
  ghost predicate Positional(sent: seq<Sent>, item: Item, outcome: Outcome) {
    exists b, i :: 0 <= b < |sent| && 0 <= i < |sent[b].batch|
      && sent[b].batch[i] == item && Answers(sent[b].reply, i, outcome)
  }

  /** The `i`-th vector if there is one, else the error the batch met. */
  ghost predicate Answers(reply: Reply, i: nat, outcome: Outcome) {
    && (reply.Raised? ==> outcome == Failed(reply.error))
    && (reply.Vectors? && i < |reply.vectors| ==> outcome == Result(reply.vectors[i]))
    && (reply.Vectors? && |reply.vectors| <= i ==> outcome == Failed(ZIP_LENGTH_ERROR))
  }

  /** The log pairs each sent item's future with its positional outcome, in order. */
  ghost predicate Logged(sent: seq<Sent>, items: seq<Item>, log: seq<(nat, Outcome)>) {
    |log| == |items|
    && forall k :: 0 <= k < |log| ==> log[k].0 == items[k].future && Positional(sent, items[k], log[k].1)
  }

  lemma {:induction false} LogMatchesBatches(sent: seq<Sent>)
    ensures Logged(sent, Flatten(Batches(sent)), Flatten(Deliveries(sent)))
  {
    if sent == [] {
    } else {
      var init, x := sent[..|sent| - 1], sent[|sent| - 1];
      LogMatchesBatches(init);
      assert Deliveries(sent)[..|init|] == Deliveries(init);
      assert Batches(sent)[..|init|] == Batches(init);
      var log0, items0 := Flatten(Deliveries(init)), Flatten(Batches(init));
      var log, items := Flatten(Deliveries(sent)), Flatten(Batches(sent));
      assert items == items0 + x.batch && log == log0 + Deliver(x.batch, x.reply);
      forall k | 0 <= k < |log|
        ensures log[k].0 == items[k].future && Positional(sent, items[k], log[k].1)
      {
        if k < |log0| {
          assert log[k] == log0[k] && Positional(init, items0[k], log0[k].1);
          var b, i :| 0 <= b < |init| && 0 <= i < |init[b].batch|
            && init[b].batch[i] == items0[k] && Answers(init[b].reply, i, log0[k].1);
          assert sent[b].batch[i] == items[k];
        } else {
          assert sent[|init|].batch[k - |log0|] == items[k];
        }
      }
    }
  }

  /** The future was resolved with the outcome at its own text's position in the batch that carried it. */
  ghost predicate ResolvedProperly(s: State, f: nat)
    requires f < |s.texts|
  {
    && f < |s.resolved|
    && (forall k :: 0 <= k < |s.resolved| ==> (s.resolved[k].0 == f <==> k == f))
    && exists item: Item :: item.future == f && item.text == s.texts[f]
         && Positional(s.sent, item, s.resolved[f].1)
  }

  /** With nothing pending and a non-zero budget, every accepted future has been resolved properly. */
  lemma DrainedIsResolved(cfg: Config, s: State, f: nat)
    requires LockInvariant(cfg, s) && Accounted(cfg, s) && s.pending == [] && f < |s.texts| && cfg.tokenBudget != 0
    ensures ResolvedProperly(s, f)
  {
    LogMatchesBatches(s.sent);
    assert Flatten(Batches(s.sent)) + s.pending == Flatten(Batches(s.sent));
    var item := Flatten(Batches(s.sent))[f];
    assert item.future == f && item.text == s.texts[f] && Positional(s.sent, item, s.resolved[f].1);
  }

  /** With a zero budget, nothing pending means every accepted future was dropped. */
  lemma DrainedIsStranded(cfg: Config, s: State, f: nat)
    requires LockInvariant(cfg, s) && Accounted(cfg, s) && s.pending == [] && f < |s.texts| && cfg.tokenBudget == 0
    ensures s.resolved == [] && f in s.stranded
  {
    assert Deliveries(s.sent) == [];
    assert s.stranded == Upto(|s.texts|) by { assert s.stranded + [] == s.stranded; }
    assert s.stranded[f] == f;
  }

  /** The critical sections that flush whatever is pending: the timer's and the closing one. */
  predicate Drains(e: Event) { e.Timer? || e.Closing? }

  lemma RunExtend(cfg: Config, events: seq<Event>, e: Event)
    ensures Run(cfg, events + [e]) == Step(cfg, Run(cfg, events), e)
  {
    assert (events + [e])[..|events|] == events;
  }

  /**
   * Whenever the timer fires or the batcher is closed, at any point of any run, nothing is pending
   * afterwards, the timer is off, and what was pending was sent as one batch answered by this event's reply.
   */
  lemma DrainEffect(cfg: Config, events: seq<Event>, e: Event)
    requires Drains(e)
    ensures var before, s := Run(cfg, events), Run(cfg, events + [e]);
            && s.pending == [] && !s.timerArmed && s.texts == before.texts
            && (cfg.tokenBudget != 0 ==>
                  && s.sent == before.sent + (if before.pending == [] then [] else [Sent(before.pending, e.reply)])
                  && s.stranded == before.stranded)
            && (cfg.tokenBudget == 0 ==>
                  s.sent == before.sent && s.stranded == before.stranded + Futures(before.pending))
  {
    AlwaysInvariant(cfg, events);
    RunExtend(cfg, events, e);
  }

  /**
   * Over any run that ends with the timer firing or a close, each accepted future is resolved exactly
   * once and properly when the budget is non-zero; with a zero budget none ever is.
   */
  lemma ExactlyOnce(cfg: Config, events: seq<Event>, e: Event, f: nat)
    requires Drains(e) && f < |Run(cfg, events + [e]).texts|
    ensures ResolvedProperly(Run(cfg, events + [e]), f) <==> cfg.tokenBudget != 0
    ensures cfg.tokenBudget == 0 ==>
              var s := Run(cfg, events + [e]); s.resolved == [] && f in s.stranded
  {
    var s := Run(cfg, events + [e]);
    AlwaysInvariant(cfg, events + [e]);
    DrainEffect(cfg, events, e);
    if cfg.tokenBudget == 0 { DrainedIsStranded(cfg, s, f); } else { DrainedIsResolved(cfg, s, f); }
  }

  /** Something is pending and the text does not fit beside it. */
  predicate Full(cfg: Config, s: State, text: string) {
    s.pending != [] && (TokenSum(cfg, Texts(s.pending)) + cfg.countTokens(text) > cfg.tokenBudget
                        || |s.pending| >= cfg.maxBatchSize)
  }

  lemma SubmitEffect(cfg: Config, s: State, text: string, reply: Reply)
    requires LockInvariant(cfg, s)
    ensures var r, full := Submit(cfg, s, text, reply), Full(cfg, s, text);
            && (full && cfg.tokenBudget == 0 ==> r.texts == s.texts && r.sent == s.sent)
            && (full && cfg.tokenBudget != 0 ==>
                  && r.texts == s.texts + [text] && r.sent == s.sent + [Sent(s.pending, reply)]
                  && |r.pending| == 1 && r.pending[0].text == text)
            && (!full ==> r.texts == s.texts + [text] && r.sent == s.sent
                          && |r.pending| == |s.pending| + 1 && r.pending[..|s.pending|] == s.pending
                          && r.pending[|s.pending|].text == text)
  {}

  /**
   * A submission flushes first exactly when its text would not fit beside what is pending, and is refused
   * exactly when that flush raises; the flushed batch is answered by the submission's own reply.
   */
  lemma SubmissionEffect(cfg: Config, events: seq<Event>, text: string, reply: Reply)
    ensures var s, r := Run(cfg, events), Run(cfg, events + [Submission(text, reply)]);
            var full := Full(cfg, s, text);
            && (full && cfg.tokenBudget == 0 ==> r.texts == s.texts && r.sent == s.sent)
            && (full && cfg.tokenBudget != 0 ==>
                  && r.texts == s.texts + [text] && r.sent == s.sent + [Sent(s.pending, reply)]
                  && |r.pending| == 1 && r.pending[0].text == text)
            && (!full ==> r.texts == s.texts + [text] && r.sent == s.sent
                          && |r.pending| == |s.pending| + 1 && r.pending[..|s.pending|] == s.pending
                          && r.pending[|s.pending|].text == text)
  {
    AlwaysInvariant(cfg, events);
    RunExtend(cfg, events, Submission(text, reply));
    SubmitEffect(cfg, Run(cfg, events), text, reply);
  }

  /** No future is ever resolved twice, at any moment of any run. */
  lemma NeverTwice(cfg: Config, events: seq<Event>, j: nat, k: nat)
    requires j < k < |Run(cfg, events).resolved|
    ensures Run(cfg, events).resolved[j].0 != Run(cfg, events).resolved[k].0
  {
    AlwaysInvariant(cfg, events);
    LogMatchesBatches(Run(cfg, events).sent);
    var s := Run(cfg, events);
    if cfg.tokenBudget != 0 {
      var items := Flatten(Batches(s.sent)) + s.pending;
      assert items[j].future == j && items[k].future == k;
    }
  }

  // ------------------------------------------------------------- optimality

  function Submissions(subs: seq<(string, Reply)>): seq<Event> {
    seq(|subs|, i requires 0 <= i < |subs| => Submission(subs[i].0, subs[i].1))
  }

  function SubmittedTexts(subs: seq<(string, Reply)>): seq<string> {
    seq(|subs|, i requires 0 <= i < |subs| => subs[i].0)
  }

  /** An order-preserving division of `texts` into batches the provider may be given. */
  ghost predicate Grouping(cfg: Config, groups: seq<seq<string>>, texts: seq<string>) {
    Flatten(groups) == texts && forall g :: g in groups ==> Feasible(cfg, g)
  }

  function BatchCount(s: State): nat {
    |s.sent| + if s.pending == [] then 0 else 1
  }

  lemma {:induction false} TokenSumSuffix(cfg: Config, texts: seq<string>, k: nat)
    requires k <= |texts|
    ensures TokenSum(cfg, texts[k..]) <= TokenSum(cfg, texts)
  {
    if k == |texts| {
    } else {
      var init := texts[..|texts| - 1];
      TokenSumSuffix(cfg, init, k);
      assert texts[k..][..|texts| - 1 - k] == init[k..];
    }
  }

  lemma RunLast(cfg: Config, subs: seq<(string, Reply)>)
    requires subs != []
    ensures var n := |subs| - 1;
            Run(cfg, Submissions(subs)) == Submit(cfg, Run(cfg, Submissions(subs[..n])), subs[n].0, subs[n].1)
            && SubmittedTexts(subs) == SubmittedTexts(subs[..n]) + [subs[n].0]
  {
    var n := |subs| - 1;
    assert Submissions(subs)[..n] == Submissions(subs[..n]);
  }

  lemma {:induction false} AllAccepted(cfg: Config, subs: seq<(string, Reply)>)
    requires cfg.tokenBudget != 0
    ensures Run(cfg, Submissions(subs)).texts == SubmittedTexts(subs)
  {
    if subs == [] {
    } else {
      AllAccepted(cfg, subs[..|subs| - 1]);
      RunLast(cfg, subs);
    }
  }

  /** `pending` is the tail of everything accepted. */
  lemma PendingIsSuffix(cfg: Config, s: State)
    requires cfg.tokenBudget != 0 && Accounted(cfg, s)
    ensures |s.pending| <= |s.texts| && Texts(s.pending) == s.texts[|s.texts| - |s.pending|..]
  {
    var items := Flatten(Batches(s.sent)) + s.pending;
    var off := |s.texts| - |s.pending|;
    forall i | 0 <= i < |s.pending| ensures Texts(s.pending)[i] == s.texts[off..][i] {
      assert items[off + i] == s.pending[i];
    }
  }

  /** Dropping the last text of a grouping leaves a grouping of the rest. */
  function Shorten(groups: seq<seq<string>>): (r: seq<seq<string>>)
    requires groups != [] && groups[|groups| - 1] != []
  {
    var n := |groups| - 1;
    var last := groups[n];
    if |last| == 1 then groups[..n] else groups[..n] + [last[..|last| - 1]]
  }

  lemma ShortenIsGrouping(cfg: Config, groups: seq<seq<string>>, texts: seq<string>)
    requires texts != [] && Grouping(cfg, groups, texts)
    ensures groups != [] && groups[|groups| - 1] != []
    ensures groups[|groups| - 1][|groups[|groups| - 1]| - 1] == texts[|texts| - 1]
    ensures Grouping(cfg, Shorten(groups), texts[..|texts| - 1])
  {
    var n := |groups| - 1;
    var last := groups[n];
    assert last in groups;
    var short := last[..|last| - 1];
    assert texts == Flatten(groups[..n]) + last;
    if |last| == 1 {
      assert texts[..|texts| - 1] == Flatten(groups[..n]);
    } else {
      FlattenAppend(groups[..n], short);
      assert texts[..|texts| - 1] == Flatten(groups[..n]) + short;
    }
  }

  /**
   * Greedy stays ahead: against any other grouping of what was submitted, the batcher has used
   * no more batches, and at a tie its open batch is no longer than the other's last one.
   */
  lemma {:induction false} GreedyStaysAhead(cfg: Config, subs: seq<(string, Reply)>, groups: seq<seq<string>>)
    requires cfg.tokenBudget != 0 && Grouping(cfg, groups, SubmittedTexts(subs))
    ensures var s := Run(cfg, Submissions(subs));
            BatchCount(s) <= |groups|
            && (BatchCount(s) == |groups| && groups != [] ==> |s.pending| <= |groups[|groups| - 1]|)
  {
    if subs == [] {
    } else {
      var texts, n := SubmittedTexts(subs), |subs| - 1;
      RunLast(cfg, subs);
      ShortenIsGrouping(cfg, groups, texts);
      var shorter, last := Shorten(groups), groups[|groups| - 1];
      assert texts[..|texts| - 1] == SubmittedTexts(subs[..n]);
      GreedyStaysAhead(cfg, subs[..n], shorter);
      var s := Run(cfg, Submissions(subs[..n]));
      AlwaysInvariant(cfg, Submissions(subs[..n]));
      if |last| > 1 && BatchCount(s) == |groups| {
        AllAccepted(cfg, subs[..n]);
        NoNeedToFlush(cfg, s, subs[n].0, groups, texts);
      }
    }
  }

  /** At a tie the other grouping's last batch contains our open batch plus the new text, so it fits. */
  lemma NoNeedToFlush(cfg: Config, s: State, text: string, groups: seq<seq<string>>, texts: seq<string>)
    requires cfg.tokenBudget != 0 && LockInvariant(cfg, s) && Accounted(cfg, s)
    requires texts == s.texts + [text] && Grouping(cfg, groups, texts)
    requires groups != [] && 1 < |groups[|groups| - 1]|
    requires |s.pending| < |groups[|groups| - 1]|
    ensures s.pending != [] ==> !MustFlush(cfg, s, text)
  {
    var last := groups[|groups| - 1];
    PendingIsSuffix(cfg, s);
    var k := |last| - (|s.pending| + 1);
    assert last in groups;
    var before := Flatten(groups[..|groups| - 1]);
    assert before + last == texts;
    assert last[k..] == Texts(s.pending) + [text] by {
      assert last[k..] == texts[|texts| - |s.pending| - 1..];
    }
    TokenSumSuffix(cfg, last, k);
    TokenSumAppend(cfg, Texts(s.pending), text);
  }

  function BatchTexts(sent: seq<Sent>): seq<seq<string>> {
    seq(|sent|, i requires 0 <= i < |sent| => Texts(sent[i].batch))
  }

  lemma {:induction false} BatchTextsFlatten(sent: seq<Sent>)
    ensures Flatten(BatchTexts(sent)) == Texts(Flatten(Batches(sent)))
  {
    if sent == [] {
    } else {
      var n := |sent| - 1;
      BatchTextsFlatten(sent[..n]);
      assert BatchTexts(sent)[..n] == BatchTexts(sent[..n]);
      assert Batches(sent)[..n] == Batches(sent[..n]);
    }
  }

  /**
   * Submissions followed by a close, no timer firing: the batches sent are an order-preserving
   * grouping of the texts, and no such grouping has fewer batches.
   */
  lemma FewestBatches(cfg: Config, subs: seq<(string, Reply)>, reply: Reply, groups: seq<seq<string>>)
    requires cfg.tokenBudget != 0
    requires Grouping(cfg, groups, SubmittedTexts(subs))
    ensures var s := Run(cfg, Submissions(subs) + [Closing(reply)]);
            Grouping(cfg, BatchTexts(s.sent), SubmittedTexts(subs)) && |s.sent| <= |groups|
  {
    var all := Submissions(subs) + [Closing(reply)];
    assert all[..|subs|] == Submissions(subs);
    GreedyStaysAhead(cfg, subs, groups);
    AllAccepted(cfg, subs);
    AlwaysInvariant(cfg, all);
    var s := Run(cfg, all);
    BatchTextsFlatten(s.sent);
    assert Flatten(Batches(s.sent)) + s.pending == Flatten(Batches(s.sent));
    forall g | g in BatchTexts(s.sent) ensures Feasible(cfg, g) {
      var i :| 0 <= i < |s.sent| && g == BatchTexts(s.sent)[i];
      assert s.sent[i] in s.sent;
    }
  }

  lemma PendingUnresolved(cfg: Config, s: State)
    requires Accounted(cfg, s) && cfg.tokenBudget != 0
    ensures Distinct(Futures(s.pending))
    ensures forall i, k :: 0 <= i < |s.pending| && 0 <= k < |s.resolved| ==>
              s.resolved[k].0 != s.pending[i].future
  {
    LogMatchesBatches(s.sent);
    var items := Flatten(Batches(s.sent)) + s.pending;
    var n := |Flatten(Batches(s.sent))|;
    assert forall i :: 0 <= i < |s.pending| ==> items[n + i] == s.pending[i];
    forall k | 0 <= k < |s.resolved| ensures s.resolved[k].0 == k < n {
      assert s.resolved[k].0 == items[k].future;
    }
  }

  // ------------------------------------------------------------ the batcher

  class TokenBudgetBatcher {
    const cfg: Config
    var pending: seq<Item>
    var currentTokens: int
    var timerArmed: bool
    var texts: seq<string>
    var resolved: seq<(nat, Outcome)>
    ghost var sent: seq<Sent>
    ghost var stranded: seq<nat>

    ghost function Abs(): State
      reads this
    {
      State(pending, currentTokens, timerArmed, texts, sent, resolved, stranded)
    }

    ghost predicate Valid()
      reads this
    {
      LockInvariant(cfg, Abs()) && Accounted(cfg, Abs())
    }

    constructor (cfg: Config)
      ensures Valid() && this.cfg == cfg && Abs() == INITIAL
    {
      this.cfg := cfg;
      pending, currentTokens, timerArmed := [], 0, false;
      texts, resolved, sent, stranded := [], [], [], [];
      new;
      AlwaysInvariant(cfg, []);
    }

    predicate Done(future: nat)
      reads this`resolved
    {
      exists k :: 0 <= k < |resolved| && resolved[k].0 == future
    }

    /** Resolves waiters `from..` of a batch with the same error, skipping those already done. */
    method FailRest(batch: seq<Item>, from: nat, error: string)
      requires from <= |batch| && Distinct(Futures(batch))
      requires forall i :: 0 <= i < |batch| ==> (Done(batch[i].future) <==> i < from)
      modifies this`resolved
      ensures resolved == old(resolved) + seq(|batch| - from, i requires 0 <= i < |batch| - from =>
                                                (batch[from + i].future, Failed(error)))
    {
      var i := 0;
      while i < |batch|
        invariant 0 <= i <= |batch|
        invariant resolved == old(resolved) + seq(Max(i - from, 0), j requires 0 <= j < Max(i - from, 0) =>
                                                    (batch[from + j].future, Failed(error)))
      {
        var f := batch[i].future;
        assert Futures(batch)[i] == f;
        if i < from {
          ghost var k :| 0 <= k < |old(resolved)| && old(resolved)[k].0 == f;
          assert resolved[k].0 == f;
        } else {
          forall k | 0 <= k < |resolved| ensures resolved[k].0 != f {
            if |old(resolved)| <= k {
              assert resolved[k].0 == Futures(batch)[from + k - |old(resolved)|];
            }
          }
        }
        if !Done(f) {
          resolved := resolved + [(f, Failed(error))];
        }
        i := i + 1;
      }
    }

    /** Sends the detached batch and resolves its waiters from the reply. */
    method ResolveBatch(batch: seq<Item>, reply: Reply)
      requires Distinct(Futures(batch))
      requires forall i :: 0 <= i < |batch| ==> !Done(batch[i].future)
      modifies this`resolved
      ensures resolved == old(resolved) + Deliver(batch, reply)
    {
      match reply
      case Raised(e) =>
        FailRest(batch, 0, e);
      case Vectors(vs) =>
        var i := 0;
        while i < |batch| && i < |vs|
          invariant 0 <= i <= |batch| && i <= |vs|
          invariant resolved == old(resolved) + Deliver(batch, reply)[..i]
        {
          var f := batch[i].future;
          assert Futures(batch)[i] == f;
          forall k | 0 <= k < |resolved| ensures resolved[k].0 != f {
            if k < |old(resolved)| {
              assert old(resolved)[k] == resolved[k];
            } else {
              assert resolved[k].0 == Futures(batch)[k - |old(resolved)|];
            }
          }
          if !Done(f) {
            resolved := resolved + [(f, Result(vs[i]))];
          }
          i := i + 1;
        }
        if |vs| != |batch| {
          forall j | 0 <= j < |batch| ensures Done(batch[j].future) <==> j < i {
            if j < i {
              assert resolved[|old(resolved)| + j].0 == batch[j].future;
            } else {
              forall k | 0 <= k < |resolved| ensures resolved[k].0 != batch[j].future {
                if k < |old(resolved)| {
                  assert old(resolved)[k] == resolved[k];
                } else {
                  assert resolved[k].0 == Futures(batch)[k - |old(resolved)|];
                  assert Futures(batch)[j] == batch[j].future;
                }
              }
            }
          }
          FailRest(batch, i, ZIP_LENGTH_ERROR);
        }
    }

    /** Returns whether the flush raised. */
    method FlushLocked(reply: Reply) returns (raised: bool)
      requires Valid()
      modifies this
      ensures Valid() && Abs() == Flush(cfg, old(Abs()), reply)
      ensures raised == FlushRaises(cfg, old(Abs()))
    {
      if pending == [] {
        return false;
      }
      ghost var s := Abs();
      FlushKeeps(cfg, s, reply);
      var batch := pending;
      pending, currentTokens, timerArmed := [], 0, false;
      if cfg.tokenBudget == 0 {
        stranded := stranded + Futures(batch);
        assert Abs() == Flush(cfg, s, reply);
        return true;
      }
      assert Distinct(Futures(batch)) && forall i :: 0 <= i < |batch| ==> !Done(batch[i].future) by {
        PendingUnresolved(cfg, s);
      }
      sent := sent + [Sent(batch, reply)];
      ResolveBatch(batch, reply);
      assert Abs() == Flush(cfg, s, reply);
      return false;
    }

    /** The critical section of `embed_single`; `reply` is used only if it has to flush. */
    method EmbedSingle(text: string, reply: Reply) returns (future: Option<nat>)
      requires Valid()
      modifies this
      ensures Valid() && Abs() == Submit(cfg, old(Abs()), text, reply)
      ensures future == if MustFlush(cfg, old(Abs()), text) && FlushRaises(cfg, old(Abs())) then None
                        else Some(|old(texts)|)
    {
      SubmitKeeps(cfg, Abs(), text, reply);
      var tokens := cfg.countTokens(text);
      if currentTokens + tokens > cfg.tokenBudget || |pending| >= cfg.maxBatchSize {
        var raised := FlushLocked(reply);
        if raised {
          return None;
        }
      }
      future := Some(|texts|);
      pending := pending + [Item(text, tokens, |texts|)];
      currentTokens := currentTokens + tokens;
      texts := texts + [text];
      if |pending| == 1 {
        timerArmed := true;
      }
    }

    /** The timer task's critical section; a flush from inside it disarms the timer. */
    method FlushAfterTimeout(reply: Reply)
      requires Valid()
      modifies this
      ensures Valid() && Abs() == TimerFires(cfg, old(Abs()), reply)
      ensures pending == [] && !timerArmed && texts == old(texts)
      ensures cfg.tokenBudget != 0 ==>
                && sent == old(sent) + (if old(pending) == [] then [] else [Sent(old(pending), reply)])
                && resolved == old(resolved) + Deliver(old(pending), reply)
    {
      if timerArmed && pending != [] {
        var _ := FlushLocked(reply);
      }
    }

    method CloseBatcher(reply: Reply)
      requires Valid()
      modifies this
      ensures Valid() && Abs() == Close(cfg, old(Abs()), reply)
      ensures pending == [] && !timerArmed && texts == old(texts)
      ensures cfg.tokenBudget != 0 ==>
                && sent == old(sent) + (if old(pending) == [] then [] else [Sent(old(pending), reply)])
                && resolved == old(resolved) + Deliver(old(pending), reply)
    {
      if pending != [] {
        var _ := FlushLocked(reply);
      }
    }
  }
}
