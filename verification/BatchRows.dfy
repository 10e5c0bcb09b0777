/** Executes that take skipped Parses: exact in one buffer when their rows come first and nothing is described before them. */
module BatchRows {
  import opened Frames
  import opened BatchReorder
  import opened BatchPlacement
  import opened BatchExact
  import opened BatchOneBuffer
  import opened BatchShapes
  import opened BatchOneExact
  import opened BatchProtocol

  // ---------------------------------------------------------------- batches and replies

  /** A Describe of either kind has come since the last Execute. */
  predicate Described(ops: seq<BatchOperation>) {
    ops != [] &&
    match ops[|ops| - 1]
    case Describe => true
    case DescribePortal => true
    case Execute => false
    case _ => Described(ops[..|ops| - 1])
  }

  /** No skipped Parse waits at a portal Describe, and none at an Execute once something was described before it. */
  ghost predicate RowPlaceable(ops: seq<BatchOperation>) {
    ops != [] ==>
      var n := |ops| - 1;
      && RowPlaceable(ops[..n])
      && (ops[n].DescribePortal? || (ops[n].Execute? && Described(ops[..n])) ==> Waiting(ops[..n]) == 0)
  }

  /** A result that completes, with a row in front if a skipped Parse waits. */
  ghost predicate Completed(fs: seq<Frame>, waiting: bool, n: int) {
    && Sentence(fs, NOTICES + {'D'}, {'C'}, n)
    && (waiting ==> exists m :: RowAt(fs, m) && m < n)
  }

  ghost predicate RowsComplete(fs: seq<Frame>, waiting: bool) {
    exists n :: Completed(fs, waiting, n)
  }

  /** The first message that is no notice is a row. */
  ghost predicate RowAt(fs: seq<Frame>, m: int) {
    0 <= m < |fs| && AllTyped(fs[..m], NOTICES) && Typed(fs[m], {'D'})
  }

  /** Every Execute of the batch completes, and those that take skipped Parses have rows. */
  ghost predicate RowsAnswered(ops: seq<BatchOperation>, answers: seq<seq<Frame>>)
    requires |ops| == |answers|
  {
    ops != [] ==>
      var n := |ops| - 1;
      && RowsAnswered(ops[..n], answers[..n])
      && (ops[n].Execute? ==> RowsComplete(answers[n], Waiting(ops[..n]) > 0))
  }

  // ---------------------------------------------------------------- the plan

  lemma {:induction false} PendingRows(ops: seq<BatchOperation>)
    requires RowPlaceable(ops)
    ensures PlanOf(ops).pending == Waiting(ops)
  {
    if ops != [] {
      PendingRows(ops[..|ops| - 1]);
    }
  }

  lemma {:induction false} RowPlaceablePrefix(ops: seq<BatchOperation>, n: nat)
    requires RowPlaceable(ops) && n <= |ops|
    ensures RowPlaceable(ops[..n])
    decreases |ops|
  {
    if n == |ops| {
      assert ops[..n] == ops;
    } else {
      var init := ops[..|ops| - 1];
      RowPlaceablePrefix(init, n);
      assert init[..n] == ops[..n];
    }
  }

  /** Once something is described, the next Execute takes nothing. */
  lemma {:induction false} QuietAhead(whole: seq<BatchOperation>, j: nat)
    requires RowPlaceable(whole) && j <= |whole| && Described(whole[..j])
    ensures Get(PlanOf(whole).execute, PlanOf(whole[..j]).at.execute) == 0
    decreases |whole| - j
  {
    hide Get, RowPlaceable;
    if j == |whole| {
      assert whole[..j] == whole;
      NothingLater(whole);
    } else {
      var some := whole[..j + 1];
      assert some[..j] == whole[..j];
      if whole[j].Execute? {
        RowPlaceablePrefix(whole, j + 1);
        RowPlaceablePrefix(whole, j);
        PendingRows(whole[..j]);
        LastPlaced(some);
        PlanLooksUp(whole, j);
      } else {
        QuietAhead(whole, j + 1);
      }
    }
  }

  lemma LastPlaced(ops: seq<BatchOperation>)
    requires RowPlaceable(ops) && ops != []
    ensures var n := |ops| - 1;
            ops[n].DescribePortal? || (ops[n].Execute? && Described(ops[..n])) ==> Waiting(ops[..n]) == 0
  {
  }

  lemma NothingLater(ops: seq<BatchOperation>)
    ensures Get(PlanOf(ops).execute, PlanOf(ops).at.execute) == 0
  {
    PlanConserves(ops);
    AbsentGet(PlanOf(ops).execute, PlanOf(ops).at.execute);
  }

  // ---------------------------------------------------------------- one Execute

  /** Rows with nothing due, completed. */
  lemma FlowQuiet(p: Plan, s: Scan, fs: seq<Frame>, n: int)
    requires Sentence(fs, NOTICES + {'D'}, {'C'}, n) && QuietRows(p, s)
    ensures FlowOut(p, s, fs) == fs
    ensures var s' := FlowEnd(p, s, fs); s'.counts == Bump(s.counts, CommandComplete) && !s'.inExecute
  {
    hide FlowOut, FlowEnd, Get, Copies, Passing, Rows, AllTyped;
    var body, last, rest := fs[..n], fs[n], fs[n + 1..];
    RowsPass(body);
    NoticesPass(rest);
    FlowRows(p, s, body);
    FlowOne(p, FlowEnd(p, s, body), last);
    FlowAppend(p, s, body, [last]);
    FlowAppend(p, s, body + [last], rest);
    FlowPassing(p, FlowEnd(p, s, body + [last]), rest);
    assert fs == body + [last] + rest;
    assert Copies(0) + [last] == [last] by { NoCopies([last]); }
  }

  /** Rows with the first one taking what waits. */
  lemma FlowTaking(p: Plan, s: Scan, fs: seq<Frame>, m: int, n: int)
    requires Sentence(fs, NOTICES + {'D'}, {'C'}, n) && RowAt(fs, m) && m < n && !s.inExecute
    ensures Lead(fs) == m && FlowOut(p, s, fs) == Inserted(fs, Get(p.execute, s.counts.execute))
    ensures var s' := FlowEnd(p, s, fs); s'.counts == Bump(s.counts, CommandComplete) && !s'.inExecute
  {
    hide FlowOut, FlowEnd, Get, Copies, AllTyped, Lead, Inserted, Passing;
    NoticesPass(fs[..m]);
    LeadIs(fs, m);
    FlowLed(p, s, fs);
    var t, post := FlowEnd(p, s, fs[..m + 1]), fs[m + 1..];
    SentenceTail(fs, m, n);
    FlowQuiet(p, t, post, n - m - 1);
    InsertedIs(fs, Get(p.execute, s.counts.execute));
  }

  lemma SentenceTail(fs: seq<Frame>, m: int, n: int)
    requires Sentence(fs, NOTICES + {'D'}, {'C'}, n) && 0 <= m < n
    ensures Sentence(fs[m + 1..], NOTICES + {'D'}, {'C'}, n - m - 1)
  {
    hide Typed;
    var post := fs[m + 1..];
    assert post[..n - m - 1] == fs[..n][m + 1..];
    assert post[n - m..] == fs[n + 1..];
  }

  // ---------------------------------------------------------------- the whole batch

  ghost predicate RowsFlowed(p: Plan, ops: seq<BatchOperation>, answers: seq<seq<Frame>>)
    requires |ops| == |answers|
  {
    var sent := Concat(answers);
    var s := FlowEnd(p, SCAN_START, sent);
    && s.counts == PlanOf(ops).at && s.inExecute == Described(ops)
    && Match(FlowOut(p, SCAN_START, sent), Unskipped(ops, answers), Waiting(ops), Prompt(ops, answers))
  }

  /** What one answer adds, when the plan looks up what waits. */
  lemma AnswerRows(p: Plan, q: Plan, w: nat, op: BatchOperation, s: Scan, fs: seq<Frame>)
    requires Answers(op, fs) && s.counts == q.at && LooksUp(p, q, op) && q.pending == w
    requires op.Describe? || op.DescribePortal? ==> QuietRows(p, s)
    requires op.DescribePortal? ==> w == 0
    requires op.Execute? ==> Get(p.execute, q.at.execute) == w && RowsComplete(fs, w > 0)
    requires op.Execute? && s.inExecute ==> w == 0
    ensures var s' := FlowEnd(p, s, fs);
            && s'.counts == Extend(q, op).at
            && s'.inExecute == (if op.Execute? then false else s.inExecute || op.Describe? || op.DescribePortal?)
    ensures Consumes(op) || (op.Execute? && w > 0) ==> Lead(fs) < |fs|
    ensures FlowOut(p, s, fs) == if Consumes(op) || (op.Execute? && w > 0) then Inserted(fs, w) else fs
  {
    hide FlowOut, FlowEnd, Copies, Get, Lead, FrameKind, Inserted, AllTyped, Typed;
    match op {
      case ParseSkipped => FlowNothing(p, s);
      case ParseSent => FlowPassing(p, s, fs);
      case Bind => FlowCompletion(p, s, BindComplete, fs);
      case Close => FlowCompletion(p, s, CloseComplete, fs);
      case Describe =>
        FlowDescribe(p, s, fs);
        DescribeInserted(fs, w);
      case DescribePortal =>
        FlowPortal(p, s, fs);
        InsertedNone(fs);
      case Execute =>
        var n :| Completed(fs, w > 0, n);
        if w > 0 {
          var m :| RowAt(fs, m) && m < n;
          FlowTaking(p, s, fs, m, n);
        } else {
          FlowQuiet(p, s, fs, n);
        }
    }
  }

  lemma RowsStep(p: Plan, init: seq<BatchOperation>, earlier: seq<seq<Frame>>, op: BatchOperation, fs: seq<Frame>)
    requires |init| == |earlier| && RowsFlowed(p, init, earlier) && Answers(op, fs) && LooksUp(p, PlanOf(init), op)
    requires PlanOf(init).pending == Waiting(init)
    requires op.Describe? || op.DescribePortal? ==> Described(init) || Get(p.execute, PlanOf(init).at.execute) == 0
    requires op.DescribePortal? || (op.Execute? && Described(init)) ==> Waiting(init) == 0
    requires op.Execute? ==> Get(p.execute, PlanOf(init).at.execute) == Waiting(init) && RowsComplete(fs, Waiting(init) > 0)
    ensures var sent, w := Concat(earlier) + fs, Waiting(init);
            var s' := FlowEnd(p, SCAN_START, sent);
            && s'.counts == Extend(PlanOf(init), op).at && s'.inExecute == Described(init + [op])
            && Match(FlowOut(p, SCAN_START, sent),
                     Unskipped(init, earlier) + (if op.ParseSkipped? then [PARSE_COMPLETE] else fs),
                     WaitingAfter(w, op), Prompt(init, earlier) && (w > 0 ==> PunctualAnswer(op, fs)))
  {
    hide Match, FlowOut, FlowEnd, Extend, Copies, Prompt, Inserted, Get, RowsComplete, Answers, Concat, Unskipped, Waiting,
      PlanOf, LooksUp, PunctualAnswer;
    var sent, w := Concat(earlier), Waiting(init);
    var s := FlowEnd(p, SCAN_START, sent);
    var out, ref, ok := FlowOut(p, SCAN_START, sent), Unskipped(init, earlier), Prompt(init, earlier);
    assert (init + [op])[..|init|] == init;
    FlowAppend(p, SCAN_START, sent, fs);
    AnswerRows(p, PlanOf(init), w, op, s, fs);
    MatchRows(out, ref, w, ok, op, fs);
  }

  /** How an answer keeps the output in step. */
  lemma MatchRows(out: seq<Frame>, ref: seq<Frame>, w: nat, ok: bool, op: BatchOperation, fs: seq<Frame>)
    requires Match(out, ref, w, ok) && Answers(op, fs)
    requires op.DescribePortal? ==> w == 0
    requires op.Execute? ==> RowsComplete(fs, w > 0)
    requires Consumes(op) || (op.Execute? && w > 0) ==> Lead(fs) < |fs|
    ensures Match(out + (if Consumes(op) || (op.Execute? && w > 0) then Inserted(fs, w) else fs),
                  ref + (if op.ParseSkipped? then [PARSE_COMPLETE] else fs),
                  WaitingAfter(w, op), ok && (w > 0 ==> PunctualAnswer(op, fs)))
  {
    hide Match, Copies, Inserted, RowsComplete, Answers, Punctual, Lead;
    if op.ParseSkipped? {
      SkippedOne(out, ref, w, ok);
      NonePunctual();
      SkippedNothing(fs);
      assert out + [] == out;
    } else if Consumes(op) || (op.Execute? && w > 0) {
      InsertedMatches(out, ref, w, ok, fs);
      if op.Execute? {
        RowsPunctual(fs);
      }
    } else {
      Passed(out, ref, w, ok, fs);
      if op.ParseSent? {
        SentPassing(fs);
        AllLead(fs);
        PunctualWhole(fs);
      }
    }
  }

  lemma SkippedNothing(fs: seq<Frame>)
    requires Answers(ParseSkipped, fs)
    ensures fs == []
  {
  }

  lemma SentPassing(fs: seq<Frame>)
    requires Answers(ParseSent, fs)
    ensures Passing(fs)
  {
  }

  /** An answer with rows in front is prompt exactly if nothing comes before the first row. */
  lemma RowsPunctual(fs: seq<Frame>)
    requires RowsComplete(fs, true)
    ensures PunctualAnswer(BatchOperation.Execute, fs) <==> Punctual(fs)
  {
    hide Lead, FrameKind;
    var n :| Completed(fs, true, n);
    NoneEndsPortal(fs, n);
  }

  lemma NoneEndsPortal(fs: seq<Frame>, n: int)
    requires Sentence(fs, NOTICES + {'D'}, {'C'}, n)
    ensures forall i :: 0 <= i < |fs| ==> !EndsPortal(fs[i])
  {
    forall i | 0 <= i < |fs| ensures !EndsPortal(fs[i]) {
      if i < n {
        assert fs[i] == fs[..n][i] && Typed(fs[..n][i], NOTICES + {'D'});
      } else if i > n {
        assert fs[i] == fs[n + 1..][i - n - 1] && Typed(fs[n + 1..][i - n - 1], NOTICES);
      }
    }
  }

  /** What the plan of the whole batch says at operation `n`. */
  lemma RowFacts(whole: seq<BatchOperation>, n: nat)
    requires RowPlaceable(whole) && n < |whole|
    ensures var p, init, op := PlanOf(whole), whole[..n], whole[n];
            && LooksUp(p, PlanOf(init), op) && PlanOf(init).pending == Waiting(init)
            && (op.Execute? ==> Get(p.execute, PlanOf(init).at.execute) == Waiting(init))
            && (op.DescribePortal? || (op.Execute? && Described(init)) ==> Waiting(init) == 0)
            && (op.Describe? || op.DescribePortal? ==> Get(p.execute, PlanOf(init).at.execute) == 0)
  {
    hide Get, RowPlaceable, Extend, Waiting;
    var init, some := whole[..n], whole[..n + 1];
    assert some[..n] == init && some == init + [whole[n]];
    RowPlaceablePrefix(whole, n);
    RowPlaceablePrefix(whole, n + 1);
    PendingRows(init);
    LastPlaced(some);
    PlanLooksUp(whole, n);
    if whole[n].Describe? || whole[n].DescribePortal? {
      QuietAhead(whole, n + 1);
      SameExecutes(init, whole[n]);
    }
  }

  lemma {:induction false} RowsPrefix(whole: seq<BatchOperation>, ops: seq<BatchOperation>, answers: seq<seq<Frame>>)
    requires RowPlaceable(whole) && ops <= whole && AnswersAll(ops, answers) && RowsAnswered(ops, answers)
    ensures RowsFlowed(PlanOf(whole), ops, answers)
    decreases |ops|
  {
    hide Answers, Match, FlowOut, FlowEnd, Extend, Copies, PunctualAnswer, Get, RowPlaceable, RowsComplete, LooksUp, Described, Concat;
    if ops != [] {
      var n := |ops| - 1;
      var p, init, op, fs := PlanOf(whole), ops[..n], ops[n], answers[n];
      assert init == whole[..n] && whole[n] == op && init + [op] == ops;
      RowsPrefix(whole, init, answers[..n]);
      RowFacts(whole, n);
      RowsStep(p, init, answers[..n], op, fs);
      ConcatLast(answers);
    } else {
      NothingRows(PlanOf(whole));
    }
  }

  lemma SameExecutes(init: seq<BatchOperation>, op: BatchOperation)
    requires op.Describe? || op.DescribePortal?
    ensures PlanOf(init + [op]).at.execute == PlanOf(init).at.execute
  {
    assert (init + [op])[..|init|] == init;
  }

  lemma NothingRows(p: Plan)
    ensures RowsFlowed(p, [], [])
  {
  }

  /**
   For every such batch and every reply in one buffer whose Executes complete, those that take skipped Parses with rows:
   the client gets the reply without skipping if and only if the reply is prompt.
   */
  lemma RowsExact(ops: seq<BatchOperation>, answers: seq<seq<Frame>>, end: seq<Frame>)
    requires RowPlaceable(ops) && SaysAll(ops, answers) && RowsAnswered(ops, answers) && SaysReady(end)
    ensures Exact(ops, answers, end, [Concat(answers) + end]) <==> PromptReply(ops, answers, end)
  {
    hide Answers, FlowOut, FlowEnd, Inserted, Match, Prompt, Punctual, FrameKind, Ready, Feed, Placeable, RowPlaceable,
      RowsAnswered, Says, SaysReady;
    SaysAnswersAll(ops, answers);
    ReadySaid(end);
    var p, sent := PlanOf(ops), Concat(answers);
    var all := sent + end;
    if SkippedCount(ops) == 0 {
      NoneSkipped(ops);
      WholeIsOne(all);
      ExactIffPrompt(ops, answers, end, [all]);
    } else {
      AnswersPlain(ops, answers);
      RowsPrefix(ops, ops, answers);
      UnskippedCount(ops, answers);
      OneCall(ops, sent, end);
      FlowCounts(p, SCAN_START, sent);
      var out := FlowOut(p, SCAN_START, sent);
      var flush := SkippedCount(ops) - FlowEnd(p, SCAN_START, sent).inserted;
      EndAgrees(ops, answers, end, out, flush);
      FlowFramed(p, SCAN_START, sent);
      ReadyFramed(end);
      InsertedFramed(end, flush);
      SameMessages(out + Inserted(end, flush), Unskipped(ops, answers) + end);
    }
  }
}
