/** In one buffer placement is exact for every prompt reply exactly when the batch is placeable in one buffer. */
module BatchOneExact {
  import opened Wire
  import opened Frames
  import opened BatchReorder
  import opened BatchConservation
  import opened BatchPlacement
  import opened BatchExact
  import opened BatchOneBuffer
  import opened BatchShapes

  // ---------------------------------------------------------------- one answer

  /** The loop variables agree with the stage of the batch. */
  ghost predicate Staged(p: Plan, st: Stage, s: Scan) {
    match st
    case Start => !s.inExecute && s.counts.execute == 0
    case Early(_) => s.inExecute && s.counts.execute == 0
    case Later(_) => QuietRows(p, s)
    case _ => true
  }

  /** The plan of a batch that stays on course: what its first Execute consumes is what this stage says. */
  ghost predicate OnCourse(p: Plan, st: Stage) {
    && (forall c: nat :: c > 0 ==> Get(p.execute, c) == 0)
    && (st.Early? ==> Get(p.execute, 0) == st.k)
    && (st.Later? ==> Get(p.execute, 0) == st.x)
    && !st.Doomed? && !st.Astray?
  }

  lemma StageQuiet(p: Plan, s: Scan)
    requires (forall c: nat :: c > 0 ==> Get(p.execute, c) == 0) && s.counts.execute > 0
    ensures QuietRows(p, s)
  {
  }

  /** The output of one answer, and the stage after it. */
  lemma AnswerFlow(p: Plan, q: Plan, st: Stage, w: nat, op: BatchOperation, s: Scan, fs: seq<Frame>)
    requires Answers(op, fs) && SameAt(s.counts, q.at) && LooksUp(p, q, op) && PlanAt(q, st, w)
    requires Staged(p, st, s) && OnCourse(p, Move(st, w, op)) && (st.Early? || st.Later? ==> OnCourse(p, st)) && !st.Doomed? && !st.Astray?
    ensures var s' := FlowEnd(p, s, fs); SameAt(s'.counts, Extend(q, op).at) && Staged(p, Move(st, w, op), s')
    ensures Consumes(op) || (op.DescribePortal? && w > 0) ==> Lead(fs) < |fs|
    ensures FlowOut(p, s, fs) == if Consumes(op) || (op.DescribePortal? && w > 0) then Inserted(fs, w) else fs
  {
    hide FlowOut, FlowEnd, Copies, Get, Lead, FrameKind;
    match op {
      case ParseSkipped => FlowNothing(p, s);
      case ParseSent => FlowPassing(p, s, fs);
      case Bind => FlowCompletion(p, s, BindComplete, fs);
      case Close => FlowCompletion(p, s, CloseComplete, fs);
      case Describe =>
        FlowDescribe(p, s, fs);
        DescribeInserted(fs, w);
      case DescribePortal =>
        FlowPortal(p, s, fs);
        InsertedNone(fs);
      case Execute =>
        FlowExecute(p, s, fs);
        if FlowEnd(p, s, fs).counts.execute > 0 {
          StageQuiet(p, FlowEnd(p, s, fs));
        }
    }
  }

  lemma FlowNothing(p: Plan, s: Scan)
    ensures FlowOut(p, s, []) == [] && FlowEnd(p, s, []) == s
  {
  }

  lemma InsertedNone(fs: seq<Frame>)
    ensures Inserted(fs, 0) == fs
  {
  }

  lemma DescribeInserted(fs: seq<Frame>, w: nat)
    requires Lead(fs) < |fs|
    ensures var n := Lead(fs); fs[..n] + Copies(w) + [fs[n]] + Inserted(fs[n + 1..], 0) == Inserted(fs, w)
  {
    hide Lead;
    InsertedNone(fs[Lead(fs) + 1..]);
    InsertedIs(fs, w);
  }

  // ---------------------------------------------------------------- batches that are placeable in one buffer

  /** After some answers: the loop variables, what came out and what should have. */
  ghost predicate Flowed(p: Plan, ops: seq<BatchOperation>, answers: seq<seq<Frame>>)
    requires |ops| == |answers|
  {
    var sent := Concat(answers);
    var s := FlowEnd(p, SCAN_START, sent);
    && SameAt(s.counts, PlanOf(ops).at) && Staged(p, StageOf(ops), s)
    && Match(FlowOut(p, SCAN_START, sent), Unskipped(ops, answers), Waiting(ops), Prompt(ops, answers))
  }

  lemma WholeOnCourse(whole: seq<BatchOperation>, n: nat)
    requires OnePlaceable(whole) && n <= |whole|
    ensures OnCourse(PlanOf(whole), StageOf(whole[..n]))
  {
    StageForward(whole, n);
    PlanStage(whole);
  }

  lemma {:induction false} FlowedPrefix(whole: seq<BatchOperation>, ops: seq<BatchOperation>, answers: seq<seq<Frame>>)
    requires OnePlaceable(whole) && ops <= whole && AnswersAll(ops, answers)
    ensures Flowed(PlanOf(whole), ops, answers)
    decreases |ops|
  {
    hide Answers, Match, FlowOut, FlowEnd, Extend, Copies, Punctual, Get, Move, SameAt, Staged, PlanAt;
    if ops != [] {
      var n := |ops| - 1;
      var p, init, op, fs := PlanOf(whole), ops[..n], ops[n], answers[n];
      assert init == whole[..n] && ops == whole[..n + 1];
      FlowedPrefix(whole, init, answers[..n]);
      PlanStage(init);
      PlanLooksUp(whole, n);
      WholeOnCourse(whole, n);
      WholeOnCourse(whole, n + 1);
      FlowedStep(p, init, answers[..n], op, fs);
      ConcatLast(answers);
    } else {
      NothingFlowed(PlanOf(whole));
    }
  }

  lemma NothingFlowed(p: Plan)
    ensures Flowed(p, [], [])
  {
  }

  lemma FlowedStep(p: Plan, init: seq<BatchOperation>, earlier: seq<seq<Frame>>, op: BatchOperation, fs: seq<Frame>)
    requires |init| == |earlier| && Flowed(p, init, earlier) && Answers(op, fs) && LooksUp(p, PlanOf(init), op)
    requires var st, w := StageOf(init), Waiting(init);
             && PlanAt(PlanOf(init), st, w) && OnCourse(p, Move(st, w, op)) && (st.Start? || OnCourse(p, st))
    ensures var sent, w := Concat(earlier) + fs, Waiting(init);
            var s' := FlowEnd(p, SCAN_START, sent);
            && SameAt(s'.counts, Extend(PlanOf(init), op).at) && Staged(p, Move(StageOf(init), w, op), s')
            && Match(FlowOut(p, SCAN_START, sent),
                     Unskipped(init, earlier) + (if op.ParseSkipped? then [PARSE_COMPLETE] else fs),
                     WaitingAfter(w, op), Prompt(init, earlier) && (w > 0 ==> PunctualAnswer(op, fs)))
  {
    hide Match, FlowOut, FlowEnd, Extend, Copies, Prompt, Punctual, Inserted, Get;
    var sent, w := Concat(earlier), Waiting(init);
    var s := FlowEnd(p, SCAN_START, sent);
    var out, ref, ok := FlowOut(p, SCAN_START, sent), Unskipped(init, earlier), Prompt(init, earlier);
    FlowAppend(p, SCAN_START, sent, fs);
    AnswerFlow(p, PlanOf(init), StageOf(init), w, op, s, fs);
    if op.ParseSkipped? {
      SkippedOne(out, ref, w, ok);
      NonePunctual();
      assert out + [] == out;
    } else if Consumes(op) || (op.DescribePortal? && w > 0) {
      InsertedMatches(out, ref, w, ok, fs);
    } else {
      Passed(out, ref, w, ok, fs);
      if op.ParseSent? {
        AllLead(fs);
        PunctualWhole(fs);
      }
    }
  }

  lemma NonePunctual()
    ensures Punctual([])
  {
  }

  lemma PunctualWhole(fs: seq<Frame>)
    requires Lead(fs) == |fs|
    ensures Punctual(fs) <==> AllCopies(fs)
  {
    assert fs[..|fs|] == fs;
  }

  // ---------------------------------------------------------------- the whole reply in one buffer

  lemma {:induction false} UnskippedCount(ops: seq<BatchOperation>, answers: seq<seq<Frame>>)
    requires AnswersAll(ops, answers)
    ensures |Unskipped(ops, answers)| == |Concat(answers)| + SkippedCount(ops)
    decreases |ops|
  {
    hide Answers;
    if ops != [] {
      var n := |ops| - 1;
      UnskippedCount(ops[..n], answers[..n]);
      ConcatLast(answers);
      if ops[n].ParseSkipped? {
        SkippedSilent(ops, answers);
      }
    }
  }

  lemma SkippedSilent(ops: seq<BatchOperation>, answers: seq<seq<Frame>>)
    requires AnswersAll(ops, answers) && ops != [] && ops[|ops| - 1].ParseSkipped?
    ensures answers[|ops| - 1] == []
  {
  }

  /** The end of the reply gets whatever is not inserted yet. */
  lemma {:induction false} EndRun(p: Plan, total: nat, s: Scan, end: seq<Frame>)
    requires Ready(end) && Run(p, total, s, end).Scanned?
    ensures total + p.pending >= s.inserted
    ensures Out(Run(p, total, s, end).items) == Inserted(end, total + p.pending - s.inserted)
    decreases |end|
  {
    hide FrameKind, Out, Inserted, Due, Advance, WellFramed, Copies;
    var f, k := end[0], FrameKind(end[0]);
    var due, w := Due(p, total, s, k), total + p.pending - s.inserted;
    var rest := Run(p, total, Advance(s, k, due), end[1..]);
    OutOne(due, f, rest.items);
    if |end| == 1 {
      DueAtReady(p, total, s);
      InsertedOne(f, due);
      assert end[1..] == [] && end == [f];
      assert Copies(due) + [f] + [] == Copies(due) + [f];
    } else {
      assert Ready(end[1..]);
      DueNothing(p, total, s);
      EndRun(p, total, Advance(s, k, due), end[1..]);
      InsertedTail(end, w);
      NoCopies([f]);
    }
  }

  lemma DueAtReady(p: Plan, total: nat, s: Scan)
    ensures Due(p, total, s, ReadyForQuery) == total + p.pending - s.inserted
  {
  }

  lemma DueNothing(p: Plan, total: nat, s: Scan)
    ensures Due(p, total, s, PassThrough) == 0 && Advance(s, PassThrough, 0).inserted == s.inserted
  {
  }

  lemma InsertedOne(f: Frame, w: nat)
    requires FrameKind(f).ReadyForQuery?
    ensures Inserted([f], w) == Copies(w) + [f] && Out([]) == []
  {
    hide FrameKind, Copies;
    assert [f][..0] == [] && [f][0..] == [f];
  }

  lemma InsertedTail(fs: seq<Frame>, w: nat)
    requires Lead(fs) > 0
    ensures Inserted(fs, w) == [fs[0]] + Inserted(fs[1..], w)
  {
    hide Copies, FrameKind;
    var n := Lead(fs);
    assert Lead(fs[1..]) == n - 1;
    hide Lead;
    CutTail(fs, n);
    Glued([fs[0]], fs[1..][..n - 1], Copies(w), fs[n..]);
  }

  lemma CutTail(fs: seq<Frame>, n: nat)
    requires 0 < n <= |fs|
    ensures fs[..n] == [fs[0]] + fs[1..][..n - 1] && fs[n..] == fs[1..][n - 1..]
  {
  }

  lemma Glued(a: seq<Frame>, b: seq<Frame>, c: seq<Frame>, d: seq<Frame>)
    ensures (a + b) + c + d == a + (b + c + d)
  {
  }

  lemma ReadyIsOneReply(sent: seq<Frame>, end: seq<Frame>)
    requires Plain(sent) && Ready(end)
    ensures OneReply(sent + end) && AllFramed(sent + end)
  {
    hide FrameKind;
    EndPlain(end);
    var all := sent + end;
    forall i | 0 <= i < |all| ensures !FrameKind(all[i]).ErrorResponse? && (FrameKind(all[i]).ReadyForQuery? <==> i == |all| - 1) {
      assert all[i] == if i < |sent| then sent[i] else end[i - |sent|];
    }
  }

  /** What one call makes of the whole reply. */
  lemma OneCall(ops: seq<BatchOperation>, sent: seq<Frame>, end: seq<Frame>)
    requires SkippedCount(ops) > 0 && Plain(sent) && Ready(end)
    ensures var p := PlanOf(ops); var all := sent + end; var s := FlowEnd(p, SCAN_START, sent);
            var r := Feed(ops, NO_RESPONSES, [all]);
            && SkippedCount(ops) >= s.inserted
            && r.Reply? && r.bytes == Flatten(FlowOut(p, SCAN_START, sent) + Inserted(end, SkippedCount(ops) - s.inserted))
  {
    hide FrameKind, FlowOut, FlowEnd, Inserted, Run, OneReply;
    var p, all := PlanOf(ops), sent + end;
    PlanConserves(ops);
    StartPlan(ops);
    StartLeft(p);
    ReadyIsOneReply(sent, end);
    RunSpendsAll(p, PlanSum(p), SCAN_START, all);
    SplitFlatten(all);
    RunFlow(p, PlanSum(p), SCAN_START, sent, end);
    EndRun(p, PlanSum(p), FlowEnd(p, SCAN_START, sent), end);
    RenderOut(Run(p, PlanSum(p), SCAN_START, all).items);
    FeedOne(ops, all);
  }

  lemma FeedOne(ops: seq<BatchOperation>, all: seq<Frame>)
    ensures Feed(ops, NO_RESPONSES, [all]).Reply? <==> Reorder(ops, SkippedCount(ops), NO_RESPONSES, Flatten(all)).Reply?
    ensures Feed(ops, NO_RESPONSES, [all]).Reply? ==>
              Feed(ops, NO_RESPONSES, [all]).bytes == Reorder(ops, SkippedCount(ops), NO_RESPONSES, Flatten(all)).bytes
  {
    hide Reorder;
    var one: seq<seq<Frame>> := [all];
    assert one[1..] == [];
    var r := Reorder(ops, SkippedCount(ops), NO_RESPONSES, Flatten(all));
    if r.Reply? {
      assert Feed(ops, r.done, one[1..]) == Reply([], r.done);
      assert r.bytes + [] == r.bytes;
    }
  }

  lemma {:induction false} NoneSkipped(ops: seq<BatchOperation>)
    requires SkippedCount(ops) == 0
    ensures Placeable(ops) && Waiting(ops) == 0
  {
    if ops != [] {
      NoneSkipped(ops[..|ops| - 1]);
    }
  }

  lemma FlowFramed(p: Plan, s: Scan, fs: seq<Frame>)
    requires AllFramed(fs)
    ensures AllFramed(FlowOut(p, s, fs))
    decreases |fs|
  {
    hide FrameKind, WellFramed, FlowDue, Copies, Next;
    if fs != [] {
      FlowFramed(p, Next(p, s, fs[0]), fs[1..]);
      CopiesFramed(FlowDue(p, s, FrameKind(fs[0])));
    }
  }

  lemma InsertedFramed(fs: seq<Frame>, w: nat)
    requires AllFramed(fs)
    ensures AllFramed(Inserted(fs, w))
  {
    hide WellFramed, Copies, Lead;
    CopiesFramed(w);
  }

  /** An output that agrees with the reference up to the end of the answers, and then gets all that is missing. */
  lemma EndAgrees(ops: seq<BatchOperation>, answers: seq<seq<Frame>>, end: seq<Frame>, out: seq<Frame>, flush: nat)
    requires AnswersAll(ops, answers) && Ready(end)
    requires Match(out, Unskipped(ops, answers), Waiting(ops), Prompt(ops, answers))
    requires flush + |out| == |Unskipped(ops, answers)|
    ensures out + Inserted(end, flush) == Unskipped(ops, answers) + end <==> PromptReply(ops, answers, end)
  {
    var ref, w, ok := Unskipped(ops, answers), Waiting(ops), Prompt(ops, answers);
    hide Inserted, Prompt, Punctual, Lead;
    if ok {
      assert |out + Copies(w)| == |out| + w;
      InsertedMatches(out, ref, w, ok, end);
      Matched(out + Inserted(end, w), ref + end, PromptReply(ops, answers, end));
    } else {
      DifferGrows(out, ref, Inserted(end, flush), end);
    }
  }

  /**
   For every batch that is placeable in one buffer and every error-free reply to it in one buffer, the client gets the
   reply without skipping if and only if the reply is prompt.
   */
  lemma OneBufferExact(ops: seq<BatchOperation>, answers: seq<seq<Frame>>, end: seq<Frame>)
    requires OnePlaceable(ops) && AnswersAll(ops, answers) && Ready(end)
    ensures Exact(ops, answers, end, [Concat(answers) + end]) <==> PromptReply(ops, answers, end)
  {
    hide Answers, FlowOut, FlowEnd, Inserted, Match, Prompt, Punctual, FrameKind, Ready, Feed, Placeable;
    var p, sent := PlanOf(ops), Concat(answers);
    var all := sent + end;
    if SkippedCount(ops) == 0 {
      NoneSkipped(ops);
      WholeIsOne(all);
      ExactIffPrompt(ops, answers, end, [all]);
    } else {
      AnswersPlain(ops, answers);
      FlowedPrefix(ops, ops, answers);
      UnskippedCount(ops, answers);
      OneCall(ops, sent, end);
      FlowCounts(p, SCAN_START, sent);
      var out := FlowOut(p, SCAN_START, sent);
      var flush := SkippedCount(ops) - FlowEnd(p, SCAN_START, sent).inserted;
      EndAgrees(ops, answers, end, out, flush);
      FlowFramed(p, SCAN_START, sent);
      ReadyFramed(end);
      InsertedFramed(end, flush);
      SameMessages(out + Inserted(end, flush), Unskipped(ops, answers) + end);
    }
  }

  lemma ReadyFramed(end: seq<Frame>)
    requires Ready(end)
    ensures AllFramed(end)
  {
  }

  lemma WholeIsOne(all: seq<Frame>)
    ensures Concat([all]) == all
  {
    var one: seq<seq<Frame>> := [all];
    assert one[1..] == [];
  }
}
