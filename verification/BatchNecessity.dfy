/** No more batches can be placed exactly: every other one has a prompt reply that comes out wrong in one buffer. */
module BatchNecessity {
  import opened Wire
  import opened Frames
  import opened BatchReorder
  import opened BatchPlacement
  import opened BatchExact
  import opened BatchOneBuffer
  import opened BatchShapes
  import opened BatchOneExact

  // ---------------------------------------------------------------- a reply that shows the fault

  /** A backend message with its length field. */
  function Message(t: byte, body: seq<byte>): Frame { [t] + ToBE(4, 4 + |body|) + body }

  lemma MessageFramed(t: byte, body: seq<byte>)
    requires |body| < 0x1_0000
    ensures WellFramed(Message(t, body)) && FrameKind(Message(t, body)) == KindOf(t) && Message(t, body)[0] == t
  {
    Widths();
    BERoundTrip(4, 4 + |body|);
    assert Message(t, body)[1..5] == ToBE(4, 4 + |body|);
  }

  const BIND_COMPLETE := Message('2' as int, [])
  const CLOSE_COMPLETE := Message('3' as int, [])
  const PARAMETER_DESCRIPTION := Message('t' as int, [0, 0])
  const NO_DATA := Message('n' as int, [])
  const EMPTY_QUERY := Message('I' as int, [])
  const READY := [Message('Z' as int, ['I' as int])]

  lemma Messages()
    ensures WellFramed(BIND_COMPLETE) && FrameKind(BIND_COMPLETE) == BindComplete && BIND_COMPLETE != PARSE_COMPLETE
    ensures WellFramed(CLOSE_COMPLETE) && FrameKind(CLOSE_COMPLETE) == CloseComplete && CLOSE_COMPLETE != PARSE_COMPLETE
    ensures WellFramed(PARAMETER_DESCRIPTION) && FrameKind(PARAMETER_DESCRIPTION) == ParameterDescription
    ensures PARAMETER_DESCRIPTION != PARSE_COMPLETE
    ensures WellFramed(NO_DATA) && FrameKind(NO_DATA) == RowMessage && NO_DATA != PARSE_COMPLETE
    ensures WellFramed(EMPTY_QUERY) && FrameKind(EMPTY_QUERY) == PassThrough && EMPTY_QUERY != PARSE_COMPLETE
    ensures WellFramed(PARSE_COMPLETE) && FrameKind(PARSE_COMPLETE) == PassThrough
  {
    hide Message, FrameKind;
    MessageFramed('2' as int, []);
    MessageFramed('3' as int, []);
    MessageFramed('t' as int, [0, 0]);
    MessageFramed('n' as int, []);
    MessageFramed('I' as int, []);
    ParseCompleteFramed();
    assert PARSE_COMPLETE[0] == '1' as int;
  }

  /** Answers to statements with empty query strings. */
  function Shown(op: BatchOperation): seq<Frame> {
    match op
    case ParseSkipped => []
    case ParseSent => [PARSE_COMPLETE]
    case Describe => [PARAMETER_DESCRIPTION, NO_DATA]
    case DescribePortal => [NO_DATA]
    case Bind => [BIND_COMPLETE]
    case Execute => [EMPTY_QUERY]
    case Close => [CLOSE_COMPLETE]
  }

  function ShownAll(ops: seq<BatchOperation>): (r: seq<seq<Frame>>)
    ensures |r| == |ops|
  {
    if ops == [] then [] else ShownAll(ops[..|ops| - 1]) + [Shown(ops[|ops| - 1])]
  }

  /** A single message, passed through or not. */
  lemma LeadOne(f: Frame)
    ensures Lead([f]) == (if FrameKind(f).PassThrough? then 1 else 0) && [f][1..] == []
  {
    hide FrameKind;
    assert [f][1..] == [];
  }

  lemma ShownAnswers(op: BatchOperation)
    ensures Answers(op, Shown(op)) && AllFramed(Shown(op)) && PunctualAnswer(op, Shown(op))
  {
    hide Message, FrameKind, WellFramed;
    Messages();
    var fs := Shown(op);
    if op.Describe? {
      LeadOne(NO_DATA);
      assert fs[1..] == [NO_DATA] && Lead(fs) == 0;
    } else if op.Execute? {
      MessageFramed('I' as int, []);
      assert EndsPortal(fs[0]) && fs[..0] == [] && fs[1..] == [];
      assert ExecutesAt(fs, 0);
    } else if !op.ParseSkipped? {
      LeadOne(fs[0]);
      assert fs[..1] == [fs[0]];
    }
  }

  lemma {:induction false} ShownAnswerAll(ops: seq<BatchOperation>)
    ensures AnswersAll(ops, ShownAll(ops))
  {
    hide Answers, Shown;
    if ops != [] {
      var n := |ops| - 1;
      ShownAnswerAll(ops[..n]);
      ShownAnswers(ops[n]);
      assert ShownAll(ops)[..n] == ShownAll(ops[..n]);
    }
  }

  lemma {:induction false} ShownPrompt(ops: seq<BatchOperation>)
    ensures Prompt(ops, ShownAll(ops))
  {
    hide PunctualAnswer, Shown;
    if ops != [] {
      var n := |ops| - 1;
      ShownPrompt(ops[..n]);
      ShownAnswers(ops[n]);
      assert ShownAll(ops)[..n] == ShownAll(ops[..n]);
    }
  }

  lemma ReadyShown()
    ensures Ready(READY) && Punctual(READY)
  {
    MessageFramed('Z' as int, ['I' as int]);
    LeadOne(READY[0]);
  }

  // ---------------------------------------------------------------- what comes out for it

  /** The output of one shown answer. */
  function ShownOut(p: Plan, q: Plan, op: BatchOperation, s: Scan): seq<Frame> {
    match op
    case Bind => Copies(q.pending) + [BIND_COMPLETE]
    case Close => Copies(q.pending) + [CLOSE_COMPLETE]
    case Describe => Copies(q.pending) + [PARAMETER_DESCRIPTION] + (Copies(RowDue(p, s)) + [NO_DATA])
    case DescribePortal => Copies(RowDue(p, s)) + [NO_DATA]
    case _ => Shown(op)
  }

  lemma InsertedFirst(f: Frame, w: nat)
    requires Lead([f]) == 0
    ensures Inserted([f], w) == Copies(w) + [f]
  {
  }

  lemma ShownFlow(p: Plan, q: Plan, op: BatchOperation, s: Scan)
    requires SameAt(s.counts, q.at) && LooksUp(p, q, op)
    ensures FlowOut(p, s, Shown(op)) == ShownOut(p, q, op, s)
    ensures var s' := FlowEnd(p, s, Shown(op));
            && SameAt(s'.counts, Extend(q, op).at) && s'.counts.execute == s.counts.execute
            && s'.inExecute == (s.inExecute || op.Describe? || op.DescribePortal?)
  {
    hide FlowOut, FlowEnd, Copies, Get, FrameKind, Message, Inserted;
    ShownAnswers(op);
    Messages();
    match op {
      case ParseSkipped => FlowNothing(p, s);
      case ParseSent => FlowPassing(p, s, Shown(op));
      case Execute => FlowPassing(p, s, Shown(op));
      case Bind =>
        LeadOne(BIND_COMPLETE);
        FlowCompletion(p, s, BindComplete, Shown(op));
        InsertedFirst(BIND_COMPLETE, q.pending);
      case Close =>
        LeadOne(CLOSE_COMPLETE);
        FlowCompletion(p, s, CloseComplete, Shown(op));
        InsertedFirst(CLOSE_COMPLETE, q.pending);
      case DescribePortal =>
        LeadOne(NO_DATA);
        FlowPortal(p, s, Shown(op));
        InsertedFirst(NO_DATA, RowDue(p, s));
      case Describe =>
        LeadOne(NO_DATA);
        assert Shown(op)[1..] == [NO_DATA] && Shown(op)[..0] == [];
        FlowDescribe(p, s, Shown(op));
        InsertedFirst(NO_DATA, RowDue(p, s));
        assert [] + Copies(q.pending) == Copies(q.pending);
    }
  }

  /** Different numbers of ParseCompletes before the same message. */
  lemma CopiesDiffer(out: seq<Frame>, a: nat, b: nat, f: Frame, x: seq<Frame>, y: seq<Frame>)
    requires a != b && f != PARSE_COMPLETE
    ensures Differ(out + (Copies(a) + [f] + x), out + (Copies(b) + [f] + y))
  {
    var at := |out| + if a < b then a else b;
    assert (out + (Copies(a) + [f] + x))[at] != (out + (Copies(b) + [f] + y))[at];
  }

  /** Where the output of the shown answers stands: astray, or in step as long as the stage lets it be. */
  ghost predicate InStep(p: Plan, st: Stage, w: nat, s: Scan, out: seq<Frame>, ref: seq<Frame>) {
    Match(out, ref, w, true) &&
    match st
    case Start => !s.inExecute
    case Early(k) => s.inExecute && Get(p.execute, 0) == k
    case Doomed(k) => s.inExecute && Get(p.execute, 0) == k
    case Later(_) => s.inExecute || Get(p.execute, 0) == 0
    case Astray => false
  }

  /** Operations that leave the output in step whatever the stage. */
  lemma ParseStep(p: Plan, q: Plan, st: Stage, w: nat, op: BatchOperation, s: Scan, out: seq<Frame>, ref: seq<Frame>)
    requires InStep(p, st, w, s, out, ref) && (op.ParseSent? || op.ParseSkipped?)
    ensures InStep(p, Move(st, w, op), WaitingAfter(w, op), s, out + Shown(op),
                   ref + if op.ParseSkipped? then [PARSE_COMPLETE] else Shown(op))
  {
    hide Match, Copies, Get;
    if op.ParseSkipped? {
      SkippedOne(out, ref, w, true);
      assert out + [] == out;
    } else {
      Passed(out, ref, w, true, Shown(op));
    }
  }

  /** A completion: everything pending comes out, and only what waits should. */
  lemma CompletionStep(out: seq<Frame>, ref: seq<Frame>, w: nat, pending: nat, f: Frame, x: seq<Frame>, y: seq<Frame>)
    requires Match(out, ref, w, true) && f != PARSE_COMPLETE
    ensures pending == w ==> Match(out + (Copies(pending) + [f]), ref + [f], 0, true)
    ensures pending != w ==> Differ(out + (Copies(pending) + [f] + x), ref + ([f] + y))
  {
    if pending == w {
      Caught(out, ref, w, true, f);
    } else {
      CopiesDiffer(out, pending, w, f, x, y);
      assert out + Copies(w) + ([f] + y) == out + (Copies(w) + [f] + y);
    }
  }

  lemma BindStep(p: Plan, q: Plan, st: Stage, w: nat, op: BatchOperation, s: Scan, out: seq<Frame>, ref: seq<Frame>)
    requires InStep(p, st, w, s, out, ref) && PlanAt(q, st, w) && (op.Bind? || op.Close?)
    ensures var out', ref' := out + ShownOut(p, q, op, s), ref + Shown(op);
            Differ(out', ref') || InStep(p, Move(st, w, op), 0, s, out', ref')
  {
    hide Match, Copies, Get, Message;
    Messages();
    var f := Shown(op)[0];
    CompletionStep(out, ref, w, q.pending, f, [], []);
    assert Copies(q.pending) + [f] + [] == Copies(q.pending) + [f] && [f] + [] == [f];
  }

  lemma PortalStep(p: Plan, q: Plan, st: Stage, w: nat, s: Scan, s': Scan, out: seq<Frame>, ref: seq<Frame>)
    requires InStep(p, st, w, s, out, ref) && PlanAt(q, st, w) && s.counts.execute == 0 && s'.inExecute
    ensures var op := BatchOperation.DescribePortal; var out', ref' := out + ShownOut(p, q, op, s), ref + Shown(op);
            Differ(out', ref') || InStep(p, Move(st, w, op), 0, s', out', ref')
  {
    hide Match, Copies, Get, Message;
    Messages();
    CompletionStep(out, ref, w, RowDue(p, s), NO_DATA, [], []);
    assert Copies(RowDue(p, s)) + [NO_DATA] + [] == Copies(RowDue(p, s)) + [NO_DATA] && [NO_DATA] + [] == [NO_DATA];
  }

  lemma DescribeStep(p: Plan, q: Plan, st: Stage, w: nat, s: Scan, s': Scan, out: seq<Frame>, ref: seq<Frame>)
    requires InStep(p, st, w, s, out, ref) && PlanAt(q, st, w) && s.counts.execute == 0 && s'.inExecute
    ensures var op := BatchOperation.Describe; var out', ref' := out + ShownOut(p, q, op, s), ref + Shown(op);
            Differ(out', ref') || InStep(p, Move(st, w, op), 0, s', out', ref')
  {
    hide Match, Copies, Get, Message;
    Messages();
    var row := Copies(RowDue(p, s)) + [NO_DATA];
    var t := PARAMETER_DESCRIPTION;
    CompletionStep(out, ref, w, q.pending, t, row, [NO_DATA]);
    assert Shown(BatchOperation.Describe) == [t] + [NO_DATA];
    if q.pending == w {
      var out1, ref1 := out + (Copies(w) + [t]), ref + [t];
      CompletionStep(out1, ref1, 0, RowDue(p, s), NO_DATA, [], []);
      assert row + [] == row && [NO_DATA] + [] == [NO_DATA];
      assert out + (Copies(w) + [t] + row) == out1 + row;
      assert ref + ([t] + [NO_DATA]) == ref1 + [NO_DATA];
    }
  }

  lemma ExecuteStep(p: Plan, q: Plan, st: Stage, w: nat, s: Scan, out: seq<Frame>, ref: seq<Frame>)
    requires InStep(p, st, w, s, out, ref) && PlanAt(q, st, w) && Get(p.execute, q.at.execute) == q.pending
    ensures var op := BatchOperation.Execute; var out', ref' := out + Shown(op), ref + Shown(op);
            Differ(out', ref') || InStep(p, Move(st, w, op), 0, s, out', ref')
  {
    hide Copies, Get, Message;
    Messages();
    Passed(out, ref, w, true, [EMPTY_QUERY]);
    assert !AllCopies([EMPTY_QUERY]) by { assert [EMPTY_QUERY][0] != PARSE_COMPLETE; }
  }

  /** After the shown answers to a prefix of a batch with plan `p`. */
  ghost predicate Followed(p: Plan, ops: seq<BatchOperation>) {
    var sent, ref := Concat(ShownAll(ops)), Unskipped(ops, ShownAll(ops));
    var s, out := FlowEnd(p, SCAN_START, sent), FlowOut(p, SCAN_START, sent);
    && SameAt(s.counts, PlanOf(ops).at) && s.counts.execute == 0
    && (Differ(out, ref) || InStep(p, StageOf(ops), Waiting(ops), s, out, ref))
  }

  lemma {:induction false} FollowedPrefix(whole: seq<BatchOperation>, n: nat)
    requires n <= |whole|
    ensures Followed(PlanOf(whole), whole[..n])
    decreases n
  {
    hide Shown, FlowOut, FlowEnd, Extend, Get, Move, SameAt, InStep, Differ, PlanAt, Copies;
    var ops := whole[..n];
    if n > 0 {
      var p, init, op := PlanOf(whole), whole[..n - 1], whole[n - 1];
      assert ops[..n - 1] == init && ops[n - 1] == op;
      FollowedPrefix(whole, n - 1);
      PlanStage(init);
      PlanLooksUp(whole, n - 1);
      FollowedStep(p, init, op);
      ShownGrows(ops);
    } else {
      NothingFollowed(PlanOf(whole));
    }
  }

  lemma NothingFollowed(p: Plan)
    ensures Followed(p, [])
  {
  }

  lemma ShownGrows(ops: seq<BatchOperation>)
    requires ops != []
    ensures var n := |ops| - 1;
            && Concat(ShownAll(ops)) == Concat(ShownAll(ops[..n])) + Shown(ops[n])
            && Unskipped(ops, ShownAll(ops))
                 == Unskipped(ops[..n], ShownAll(ops[..n])) + if ops[n].ParseSkipped? then [PARSE_COMPLETE] else Shown(ops[n])
  {
    hide Shown;
    var n := |ops| - 1;
    ConcatAppend(ShownAll(ops[..n]), Shown(ops[n]));
    assert ShownAll(ops)[..n] == ShownAll(ops[..n]);
  }

  lemma FollowedStep(p: Plan, init: seq<BatchOperation>, op: BatchOperation)
    requires Followed(p, init) && PlanAt(PlanOf(init), StageOf(init), Waiting(init)) && LooksUp(p, PlanOf(init), op)
    requires op.Execute? ==> Get(p.execute, PlanOf(init).at.execute) == PlanOf(init).pending
    ensures var q, st, w := PlanOf(init), StageOf(init), Waiting(init);
            var sent := Concat(ShownAll(init)) + Shown(op);
            var ref := Unskipped(init, ShownAll(init)) + if op.ParseSkipped? then [PARSE_COMPLETE] else Shown(op);
            var s, out := FlowEnd(p, SCAN_START, sent), FlowOut(p, SCAN_START, sent);
            && SameAt(s.counts, Extend(q, op).at) && s.counts.execute == 0
            && (Differ(out, ref) || InStep(p, Move(st, w, op), WaitingAfter(w, op), s, out, ref))
  {
    hide Shown, ShownOut, FlowOut, FlowEnd, Extend, Get, Move, SameAt, InStep, Differ, PlanAt, Copies;
    var q, st, w := PlanOf(init), StageOf(init), Waiting(init);
    var sent, ref := Concat(ShownAll(init)), Unskipped(init, ShownAll(init));
    var s, out := FlowEnd(p, SCAN_START, sent), FlowOut(p, SCAN_START, sent);
    FlowAppend(p, SCAN_START, sent, Shown(op));
    ShownFlow(p, q, op, s);
    var s' := FlowEnd(p, s, Shown(op));
    if Differ(out, ref) {
      DifferGrows(out, ref, FlowOut(p, s, Shown(op)), if op.ParseSkipped? then [PARSE_COMPLETE] else Shown(op));
    } else {
      if op.ParseSkipped? || op.ParseSent? || op.Execute? {
        OutSame(p, q, op, s);
      }
      match op {
        case ParseSkipped => ParseStep(p, q, st, w, op, s, out, ref);
        case ParseSent => ParseStep(p, q, st, w, op, s, out, ref);
        case Bind => BindStep(p, q, st, w, op, s, out, ref);
        case Close => BindStep(p, q, st, w, op, s, out, ref);
        case DescribePortal => PortalStep(p, q, st, w, s, s', out, ref);
        case Describe => DescribeStep(p, q, st, w, s, s', out, ref);
        case Execute => ExecuteStep(p, q, st, w, s, out, ref);
      }
      var out', ref' := out + ShownOut(p, q, op, s), ref + if op.ParseSkipped? then [PARSE_COMPLETE] else Shown(op);
      if s'.inExecute == s.inExecute && InStep(p, Move(st, w, op), WaitingAfter(w, op), s, out', ref') {
        StillInStep(p, Move(st, w, op), WaitingAfter(w, op), s, s', out', ref');
      }
    }
  }

  lemma StillInStep(p: Plan, st: Stage, w: nat, s: Scan, s': Scan, out: seq<Frame>, ref: seq<Frame>)
    requires InStep(p, st, w, s, out, ref) && s'.inExecute == s.inExecute
    ensures InStep(p, st, w, s', out, ref)
  {
  }

  lemma OutSame(p: Plan, q: Plan, op: BatchOperation, s: Scan)
    requires op.ParseSkipped? || op.ParseSent? || op.Execute?
    ensures ShownOut(p, q, op, s) == Shown(op)
  {
  }

  // ---------------------------------------------------------------- the theorem

  lemma OutOfStep(ops: seq<BatchOperation>)
    requires !OnePlaceable(ops)
    ensures var sent := Concat(ShownAll(ops)); Differ(FlowOut(PlanOf(ops), SCAN_START, sent), Unskipped(ops, ShownAll(ops)))
  {
    hide Shown, FlowOut, FlowEnd, Differ;
    FollowedPrefix(ops, |ops|);
    assert ops[..|ops|] == ops;
    PlanStage(ops);
  }

  /** The shown reply in one buffer comes out with some message where the reply without skipping has another. */
  lemma GoesAstray(ops: seq<BatchOperation>) returns (out: seq<Frame>)
    requires !OnePlaceable(ops)
    ensures var sent, wanted := Concat(ShownAll(ops)), Unskipped(ops, ShownAll(ops)) + READY;
            var r := Feed(ops, NO_RESPONSES, [sent + READY]);
            && r.Reply? && r.bytes == Flatten(out) && Differ(out, wanted)
            && !Exact(ops, ShownAll(ops), READY, [sent + READY])
  {
    hide Answers, Shown, FlowOut, FlowEnd, Inserted, FrameKind, Ready, Feed, Placeable, StageOf, Message;
    var p, answers := PlanOf(ops), ShownAll(ops);
    var sent, ref := Concat(answers), Unskipped(ops, answers);
    if SkippedCount(ops) == 0 {
      NoneSkipped(ops);
      PlaceableStage(ops);
    }
    ShownAnswerAll(ops);
    ReadyShown();
    AnswersPlain(ops, answers);
    OneCall(ops, sent, READY);
    var flush := SkippedCount(ops) - FlowEnd(p, SCAN_START, sent).inserted;
    var head := FlowOut(p, SCAN_START, sent);
    out := head + Inserted(READY, flush);
    OutOfStep(ops);
    DifferGrows(head, ref, Inserted(READY, flush), READY);
    FlowFramed(p, SCAN_START, sent);
    ReadyFramed(READY);
    InsertedFramed(READY, flush);
    NotTheSame(out, ref + READY);
  }

  lemma NotTheSame(out: seq<Frame>, ref: seq<Frame>)
    requires AllFramed(out) && AllFramed(ref) && Differ(out, ref)
    ensures Flatten(out) != Flatten(ref)
  {
    SameMessages(out, ref);
  }

  /** Every prompt error-free reply in one buffer comes out as if no Parse had been skipped. */
  ghost predicate AlwaysExactInOne(ops: seq<BatchOperation>) {
    forall answers, end ::
      AnswersAll(ops, answers) && Ready(end) && PromptReply(ops, answers, end) ==> Exact(ops, answers, end, [Concat(answers) + end])
  }

  /** In one buffer placement is exact for every prompt reply to a batch if and only if the batch is placeable in one buffer. */
  lemma OneBufferIff(ops: seq<BatchOperation>)
    ensures AlwaysExactInOne(ops) <==> OnePlaceable(ops)
  {
    hide Exact, PromptReply, OnePlaceable, Ready, Shown, Message;
    if OnePlaceable(ops) {
      forall answers, end | AnswersAll(ops, answers) && Ready(end) && PromptReply(ops, answers, end)
        ensures Exact(ops, answers, end, [Concat(answers) + end])
      {
        OneBufferExact(ops, answers, end);
      }
    } else {
      var _ := GoesAstray(ops);
      ShownAnswerAll(ops);
      ShownPromptReply(ops);
    }
  }

  lemma ShownPromptReply(ops: seq<BatchOperation>)
    ensures Ready(READY) && PromptReply(ops, ShownAll(ops), READY)
  {
    ShownPrompt(ops);
    ReadyShown();
  }
}
