/** The smallest replies on which placement fails, and one on which it holds only in one buffer. */
module BatchExamples {
  import opened Wire
  import opened Frames
  import opened BatchReorder
  import opened BatchPlacement
  import opened BatchExact
  import opened BatchOneBuffer
  import opened BatchShapes
  import opened BatchOneExact

  lemma PlanOfTwo(op: BatchOperation)
    ensures var ops := [ParseSkipped, op];
            && PlanOf(ops) == Extend(Extend(NO_PLAN, ParseSkipped), op)
            && SkippedCount(ops) == 1 + (if op.ParseSkipped? then 1 else 0)
            && Waiting(ops) == WaitingAfter(1, op) && Waiting([ParseSkipped]) == 1
  {
    hide Extend;
    var ops := [ParseSkipped, op];
    assert ops[..1] == [ParseSkipped] && ops[..1][..0] == [];
    assert PlanOf(ops[..1]) == Extend(NO_PLAN, ParseSkipped);
    assert SkippedCount(ops[..1]) == 1 && Waiting(ops[..1]) == 1;
  }

  /** A notice that comes while a skipped Parse waits for its Bind overtakes the ParseComplete. */
  lemma NoticeOvertakes(notice: Frame, bound: Frame, ready: Frame)
    requires FrameKind(notice).PassThrough? && FrameKind(bound).BindComplete? && FrameKind(ready).ReadyForQuery?
    requires WellFramed(notice) && WellFramed(bound) && WellFramed(ready)
    ensures var r := Feed([ParseSkipped, BatchOperation.Bind], NO_RESPONSES, [[notice, bound] + [ready]]);
            r.Reply? && r.bytes == Flatten([notice, PARSE_COMPLETE, bound, ready])
  {
    hide FrameKind, WellFramed, FlowOut, FlowEnd, Feed, Inserted, Flatten;
    var ops := [ParseSkipped, BatchOperation.Bind];
    var p, sent := PlanOf(ops), [notice, bound];
    PlanOfTwo(BatchOperation.Bind);
    FlowTwo(p, notice, bound);
    EndReady(ready);
    OneCall(ops, sent, [ready]);
    FlowCounts(p, SCAN_START, sent);
    InsertedNone([ready]);
    assert [notice, PARSE_COMPLETE, bound] + [ready] == [notice, PARSE_COMPLETE, bound, ready];
  }

  lemma FlowTwo(p: Plan, notice: Frame, bound: Frame)
    requires p.bind == [(0, 1)] && FrameKind(notice).PassThrough? && FrameKind(bound).BindComplete?
    ensures FlowOut(p, SCAN_START, [notice, bound]) == [notice, PARSE_COMPLETE, bound]
  {
    hide FrameKind, FlowOut, FlowEnd;
    FlowPassing(p, SCAN_START, [notice]);
    FlowAppend(p, SCAN_START, [notice], [bound]);
    assert [notice] + [bound] == [notice, bound];
    FlowOne(p, FlowEnd(p, SCAN_START, [notice]), bound);
    assert Copies(1) == [PARSE_COMPLETE];
  }

  lemma EndReady(ready: Frame)
    requires FrameKind(ready).ReadyForQuery? && WellFramed(ready)
    ensures Ready([ready])
  {
    hide FrameKind;
    assert [ready][1..] == [];
  }

  /** An Execute answered by CommandComplete alone overtakes the ParseComplete of the Parse it consumes. */
  lemma CommandCompleteOvertakes(complete: Frame, ready: Frame)
    requires FrameKind(complete).CommandComplete? && FrameKind(ready).ReadyForQuery?
    requires WellFramed(complete) && WellFramed(ready)
    ensures var r := Feed([ParseSkipped, BatchOperation.Execute], NO_RESPONSES, [[complete] + [ready]]);
            r.Reply? && r.bytes == Flatten([complete, PARSE_COMPLETE, ready])
  {
    hide FrameKind, WellFramed;
    var ops := [ParseSkipped, BatchOperation.Execute];
    var p, sent := PlanOf(ops), [complete];
    PlanOfTwo(BatchOperation.Execute);
    FlowOne(p, SCAN_START, complete);
    NoCopies([complete]);
    EndReady(ready);
    OneCall(ops, sent, [ready]);
    FlowCounts(p, SCAN_START, sent);
    assert Inserted([ready], 1) == [PARSE_COMPLETE, ready];
    assert [complete] + [PARSE_COMPLETE, ready] == [complete, PARSE_COMPLETE, ready];
  }

  /** A portal Describe and an Execute after a skipped Parse: in one buffer every prompt reply comes out right. */
  lemma PortalThenExecute(answers: seq<seq<Frame>>, end: seq<Frame>)
    requires AnswersAll([ParseSkipped, BatchOperation.DescribePortal, BatchOperation.Execute], answers) && Ready(end)
    ensures var ops := [ParseSkipped, BatchOperation.DescribePortal, BatchOperation.Execute];
            && !Placeable(ops) && OnePlaceable(ops)
            && (Exact(ops, answers, end, [Concat(answers) + end]) <==> PromptReply(ops, answers, end))
  {
    hide Answers, Exact, PromptReply, Ready, FrameKind;
    var two := [ParseSkipped, BatchOperation.DescribePortal];
    var ops := two + [BatchOperation.Execute];
    assert ops == [ParseSkipped, BatchOperation.DescribePortal, BatchOperation.Execute];
    assert ops[..2] == two && two[..1] == [ParseSkipped] && two[..1][..0] == [];
    PlanOfTwo(BatchOperation.DescribePortal);
    assert StageOf(two[..1]) == Start;
    assert StageOf(two) == Early(1);
    assert StageOf(ops) == Later(1);
    PlaceableStage(ops);
    OneBufferExact(ops, answers, end);
  }
}
