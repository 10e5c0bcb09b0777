/** Replies with an error: where every ParseComplete lands, and when the client cannot tell that Parses were skipped. */
module BatchErrorExact {
  import opened Wire
  import opened Frames
  import opened BatchReorder
  import opened BatchConservation
  import opened BatchPlacement
  import opened BatchExact
  import opened BatchOneBuffer
  import opened BatchOneExact
  import opened BatchProtocol

  // ---------------------------------------------------------------- the end of a failed reply

  /** An ErrorResponse, notices, and the ReadyForQuery. */
  ghost predicate Failure(e: Frame, post: seq<Frame>, z: Frame) {
    && Typed(e, {'E'}) && AllTyped(post, NOTICES) && Typed(z, {'Z'})
    && AllFramed(post) && WellFramed(e) && WellFramed(z)
  }

  /** It comes out with these many ParseCompletes before the error and before the ReadyForQuery. */
  function FailureOut(open: nat, e: Frame, post: seq<Frame>, pending: nat, z: Frame): seq<Frame> {
    Copies(open) + ([e] + (post + (Copies(pending) + [z])))
  }

  lemma {:induction false} PostRun(p: Plan, total: nat, s: Scan, post: seq<Frame>, z: Frame)
    requires AllTyped(post, NOTICES) && Typed(z, {'Z'}) && s.inserted == total
    ensures var r := Run(p, total, s, post + [z]); r.Scanned? && Out(r.items) == post + (Copies(p.pending) + [z])
    decreases |post|
  {
    hide Copies, Out, Synthetics;
    var all := post + [z];
    var k := FrameKind(all[0]);
    var due := Due(p, total, s, k);
    if post == [] {
      assert all[0] == z && all[1..] == [];
      OutOne(due, z, []);
      OutNothing();
      assert Copies(due) + [z] + [] == [] + (Copies(due) + [z]);
    } else {
      assert all[0] == post[0] && all[1..] == post[1..] + [z] && Typed(post[0], NOTICES);
      var s' := Advance(s, k, 0);
      PostRun(p, total, s', post[1..], z);
      OutOne(0, post[0], Run(p, total, s', post[1..] + [z]).items);
      NoCopies([post[0]]);
      assert post == [post[0]] + post[1..];
    }
  }

  lemma OutNothing()
    ensures Out([]) == []
  {
  }

  /** The error takes everything mapped that is not inserted yet; the ReadyForQuery takes what is pending. */
  lemma FailureRun(p: Plan, total: nat, s: Scan, e: Frame, post: seq<Frame>, z: Frame)
    requires Failure(e, post, z) && s.inserted <= total
    ensures var r := Run(p, total, s, [e] + (post + [z]));
            r.Scanned? && Out(r.items) == FailureOut(total - s.inserted, e, post, p.pending, z)
  {
    hide Copies, Out, Synthetics, AllTyped, AllFramed, WellFramed;
    var tail := post + [z];
    assert ([e] + tail)[0] == e && ([e] + tail)[1..] == tail;
    var due := total - s.inserted;
    var s' := Advance(s, ErrorResponse, due);
    PostRun(p, total, s', post, z);
    OutOne(due, e, Run(p, total, s', tail).items);
    assert Copies(due) + [e] + Out(Run(p, total, s', tail).items) == Copies(due) + ([e] + Out(Run(p, total, s', tail).items));
  }

  // ---------------------------------------------------------------- any batch, one buffer

  ghost predicate NoneTyped(fs: seq<Frame>, types: set<char>) {
    forall i :: 0 <= i < |fs| ==> |fs[i]| >= 1 && !Typed(fs[i], types)
  }

  lemma PlainByType(fs: seq<Frame>)
    requires AllFramed(fs) && NoneTyped(fs, {'E', 'Z'})
    ensures Plain(fs)
  {
    forall i | 0 <= i < |fs| ensures !FrameKind(fs[i]).ErrorResponse? && !FrameKind(fs[i]).ReadyForQuery? {
      assert 'E' in {'E', 'Z'} && 'Z' in {'E', 'Z'};
    }
  }

  lemma FailureIsOneReply(pre: seq<Frame>, e: Frame, post: seq<Frame>, z: Frame)
    requires Plain(pre) && Failure(e, post, z)
    ensures var all := pre + ([e] + (post + [z])); OneReply(all) && AllFramed(all)
  {
    hide WellFramed, FrameKind;
    NoticesPass(post);
    KindsOfFailure(e, z);
    var all := pre + ([e] + (post + [z]));
    forall i | 0 <= i < |all|
      ensures WellFramed(all[i]) && (FrameKind(all[i]).ReadyForQuery? <==> i == |all| - 1)
      ensures FrameKind(all[i]).ErrorResponse? <==> i == |pre|
      ensures |pre| < i < |all| - 1 ==> FrameKind(all[i]).PassThrough?
    {
      if i < |pre| {
        assert all[i] == pre[i];
      } else if i == |pre| {
        assert all[i] == e;
      } else if i < |all| - 1 {
        assert all[i] == post[i - |pre| - 1];
      } else {
        assert all[i] == z;
      }
    }
  }

  lemma KindsOfFailure(e: Frame, z: Frame)
    requires Typed(e, {'E'}) && Typed(z, {'Z'})
    ensures FrameKind(e).ErrorResponse? && FrameKind(z).ReadyForQuery? && e != PARSE_COMPLETE
  {
  }

  /**
   For every batch and every reply in one buffer with an error: the ParseCompletes that are mapped and not inserted when
   the error comes stand immediately before it, those that are pending immediately before the ReadyForQuery, and together
   with the earlier ones they are one per skipped Parse.
   */
  lemma ErrorTakesAll(ops: seq<BatchOperation>, pre: seq<Frame>, e: Frame, post: seq<Frame>, z: Frame)
      returns (before: seq<Frame>, open: nat)
    requires SkippedCount(ops) > 0 && AllFramed(pre) && NoneTyped(pre, {'E', 'Z'}) && Failure(e, post, z)
    ensures var all, pending := pre + ([e] + (post + [z])), PlanOf(ops).pending;
            var r := Reorder(ops, SkippedCount(ops), NO_RESPONSES, Flatten(all));
            && r.Reply? && r.bytes == Flatten(before + FailureOut(open, e, post, pending, z))
            && before == FlowOut(PlanOf(ops), SCAN_START, pre)
            && |before| - |pre| + open + pending == SkippedCount(ops)
  {
    hide FrameKind, FlowOut, FlowEnd, Run, OneReply, Out, Render, Flatten, AllFramed, WellFramed, AllTyped, Copies, ValidPlan;
    var p, tail := PlanOf(ops), [e] + (post + [z]);
    var all, total := pre + tail, PlanSum(p);
    PlainByType(pre);
    PlanConserves(ops);
    StartPlan(ops);
    StartLeft(p);
    FailureIsOneReply(pre, e, post, z);
    DistinctOfValid(p);
    RunSpendsAll(p, total, SCAN_START, all);
    SplitFlatten(all);
    RunFlow(p, total, SCAN_START, pre, tail);
    FlowCounts(p, SCAN_START, pre);
    var s := FlowEnd(p, SCAN_START, pre);
    NotTooMany(p, total, s, e, tail);
    FailureRun(p, total, s, e, post, z);
    RenderOut(Run(p, total, SCAN_START, all).items);
    before, open := FlowOut(p, SCAN_START, pre), total - s.inserted;
    assert Render(Run(p, total, SCAN_START, all).items) + [] == Render(Run(p, total, SCAN_START, all).items);
  }

  lemma DistinctOfValid(p: Plan)
    requires ValidPlan(p)
    ensures DistinctPlan(p)
  {
  }

  lemma NotTooMany(p: Plan, total: nat, s: Scan, e: Frame, tail: seq<Frame>)
    requires Typed(e, {'E'}) && tail != [] && tail[0] == e && Run(p, total, s, tail).Scanned?
    ensures s.inserted <= total
  {
  }

  // ---------------------------------------------------------------- placeable batches, any cut

  /** What comes out for a reply that fails, counted from the start of the batch. */
  ghost function AbortOut(p: Plan, done: ResponseCounts, pre: seq<Frame>, e: Frame, post: seq<Frame>, z: Frame): seq<Frame> {
    Out(AbsRun(p, done, pre)) + FailureOut(Unanswered(p, CountAll(done, pre)), e, post, p.pending, z)
  }

  /** A call on the buffer with the error. */
  lemma {:induction false} RunAborts(p: Plan, from: ResponseCounts, s: Scan, pre: seq<Frame>, e: Frame, post: seq<Frame>, z: Frame)
    requires ValidPlan(p) && p.execute == [] && Plain(pre) && Failure(e, post, z)
    requires s.inserted + Unanswered(p, Plus(from, s.counts)) == Unanswered(p, from)
    ensures var r := Run(Remaining(p, from), Unanswered(p, from), s, pre + ([e] + (post + [z])));
            r.Scanned? && Out(r.items) == AbortOut(p, Plus(from, s.counts), pre, e, post, z)
    decreases |pre|
  {
    hide FrameKind, Failure, WellFramed, Out, FailureOut, Unanswered, ValidPlan, Due, AbsDue, Copies, Synthetics;
    var rel, total, tail, here := Remaining(p, from), Unanswered(p, from), [e] + (post + [z]), Plus(from, s.counts);
    if pre == [] {
      assert pre + tail == tail;
      FailureRun(rel, total, s, e, post, z);
      OutNothing();
      assert [] + FailureOut(total - s.inserted, e, post, p.pending, z) == FailureOut(total - s.inserted, e, post, p.pending, z);
    } else {
      assert (pre + tail)[0] == pre[0] && (pre + tail)[1..] == pre[1..] + tail;
      var k := FrameKind(pre[0]);
      StepIsAbsolute(p, from, s, k);
      var due := AbsDue(p, here, k);
      var s' := Advance(s, k, due);
      RunAborts(p, from, s', pre[1..], e, post, z);
      OutOne(due, pre[0], Run(rel, total, s', pre[1..] + tail).items);
      OutOne(due, pre[0], AbsRun(p, Bump(here, k), pre[1..]));
      Glue(Copies(due) + [pre[0]], Out(AbsRun(p, Bump(here, k), pre[1..])),
           FailureOut(Unanswered(p, CountAll(here, pre)), e, post, p.pending, z));
    }
  }

  lemma Glue(a: seq<Frame>, b: seq<Frame>, c: seq<Frame>)
    ensures a + (b + c) == (a + b) + c
  {
  }

  /** Once nothing is open, nothing opens again. */
  lemma {:induction false} StaysAnswered(p: Plan, done: ResponseCounts, fs: seq<Frame>)
    requires ValidPlan(p) && Unanswered(p, done) == 0
    ensures Unanswered(p, CountAll(done, fs)) == 0
    decreases |fs|
  {
    if fs != [] {
      PendingSplit(p.bind, done.bindComplete);
      PendingSplit(p.paramDesc, done.paramDesc);
      PendingSplit(p.close, done.closeComplete);
      StaysAnswered(p, Bump(done, FrameKind(fs[0])), fs[1..]);
    }
  }

  /** With nothing open and nothing pending, the failed reply is passed on as it is. */
  lemma AbortOutNothing(p: Plan, done: ResponseCounts, pre: seq<Frame>, e: Frame, post: seq<Frame>, z: Frame)
    requires ValidPlan(p) && Unanswered(p, done) == 0 && p.pending == 0
    ensures Flatten(AbortOut(p, done, pre, e, post, z)) == Flatten(pre + ([e] + (post + [z])))
  {
    hide ValidPlan, Unanswered, Flatten, Out, AbsRun, Render, CountAll;
    StaysAnswered(p, done, pre);
    NothingDue(p, done, pre);
    RenderOut(AbsRun(p, done, pre));
    var tail := [e] + (post + [z]);
    NoCopies(tail);
    NoCopies([z]);
    FlattenAppend(pre, tail);
    FlattenAppend(Out(AbsRun(p, done, pre)), tail);
  }

  lemma AbortCall(ops: seq<BatchOperation>, done: ResponseCounts, pre: seq<Frame>, e: Frame, post: seq<Frame>, z: Frame)
    requires NoneAtExecute(ops) && SkippedCount(ops) > 0 && Plain(pre) && Failure(e, post, z)
    ensures var r := Reorder(ops, SkippedCount(ops), done, Flatten(pre + ([e] + (post + [z]))));
            r.Reply? && r.bytes == Flatten(AbortOut(PlanOf(ops), done, pre, e, post, z))
  {
    hide FrameKind, Failure, AbortOut, Flatten, Run, Render, Out, OneReply, WellFramed, PlanOf, ValidPlan;
    var p, all := PlanOf(ops), pre + ([e] + (post + [z]));
    PlanConserves(ops);
    FailureIsOneReply(pre, e, post, z);
    SplitFlatten(all);
    SumIsUnanswered(p, done);
    assert Plus(done, NO_RESPONSES) == done;
    if Unanswered(p, done) + p.pending == 0 {
      AbortOutNothing(p, done, pre, e, post, z);
    } else {
      RunAborts(p, done, SCAN_START, pre, e, post, z);
      var items := Run(Remaining(p, done), Unanswered(p, done), SCAN_START, all).items;
      RenderOut(items);
      assert Render(items) + [] == Render(items);
    }
    SomeOps(ops);
  }

  lemma SomeOps(ops: seq<BatchOperation>)
    requires SkippedCount(ops) > 0
    ensures ops != []
  {
  }

  lemma SumIsUnanswered(p: Plan, done: ResponseCounts)
    requires p.execute == []
    ensures PlanSum(Remaining(p, done)) == Unanswered(p, done)
  {
  }

  lemma AbortOutAppend(p: Plan, done: ResponseCounts, a: seq<Frame>, pre: seq<Frame>, e: Frame, post: seq<Frame>, z: Frame)
    ensures Out(AbsRun(p, done, a)) + AbortOut(p, CountAll(done, a), pre, e, post, z) == AbortOut(p, done, a + pre, e, post, z)
  {
    hide Out, AbsRun, CountAll, FailureOut, Unanswered;
    AbsRunAppend(p, done, a, pre);
    OutAppend(AbsRun(p, done, a), AbsRun(p, CountAll(done, a), pre));
    Glue(Out(AbsRun(p, done, a)), Out(AbsRun(p, CountAll(done, a), pre)),
         FailureOut(Unanswered(p, CountAll(done, a + pre)), e, post, p.pending, z));
  }

  /** All buffers of a reply, the last of which holds the error and the ReadyForQuery. */
  lemma {:induction false} FeedAborts(ops: seq<BatchOperation>, done: ResponseCounts, chunks: seq<seq<Frame>>,
                                      pre: seq<Frame>, e: Frame, post: seq<Frame>, z: Frame)
    requires NoneAtExecute(ops) && SkippedCount(ops) > 0 && Plain(Concat(chunks)) && Plain(pre) && Failure(e, post, z)
    ensures var r := Feed(ops, done, chunks + [pre + ([e] + (post + [z]))]);
            r.Reply? && r.bytes == Flatten(AbortOut(PlanOf(ops), done, Concat(chunks) + pre, e, post, z))
    decreases |chunks|
  {
    hide FrameKind, Failure, AbortOut, Flatten, Reorder, WellFramed, PlanOf, Out, AbsRun, CountAll, Render;
    var last, p := pre + ([e] + (post + [z])), PlanOf(ops);
    var all := chunks + [last];
    if chunks == [] {
      assert all == [last] && all[1..] == [] && [] + pre == pre;
      AbortCall(ops, done, pre, e, post, z);
      var r := Reorder(ops, SkippedCount(ops), done, Flatten(last));
      assert r.bytes + [] == r.bytes;
    } else {
      var a, b := chunks[0], Concat(chunks[1..]);
      assert all[0] == a && all[1..] == chunks[1..] + [last];
      PlainParts(a, b);
      PlainOrderly(p, done, a);
      CallIsAbsolute(ops, done, a);
      FeedAborts(ops, CountAll(done, a), chunks[1..], pre, e, post, z);
      RenderOut(AbsRun(p, done, a));
      AbortOutAppend(p, done, a, b + pre, e, post, z);
      FlattenAppend(Out(AbsRun(p, done, a)), AbortOut(p, CountAll(done, a), b + pre, e, post, z));
      Glue(a, b, pre);
    }
  }

  lemma PlainParts(a: seq<Frame>, b: seq<Frame>)
    requires Plain(a + b)
    ensures Plain(a) && Plain(b)
  {
    hide FrameKind, WellFramed;
    assert forall i :: 0 <= i < |a| ==> a[i] == (a + b)[i];
    assert forall i :: 0 <= i < |b| ==> b[i] == (a + b)[|a| + i];
  }

  lemma PlainOrderly(p: Plan, done: ResponseCounts, fs: seq<Frame>)
    requires Plain(fs)
    ensures Orderly(p, done, fs)
  {
  }

  // ---------------------------------------------------------------- the reply without skipping

  lemma OneSpent(p: Plan, done: ResponseCounts, k: Kind)
    requires ValidPlan(p) && !k.ReadyForQuery?
    ensures AbsDue(p, done, k) + Unanswered(p, Bump(done, k)) == Unanswered(p, done)
  {
    PendingSplit(p.bind, done.bindComplete);
    PendingSplit(p.paramDesc, done.paramDesc);
    PendingSplit(p.close, done.closeComplete);
  }

  /** What was inserted and what is open are what was mapped. */
  lemma {:induction false} InsertedSoFar(p: Plan, done: ResponseCounts, fs: seq<Frame>)
    requires ValidPlan(p) && Plain(fs)
    ensures |AbsRun(p, done, fs)| + Unanswered(p, CountAll(done, fs)) == |fs| + Unanswered(p, done)
    decreases |fs|
  {
    hide FrameKind, AbsDue, Unanswered, ValidPlan, WellFramed, Synthetics, Bump;
    if fs != [] {
      OneSpent(p, done, FrameKind(fs[0]));
      InsertedSoFar(p, Bump(done, FrameKind(fs[0])), fs[1..]);
    }
  }

  lemma AllOpen(ops: seq<BatchOperation>)
    requires NoneAtExecute(ops)
    ensures Unanswered(PlanOf(ops), NO_RESPONSES) + PlanOf(ops).pending == SkippedCount(ops)
  {
    PlanConserves(ops);
    StartPlan(ops);
    SumIsUnanswered(PlanOf(ops), NO_RESPONSES);
  }

  /** Two replies that agree up to the error agree to the end exactly if the error has taken what waited and no more. */
  lemma SameFailure(out: seq<Frame>, w: nat, open: nat, e: Frame, post: seq<Frame>, pending: nat, z: Frame)
    requires e != PARSE_COMPLETE
    ensures out + FailureOut(open, e, post, pending, z) == out + Copies(w) + ([e] + (post + [z])) <==> open == w && pending == 0
  {
    var a, b := out + FailureOut(open, e, post, pending, z), out + Copies(w) + ([e] + (post + [z]));
    if open < w {
      assert a[|out| + open] == e && b[|out| + open] == PARSE_COMPLETE;
    } else if open > w {
      assert a[|out| + w] == PARSE_COMPLETE && b[|out| + w] == e;
    } else if pending > 0 {
      assert |a| == |b| + pending;
    }
  }

  /** Whether the client gets, byte for byte, what it would have got with no Parse skipped. */
  ghost predicate FailsExactly(ops: seq<BatchOperation>, j: nat, answers: seq<seq<Frame>>, part: seq<Frame>, e: Frame,
                               post: seq<Frame>, z: Frame, chunks: seq<seq<Frame>>)
    requires j <= |ops| && |answers| == j
  {
    && Feed(ops, NO_RESPONSES, chunks).Reply?
    && Feed(ops, NO_RESPONSES, chunks).bytes == Flatten(Unskipped(ops[..j], answers) + part + ([e] + (post + [z])))
  }

  /** Nothing but ParseComplete overtakes a skipped Parse before the error. */
  ghost predicate PromptFailure(ops: seq<BatchOperation>, j: nat, answers: seq<seq<Frame>>, part: seq<Frame>)
    requires j <= |ops| && |answers| == j
  {
    Prompt(ops[..j], answers) && (Waiting(ops[..j]) > 0 ==> AllCopies(part))
  }

  lemma {:induction false} FeedUntouched(ops: seq<BatchOperation>, done: ResponseCounts, chunks: seq<seq<Frame>>)
    requires SkippedCount(ops) == 0
    ensures Feed(ops, done, chunks) == Reply(Flatten(Concat(chunks)), done)
    decreases |chunks|
  {
    if chunks != [] {
      FeedUntouched(ops, done, chunks[1..]);
      FlattenAppend(chunks[0], Concat(chunks[1..]));
    }
  }

  /** What comes out for a failed reply, however it is cut, whether anything was skipped or not. */
  lemma FailedOut(ops: seq<BatchOperation>, chunks: seq<seq<Frame>>, pre: seq<Frame>, e: Frame, post: seq<Frame>, z: Frame)
    requires NoneAtExecute(ops) && Plain(Concat(chunks)) && Plain(pre) && Failure(e, post, z)
    ensures var r := Feed(ops, NO_RESPONSES, chunks + [pre + ([e] + (post + [z]))]);
            r.Reply? && r.bytes == Flatten(AbortOut(PlanOf(ops), NO_RESPONSES, Concat(chunks) + pre, e, post, z))
  {
    hide FrameKind, Failure, AbortOut, Flatten, WellFramed, PlanOf, Feed, ValidPlan, Concat;
    if SkippedCount(ops) > 0 {
      FeedAborts(ops, NO_RESPONSES, chunks, pre, e, post, z);
    } else {
      var tail := [e] + (post + [z]);
      FeedUntouched(ops, NO_RESPONSES, chunks + [pre + tail]);
      ConcatAppend(chunks, pre + tail);
      Glue(Concat(chunks), pre, tail);
      PlanConserves(ops);
      AllOpen(ops);
      AbortOutNothing(PlanOf(ops), NO_RESPONSES, Concat(chunks) + pre, e, post, z);
    }
  }

  /** The messages before the error are in step with the reply without skipping exactly if they were prompt. */
  lemma BeforeFailure(ops: seq<BatchOperation>, j: nat, answers: seq<seq<Frame>>, part: seq<Frame>)
    requires Placeable(ops) && j < |ops| && AnswersAll(ops[..j], answers) && Neutrals(part)
    ensures Match(Out(AbsRun(PlanOf(ops), NO_RESPONSES, Concat(answers) + part)), Unskipped(ops[..j], answers) + part,
                  Waiting(ops[..j]), PromptFailure(ops, j, answers, part))
  {
    hide Match, Out, AbsRun, Answers, Placeable, Prompt, Unskipped, Neutrals, PlanOf, CountAll, Concat, AllCopies, Waiting;
    var p, sent := PlanOf(ops), Concat(answers);
    PlaceablePrefix(ops, j);
    PlacedPrefix(ops, ops[..j], answers);
    AbsRunAppend(p, NO_RESPONSES, sent, part);
    OutAppend(AbsRun(p, NO_RESPONSES, sent), AbsRun(p, CountAll(NO_RESPONSES, sent), part));
    NeutralOut(p, CountAll(NO_RESPONSES, sent), part);
    Passed(Out(AbsRun(p, NO_RESPONSES, sent)), Unskipped(ops[..j], answers), Waiting(ops[..j]), Prompt(ops[..j], answers), part);
  }

  lemma {:induction false} PlaceablePrefix(ops: seq<BatchOperation>, j: nat)
    requires Placeable(ops) && j <= |ops|
    ensures Placeable(ops[..j])
    decreases |ops|
  {
    if j == |ops| {
      assert ops[..j] == ops;
    } else {
      var n := |ops| - 1;
      PlaceablePrefix(ops[..n], j);
      assert ops[..n][..j] == ops[..j];
    }
  }

  lemma PartNeutral(op: BatchOperation, part: seq<Frame>)
    requires SaysBefore(op, part) && AllFramed(part)
    ensures Neutrals(part) && Plain(part)
  {
    hide WellFramed;
    if op.Execute? {
      RowsPass(part);
    } else {
      NoticesPass(part);
    }
    assert Neutrals(part);
    NeutralPlain(part);
  }

  lemma PlainBoth(a: seq<Frame>, b: seq<Frame>)
    requires Plain(a) && Plain(b)
    ensures Plain(a + b)
  {
  }

  /** How much the error and the ReadyForQuery take: what waited at the failed operation, and what was skipped after it. */
  lemma Taken(ops: seq<BatchOperation>, j: nat, answers: seq<seq<Frame>>, part: seq<Frame>)
    requires Placeable(ops) && j < |ops| && AnswersAll(ops[..j], answers) && Plain(part) && PromptFailure(ops, j, answers, part)
    requires Neutrals(part)
    ensures var p := PlanOf(ops);
            Unanswered(p, CountAll(NO_RESPONSES, Concat(answers) + part)) + p.pending
              == Waiting(ops[..j]) + SkippedCount(ops) - SkippedCount(ops[..j])
  {
    hide Placeable, Answers, Prompt, Neutrals, Waiting, PlanOf, Unanswered, CountAll, AbsRun, ValidPlan, Unskipped, Plain,
      PromptFailure, Out, Concat;
    var p, sent := PlanOf(ops), Concat(answers) + part;
    PendingIsWaiting(ops);
    PlanConserves(ops);
    AllOpen(ops);
    AnswersPlain(ops[..j], answers);
    PlainBoth(Concat(answers), part);
    InsertedSoFar(p, NO_RESPONSES, sent);
    UnskippedCount(ops[..j], answers);
    BeforeFailure(ops, j, answers, part);
    RenderOut(AbsRun(p, NO_RESPONSES, sent));
  }

  /**
   For every placeable batch in which operation `j` fails, whatever the server said before and however the reply is cut:
   the client gets what it would have got with no Parse skipped if and only if the messages before the error were prompt,
   no Parse was skipped after the failed operation and none waits at the end of the batch. Otherwise ParseCompletes of
   Parses that the server never came to stand before the error, or one of an earlier Parse comes after it.
   */
  lemma ErrorExactIff(ops: seq<BatchOperation>, j: nat, answers: seq<seq<Frame>>, part: seq<Frame>, e: Frame,
                      post: seq<Frame>, z: Frame, cut: seq<seq<Frame>>, pre: seq<Frame>)
    requires Placeable(ops) && j < |ops| && SaysAll(ops[..j], answers) && SaysBefore(ops[j], part) && AllFramed(part)
    requires Failure(e, post, z) && Concat(cut) + pre == Concat(answers) + part
    ensures var chunks := cut + [pre + ([e] + (post + [z]))];
            && Feed(ops, NO_RESPONSES, chunks).Reply?
            && |answers| == j
            && (FailsExactly(ops, j, answers, part, e, post, z, chunks) <==>
                  PromptFailure(ops, j, answers, part) && SkippedCount(ops) == SkippedCount(ops[..j]) && Waiting(ops) == 0)
  {
    hide Placeable, Says, SaysBefore, Failure, Concat, Feed, AbortOut, PromptFailure, Waiting, PlanOf, Unskipped, Flatten,
      WellFramed, FrameKind, Neutrals;
    SaysAnswersAll(ops[..j], answers);
    PendingIsWaiting(ops);
    PartNeutral(ops[j], part);
    AnswersPlain(ops[..j], answers);
    PlainBoth(Concat(answers), part);
    PlainParts(Concat(cut), pre);
    FailedOut(ops, cut, pre, e, post, z);
    FailedSame(ops, j, answers, part, e, post, z);
  }

  lemma FailedSame(ops: seq<BatchOperation>, j: nat, answers: seq<seq<Frame>>, part: seq<Frame>, e: Frame,
                   post: seq<Frame>, z: Frame)
    requires Placeable(ops) && j < |ops| && AnswersAll(ops[..j], answers) && Neutrals(part) && Plain(part) && Failure(e, post, z)
    ensures Flatten(AbortOut(PlanOf(ops), NO_RESPONSES, Concat(answers) + part, e, post, z))
              == Flatten(Unskipped(ops[..j], answers) + part + ([e] + (post + [z]))) <==>
            PromptFailure(ops, j, answers, part) && SkippedCount(ops) == SkippedCount(ops[..j]) && Waiting(ops) == 0
  {
    hide Placeable, Answers, Prompt, Neutrals, Waiting, PlanOf, Unanswered, CountAll, AbsRun, ValidPlan, Unskipped,
      PromptFailure, Out, Concat, Flatten, FrameKind, WellFramed, FailureOut, AllTyped, Copies;
    var p, sent, tail := PlanOf(ops), Concat(answers) + part, [e] + (post + [z]);
    var out, ref, w := Out(AbsRun(p, NO_RESPONSES, sent)), Unskipped(ops[..j], answers) + part, Waiting(ops[..j]);
    var open := Unanswered(p, CountAll(NO_RESPONSES, sent));
    PendingIsWaiting(ops);
    AnswersPlain(ops[..j], answers);
    PlainBoth(Concat(answers), part);
    KindsOfFailure(e, z);
    AbortFramed(p, sent, e, post, z);
    assert AllFramed(ref + tail);
    SameMessages(AbortOut(p, NO_RESPONSES, sent, e, post, z), ref + tail);
    BeforeFailure(ops, j, answers, part);
    if PromptFailure(ops, j, answers, part) {
      Taken(ops, j, answers, part);
      SameFailure(out, w, open, e, post, p.pending, z);
      assert ref + tail == out + Copies(w) + tail;
    } else {
      DifferGrows(out, ref, FailureOut(open, e, post, p.pending, z), tail);
    }
  }

  lemma AbortFramed(p: Plan, sent: seq<Frame>, e: Frame, post: seq<Frame>, z: Frame)
    requires Plain(sent) && Failure(e, post, z)
    ensures AllFramed(AbortOut(p, NO_RESPONSES, sent, e, post, z))
  {
    hide AbsRun, Out, Unanswered, CountAll, Copies, WellFramed;
    OutFramed(p, NO_RESPONSES, sent);
    CopiesFramed(Unanswered(p, CountAll(NO_RESPONSES, sent)));
    CopiesFramed(p.pending);
  }
}
