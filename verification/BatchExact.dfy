/** Exact placement: when the client sees the reply it would have had with no Parse skipped. */
module BatchExact {
  import opened Wire
  import opened Frames
  import opened BatchReorder
  import opened BatchPlacement

  // ---------------------------------------------------------------- error-free replies

  ghost predicate Passing(fs: seq<Frame>) {
    forall i :: 0 <= i < |fs| ==> FrameKind(fs[i]).PassThrough?
  }

  /** Row messages among messages passed through. */
  ghost predicate Rows(fs: seq<Frame>) {
    forall i :: 0 <= i < |fs| ==> FrameKind(fs[i]).PassThrough? || FrameKind(fs[i]).RowMessage?
  }

  /** How many messages come before the first one that is not passed through. */
  function Lead(fs: seq<Frame>): (n: nat)
    ensures n <= |fs| && (n < |fs| ==> !FrameKind(fs[n]).PassThrough?) && Passing(fs[..n])
  {
    if fs == [] || !FrameKind(fs[0]).PassThrough? then 0 else 1 + Lead(fs[1..])
  }

  /** One completion of a kind, with notices and the like around it. */
  ghost predicate Completes(k: Kind, fs: seq<Frame>) {
    Lead(fs) < |fs| && FrameKind(fs[Lead(fs)]) == k && Passing(fs[Lead(fs) + 1..])
  }

  /** A parameter description, then a row description or NoData. */
  ghost predicate Describes(fs: seq<Frame>) {
    && Lead(fs) < |fs| && FrameKind(fs[Lead(fs)]).ParameterDescription?
    && Completes(RowMessage, fs[Lead(fs) + 1..])
  }

  /** Message `n` ends the answer to an Execute: rows before it, and only messages passed through after it. */
  ghost predicate ExecutesAt(fs: seq<Frame>, n: nat)
    requires n < |fs|
  {
    && Rows(fs[..n]) && Passing(fs[n + 1..])
    && (FrameKind(fs[n]).CommandComplete? || FrameKind(fs[n]).PassThrough?)
  }

  /**
   The server's error-free answer to one operation (section 55.2.3 of the PostgreSQL 16 documentation), with
   NoticeResponse, ParameterStatus and NotificationResponse wherever they come, also after the completion: rows for an
   Execute and then CommandComplete, or EmptyQueryResponse or PortalSuspended, which are passed through.
   */
  ghost predicate Answers(op: BatchOperation, fs: seq<Frame>) {
    match op
    case ParseSkipped => fs == []
    case ParseSent => Passing(fs)
    case Bind => Completes(BindComplete, fs)
    case Close => Completes(CloseComplete, fs)
    case Describe => Describes(fs)
    case DescribePortal => Completes(RowMessage, fs)
    case Execute => exists n :: 0 <= n < |fs| && ExecutesAt(fs, n)
  }

  /** One answer per operation of the batch. */
  ghost predicate AnswersAll(ops: seq<BatchOperation>, answers: seq<seq<Frame>>) {
    |answers| == |ops| &&
    (ops != [] ==>
      var n := |ops| - 1;
      AnswersAll(ops[..n], answers[..n]) && Answers(ops[n], answers[n]) && AllFramed(answers[n]))
  }

  /** The end of the reply. */
  ghost predicate Ready(fs: seq<Frame>) {
    AllFramed(fs) && Lead(fs) == |fs| - 1 && FrameKind(fs[|fs| - 1]).ReadyForQuery?
  }

  /** The answers had no Parse been skipped. */
  function Unskipped(ops: seq<BatchOperation>, answers: seq<seq<Frame>>): seq<Frame>
    requires |ops| == |answers|
  {
    if ops == [] then []
    else
      Unskipped(ops[..|ops| - 1], answers[..|ops| - 1]) +
      if ops[|ops| - 1].ParseSkipped? then [PARSE_COMPLETE] else answers[|ops| - 1]
  }

  // ---------------------------------------------------------------- waiting Parses

  /** Skipped Parses since the last operation that is no Parse: nothing has been answered after them yet. */
  function Waiting(ops: seq<BatchOperation>): nat {
    if ops == [] then 0
    else
      var n := |ops| - 1;
      match ops[n]
      case ParseSkipped => Waiting(ops[..n]) + 1
      case ParseSent => Waiting(ops[..n])
      case _ => 0
  }

  /** Every skipped Parse is followed, after further Parses, by Bind, Describe, Close or the end. */
  ghost predicate Placeable(ops: seq<BatchOperation>) {
    ops != [] ==>
      var n := |ops| - 1;
      Placeable(ops[..n]) && (ops[n].Execute? || ops[n].DescribePortal? ==> Waiting(ops[..n]) == 0)
  }

  ghost predicate AllCopies(fs: seq<Frame>) {
    forall i :: 0 <= i < |fs| ==> fs[i] == PARSE_COMPLETE
  }

  /** No message but ParseComplete comes before the one that answers. */
  ghost predicate Punctual(fs: seq<Frame>) {
    AllCopies(fs[..Lead(fs)])
  }

  /** EmptyQueryResponse or PortalSuspended: it answers an Execute and is passed through. */
  predicate EndsPortal(f: Frame) {
    f != [] && (f[0] == 'I' as int || f[0] == 's' as int)
  }

  /** The same for the answer to an operation; an Execute may be answered by a message that is passed through. */
  ghost predicate PunctualAnswer(op: BatchOperation, fs: seq<Frame>) {
    Punctual(fs) || (op.Execute? && exists n :: 0 <= n < |fs| && EndsPortal(fs[n]) && AllCopies(fs[..n]))
  }

  /** While a skipped Parse waits, nothing but ParseComplete comes before the next completion or ReadyForQuery. */
  ghost predicate Prompt(ops: seq<BatchOperation>, answers: seq<seq<Frame>>)
    requires |ops| == |answers|
  {
    ops != [] ==>
      var n := |ops| - 1;
      Prompt(ops[..n], answers[..n]) && (Waiting(ops[..n]) > 0 ==> PunctualAnswer(ops[n], answers[n]))
  }

  ghost predicate PromptReply(ops: seq<BatchOperation>, answers: seq<seq<Frame>>, end: seq<Frame>)
    requires |ops| == |answers|
  {
    Prompt(ops, answers) && (Waiting(ops) > 0 ==> Punctual(end))
  }

  /** In a placeable batch what waits is what the plan has pending, and no Execute consumes any. */
  lemma {:induction false} PendingIsWaiting(ops: seq<BatchOperation>)
    requires Placeable(ops)
    ensures PlanOf(ops).pending == Waiting(ops) && NoneAtExecute(ops)
  {
    if ops != [] {
      PendingIsWaiting(ops[..|ops| - 1]);
    }
  }

  // ---------------------------------------------------------------- what comes out, message by message

  function Copies(n: nat): (fs: seq<Frame>)
    ensures |fs| == n && AllCopies(fs)
  {
    seq(n, _ => PARSE_COMPLETE)
  }

  function Out(items: seq<Item>): seq<Frame> {
    if items == [] then [] else [ItemBytes(items[0])] + Out(items[1..])
  }

  lemma {:induction false} RenderOut(items: seq<Item>)
    ensures Render(items) == Flatten(Out(items)) && |Out(items)| == |items|
  {
    if items != [] {
      RenderOut(items[1..]);
      assert Out(items)[1..] == Out(items[1..]);
    }
  }

  lemma {:induction false} OutAppend(a: seq<Item>, b: seq<Item>)
    ensures Out(a + b) == Out(a) + Out(b)
  {
    if a == [] {
      assert a + b == b;
    } else {
      assert (a + b)[1..] == a[1..] + b;
      OutAppend(a[1..], b);
    }
  }

  lemma {:induction false} OutSynthetics(n: nat)
    ensures Out(Synthetics(n)) == Copies(n)
  {
    if n > 0 {
      assert Synthetics(n)[1..] == Synthetics(n - 1);
      OutSynthetics(n - 1);
      assert Copies(n) == [PARSE_COMPLETE] + Copies(n - 1);
    }
  }

  /** A message with what is inserted before it. */
  lemma OutOne(n: nat, f: Frame, items: seq<Item>)
    ensures Out(Synthetics(n) + [Original(f)] + items) == Copies(n) + [f] + Out(items)
  {
    hide Copies;
    assert [Original(f)][1..] == [];
    OutSynthetics(n);
    OutAppend(Synthetics(n), [Original(f)]);
    OutAppend(Synthetics(n) + [Original(f)], items);
  }

  lemma ParseCompleteFramed()
    ensures WellFramed(PARSE_COMPLETE) && FrameKind(PARSE_COMPLETE).PassThrough?
  {
    var s := PARSE_COMPLETE[1..5];
    assert s == [0, 0, 0, 4] && s[..3] == [0, 0, 0] && s[..3][..2] == [0, 0] && s[..3][..2][..1] == [0];
    assert FromBE([0]) == 0 && FromBE([0, 0]) == 0;
    assert FromBE([0, 0, 0]) == 0;
  }

  /** Byte streams of whole messages are equal exactly when the messages are. */
  lemma SameMessages(a: seq<Frame>, b: seq<Frame>)
    requires AllFramed(a) && AllFramed(b)
    ensures Flatten(a) == Flatten(b) <==> a == b
  {
    SplitFlatten(a);
    SplitFlatten(b);
  }

  // ---------------------------------------------------------------- agreement and divergence

  ghost predicate Differ(out: seq<Frame>, ref: seq<Frame>) {
    exists i :: 0 <= i < |out| && i < |ref| && out[i] != ref[i]
  }

  /** The output lacks only the waiting ParseCompletes of the reference, or has gone astray for good. */
  ghost predicate Match(out: seq<Frame>, ref: seq<Frame>, waiting: nat, ok: bool) {
    if ok then out + Copies(waiting) == ref else Differ(out, ref)
  }

  lemma DifferGrows(out: seq<Frame>, ref: seq<Frame>, a: seq<Frame>, b: seq<Frame>)
    requires Differ(out, ref)
    ensures Differ(out + a, ref + b)
  {
    var i :| 0 <= i < |out| && i < |ref| && out[i] != ref[i];
    assert (out + a)[i] != (ref + b)[i];
  }

  /** The first message that is no ParseComplete. */
  lemma {:induction false} FirstOther(fs: seq<Frame>) returns (i: nat)
    requires !AllCopies(fs)
    ensures i < |fs| && fs[i] != PARSE_COMPLETE && AllCopies(fs[..i])
  {
    if fs[0] != PARSE_COMPLETE {
      i := 0;
    } else {
      assert !AllCopies(fs[1..]);
      i := FirstOther(fs[1..]);
      i := i + 1;
      assert fs[..i] == [fs[0]] + fs[1..][..i - 1];
    }
  }

  /** Messages that are passed on keep the output in step exactly if they are ParseCompletes or nothing waits. */
  lemma Passed(out: seq<Frame>, ref: seq<Frame>, w: nat, ok: bool, fs: seq<Frame>)
    requires Match(out, ref, w, ok)
    ensures Match(out + fs, ref + fs, w, ok && (w > 0 ==> AllCopies(fs)))
  {
    if !ok {
      DifferGrows(out, ref, fs, fs);
    } else if w == 0 || AllCopies(fs) {
      assert out + fs + Copies(w) == out + Copies(w) + fs;
    } else {
      var i := FirstOther(fs);
      Overtakes(out, w, fs, i);
    }
  }

  lemma Overtakes(out: seq<Frame>, w: nat, fs: seq<Frame>, i: nat)
    requires w > 0 && i < |fs| && fs[i] != PARSE_COMPLETE && AllCopies(fs[..i])
    ensures Differ(out + fs, out + Copies(w) + fs)
  {
    var a, b, at := out + fs, out + Copies(w) + fs, |out| + i;
    assert a[at] == fs[i];
    if i >= w {
      assert b[at] == fs[i - w] == fs[..i][i - w];
    }
  }

  /** A message before which everything that waits is inserted. */
  lemma Caught(out: seq<Frame>, ref: seq<Frame>, w: nat, ok: bool, f: Frame)
    requires Match(out, ref, w, ok)
    ensures Match(out + (Copies(w) + [f]), ref + [f], 0, ok)
  {
    if ok {
      assert out + (Copies(w) + [f]) + Copies(0) == out + Copies(w) + [f];
    } else {
      DifferGrows(out, ref, Copies(w) + [f], [f]);
    }
  }

  lemma SkippedOne(out: seq<Frame>, ref: seq<Frame>, w: nat, ok: bool)
    requires Match(out, ref, w, ok)
    ensures Match(out, ref + [PARSE_COMPLETE], w + 1, ok)
  {
    if ok {
      assert Copies(w + 1) == Copies(w) + [PARSE_COMPLETE];
    } else {
      DifferGrows(out, ref, [], [PARSE_COMPLETE]);
      assert out + [] == out;
    }
  }

  /** An answer with everything that waits inserted before its first message that is not passed through. */
  function Inserted(fs: seq<Frame>, w: nat): seq<Frame> {
    fs[..Lead(fs)] + Copies(w) + fs[Lead(fs)..]
  }

  lemma Regroup(out: seq<Frame>, pre: seq<Frame>, mid: seq<Frame>, f: Frame, post: seq<Frame>)
    ensures out + (pre + mid + ([f] + post)) == out + pre + (mid + [f]) + post
  {
  }

  /** A sequence around one of its elements. */
  lemma Around(fs: seq<Frame>, n: nat)
    requires n < |fs|
    ensures fs == fs[..n] + ([fs[n]] + fs[n + 1..]) && fs[n..] == [fs[n]] + fs[n + 1..]
  {
  }

  lemma InsertedMatches(out: seq<Frame>, ref: seq<Frame>, w: nat, ok: bool, fs: seq<Frame>)
    requires Match(out, ref, w, ok) && Lead(fs) < |fs|
    ensures Match(out + Inserted(fs, w), ref + fs, 0, ok && (w > 0 ==> Punctual(fs)))
  {
    hide Match, Copies, AllCopies, Lead;
    var n := Lead(fs);
    var pre, f, post := fs[..n], fs[n], fs[n + 1..];
    var now := ok && (w > 0 ==> AllCopies(pre));
    Around(fs, n);
    Passed(out, ref, w, ok, pre);
    Caught(out + pre, ref + pre, w, now, f);
    Passed(out + pre + (Copies(w) + [f]), ref + pre + [f], 0, now, post);
    Regroup(out, pre, Copies(w), f, post);
    Regroup(ref, pre, [], f, post);
    assert pre + [] == pre && [] + [f] == [f];
  }

  // ---------------------------------------------------------------- the output of a placeable batch

  /** Agreement of the counts that placement depends on. */
  predicate SameAt(a: ResponseCounts, b: ResponseCounts) {
    a.bindComplete == b.bindComplete && a.paramDesc == b.paramDesc && a.closeComplete == b.closeComplete
  }

  predicate Neutral(k: Kind) { k.PassThrough? || k.CommandComplete? || k.RowMessage? }

  lemma {:induction false} NeutralOut(p: Plan, done: ResponseCounts, fs: seq<Frame>)
    requires Neutrals(fs)
    ensures Out(AbsRun(p, done, fs)) == fs && SameAt(CountAll(done, fs), done)
    decreases |fs|
  {
    if fs != [] {
      var k := FrameKind(fs[0]);
      assert Neutral(k);
      NeutralOut(p, Bump(done, k), fs[1..]);
      assert AbsRun(p, done, fs)[1..] == AbsRun(p, Bump(done, k), fs[1..]);
    }
  }

  ghost predicate Neutrals(fs: seq<Frame>) {
    forall i :: 0 <= i < |fs| ==> Neutral(FrameKind(fs[i]))
  }

  /** A message that has insertions due, and neutral messages after it. */
  lemma HeadOut(p: Plan, done: ResponseCounts, f: Frame, post: seq<Frame>)
    requires Neutrals(post)
    ensures var k := FrameKind(f);
            && Out(AbsRun(p, done, [f] + post)) == Copies(AbsDue(p, done, k)) + ([f] + post)
            && SameAt(CountAll(done, [f] + post), Bump(done, k))
  {
    hide Copies, AbsDue, FrameKind, Out, Bump, AbsRun, CountAll;
    var k := FrameKind(f);
    var due, rest := AbsDue(p, done, k), AbsRun(p, Bump(done, k), post);
    RunHead(p, done, f, post);
    NeutralOut(p, Bump(done, k), post);
    OutOne(due, f, rest);
    assert Copies(due) + [f] + post == Copies(due) + ([f] + post);
  }

  lemma RunHead(p: Plan, done: ResponseCounts, f: Frame, post: seq<Frame>)
    ensures var k := FrameKind(f);
            && AbsRun(p, done, [f] + post)
                 == Synthetics(AbsDue(p, done, k)) + [Original(f)] + AbsRun(p, Bump(done, k), post)
            && CountAll(done, [f] + post) == CountAll(Bump(done, k), post)
  {
    hide AbsDue, FrameKind, Bump, Synthetics;
    assert ([f] + post)[1..] == post;
  }

  /** The same with neutral messages before it. */
  lemma CompletionOut(p: Plan, done: ResponseCounts, pre: seq<Frame>, f: Frame, post: seq<Frame>)
    requires Neutrals(pre) && Neutrals(post)
    ensures var k, d := FrameKind(f), CountAll(done, pre);
            && SameAt(d, done)
            && Out(AbsRun(p, done, pre + ([f] + post))) == pre + Copies(AbsDue(p, d, k)) + ([f] + post)
            && SameAt(CountAll(done, pre + ([f] + post)), Bump(d, k))
  {
    hide Copies, AbsDue, Neutrals, CountAll, AbsRun, Bump, FrameKind;
    var d := CountAll(done, pre);
    NeutralOut(p, done, pre);
    AbsRunAppend(p, done, pre, [f] + post);
    HeadOut(p, d, f, post);
    OutAppend(AbsRun(p, done, pre), AbsRun(p, d, [f] + post));
  }

  /** What the plan `p` of the batch has at the operation after those planned in `q`. */
  ghost predicate LooksUp(p: Plan, q: Plan, op: BatchOperation) {
    && (op.Bind? ==> Get(p.bind, q.at.bindComplete) == q.pending)
    && (op.Describe? ==> Get(p.paramDesc, q.at.paramDesc) == q.pending)
    && (op.Close? ==> Get(p.close, q.at.closeComplete) == q.pending)
  }

  predicate Consumes(op: BatchOperation) { op.Bind? || op.Describe? || op.Close? }

  lemma AnswerOut(p: Plan, q: Plan, op: BatchOperation, done: ResponseCounts, fs: seq<Frame>)
    requires Answers(op, fs) && SameAt(done, q.at) && LooksUp(p, q, op)
    ensures Consumes(op) ==> Lead(fs) < |fs|
    ensures Out(AbsRun(p, done, fs)) == if Consumes(op) then Inserted(fs, q.pending) else fs
    ensures SameAt(CountAll(done, fs), Extend(q, op).at)
  {
    hide AbsRun, Copies, CountAll, Out;
    AnswerNeutral(op, fs);
    if Consumes(op) {
      var n := Lead(fs);
      Around(fs, n);
      CompletionOut(p, done, fs[..n], fs[n], fs[n + 1..]);
    } else {
      NeutralOut(p, done, fs);
    }
  }

  lemma PassingNeutral(fs: seq<Frame>)
    requires Passing(fs)
    ensures Neutrals(fs)
  {
  }

  /** Neutral messages on both sides of a neutral one. */
  lemma NeutralAround(fs: seq<Frame>, n: nat)
    requires n < |fs| && Neutrals(fs[..n]) && Neutral(FrameKind(fs[n])) && Neutrals(fs[n + 1..])
    ensures Neutrals(fs)
  {
    hide FrameKind;
    forall i | 0 <= i < |fs| ensures Neutral(FrameKind(fs[i])) {
      assert i < n ==> fs[i] == fs[..n][i];
      assert i > n ==> fs[i] == fs[n + 1..][i - n - 1];
    }
  }

  lemma RowsAfter(fs: seq<Frame>)
    requires Completes(RowMessage, fs)
    ensures Neutrals(fs)
  {
    hide Neutrals, Passing;
    var n := Lead(fs);
    PassingNeutral(fs[..n]);
    PassingNeutral(fs[n + 1..]);
    NeutralAround(fs, n);
  }

  lemma ExecuteNeutral(fs: seq<Frame>)
    requires Answers(BatchOperation.Execute, fs)
    ensures Neutrals(fs)
  {
    var n :| 0 <= n < |fs| && ExecutesAt(fs, n);
    assert Neutrals(fs[..n]);
    PassingNeutral(fs[n + 1..]);
    NeutralAround(fs, n);
  }

  /** Which messages of an answer have nothing due. */
  lemma AnswerNeutral(op: BatchOperation, fs: seq<Frame>)
    requires Answers(op, fs)
    ensures Neutrals(fs[..Lead(fs)])
    ensures if Consumes(op) then Lead(fs) < |fs| && Neutrals(fs[Lead(fs) + 1..]) else Neutrals(fs)
  {
    hide Neutrals, Passing, Rows, FrameKind, Lead;
    var n := Lead(fs);
    PassingNeutral(fs[..n]);
    match op {
      case ParseSkipped => NoneNeutral();
      case ParseSent => PassingNeutral(fs);
      case Bind => PassingNeutral(fs[n + 1..]);
      case Close => PassingNeutral(fs[n + 1..]);
      case Describe => RowsAfter(fs[n + 1..]);
      case DescribePortal => RowsAfter(fs);
      case Execute => ExecuteNeutral(fs);
    }
  }

  lemma NoneNeutral()
    ensures Neutrals([])
  {
  }

  /** After some answers: what came out, what should have, and whether every message was prompt so far. */
  ghost predicate Placed(p: Plan, ops: seq<BatchOperation>, answers: seq<seq<Frame>>)
    requires |ops| == |answers|
  {
    var sent := Concat(answers);
    && SameAt(CountAll(NO_RESPONSES, sent), PlanOf(ops).at)
    && Match(Out(AbsRun(p, NO_RESPONSES, sent)), Unskipped(ops, answers), Waiting(ops), Prompt(ops, answers))
  }

  lemma {:induction false} PlacedPrefix(whole: seq<BatchOperation>, ops: seq<BatchOperation>, answers: seq<seq<Frame>>)
    requires ops <= whole && AnswersAll(ops, answers) && Placeable(ops)
    ensures Placed(PlanOf(whole), ops, answers)
    decreases |ops|
  {
    hide Answers, Match, AbsRun, Extend, CountAll, Copies, Punctual, Out, SameAt, Get;
    if ops != [] {
      var n := |ops| - 1;
      var p, init, op, fs := PlanOf(whole), ops[..n], ops[n], answers[n];
      assert init == whole[..n];
      PlacedPrefix(whole, init, answers[..n]);
      PendingIsWaiting(init);
      PlanLooksUp(whole, n);
      PlacedStep(p, init, answers[..n], op, fs);
      ConcatLast(answers);
    } else {
      NothingSent(PlanOf(whole));
    }
  }

  lemma NothingSent(p: Plan)
    ensures Placed(p, [], [])
  {
  }

  lemma PlacedStep(p: Plan, init: seq<BatchOperation>, earlier: seq<seq<Frame>>, op: BatchOperation, fs: seq<Frame>)
    requires |init| == |earlier| && Placed(p, init, earlier) && Answers(op, fs) && LooksUp(p, PlanOf(init), op)
    requires PlanOf(init).pending == Waiting(init) && (op.Execute? || op.DescribePortal? ==> Waiting(init) == 0)
    ensures var sent, w := Concat(earlier) + fs, Waiting(init);
            var ok := Prompt(init, earlier) && (w > 0 ==> PunctualAnswer(op, fs));
            && SameAt(CountAll(NO_RESPONSES, sent), Extend(PlanOf(init), op).at)
            && Match(Out(AbsRun(p, NO_RESPONSES, sent)),
                     Unskipped(init, earlier) + (if op.ParseSkipped? then [PARSE_COMPLETE] else fs),
                     Waiting(init + [op]), ok)
  {
    hide Match, AbsRun, Extend, CountAll, Copies, Prompt, Placeable;
    var sent, w := Concat(earlier), Waiting(init);
    var done := CountAll(NO_RESPONSES, sent);
    var out, ref := Out(AbsRun(p, NO_RESPONSES, sent)), Unskipped(init, earlier);
    AbsRunAppend(p, NO_RESPONSES, sent, fs);
    OutAppend(AbsRun(p, NO_RESPONSES, sent), AbsRun(p, done, fs));
    AnswerOut(p, PlanOf(init), op, done, fs);
    assert (init + [op])[..|init|] == init;
    if op.ParseSkipped? {
      SkippedOne(out, ref, w, Prompt(init, earlier));
      assert out + [] == out;
    } else if Consumes(op) {
      InsertedMatches(out, ref, w, Prompt(init, earlier), fs);
    } else {
      Passed(out, ref, w, Prompt(init, earlier), fs);
      if op.ParseSent? {
        AllLead(fs);
      }
    }
  }

  lemma {:induction false} AllLead(fs: seq<Frame>)
    requires Passing(fs)
    ensures Lead(fs) == |fs| && fs[..Lead(fs)] == fs
  {
    if fs != [] {
      AllLead(fs[1..]);
    }
  }

  // ---------------------------------------------------------------- the whole reply

  ghost predicate Plain(fs: seq<Frame>) {
    && AllFramed(fs)
    && forall i :: 0 <= i < |fs| ==> !FrameKind(fs[i]).ErrorResponse? && !FrameKind(fs[i]).ReadyForQuery?
  }

  lemma {:induction false} AnswersPlain(ops: seq<BatchOperation>, answers: seq<seq<Frame>>)
    requires AnswersAll(ops, answers)
    ensures Plain(Concat(answers)) && AllFramed(Unskipped(ops, answers))
    decreases |ops|
  {
    hide Answers, FrameKind;
    if ops != [] {
      var n := |ops| - 1;
      AnswersPlain(ops[..n], answers[..n]);
      ConcatLast(answers);
      AnswerPlain(ops[n], answers[n]);
      ParseCompleteFramed();
    }
  }

  lemma NeutralPlain(fs: seq<Frame>)
    requires Neutrals(fs)
    ensures forall i :: 0 <= i < |fs| ==> !FrameKind(fs[i]).ErrorResponse? && !FrameKind(fs[i]).ReadyForQuery?
  {
    forall i | 0 <= i < |fs| ensures !FrameKind(fs[i]).ErrorResponse? && !FrameKind(fs[i]).ReadyForQuery? {
      assert Neutral(FrameKind(fs[i]));
    }
  }

  lemma AnswerPlain(op: BatchOperation, fs: seq<Frame>)
    requires Answers(op, fs) && AllFramed(fs)
    ensures Plain(fs)
  {
    hide Neutrals, FrameKind, Passing, Rows;
    AnswerNeutral(op, fs);
    if Consumes(op) {
      var n := Lead(fs);
      NeutralPlain(fs[..n]);
      NeutralPlain(fs[n + 1..]);
      forall i | 0 <= i < |fs| ensures !FrameKind(fs[i]).ErrorResponse? && !FrameKind(fs[i]).ReadyForQuery? {
        assert i < n ==> fs[i] == fs[..n][i];
        assert i > n ==> fs[i] == fs[n + 1..][i - n - 1];
      }
    } else {
      NeutralPlain(fs);
    }
  }

  lemma {:induction false} OutFramed(p: Plan, done: ResponseCounts, fs: seq<Frame>)
    requires AllFramed(fs)
    ensures AllFramed(Out(AbsRun(p, done, fs)))
    decreases |fs|
  {
    hide FrameKind, WellFramed, AbsDue, Copies;
    if fs != [] {
      var k := FrameKind(fs[0]);
      OutFramed(p, Bump(done, k), fs[1..]);
      OutOne(AbsDue(p, done, k), fs[0], AbsRun(p, Bump(done, k), fs[1..]));
      CopiesFramed(AbsDue(p, done, k));
    }
  }

  lemma CopiesFramed(n: nat)
    ensures AllFramed(Copies(n))
  {
    ParseCompleteFramed();
  }

  /** With every operation answered, the maps ask for nothing more. */
  lemma AllAnswered(p: Plan, done: ResponseCounts)
    requires ValidPlan(p) && SameAt(done, p.at)
    ensures Unanswered(p, done) == 0
  {
    NothingPast(p.bind, p.at.bindComplete);
    NothingPast(p.paramDesc, p.at.paramDesc);
    NothingPast(p.close, p.at.closeComplete);
  }

  /** The end of the reply moves no count and gets everything that is pending. */
  lemma EndOut(p: Plan, done: ResponseCounts, end: seq<Frame>)
    requires Ready(end)
    ensures Out(AbsRun(p, done, end)) == Inserted(end, p.pending) && SameAt(CountAll(done, end), done)
  {
    hide AbsRun, Copies, CountAll, Out;
    var n := |end| - 1;
    PassingNeutral(end[..n]);
    Around(end, n);
    assert end[n + 1..] == [];
    CompletionOut(p, done, end[..n], end[n], []);
  }

  lemma ReadyOrderly(p: Plan, sent: seq<Frame>, end: seq<Frame>)
    requires ValidPlan(p) && SameAt(CountAll(NO_RESPONSES, sent), p.at) && Plain(sent) && Ready(end)
    ensures Orderly(p, NO_RESPONSES, sent + end) && AllFramed(sent + end)
  {
    hide AbsRun, Copies, CountAll, Out, FrameKind, ValidPlan;
    var done := CountAll(NO_RESPONSES, sent);
    AbsRunAppend(p, NO_RESPONSES, sent, end);
    EndOut(p, done, end);
    AllAnswered(p, CountAll(done, end));
    EndPlain(end);
    forall i | 0 <= i < |sent + end|
      ensures !FrameKind((sent + end)[i]).ErrorResponse? && (FrameKind((sent + end)[i]).ReadyForQuery? ==> i == |sent + end| - 1)
    {
      assert (sent + end)[i] == if i < |sent| then sent[i] else end[i - |sent|];
    }
  }

  lemma EndPlain(end: seq<Frame>)
    requires Ready(end)
    ensures forall i :: 0 <= i < |end| ==> !FrameKind(end[i]).ErrorResponse? && (FrameKind(end[i]).ReadyForQuery? ==> i == |end| - 1)
  {
    var n := |end| - 1;
    forall i | 0 <= i < |end| ensures !FrameKind(end[i]).ErrorResponse? && (FrameKind(end[i]).ReadyForQuery? ==> i == n) {
      assert i < n ==> end[i] == end[..n][i];
    }
  }

  lemma Matched(out: seq<Frame>, ref: seq<Frame>, ok: bool)
    requires Match(out, ref, 0, ok)
    ensures out == ref <==> ok
  {
    assert out + Copies(0) == out;
  }

  lemma EndMatches(p: Plan, ops: seq<BatchOperation>, answers: seq<seq<Frame>>, end: seq<Frame>)
    requires |ops| == |answers| && Placed(p, ops, answers) && Ready(end) && p.pending == Waiting(ops)
    ensures Out(AbsRun(p, NO_RESPONSES, Concat(answers) + end)) == Unskipped(ops, answers) + end <==> PromptReply(ops, answers, end)
  {
    hide Match, AbsRun, CountAll, Out, Prompt, Punctual, Inserted;
    var sent := Concat(answers);
    var done := CountAll(NO_RESPONSES, sent);
    AbsRunAppend(p, NO_RESPONSES, sent, end);
    OutAppend(AbsRun(p, NO_RESPONSES, sent), AbsRun(p, done, end));
    EndOut(p, done, end);
    var out, ref := Out(AbsRun(p, NO_RESPONSES, sent)), Unskipped(ops, answers);
    InsertedMatches(out, ref, p.pending, Prompt(ops, answers), end);
    Matched(out + Inserted(end, p.pending), ref + end, PromptReply(ops, answers, end));
  }

  /** The client gets, byte for byte, the reply it would have had with no Parse skipped. */
  ghost predicate Exact(ops: seq<BatchOperation>, answers: seq<seq<Frame>>, end: seq<Frame>, chunks: seq<seq<Frame>>)
    requires |ops| == |answers|
  {
    Feed(ops, NO_RESPONSES, chunks).Reply? && Feed(ops, NO_RESPONSES, chunks).bytes == Flatten(Unskipped(ops, answers) + end)
  }

  /**
   For every placeable batch, every error-free reply to it and every cut of that reply into buffers, the call finishes,
   and the client gets the reply without skipping if and only if nothing but ParseComplete comes between a skipped
   Parse and the next completion or ReadyForQuery.
   */
  lemma ExactIffPrompt(ops: seq<BatchOperation>, answers: seq<seq<Frame>>, end: seq<Frame>, chunks: seq<seq<Frame>>)
    requires Placeable(ops) && AnswersAll(ops, answers) && Ready(end) && Concat(chunks) == Concat(answers) + end
    ensures Feed(ops, NO_RESPONSES, chunks).Reply?
    ensures Exact(ops, answers, end, chunks) <==> PromptReply(ops, answers, end)
  {
    hide Answers, AbsRun, Out, Orderly, Prompt, Punctual, Match, FrameKind, Feed, Inserted;
    var p, sent := PlanOf(ops), Concat(answers);
    PendingIsWaiting(ops);
    AnswersPlain(ops, answers);
    PlacedPrefix(ops, ops, answers);
    PlanConserves(ops);
    ReadyOrderly(p, sent, end);
    PiecesFramed(chunks);
    FeedIsAbsolute(ops, NO_RESPONSES, chunks);
    var items := AbsRun(p, NO_RESPONSES, sent + end);
    RenderOut(items);
    OutFramed(p, NO_RESPONSES, sent + end);
    SameMessages(Out(items), Unskipped(ops, answers) + end);
    EndMatches(p, ops, answers, end);
  }
}
