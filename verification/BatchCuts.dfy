/** Exact placement when the reply is cut where the receive loop cuts it (src/server/protocol_io.rs:603-878). */
module BatchCuts {
  import opened Wire
  import opened Frames
  import opened BatchReorder
  import opened BatchConservation
  import opened BatchPlacement
  import opened BatchExact
  import opened BatchOneBuffer
  import opened BatchShapes
  import opened BatchOneExact
  import opened BatchNecessity

  // ---------------------------------------------------------------- where the receive loop stops

  const BUFFER_FLUSH_THRESHOLD := 8192

  /** Whether a buffer of `len` bytes is handed on after this message. */
  predicate EndsBuffer(f: Frame, len: nat) {
    f != [] &&
    (|| f[0] == 'Z' as int || f[0] == 'G' as int || f[0] == 'H' as int
     || ((f[0] == 'D' as int || f[0] == 'd' as int) && len >= BUFFER_FLUSH_THRESHOLD))
  }

  /** The buffers in which a reply is received, `held` being in the buffer already. */
  function Received(fs: seq<Frame>, held: seq<Frame>): seq<seq<Frame>>
    decreases |fs|
  {
    if fs == [] then if held == [] then [] else [held]
    else
      var buffer := held + [fs[0]];
      if EndsBuffer(fs[0], |Flatten(buffer)|) then [buffer] + Received(fs[1..], []) else Received(fs[1..], buffer)
  }

  lemma {:induction false} ReceivedJoin(fs: seq<Frame>, held: seq<Frame>)
    ensures Concat(Received(fs, held)) == held + fs
    decreases |fs|
  {
    hide EndsBuffer;
    if fs == [] {
      if held != [] {
        WholeIsOne(held);
      }
      assert held + fs == held;
    } else {
      var buffer := held + [fs[0]];
      assert buffer + fs[1..] == held + fs;
      if EndsBuffer(fs[0], |Flatten(buffer)|) {
        ReceivedJoin(fs[1..], []);
        assert Received(fs, held)[1..] == Received(fs[1..], []);
        assert [] + fs[1..] == fs[1..];
      } else {
        ReceivedJoin(fs[1..], buffer);
      }
    }
  }

  /** Messages that never end a buffer. */
  ghost predicate Gathering(fs: seq<Frame>) {
    forall i, len :: 0 <= i < |fs| ==> !EndsBuffer(fs[i], len)
  }

  lemma {:induction false} Gathered(fs: seq<Frame>, f: Frame, held: seq<Frame>, rest: seq<Frame>)
    requires Gathering(fs) && EndsBuffer(f, |Flatten(held + fs + [f])|)
    ensures Received(fs + ([f] + rest), held) == [held + fs + [f]] + Received(rest, [])
    decreases |fs|
  {
    hide EndsBuffer;
    var all := fs + ([f] + rest);
    if fs == [] {
      assert all[0] == f && all[1..] == rest;
      assert held + fs + [f] == held + [f];
    } else {
      assert all[0] == fs[0] && all[1..] == fs[1..] + ([f] + rest);
      assert held + fs + [f] == held + [fs[0]] + fs[1..] + [f];
      assert !EndsBuffer(fs[0], |Flatten(held + [fs[0]])|);
      Gathered(fs[1..], f, held + [fs[0]], rest);
    }
  }

  // ---------------------------------------------------------------- a cut after a row

  /** A row of one column, a text of `n` letters. */
  function Row(n: nat): (r: seq<byte>)
    ensures |r| == 6 + n
  {
    Widths();
    [0, 1] + ToBE(4, n) + seq(n, _ => 'x' as int)
  }

  /** The tag `SELECT 2`. */
  function SelectTwo(): (tag: seq<byte>)
    ensures |tag| == 9
  {
    ['S' as int, 'E' as int, 'L' as int, 'E' as int, 'C' as int, 'T' as int, ' ' as int, '2' as int, 0]
  }

  /** A result of two rows, the first of which fills a buffer. */
  const BIG_ROW := Message('D' as int, Row(BUFFER_FLUSH_THRESHOLD))
  const SMALL_ROW := Message('D' as int, Row(1))
  const COMMAND_COMPLETE := Message('C' as int, SelectTwo())
  const TWO_ROWS := [BIG_ROW, SMALL_ROW, COMMAND_COMPLETE]

  lemma TwoRows()
    ensures Answers(BatchOperation.Execute, TWO_ROWS) && AllFramed(TWO_ROWS)
    ensures FrameKind(BIG_ROW).RowMessage? && FrameKind(SMALL_ROW).RowMessage? && SMALL_ROW != PARSE_COMPLETE
    ensures |BIG_ROW| >= BUFFER_FLUSH_THRESHOLD && BIG_ROW[0] == 'D' as int
    ensures |SMALL_ROW| == 12 && SMALL_ROW[0] == 'D' as int && COMMAND_COMPLETE != [] && COMMAND_COMPLETE[0] == 'C' as int
  {
    hide Message, WellFramed, Row, SelectTwo;
    MessageFramed('D' as int, Row(BUFFER_FLUSH_THRESHOLD));
    MessageFramed('D' as int, Row(1));
    MessageFramed('C' as int, SelectTwo());
    MessageSize('D' as int, Row(BUFFER_FLUSH_THRESHOLD));
    MessageSize('D' as int, Row(1));
    MessageSize('C' as int, SelectTwo());
    assert PARSE_COMPLETE[0] == '1' as int;
    assert TWO_ROWS[..2] == [BIG_ROW, SMALL_ROW] && TWO_ROWS[3..] == [];
    assert ExecutesAt(TWO_ROWS, 2);
  }

  lemma MessageSize(t: byte, body: seq<byte>)
    ensures |Message(t, body)| == 5 + |body|
  {
  }

  lemma {:induction false} ShownGathers(ops: seq<BatchOperation>)
    ensures Gathering(Concat(ShownAll(ops)))
  {
    if ops != [] {
      hide EndsBuffer, Shown;
      var n := |ops| - 1;
      ShownGathers(ops[..n]);
      ShownGrows(ops);
      OneGathers(ops[n]);
    }
  }

  lemma OneGathers(op: BatchOperation)
    ensures Gathering(Shown(op))
  {
    hide Message;
    MessageFramed('2' as int, []);
    MessageFramed('3' as int, []);
    MessageFramed('t' as int, [0, 0]);
    MessageFramed('n' as int, []);
    MessageFramed('I' as int, []);
  }

  /** A reply without rows is received in one buffer. */
  lemma ShownInOne(ops: seq<BatchOperation>)
    ensures Received(Concat(ShownAll(ops)) + READY, []) == [Concat(ShownAll(ops)) + READY]
  {
    hide Shown, Message;
    var sent := Concat(ShownAll(ops));
    ShownGathers(ops);
    MessageFramed('Z' as int, ['I' as int]);
    Gathered(sent, READY[0], [], []);
    assert [READY[0]] + [] == READY && [] + sent + READY == sent + READY;
  }

  // ---------------------------------------------------------------- one answer replaced

  lemma {:induction false} Replaced(ops: seq<BatchOperation>, answers: seq<seq<Frame>>, j: nat, fs: seq<Frame>)
    requires AnswersAll(ops, answers) && Prompt(ops, answers) && j < |ops|
    requires Answers(ops[j], fs) && AllFramed(fs) && Waiting(ops[..j]) == 0
    ensures AnswersAll(ops, answers[j := fs]) && Prompt(ops, answers[j := fs])
    decreases |ops|
  {
    hide Answers, PunctualAnswer, Waiting;
    var n := |ops| - 1;
    if j == n {
      assert answers[j := fs][..n] == answers[..n];
    } else {
      assert ops[..n][..j] == ops[..j];
      Replaced(ops[..n], answers[..n], j, fs);
      assert answers[j := fs][..n] == answers[..n][j := fs];
    }
  }

  lemma {:induction false} ConcatBoth(a: seq<seq<Frame>>, b: seq<seq<Frame>>)
    ensures Concat(a + b) == Concat(a) + Concat(b)
  {
    if a == [] {
      assert a + b == b;
    } else {
      assert (a + b)[1..] == a[1..] + b;
      ConcatBoth(a[1..], b);
    }
  }

  lemma ConcatAround(answers: seq<seq<Frame>>, j: nat)
    requires j < |answers|
    ensures Concat(answers) == Concat(answers[..j]) + (answers[j] + Concat(answers[j + 1..]))
  {
    var tail := answers[j..];
    assert answers == answers[..j] + tail && tail[1..] == answers[j + 1..];
    ConcatBoth(answers[..j], tail);
  }

  lemma {:induction false} UnskippedPrefix(ops: seq<BatchOperation>, answers: seq<seq<Frame>>, n: nat)
    requires |ops| == |answers| && n <= |ops|
    ensures Unskipped(ops[..n], answers[..n]) <= Unskipped(ops, answers)
    decreases |ops|
  {
    if n == |ops| {
      assert ops[..n] == ops && answers[..n] == answers;
    } else {
      var m := |ops| - 1;
      assert ops[..m][..n] == ops[..n] && answers[..m][..n] == answers[..n];
      UnskippedPrefix(ops[..m], answers[..m], n);
    }
  }

  lemma {:induction false} ShownPrefix(ops: seq<BatchOperation>, n: nat)
    requires n <= |ops|
    ensures ShownAll(ops)[..n] == ShownAll(ops[..n])
    decreases |ops|
  {
    hide Shown;
    if n < |ops| {
      var m := |ops| - 1;
      assert ops[..m][..n] == ops[..n];
      ShownPrefix(ops[..m], n);
      assert ShownAll(ops)[..n] == ShownAll(ops[..m])[..n];
    } else {
      assert ops[..n] == ops;
    }
  }

  // ---------------------------------------------------------------- two calls

  lemma {:induction false} PlainScanned(p: Plan, total: nat, s: Scan, fs: seq<Frame>)
    requires Plain(fs)
    ensures Run(p, total, s, fs).Scanned? && Run(p, total, s, fs).counts == FlowEnd(p, s, fs).counts
    decreases |fs|
  {
    hide Due, FlowDue, FrameKind, WellFramed;
    if fs != [] {
      DueFlow(p, total, s, FrameKind(fs[0]));
      PlainScanned(p, total, Next(p, s, fs[0]), fs[1..]);
    }
  }

  /** A first buffer without an error or a ReadyForQuery. */
  lemma FirstCall(ops: seq<BatchOperation>, fs: seq<Frame>)
    requires SkippedCount(ops) > 0 && Plain(fs)
    ensures var p := PlanOf(ops);
            Reorder(ops, SkippedCount(ops), NO_RESPONSES, Flatten(fs))
              == Reply(Flatten(FlowOut(p, SCAN_START, fs)), FlowEnd(p, SCAN_START, fs).counts)
  {
    hide PlanOf, FrameKind, FlowOut, FlowEnd, Run, WellFramed, Render, Flatten, Split, Rest, ValidPlan, PlanSum, Remaining;
    var p := PlanOf(ops);
    PlanConserves(ops);
    StartPlan(ops);
    SplitFlatten(fs);
    assert ops != [] by { SkipsAny(ops); }
    PlainRun(p, PlanSum(p), fs);
    var r := Run(p, PlanSum(p), SCAN_START, fs);
    assert Plus(NO_RESPONSES, r.counts) == r.counts;
    assert Render(r.items) + [] == Render(r.items);
  }

  lemma SkipsAny(ops: seq<BatchOperation>)
    requires SkippedCount(ops) > 0
    ensures ops != []
  {
  }

  lemma PlainRun(p: Plan, total: nat, fs: seq<Frame>)
    requires Plain(fs)
    ensures var r, s := Run(p, total, SCAN_START, fs), FlowEnd(p, SCAN_START, fs);
            r.Scanned? && Render(r.items) == Flatten(FlowOut(p, SCAN_START, fs)) && r.counts == s.counts
  {
    hide FrameKind, FlowOut, FlowEnd, Run, WellFramed, Out, Render, Flatten;
    assert fs + [] == fs;
    PlainScanned(p, total, SCAN_START, fs);
    RunFlow(p, total, SCAN_START, fs, []);
    RunNothing(p, total, FlowEnd(p, SCAN_START, fs));
    RenderOut(Run(p, total, SCAN_START, fs).items);
    assert FlowOut(p, SCAN_START, fs) + [] == FlowOut(p, SCAN_START, fs);
  }

  lemma RunNothing(p: Plan, total: nat, s: Scan)
    ensures Run(p, total, s, []).Scanned? && Out(Run(p, total, s, []).items) == []
  {
  }

  lemma {:induction false} RunFramed(p: Plan, total: nat, s: Scan, fs: seq<Frame>)
    requires AllFramed(fs) && Run(p, total, s, fs).Scanned?
    ensures AllFramed(Out(Run(p, total, s, fs).items))
    decreases |fs|
  {
    hide Due, FrameKind, WellFramed, Copies;
    if fs != [] {
      var k := FrameKind(fs[0]);
      var due := Due(p, total, s, k);
      RunFramed(p, total, Advance(s, k, due), fs[1..]);
      OutOne(due, fs[0], Run(p, total, Advance(s, k, due), fs[1..]).items);
      CopiesFramed(due);
    }
  }

  /** A second buffer that begins with a row while the Execute has still to complete: the insertion is made again. */
  lemma SecondCall(ops: seq<BatchOperation>, done: ResponseCounts, f: Frame, more: seq<Frame>) returns (out: seq<Frame>)
    requires SkippedCount(ops) > 0 && done.execute == 0 && Get(PlanOf(ops).execute, 0) > 0
    requires FrameKind(f).RowMessage? && AllFramed([f] + more)
    ensures var r := Reorder(ops, SkippedCount(ops), done, Flatten([f] + more));
            AllFramed(out) && (r.Reply? ==> r.bytes == Flatten(Copies(Get(PlanOf(ops).execute, 0)) + [f] + out))
  {
    hide FrameKind, WellFramed, Copies, Sum, Get;
    var p, all := PlanOf(ops), [f] + more;
    var rel, x := Remaining(p, done), Get(p.execute, 0);
    PlanConserves(ops);
    SplitFlatten(all);
    PendingSplit(p.execute, 0);
    RelevantGet(p.execute, 0, 0);
    var total := PlanSum(rel);
    var s := Advance(SCAN_START, RowMessage, x);
    assert all[0] == f && all[1..] == more;
    assert Due(rel, total, SCAN_START, RowMessage) == x;
    out := [];
    if Run(rel, total, SCAN_START, all).Scanned? {
      var rest := Run(rel, total, s, more);
      OutOne(x, f, rest.items);
      RenderOut(Run(rel, total, SCAN_START, all).items);
      RunFramed(rel, total, s, more);
      out := Out(rest.items);
      var bytes := Render(Run(rel, total, SCAN_START, all).items);
      assert bytes + [] == bytes;
    }
  }

  // ---------------------------------------------------------------- the Execute that a cut disturbs

  /** A batch with the exception has the Execute that consumes what waited at the portal Describe. */
  lemma {:induction false} FindExecute(ops: seq<BatchOperation>) returns (j: nat)
    requires StageOf(ops).Later? && StageOf(ops).x > 0
    ensures j < |ops| && ops[j].Execute? && StageOf(ops[..j]) == Early(StageOf(ops).x)
  {
    var n := |ops| - 1;
    if StageOf(ops[..n]).Later? {
      j := FindExecute(ops[..n]);
      assert ops[..n][..j] == ops[..j];
    } else {
      j := n;
    }
  }

  /** Before that Execute the output is the reply without skipping, and no Execute is counted yet. */
  lemma BeforeRow(ops: seq<BatchOperation>, j: nat)
    requires OnePlaceable(ops) && j < |ops| && StageOf(ops[..j]).Early?
    ensures var p, answers := PlanOf(ops), ShownAll(ops[..j]);
            var sent := Concat(answers);
            var s := FlowEnd(p, SCAN_START, sent);
            && Plain(sent) && s.inExecute && s.counts.execute == 0
            && FlowOut(p, SCAN_START, sent) == Unskipped(ops[..j], answers)
            && Waiting(ops[..j]) == 0 && Get(p.execute, 0) > 0
  {
    hide Shown, FlowOut, FlowEnd, Answers, Get, Move, FrameKind, Message, StageOf, Prompt, Copies, Plain;
    var p, init, answers := PlanOf(ops), ops[..j], ShownAll(ops[..j]);
    ShownAnswerAll(init);
    ShownPrompt(init);
    AnswersPlain(init, answers);
    PlanStage(init);
    WholeOnCourse(ops, j);
    FlowedPrefix(ops, init, answers);
    var out := FlowOut(p, SCAN_START, Concat(answers));
    NoCopies([]);
    assert out + [] == out;
  }

  /** One row more, once rows have begun. */
  lemma RowPasses(p: Plan, sent: seq<Frame>, f: Frame)
    requires Plain(sent) && WellFramed(f) && FrameKind(f).RowMessage? && FlowEnd(p, SCAN_START, sent).inExecute
    ensures Plain(sent + [f])
    ensures FlowOut(p, SCAN_START, sent + [f]) == FlowOut(p, SCAN_START, sent) + [f]
    ensures FlowEnd(p, SCAN_START, sent + [f]).counts == FlowEnd(p, SCAN_START, sent).counts
  {
    hide FlowOut, FlowEnd, FrameKind, WellFramed, Copies;
    FlowAppend(p, SCAN_START, sent, [f]);
    FlowOne(p, FlowEnd(p, SCAN_START, sent), f);
    NoCopies([f]);
  }

  /** Two rows for one Execute, empty queries elsewhere. */
  function RowAnswers(ops: seq<BatchOperation>, j: nat): (r: seq<seq<Frame>>)
    requires j < |ops|
    ensures |r| == |ops|
  {
    ShownAll(ops)[j := TWO_ROWS]
  }

  function SecondBuffer(ops: seq<BatchOperation>, j: nat): seq<Frame>
    requires j < |ops|
  {
    [COMMAND_COMPLETE] + Concat(ShownAll(ops)[j + 1..]) + READY
  }

  lemma RowAnswersAre(ops: seq<BatchOperation>, j: nat)
    requires j < |ops|
    ensures Concat(RowAnswers(ops, j)) + READY
         == Concat(ShownAll(ops[..j])) + ([BIG_ROW] + ([SMALL_ROW] + SecondBuffer(ops, j)))
  {
    hide Shown, ShownAll, Message, Concat, Row, SelectTwo;
    var shown := ShownAll(ops);
    ShownPrefix(ops, j);
    Replacing(shown, j, TWO_ROWS);
    ConcatAround(RowAnswers(ops, j), j);
    Rejoined(Concat(shown[..j]), BIG_ROW, SMALL_ROW, COMMAND_COMPLETE, Concat(shown[j + 1..]), READY);
  }

  lemma Replacing(answers: seq<seq<Frame>>, j: nat, fs: seq<Frame>)
    requires j < |answers|
    ensures answers[j := fs][..j] == answers[..j] && answers[j := fs][j + 1..] == answers[j + 1..]
  {
  }

  lemma Rejoined(a: seq<Frame>, f: Frame, g: Frame, h: Frame, rest: seq<Frame>, end: seq<Frame>)
    ensures a + ([f, g, h] + rest) + end == a + ([f] + ([g] + ([h] + rest + end)))
  {
    assert [f, g, h] + rest + end == [f] + ([g] + ([h] + rest + end));
  }

  /** The reply is cut after the first row, which fills the buffer. */
  lemma CutAfterRow(ops: seq<BatchOperation>, j: nat)
    requires j < |ops|
    ensures var all, sent := Concat(RowAnswers(ops, j)) + READY, Concat(ShownAll(ops[..j]));
            && all == sent + ([BIG_ROW] + ([SMALL_ROW] + SecondBuffer(ops, j)))
            && Received(all, []) == [sent + [BIG_ROW], [SMALL_ROW] + SecondBuffer(ops, j)]
  {
    hide Shown, Message;
    var sent := Concat(ShownAll(ops[..j]));
    var second := [SMALL_ROW] + SecondBuffer(ops, j);
    RowAnswersAre(ops, j);
    TwoRows();
    MessageFramed('Z' as int, ['I' as int]);
    ShownGathers(ops[..j]);
    FlattenAppend(sent, [BIG_ROW]);
    assert |Flatten([BIG_ROW])| >= BUFFER_FLUSH_THRESHOLD by { FlattenOne(BIG_ROW); }
    assert [] + sent + [BIG_ROW] == sent + [BIG_ROW];
    Gathered(sent, BIG_ROW, [], second);
    RestInOne(ops, j);
  }

  lemma FlattenOne(f: Frame)
    ensures Flatten([f]) == f
  {
    assert [f][1..] == [];
  }

  /** What follows that row is received in one more buffer. */
  lemma RestInOne(ops: seq<BatchOperation>, j: nat)
    requires j < |ops|
    ensures var second := [SMALL_ROW] + SecondBuffer(ops, j); Received(second, []) == [second]
  {
    hide Shown, ShownAll, Message, Row, SelectTwo, Concat, Received, Gathering;
    var shown := ShownAll(ops);
    TwoRows();
    MessageFramed('Z' as int, ['I' as int]);
    ShownGathers(ops);
    ConcatAround(shown, j);
    assert Concat(shown) == Concat(shown[..j]) + shown[j] + Concat(shown[j + 1..]);
    GatheringLast(Concat(shown[..j]) + shown[j], COMMAND_COMPLETE, Concat(shown[j + 1..]));
    FlattenOne(SMALL_ROW);
    InOne(SMALL_ROW, [COMMAND_COMPLETE] + Concat(shown[j + 1..]), READY[0]);
  }

  /** The end of a stretch that does not end a buffer, after a message that does not either. */
  lemma GatheringLast(a: seq<Frame>, f: Frame, b: seq<Frame>)
    requires Gathering(a + b) && forall len :: !EndsBuffer(f, len)
    ensures Gathering([f] + b)
  {
    hide EndsBuffer;
    assert forall i :: 0 <= i < |b| ==> b[i] == (a + b)[|a| + i];
  }

  /** A buffer that ends with its last message. */
  lemma InOne(f: Frame, gathered: seq<Frame>, last: Frame)
    requires !EndsBuffer(f, |Flatten([f])|) && Gathering(gathered) && forall len :: EndsBuffer(last, len)
    ensures var all := [f] + (gathered + [last]); Received(all, []) == [all]
  {
    hide EndsBuffer, Flatten, Gathering;
    var all := [f] + (gathered + [last]);
    assert all[0] == f && all[1..] == gathered + ([last] + []) && [] + [f] == [f];
    Gathered(gathered, last, [f], []);
    assert [f] + gathered + [last] == all;
  }

  /** Cut there, the reply comes out with the ParseCompletes of the Execute once more before its second row. */
  lemma CutGoesAstray(ops: seq<BatchOperation>, j: nat)
    requires OnePlaceable(ops) && j < |ops| && ops[j].Execute? && StageOf(ops[..j]).Early?
    ensures var answers := RowAnswers(ops, j); !Exact(ops, answers, READY, Received(Concat(answers) + READY, []))
  {
    hide Shown, Message, FlowOut, FlowEnd, StageOf, FrameKind, WellFramed, Reorder, Received, Unskipped, Copies, Get, Plain, RowAnswers, SecondBuffer;
    var p, init := PlanOf(ops), ops[..j];
    var sent, ref := Concat(ShownAll(init)), Unskipped(init, ShownAll(init));
    BeforeRow(ops, j);
    SkipsSome(ops);
    TwoRows();
    RowsFramed(ops, j);
    RowPasses(p, sent, BIG_ROW);
    var first, second := sent + [BIG_ROW], [SMALL_ROW] + SecondBuffer(ops, j);
    FirstCall(ops, first);
    var done := FlowEnd(p, SCAN_START, first).counts;
    var more := SecondCall(ops, done, SMALL_ROW, SecondBuffer(ops, j));
    CutAfterRow(ops, j);
    FeedTwo(ops, first, second);
    var x := Get(p.execute, 0);
    var out, wanted := ref + [BIG_ROW] + (Copies(x) + [SMALL_ROW] + more), Unskipped(ops, RowAnswers(ops, j)) + READY;
    FlattenAppend(ref + [BIG_ROW], Copies(x) + [SMALL_ROW] + more);
    WantedRows(ops, j);
    RepeatDiffers(ref, x, more, wanted);
    CopiesFramed(x);
    NotTheSame(out, wanted);
  }

  lemma SkipsSome(ops: seq<BatchOperation>)
    requires Get(PlanOf(ops).execute, 0) > 0
    ensures SkippedCount(ops) > 0
  {
    PlanConserves(ops);
    WholeMapRelevant(PlanOf(ops).execute);
    PendingSplit(PlanOf(ops).execute, 0);
  }

  lemma FeedTwo(ops: seq<BatchOperation>, a: seq<Frame>, b: seq<Frame>)
    requires Reorder(ops, SkippedCount(ops), NO_RESPONSES, Flatten(a)).Reply?
    ensures var one := Reorder(ops, SkippedCount(ops), NO_RESPONSES, Flatten(a));
            var two := Reorder(ops, SkippedCount(ops), one.done, Flatten(b));
            var r := Feed(ops, NO_RESPONSES, [a, b]);
            (r.Reply? <==> two.Reply?) && (r.Reply? ==> r.bytes == one.bytes + two.bytes)
  {
    hide Reorder;
    var both: seq<seq<Frame>> := [a, b];
    assert both[1..] == [b] && both[1..][1..] == [];
    var one := Reorder(ops, SkippedCount(ops), NO_RESPONSES, Flatten(a));
    var two := Reorder(ops, SkippedCount(ops), one.done, Flatten(b));
    if two.Reply? {
      assert Feed(ops, two.done, both[1..][1..]) == Reply([], two.done);
      assert two.bytes + [] == two.bytes;
    }
  }

  lemma FramedEnd(a: seq<Frame>, f: Frame, b: seq<Frame>)
    requires AllFramed(a + ([f] + b))
    ensures AllFramed(b)
  {
    hide WellFramed;
    assert forall i :: 0 <= i < |b| ==> b[i] == (a + ([f] + b))[|a| + 1 + i];
  }

  /** The messages of the cut reply and of the one without skipping are whole. */
  lemma RowsFramed(ops: seq<BatchOperation>, j: nat)
    requires j < |ops| && ops[j].Execute? && Waiting(ops[..j]) == 0
    ensures var answers := RowAnswers(ops, j);
            && AnswersAll(ops, answers) && Prompt(ops, answers) && AllFramed(Unskipped(ops, answers) + READY)
            && AllFramed([SMALL_ROW] + SecondBuffer(ops, j)) && AllFramed(Unskipped(ops[..j], ShownAll(ops[..j])))
            && WellFramed(BIG_ROW) && WellFramed(SMALL_ROW)
  {
    hide Shown, ShownAll, Message, Row, SelectTwo, WellFramed, FrameKind, Answers, Prompt, Concat, Unskipped, SecondBuffer, Received;
    TwoRows();
    ShownAnswerAll(ops);
    ShownPrompt(ops);
    Replaced(ops, ShownAll(ops), j, TWO_ROWS);
    AnswersPlain(ops, RowAnswers(ops, j));
    ShownAnswerAll(ops[..j]);
    AnswersPlain(ops[..j], ShownAll(ops[..j]));
    ReadyShown();
    ReadyFramed(READY);
    CutAfterRow(ops, j);
    var all := Concat(RowAnswers(ops, j)) + READY;
    var second, sent := [SMALL_ROW] + SecondBuffer(ops, j), Concat(ShownAll(ops[..j]));
    FramedEnd(sent, BIG_ROW, second);
    assert TWO_ROWS[0] == BIG_ROW && TWO_ROWS[1] == SMALL_ROW;
  }

  /** The reply without skipping has the two rows next to each other. */
  lemma WantedRows(ops: seq<BatchOperation>, j: nat)
    requires j < |ops| && ops[j].Execute?
    ensures var ref, wanted := Unskipped(ops[..j], ShownAll(ops[..j])), Unskipped(ops, RowAnswers(ops, j)) + READY;
            |wanted| > |ref| + 1 && wanted[|ref| + 1] == SMALL_ROW
  {
    hide Shown, ShownAll, Message, Row, SelectTwo, Unskipped;
    var answers := RowAnswers(ops, j);
    ShownPrefix(ops, j);
    Replacing(ShownAll(ops), j, TWO_ROWS);
    UnskippedAt(ops, answers, j);
    NextTo(Unskipped(ops[..j], answers[..j]), TWO_ROWS, Unskipped(ops, answers), READY);
  }

  lemma UnskippedAt(ops: seq<BatchOperation>, answers: seq<seq<Frame>>, j: nat)
    requires |ops| == |answers| && j < |ops| && !ops[j].ParseSkipped?
    ensures Unskipped(ops[..j], answers[..j]) + answers[j] <= Unskipped(ops, answers)
  {
    UnskippedPrefix(ops, answers, j + 1);
    assert ops[..j + 1][..j] == ops[..j] && answers[..j + 1][..j] == answers[..j];
  }

  lemma NextTo(ref: seq<Frame>, rows: seq<Frame>, wanted: seq<Frame>, end: seq<Frame>)
    requires |rows| > 1 && ref + rows <= wanted
    ensures |wanted + end| > |ref| + 1 && (wanted + end)[|ref| + 1] == rows[1]
  {
    assert (ref + rows)[|ref| + 1] == rows[1];
  }

  lemma RepeatDiffers(ref: seq<Frame>, x: nat, more: seq<Frame>, wanted: seq<Frame>)
    requires x > 0 && |wanted| > |ref| + 1 && wanted[|ref| + 1] == SMALL_ROW
    ensures Differ(ref + [BIG_ROW] + (Copies(x) + [SMALL_ROW] + more), wanted)
  {
    hide Message;
    TwoRows();
    var out := ref + [BIG_ROW] + (Copies(x) + [SMALL_ROW] + more);
    assert out[|ref| + 1] == Copies(x)[0];
  }

  // ---------------------------------------------------------------- the theorem

  /** Every prompt error-free reply, cut as it is received, comes out as if no Parse had been skipped. */
  ghost predicate AlwaysExact(ops: seq<BatchOperation>) {
    forall answers, end ::
      AnswersAll(ops, answers) && Ready(end) && PromptReply(ops, answers, end) ==>
        Exact(ops, answers, end, Received(Concat(answers) + end, []))
  }

  /** A batch that is not placeable has a prompt reply that goes astray as it is received. */
  lemma SomeGoesAstray(ops: seq<BatchOperation>) returns (answers: seq<seq<Frame>>)
    requires !Placeable(ops)
    ensures AnswersAll(ops, answers) && PromptReply(ops, answers, READY)
    ensures !Exact(ops, answers, READY, Received(Concat(answers) + READY, []))
  {
    hide Exact, Ready, Shown, Message, StageOf, Prompt, Placeable, Received, Answers, RowAnswers, Waiting, Row, SelectTwo;
    PlaceableStage(ops);
    ShownPromptReply(ops);
    ReadyShown();
    if OnePlaceable(ops) {
      var j := FindExecute(ops);
      BeforeRow(ops, j);
      RowsFramed(ops, j);
      CutGoesAstray(ops, j);
      answers := RowAnswers(ops, j);
    } else {
      var _ := GoesAstray(ops);
      ShownAnswerAll(ops);
      ShownInOne(ops);
      answers := ShownAll(ops);
    }
  }

  /** Placement is exact for every prompt reply as it is received if and only if the batch is placeable. */
  lemma ExactIffPlaceable(ops: seq<BatchOperation>)
    ensures AlwaysExact(ops) <==> Placeable(ops)
  {
    hide Exact, Ready, Message, PromptReply, Answers, Placeable, Received;
    if Placeable(ops) {
      forall answers, end | AnswersAll(ops, answers) && Ready(end) && PromptReply(ops, answers, end)
        ensures Exact(ops, answers, end, Received(Concat(answers) + end, []))
      {
        var all := Concat(answers) + end;
        ReceivedJoin(all, []);
        assert [] + all == all;
        ExactIffPrompt(ops, answers, end, Received(all, []));
      }
    } else {
      var _ := SomeGoesAstray(ops);
      ReadyShown();
    }
  }
}
