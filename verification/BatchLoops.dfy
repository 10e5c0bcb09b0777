/** The loops of `reorder_parse_complete_responses` (src/client/batch_handling.rs:74-358). */
module BatchLoops {
  import opened Wire
  import opened Frames
  import opened BatchReorder

  /** The pass over the batch that decides before which completion each ParseComplete goes. */
  method BuildPlan(ops: seq<BatchOperation>) returns (plan: Plan)
    ensures plan == PlanOf(ops)
  {
    var bind: InsertionMap, paramDesc: InsertionMap, execute: InsertionMap, close: InsertionMap := [], [], [], [];
    var bindIndex, describeIndex, executeIndex, closeIndex := 0, 0, 0, 0;
    var pending := 0;
    for i := 0 to |ops|
      invariant Plan(bind, paramDesc, execute, close, pending,
                     ResponseCounts(bindIndex, describeIndex, executeIndex, closeIndex)) == PlanOf(ops[..i])
    {
      assert ops[..i + 1][..i] == ops[..i];
      match ops[i]
      case ParseSkipped => pending := pending + 1;
      case ParseSent =>
      case Describe =>
        if pending > 0 {
          paramDesc := Add(paramDesc, describeIndex, pending);
          pending := 0;
        }
        describeIndex := describeIndex + 1;
      case Bind =>
        if pending > 0 {
          bind := Add(bind, bindIndex, pending);
          pending := 0;
        }
        bindIndex := bindIndex + 1;
      case DescribePortal =>
      case Execute =>
        if pending > 0 {
          execute := Add(execute, executeIndex, pending);
          pending := 0;
        }
        executeIndex := executeIndex + 1;
      case Close =>
        if pending > 0 {
          close := Add(close, closeIndex, pending);
          pending := 0;
        }
        closeIndex := closeIndex + 1;
    }
    assert ops[..|ops|] == ops;
    plan := Plan(bind, paramDesc, execute, close, pending,
                 ResponseCounts(bindIndex, describeIndex, executeIndex, closeIndex));
  }

  /** The length field of the header at a position. */
  function LenAt(response: seq<byte>, pos: nat): nat
    requires pos + 5 <= |response|
  {
    FromBE(response[pos + 1..pos + 5])
  }

  /** The header at a position, read in place or from the buffer cut there. */
  lemma HeaderAt(response: seq<byte>, pos: nat)
    requires pos + 5 <= |response|
    ensures var here, end := response[pos..], pos + 1 + LenAt(response, pos);
            && here[0] == response[pos] && FrameLen(here) == end - pos
            && (StartsWithFrame(here) <==> end <= |response|)
            && (end <= |response| ==> here[..end - pos] == response[pos..end] && here[end - pos..] == response[end..])
  {
    assert response[pos..][1..5] == response[pos + 1..pos + 5];
  }

  /** The counting loop from a position on, with the counts so far. */
  function TallyAt(response: seq<byte>, pos: nat, counts: ResponseCounts): ResponseCounts
    decreases |response| - pos
  {
    if pos + 5 > |response| then counts
    else TallyAt(response, pos + 1 + LenAt(response, pos), Bump(counts, KindOf(response[pos])))
  }

  lemma BumpPlus(a: ResponseCounts, b: ResponseCounts, k: Kind)
    ensures Plus(a, Bump(b, k)) == Plus(Bump(a, k), b)
    ensures Plus(a, NO_RESPONSES) == a
  {
  }

  lemma {:induction false} TallyAtIsTally(response: seq<byte>, pos: nat, counts: ResponseCounts)
    requires pos <= |response|
    ensures TallyAt(response, pos, counts) == Plus(counts, Tally(response[pos..]))
    decreases |response| - pos
  {
    if pos + 5 > |response| {
      BumpPlus(counts, NO_RESPONSES, PassThrough);
    } else {
      HeaderAt(response, pos);
      var end, k := pos + 1 + LenAt(response, pos), KindOf(response[pos]);
      if end <= |response| {
        TallyAtIsTally(response, end, Bump(counts, k));
        BumpPlus(counts, Tally(response[end..]), k);
      } else {
        BumpPlus(counts, NO_RESPONSES, k);
        BumpPlus(Bump(counts, k), NO_RESPONSES, k);
        assert TallyAt(response, end, Bump(counts, k)) == Bump(counts, k);
      }
    }
  }

  /** Counting without rewriting, when nothing is left to insert. */
  method CountMessages(response: seq<byte>) returns (counts: ResponseCounts)
    ensures counts == Tally(response)
  {
    counts := NO_RESPONSES;
    var pos: nat := 0;
    while pos + 5 <= |response|
      invariant TallyAt(response, 0, NO_RESPONSES) == TallyAt(response, pos, counts)
      decreases |response| - pos
    {
      var msgLen := LenAt(response, pos);
      counts := Bump(counts, KindOf(response[pos]));
      pos := pos + 1 + msgLen;
    }
    TallyAtIsTally(response, 0, NO_RESPONSES);
    assert response[0..] == response;
    PlusNone(Tally(response));
  }

  lemma PlusNone(c: ResponseCounts)
    ensures Plus(NO_RESPONSES, c) == c
  {
  }

  method PutParseCompletes(buf: seq<byte>, n: nat) returns (out: seq<byte>)
    ensures out == buf + Render(Synthetics(n))
  {
    out := buf;
    for i := 0 to n
      invariant out == buf + Render(Synthetics(i))
    {
      out := out + PARSE_COMPLETE;
      assert Synthetics(i + 1) == Synthetics(i) + [Synthetic];
      RenderAppend(Synthetics(i), [Synthetic]);
      assert Render([Synthetic]) == PARSE_COMPLETE;
    }
  }

  /** Bytes and counts a scan ends with; None stands for an integer underflow. */
  type Finished = Option<(seq<byte>, ResponseCounts)>

  function Join(run: Scanned, rest: seq<byte>): Finished {
    match run
    case Underflow => None
    case Scanned(items, counts) => Some((Render(items) + rest, counts))
  }

  function After(out: seq<byte>, f: Finished): Finished {
    if f.None? then None else Some((out + f.value.0, f.value.1))
  }

  lemma AfterAfter(a: seq<byte>, b: seq<byte>, f: Finished)
    ensures After(a, After(b, f)) == After(a + b, f) && After([], f) == f
  {
    if f.Some? {
      assert a + (b + f.value.0) == (a + b) + f.value.0 && [] + f.value.0 == f.value.0;
    }
  }

  lemma RenderStep(due: nat, f: Frame, items: seq<Item>)
    ensures Render(Synthetics(due) + [Original(f)] + items) == Render(Synthetics(due)) + f + Render(items)
  {
    RenderAppend(Synthetics(due) + [Original(f)], items);
    RenderAppend(Synthetics(due), [Original(f)]);
    assert [Original(f)][1..] == [];
    assert Render([Original(f)]) == f;
  }

  /** A scan with one more message in front. */
  function Prepend(due: nat, f: Frame, later: Scanned): Scanned {
    if later.Underflow? then Underflow
    else Scanned(Synthetics(due) + [Original(f)] + later.items, later.counts)
  }

  lemma JoinStep(due: nat, f: Frame, later: Scanned, tail: seq<byte>)
    ensures Join(Prepend(due, f, later), tail) == After(Render(Synthetics(due)) + f, Join(later, tail))
  {
    if later.Scanned? {
      RenderStep(due, f, later.items);
      assert (Render(Synthetics(due)) + f + Render(later.items)) + tail
          == (Render(Synthetics(due)) + f) + (Render(later.items) + tail);
    }
  }

  lemma RunStep(p: Plan, total: nat, s: Scan, f: Frame, fs: seq<Frame>)
    ensures var k := FrameKind(f);
            var due := Due(p, total, s, k);
            Run(p, total, s, [f] + fs)
            == if due < 0 then Underflow else Prepend(due, f, Run(p, total, Advance(s, k, due), fs))
  {
    assert ([f] + fs)[0] == f && ([f] + fs)[1..] == fs;
  }

  /** The rewriting loop, cutting off one message at a time. */
  function Finish(p: Plan, total: nat, s: Scan, rest: seq<byte>): Finished
    decreases |rest|
  {
    if !StartsWithFrame(rest) then Some((rest, s.counts))
    else
      var n, k := FrameLen(rest), KindOf(rest[0]);
      var due := Due(p, total, s, k);
      if due < 0 then None
      else After(Render(Synthetics(due)) + rest[..n], Finish(p, total, Advance(s, k, due), rest[n..]))
  }

  lemma {:induction false} FinishIsRun(p: Plan, total: nat, s: Scan, rest: seq<byte>)
    ensures Finish(p, total, s, rest) == Join(Run(p, total, s, Split(rest)), Rest(rest))
    decreases |rest|
  {
    if !StartsWithFrame(rest) {
      assert Render([]) + rest == rest;
    } else {
      var n := FrameLen(rest);
      var f, k, tail := rest[..n], KindOf(rest[0]), rest[n..];
      var due := Due(p, total, s, k);
      RunStep(p, total, s, f, Split(tail));
      if due >= 0 {
        FinishIsRun(p, total, Advance(s, k, due), tail);
        JoinStep(due, f, Run(p, total, Advance(s, k, due), Split(tail)), Rest(tail));
      }
    }
  }

  /** The rewriting loop from a position on, with the output so far. */
  function FinishAt(p: Plan, total: nat, response: seq<byte>, pos: nat, out: seq<byte>, s: Scan): Finished
    requires pos <= |response|
    decreases |response| - pos
  {
    if pos + 5 > |response| || pos + 1 + LenAt(response, pos) > |response| then Some((out + response[pos..], s.counts))
    else
      var end, k := pos + 1 + LenAt(response, pos), KindOf(response[pos]);
      var due := Due(p, total, s, k);
      if due < 0 then None
      else FinishAt(p, total, response, end, out + Render(Synthetics(due)) + response[pos..end], Advance(s, k, due))
  }

  lemma {:induction false} FinishAtIsFinish(p: Plan, total: nat, response: seq<byte>, pos: nat, out: seq<byte>, s: Scan)
    requires pos <= |response|
    ensures FinishAt(p, total, response, pos, out, s) == After(out, Finish(p, total, s, response[pos..]))
    decreases |response| - pos
  {
    if pos + 5 <= |response| {
      HeaderAt(response, pos);
      var end, k := pos + 1 + LenAt(response, pos), KindOf(response[pos]);
      var due := Due(p, total, s, k);
      if end <= |response| && due >= 0 {
        var add, s' := Render(Synthetics(due)) + response[pos..end], Advance(s, k, due);
        assert out + add == out + Render(Synthetics(due)) + response[pos..end];
        FinishAtIsFinish(p, total, response, end, out + add, s');
        AfterAfter(out, add, Finish(p, total, s', response[end..]));
      }
    }
  }

  /** How many ParseCompletes go before a message, and whether an Execute is being answered after it. */
  method DueBefore(p: Plan, total: nat, s: Scan, kind: Kind) returns (due: int, inExecute: bool)
    ensures due == Due(p, total, s, kind)
    ensures due >= 0 ==> inExecute == Advance(s, kind, due).inExecute
  {
    due, inExecute := 0, s.inExecute;
    match kind {
      case BindComplete => due := Get(p.bind, s.counts.bindComplete);
      case ParameterDescription => due := Get(p.paramDesc, s.counts.paramDesc);
      case CloseComplete => due := Get(p.close, s.counts.closeComplete);
      case CommandComplete => inExecute := false;
      case RowMessage =>
        if !s.inExecute {
          due := Get(p.execute, s.counts.execute);
          inExecute := true;
        }
      case ErrorResponse => due := total - s.inserted;
      case ReadyForQuery => due := total + p.pending - s.inserted;
      case PassThrough =>
    }
  }

  /** The rewriting loop. */
  method SpliceMessages(p: Plan, total: nat, response: seq<byte>) returns (r: Finished)
    ensures r == FinishAt(p, total, response, 0, [], SCAN_START)
  {
    var out: seq<byte> := [];
    var pos: nat := 0;
    var s := SCAN_START;
    while pos < |response|
      invariant pos <= |response|
      invariant FinishAt(p, total, response, 0, [], SCAN_START) == FinishAt(p, total, response, pos, out, s)
      decreases |response| - pos
    {
      if pos + 5 > |response| {
        return Some((out + response[pos..], s.counts));
      }
      var msgEnd := pos + 1 + LenAt(response, pos);
      if msgEnd > |response| {
        return Some((out + response[pos..], s.counts));
      }
      var kind := KindOf(response[pos]);
      var due, inExecute := DueBefore(p, total, s, kind);
      if due < 0 {
        return None;
      }
      out := PutParseCompletes(out, due);
      out := out + response[pos..msgEnd];
      s := Scan(Bump(s.counts, kind), s.inserted + due, inExecute);
      pos := msgEnd;
    }
    assert out + response[pos..] == out;
    r := Some((out, s.counts));
  }

  /** The loop computes what `Splice` says of the complete messages and the bytes after them. */
  lemma LoopIsSplice(p: Plan, total: nat, response: seq<byte>)
    ensures FinishAt(p, total, response, 0, [], SCAN_START)
         == Join(Run(p, total, SCAN_START, Split(response)), Rest(response))
  {
    FinishAtIsFinish(p, total, response, 0, [], SCAN_START);
    assert response[0..] == response;
    FinishIsRun(p, total, SCAN_START, response);
    AfterAfter([], [], Finish(p, total, SCAN_START, response));
  }

  /** One call on a buffer of the reply. */
  method ReorderBuffer(ops: seq<BatchOperation>, skipped: nat, done: ResponseCounts, response: seq<byte>)
    returns (r: Reply)
    ensures r == Reorder(ops, skipped, done, response)
  {
    if ops == [] || skipped == 0 {
      return Reply(response, done);
    }
    var plan := BuildPlan(ops);
    var rest := Remaining(plan, done);
    var total := PlanSum(rest);
    if total + rest.pending == 0 {
      var counts := CountMessages(response);
      return Reply(response, Plus(done, counts));
    }
    var spliced := SpliceMessages(rest, total, response);
    LoopIsSplice(rest, total, response);
    r := if spliced.None? then Overflowed else Reply(spliced.value.0, Plus(done, spliced.value.1));
  }
}
