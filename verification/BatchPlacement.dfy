/** Where the synthetic ParseCompletes land, and why it does not matter how a reply is cut into buffers. */
module BatchPlacement {
  import opened Wire
  import opened Frames
  import opened BatchReorder

  // ---------------------------------------------------------------- counting over the whole reply

  /** ParseCompletes due before a message when replies are counted from the start of the batch. */
  function AbsDue(p: Plan, done: ResponseCounts, k: Kind): nat {
    match k
    case BindComplete => Get(p.bind, done.bindComplete)
    case ParameterDescription => Get(p.paramDesc, done.paramDesc)
    case CloseComplete => Get(p.close, done.closeComplete)
    case ReadyForQuery => p.pending
    case _ => 0
  }

  function AbsRun(p: Plan, done: ResponseCounts, fs: seq<Frame>): seq<Item>
    decreases |fs|
  {
    if fs == [] then []
    else
      var k := FrameKind(fs[0]);
      Synthetics(AbsDue(p, done, k)) + [Original(fs[0])] + AbsRun(p, Bump(done, k), fs[1..])
  }

  function CountAll(done: ResponseCounts, fs: seq<Frame>): ResponseCounts
    decreases |fs|
  {
    if fs == [] then done else CountAll(Bump(done, FrameKind(fs[0])), fs[1..])
  }

  lemma {:induction false} AbsRunAppend(p: Plan, done: ResponseCounts, a: seq<Frame>, b: seq<Frame>)
    ensures AbsRun(p, done, a + b) == AbsRun(p, done, a) + AbsRun(p, CountAll(done, a), b)
    ensures CountAll(done, a + b) == CountAll(CountAll(done, a), b)
    decreases |a|
  {
    if a == [] {
      assert a + b == b;
    } else {
      assert (a + b)[1..] == a[1..] + b;
      AbsRunAppend(p, Bump(done, FrameKind(a[0])), a[1..], b);
    }
  }

  /** Mapped insertions not answered yet when `done` replies have passed. */
  ghost function Unanswered(p: Plan, done: ResponseCounts): nat {
    Sum(Relevant(p.bind, done.bindComplete)) + Sum(Relevant(p.paramDesc, done.paramDesc)) +
    Sum(Relevant(p.close, done.closeComplete))
  }

  /** An error-free stretch of a reply: a ReadyForQuery comes last, when every operation is answered. */
  ghost predicate Orderly(p: Plan, done: ResponseCounts, fs: seq<Frame>) {
    && (forall i :: 0 <= i < |fs| ==> !FrameKind(fs[i]).ErrorResponse?)
    && (forall i :: 0 <= i < |fs| && FrameKind(fs[i]).ReadyForQuery? ==>
          i == |fs| - 1 && Unanswered(p, CountAll(done, fs)) == 0)
  }

  lemma {:induction false} CountAllPlus(a: ResponseCounts, b: ResponseCounts, fs: seq<Frame>)
    ensures CountAll(Plus(a, b), fs) == Plus(a, CountAll(b, fs))
    decreases |fs|
  {
    if fs != [] {
      var k := FrameKind(fs[0]);
      assert Bump(Plus(a, b), k) == Plus(a, Bump(b, k));
      CountAllPlus(a, Bump(b, k), fs[1..]);
    }
  }

  lemma MapStep(m: InsertionMap, from: nat, c: nat)
    requires Distinct(m)
    ensures Get(Relevant(m, from), c) == Get(m, from + c)
    ensures Sum(Relevant(m, from + c)) == Get(m, from + c) + Sum(Relevant(m, from + c + 1))
  {
    RelevantGet(m, from, c);
    PendingSplit(m, from + c);
  }

  /** Before the end of a reply, the offset maps of a call ask for what the whole plan asks for. */
  lemma StepIsAbsolute(p: Plan, from: ResponseCounts, s: Scan, k: Kind)
    requires ValidPlan(p) && p.execute == []
    requires !k.ErrorResponse?
    requires s.inserted + Unanswered(p, Plus(from, s.counts)) == Unanswered(p, from)
    requires k.ReadyForQuery? ==> Unanswered(p, Plus(from, s.counts)) == 0
    ensures Due(Remaining(p, from), Unanswered(p, from), s, k) == AbsDue(p, Plus(from, s.counts), k)
    ensures var s' := Advance(s, k, AbsDue(p, Plus(from, s.counts), k));
            && Plus(from, s'.counts) == Bump(Plus(from, s.counts), k)
            && (!k.ReadyForQuery? ==> s'.inserted + Unanswered(p, Plus(from, s'.counts)) == Unanswered(p, from))
  {
    match k
    case BindComplete => MapStep(p.bind, from.bindComplete, s.counts.bindComplete);
    case ParameterDescription => MapStep(p.paramDesc, from.paramDesc, s.counts.paramDesc);
    case CloseComplete => MapStep(p.close, from.closeComplete, s.counts.closeComplete);
    case RowMessage => assert Remaining(p, from).execute == [];
    case _ =>
  }

  lemma OrderlyTail(p: Plan, done: ResponseCounts, fs: seq<Frame>)
    requires fs != [] && Orderly(p, done, fs)
    ensures Orderly(p, Bump(done, FrameKind(fs[0])), fs[1..])
    ensures !FrameKind(fs[0]).ErrorResponse?
    ensures FrameKind(fs[0]).ReadyForQuery? ==> fs[1..] == [] && Unanswered(p, done) == 0
  {
    assert CountAll(done, fs) == CountAll(Bump(done, FrameKind(fs[0])), fs[1..]);
    assert forall i :: 0 <= i < |fs[1..]| ==> fs[1..][i] == fs[i + 1];
    if FrameKind(fs[0]).ReadyForQuery? {
      assert fs[1..] == [];
    }
  }

  /** A call that counts from its own start does what counting from the start of the batch would do. */
  lemma {:induction false} RunIsAbsolute(p: Plan, from: ResponseCounts, s: Scan, fs: seq<Frame>)
    requires ValidPlan(p) && p.execute == []
    requires Orderly(p, Plus(from, s.counts), fs)
    requires s.inserted + Unanswered(p, Plus(from, s.counts)) == Unanswered(p, from)
    ensures Run(Remaining(p, from), Unanswered(p, from), s, fs)
         == Scanned(AbsRun(p, Plus(from, s.counts), fs), CountAll(s.counts, fs))
    decreases |fs|
  {
    if fs != [] {
      var k := FrameKind(fs[0]);
      OrderlyTail(p, Plus(from, s.counts), fs);
      StepIsAbsolute(p, from, s, k);
      var s' := Advance(s, k, AbsDue(p, Plus(from, s.counts), k));
      if fs[1..] != [] {
        RunIsAbsolute(p, from, s', fs[1..]);
      }
    }
  }

  // ---------------------------------------------------------------- one call, then many

  lemma BumpCommutes(c: ResponseCounts, j: Kind, k: Kind)
    ensures Bump(Bump(c, j), k) == Bump(Bump(c, k), j)
  {
  }

  lemma {:induction false} CountHead(c: ResponseCounts, k: Kind, fs: seq<Frame>)
    ensures CountAll(Bump(c, k), fs) == Bump(CountAll(c, fs), k)
    decreases |fs|
  {
    if fs != [] {
      var j := FrameKind(fs[0]);
      BumpCommutes(c, j, k);
      CountHead(Bump(c, j), k, fs[1..]);
    }
  }

  lemma {:induction false} TallyCounts(fs: seq<Frame>)
    requires AllFramed(fs)
    ensures Tally(Flatten(fs)) == CountAll(NO_RESPONSES, fs)
  {
    if fs != [] {
      HeadOfFlatten(fs);
      TallyCounts(fs[1..]);
      CountHead(NO_RESPONSES, FrameKind(fs[0]), fs[1..]);
    }
  }

  lemma {:induction false} NothingDue(p: Plan, done: ResponseCounts, fs: seq<Frame>)
    requires ValidPlan(p) && Unanswered(p, done) == 0 && p.pending == 0
    ensures Render(AbsRun(p, done, fs)) == Flatten(fs)
    decreases |fs|
  {
    if fs != [] {
      PendingSplit(p.bind, done.bindComplete);
      PendingSplit(p.paramDesc, done.paramDesc);
      PendingSplit(p.close, done.closeComplete);
      var k := FrameKind(fs[0]);
      assert AbsDue(p, done, k) == 0;
      NothingDue(p, Bump(done, k), fs[1..]);
      assert AbsRun(p, done, fs)[1..] == AbsRun(p, Bump(done, k), fs[1..]);
    }
  }

  /** No skipped Parse is consumed by an Execute, so nothing hangs on guessing where its reply starts. */
  ghost predicate NoneAtExecute(ops: seq<BatchOperation>) {
    PlanOf(ops).execute == []
  }

  lemma SpliceIsAbsolute(p: Plan, done: ResponseCounts, fs: seq<Frame>)
    requires ValidPlan(p) && p.execute == [] && AllFramed(fs) && Orderly(p, done, fs)
    ensures Splice(p, done, Flatten(fs)) == Reply(Render(AbsRun(p, done, fs)), CountAll(done, fs))
  {
    SplitFlatten(fs);
    assert Plus(done, NO_RESPONSES) == done;
    CountAllPlus(done, NO_RESPONSES, fs);
    assert PlanSum(Remaining(p, done)) == Unanswered(p, done);
    if Unanswered(p, done) + p.pending == 0 {
      TallyCounts(fs);
      NothingDue(p, done, fs);
    } else {
      RunIsAbsolute(p, done, SCAN_START, fs);
    }
  }

  lemma CallIsAbsolute(ops: seq<BatchOperation>, done: ResponseCounts, fs: seq<Frame>)
    requires NoneAtExecute(ops) && AllFramed(fs) && SkippedCount(ops) > 0
    requires Orderly(PlanOf(ops), done, fs)
    ensures Reorder(ops, SkippedCount(ops), done, Flatten(fs))
         == Reply(Render(AbsRun(PlanOf(ops), done, fs)), CountAll(done, fs))
  {
    PlanConserves(ops);
    SpliceIsAbsolute(PlanOf(ops), done, fs);
  }

  /** A batch without skipped Parses is passed through, and asks for no insertion. */
  lemma NothingSkipped(ops: seq<BatchOperation>, done: ResponseCounts, fs: seq<Frame>)
    requires SkippedCount(ops) == 0
    ensures Reorder(ops, SkippedCount(ops), done, Flatten(fs)) == Reply(Flatten(fs), done)
    ensures Render(AbsRun(PlanOf(ops), done, fs)) == Flatten(fs)
  {
    PlanConserves(ops);
    var p := PlanOf(ops);
    RelevantSum(p.bind, done.bindComplete);
    RelevantSum(p.paramDesc, done.paramDesc);
    RelevantSum(p.close, done.closeComplete);
    NothingDue(p, done, fs);
  }

  lemma {:induction false} RelevantSum(m: InsertionMap, n: nat)
    ensures Sum(Relevant(m, n)) <= Sum(m)
  {
    if m != [] {
      RelevantSum(m[1..], n);
      if m[0].0 >= n {
        assert Relevant(m, n)[1..] == Relevant(m[1..], n);
      }
    }
  }

  function Concat(chunks: seq<seq<Frame>>): seq<Frame> {
    if chunks == [] then [] else chunks[0] + Concat(chunks[1..])
  }

  /** Feeding a reply buffer by buffer: the outputs joined, the counts carried along. */
  function Feed(ops: seq<BatchOperation>, done: ResponseCounts, chunks: seq<seq<Frame>>): Reply
    decreases |chunks|
  {
    if chunks == [] then Reply([], done)
    else
      match Reorder(ops, SkippedCount(ops), done, Flatten(chunks[0]))
      case Overflowed => Overflowed
      case Reply(out, done') =>
        match Feed(ops, done', chunks[1..])
        case Overflowed => Overflowed
        case Reply(more, last) => Reply(out + more, last)
  }

  lemma OrderlyAppend(p: Plan, done: ResponseCounts, a: seq<Frame>, b: seq<Frame>)
    requires Orderly(p, done, a + b)
    ensures Orderly(p, done, a) && Orderly(p, CountAll(done, a), b)
  {
    AbsRunAppend(p, done, a, b);
    assert forall i :: 0 <= i < |a| ==> (a + b)[i] == a[i];
    assert forall i :: 0 <= i < |b| ==> (a + b)[|a| + i] == b[i];
    if b == [] {
      assert a + b == a;
    }
  }

  lemma {:induction false} FeedIsAbsolute(ops: seq<BatchOperation>, done: ResponseCounts, chunks: seq<seq<Frame>>)
    requires NoneAtExecute(ops)
    requires forall i :: 0 <= i < |chunks| ==> AllFramed(chunks[i])
    requires Orderly(PlanOf(ops), done, Concat(chunks))
    ensures Feed(ops, done, chunks).Reply?
    ensures Feed(ops, done, chunks).bytes == Render(AbsRun(PlanOf(ops), done, Concat(chunks)))
    decreases |chunks|
  {
    if chunks != [] {
      var p, a, b := PlanOf(ops), chunks[0], Concat(chunks[1..]);
      OrderlyAppend(p, done, a, b);
      AbsRunAppend(p, done, a, b);
      RenderAppend(AbsRun(p, done, a), AbsRun(p, CountAll(done, a), b));
      if SkippedCount(ops) == 0 {
        NothingSkipped(ops, done, a);
        NothingSkipped(ops, done, a + b);
        FeedUntouched(ops, done, chunks);
      } else {
        CallIsAbsolute(ops, done, a);
        FeedIsAbsolute(ops, CountAll(done, a), chunks[1..]);
      }
    }
  }

  lemma {:induction false} FeedUntouched(ops: seq<BatchOperation>, done: ResponseCounts, chunks: seq<seq<Frame>>)
    requires SkippedCount(ops) == 0
    ensures Feed(ops, done, chunks) == Reply(Flatten(Concat(chunks)), done)
    decreases |chunks|
  {
    if chunks != [] {
      NothingSkipped(ops, done, chunks[0]);
      FeedUntouched(ops, done, chunks[1..]);
      FlattenAppend(chunks[0], Concat(chunks[1..]));
    }
  }

  /** Chunk independence: any cut of an orderly reply at message boundaries gives the output of the whole. */
  lemma ChunkIndependence(ops: seq<BatchOperation>, chunks: seq<seq<Frame>>)
    requires NoneAtExecute(ops)
    requires forall i :: 0 <= i < |chunks| ==> AllFramed(chunks[i])
    requires Orderly(PlanOf(ops), NO_RESPONSES, Concat(chunks))
    ensures Feed(ops, NO_RESPONSES, chunks).Reply?
    ensures Reorder(ops, SkippedCount(ops), NO_RESPONSES, Flatten(Concat(chunks))).Reply?
    ensures Feed(ops, NO_RESPONSES, chunks).bytes
         == Reorder(ops, SkippedCount(ops), NO_RESPONSES, Flatten(Concat(chunks))).bytes
  {
    var whole := Concat(chunks);
    ConcatFramed(chunks);
    FeedIsAbsolute(ops, NO_RESPONSES, chunks);
    if SkippedCount(ops) == 0 {
      NothingSkipped(ops, NO_RESPONSES, whole);
    } else {
      CallIsAbsolute(ops, NO_RESPONSES, whole);
    }
  }

  lemma {:induction false} ConcatFramed(chunks: seq<seq<Frame>>)
    requires forall i :: 0 <= i < |chunks| ==> AllFramed(chunks[i])
    ensures AllFramed(Concat(chunks))
  {
    if chunks != [] {
      ConcatFramed(chunks[1..]);
    }
  }

  // ---------------------------------------------------------------- the plan at each operation

  /** `p` extends `q`: later operations leave the entries of earlier indices alone. */
  ghost predicate Continues(p: Plan, q: Plan) {
    && p.at.bindComplete >= q.at.bindComplete && p.at.paramDesc >= q.at.paramDesc
    && p.at.closeComplete >= q.at.closeComplete && p.at.execute >= q.at.execute
    && (forall k: nat :: k < q.at.bindComplete ==> Get(p.bind, k) == Get(q.bind, k))
    && (forall k: nat :: k < q.at.paramDesc ==> Get(p.paramDesc, k) == Get(q.paramDesc, k))
    && (forall k: nat :: k < q.at.closeComplete ==> Get(p.close, k) == Get(q.close, k))
    && (forall k: nat :: k < q.at.execute ==> Get(p.execute, k) == Get(q.execute, k))
  }

  lemma ExtendContinues(p: Plan, q: Plan, op: BatchOperation)
    requires ValidPlan(p) && Continues(p, q)
    ensures Continues(Extend(p, op), q)
  {
    AddPendingKeeps(p.bind, p.at.bindComplete, p.pending);
    AddPendingKeeps(p.paramDesc, p.at.paramDesc, p.pending);
    AddPendingKeeps(p.close, p.at.closeComplete, p.pending);
    AddPendingKeeps(p.execute, p.at.execute, p.pending);
  }

  lemma {:induction false} PlanStable(ops: seq<BatchOperation>, m: nat)
    requires m <= |ops|
    ensures Continues(PlanOf(ops), PlanOf(ops[..m]))
    decreases |ops|
  {
    if m == |ops| {
      assert ops[..m] == ops;
    } else {
      var init := ops[..|ops| - 1];
      assert init[..m] == ops[..m];
      PlanStable(init, m);
      PlanConserves(init);
      ExtendContinues(PlanOf(init), PlanOf(ops[..m]), ops[|ops| - 1]);
    }
  }

  /** The plan puts before each operation's completion exactly what was pending when it was reached. */
  lemma PlanLooksUp(ops: seq<BatchOperation>, n: nat)
    requires n < |ops|
    ensures var p, q := PlanOf(ops), PlanOf(ops[..n]);
            && (ops[n].Bind? ==> Get(p.bind, q.at.bindComplete) == q.pending)
            && (ops[n].Describe? ==> Get(p.paramDesc, q.at.paramDesc) == q.pending)
            && (ops[n].Close? ==> Get(p.close, q.at.closeComplete) == q.pending)
            && (ops[n].Execute? ==> Get(p.execute, q.at.execute) == q.pending)
  {
    var q := PlanOf(ops[..n]);
    PlanConserves(ops[..n]);
    AddPendingKeeps(q.bind, q.at.bindComplete, q.pending);
    AddPendingKeeps(q.paramDesc, q.at.paramDesc, q.pending);
    AddPendingKeeps(q.close, q.at.closeComplete, q.pending);
    AddPendingKeeps(q.execute, q.at.execute, q.pending);
    assert ops[..n + 1][..n] == ops[..n];
    PlanStable(ops, n + 1);
  }

  // ---------------------------------------------------------------- pieces

  lemma {:induction false} ConcatAppend(a: seq<seq<Frame>>, last: seq<Frame>)
    ensures Concat(a + [last]) == Concat(a) + last
  {
    if a == [] {
      assert a + [last] == [last] && [last][1..] == [];
    } else {
      assert (a + [last])[1..] == a[1..] + [last];
      ConcatAppend(a[1..], last);
    }
  }

  lemma ConcatLast(a: seq<seq<Frame>>)
    requires a != []
    ensures Concat(a) == Concat(a[..|a| - 1]) + a[|a| - 1]
  {
    assert a == a[..|a| - 1] + [a[|a| - 1]];
    ConcatAppend(a[..|a| - 1], a[|a| - 1]);
  }

  lemma {:induction false} PiecesFramed(chunks: seq<seq<Frame>>)
    requires AllFramed(Concat(chunks))
    ensures forall i :: 0 <= i < |chunks| ==> AllFramed(chunks[i])
  {
    if chunks != [] {
      var all := Concat(chunks);
      assert forall i :: 0 <= i < |chunks[0]| ==> all[i] == chunks[0][i];
      assert forall i :: 0 <= i < |Concat(chunks[1..])| ==> all[|chunks[0]| + i] == Concat(chunks[1..])[i];
      PiecesFramed(chunks[1..]);
    }
  }
}
