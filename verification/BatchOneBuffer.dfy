/** Exact placement when the whole reply arrives in one buffer, as it does unless rows fill the buffer. */
module BatchOneBuffer {
  import opened Frames
  import opened BatchReorder
  import opened BatchPlacement
  import opened BatchExact

  // ---------------------------------------------------------------- the loop over one buffer

  /** ParseCompletes due before a message of an error-free reply, short of its ReadyForQuery. */
  function FlowDue(p: Plan, s: Scan, k: Kind): nat {
    match k
    case BindComplete => Get(p.bind, s.counts.bindComplete)
    case ParameterDescription => Get(p.paramDesc, s.counts.paramDesc)
    case CloseComplete => Get(p.close, s.counts.closeComplete)
    case RowMessage => if s.inExecute then 0 else Get(p.execute, s.counts.execute)
    case _ => 0
  }

  function Next(p: Plan, s: Scan, f: Frame): Scan {
    Advance(s, FrameKind(f), FlowDue(p, s, FrameKind(f)))
  }

  function FlowOut(p: Plan, s: Scan, fs: seq<Frame>): seq<Frame>
    decreases |fs|
  {
    if fs == [] then []
    else Copies(FlowDue(p, s, FrameKind(fs[0]))) + [fs[0]] + FlowOut(p, Next(p, s, fs[0]), fs[1..])
  }

  function FlowEnd(p: Plan, s: Scan, fs: seq<Frame>): Scan
    decreases |fs|
  {
    if fs == [] then s else FlowEnd(p, Next(p, s, fs[0]), fs[1..])
  }

  lemma {:induction false} FlowAppend(p: Plan, s: Scan, a: seq<Frame>, b: seq<Frame>)
    ensures FlowOut(p, s, a + b) == FlowOut(p, s, a) + FlowOut(p, FlowEnd(p, s, a), b)
    ensures FlowEnd(p, s, a + b) == FlowEnd(p, FlowEnd(p, s, a), b)
    decreases |a|
  {
    hide Next, FlowDue, Copies;
    if a == [] {
      assert a + b == b;
    } else {
      assert (a + b)[1..] == a[1..] + b;
      FlowAppend(p, Next(p, s, a[0]), a[1..], b);
    }
  }

  lemma {:induction false} FlowCounts(p: Plan, s: Scan, fs: seq<Frame>)
    ensures FlowEnd(p, s, fs).inserted + |fs| == s.inserted + |FlowOut(p, s, fs)|
    ensures FlowEnd(p, s, fs).counts == CountAll(s.counts, fs)
    decreases |fs|
  {
    hide FlowDue;
    if fs != [] {
      FlowCounts(p, Next(p, s, fs[0]), fs[1..]);
    }
  }

  lemma DueFlow(p: Plan, total: nat, s: Scan, k: Kind)
    requires !k.ErrorResponse? && !k.ReadyForQuery?
    ensures Due(p, total, s, k) == FlowDue(p, s, k)
  {
  }

  /** The rewriting loop over such messages and whatever follows them. */
  lemma {:induction false} RunFlow(p: Plan, total: nat, s: Scan, fs: seq<Frame>, end: seq<Frame>)
    requires Plain(fs) && Run(p, total, s, fs + end).Scanned?
    ensures var r := Run(p, total, FlowEnd(p, s, fs), end);
            r.Scanned? && Out(Run(p, total, s, fs + end).items) == FlowOut(p, s, fs) + Out(r.items)
    decreases |fs|
  {
    if fs == [] {
      assert fs + end == end;
    } else {
      hide Due, FlowDue, Copies, FrameKind;
      assert (fs + end)[0] == fs[0] && (fs + end)[1..] == fs[1..] + end;
      var k := FrameKind(fs[0]);
      var due := FlowDue(p, s, k);
      DueFlow(p, total, s, k);
      RunFlow(p, total, Next(p, s, fs[0]), fs[1..], end);
      OutOne(due, fs[0], Run(p, total, Next(p, s, fs[0]), fs[1..] + end).items);
    }
  }

  // ---------------------------------------------------------------- stretches of one kind

  /** What an answer must not change: where the next completions are looked up. */
  predicate SameFlags(s: Scan, s': Scan) {
    s'.counts == s.counts && s'.inExecute == s.inExecute
  }

  lemma {:induction false} FlowPassing(p: Plan, s: Scan, fs: seq<Frame>)
    requires Passing(fs)
    ensures FlowOut(p, s, fs) == fs && SameFlags(s, FlowEnd(p, s, fs))
    decreases |fs|
  {
    if fs != [] {
      FlowPassing(p, Next(p, s, fs[0]), fs[1..]);
    }
  }

  /** Rows before which nothing is due. */
  predicate QuietRows(p: Plan, s: Scan) {
    s.inExecute || Get(p.execute, s.counts.execute) == 0
  }

  lemma {:induction false} FlowRows(p: Plan, s: Scan, fs: seq<Frame>)
    requires Rows(fs) && QuietRows(p, s)
    ensures FlowOut(p, s, fs) == fs
    ensures var s' := FlowEnd(p, s, fs); s'.counts == s.counts && QuietRows(p, s') && (s.inExecute ==> s'.inExecute)
    decreases |fs|
  {
    if fs != [] {
      FlowRows(p, Next(p, s, fs[0]), fs[1..]);
    }
  }

  lemma FlowOne(p: Plan, s: Scan, f: Frame)
    ensures FlowOut(p, s, [f]) == Copies(FlowDue(p, s, FrameKind(f))) + [f]
    ensures FlowEnd(p, s, [f]) == Next(p, s, f)
  {
    hide Copies, Next, FlowDue;
    assert [f][1..] == [];
  }

  /** Messages passed through, one more message, and the rest. */
  lemma FlowLed(p: Plan, s: Scan, fs: seq<Frame>)
    requires Lead(fs) < |fs|
    ensures var n := Lead(fs); var k := FrameKind(fs[n]); var due := FlowDue(p, s, k);
            var t := FlowEnd(p, s, fs[..n + 1]);
            && t.counts == Bump(s.counts, k)
            && t.inExecute == (if k.CommandComplete? then false else if k.RowMessage? then true else s.inExecute)
            && FlowOut(p, s, fs) == fs[..n] + Copies(due) + [fs[n]] + FlowOut(p, t, fs[n + 1..])
            && FlowEnd(p, s, fs) == FlowEnd(p, t, fs[n + 1..])
  {
    hide Copies, FlowOut, FlowEnd, Get, FrameKind, Lead;
    var n := Lead(fs);
    var pre, f, post := fs[..n], fs[n], fs[n + 1..];
    var s1 := FlowEnd(p, s, pre);
    FlowPassing(p, s, pre);
    FlowOne(p, s1, f);
    FlowAppend(p, s, pre, [f]);
    FlowAppend(p, s, pre + [f], post);
    assert fs[..n + 1] == pre + [f];
    assert fs == pre + [f] + post;
  }

  // ---------------------------------------------------------------- answers

  /** What is inserted before the first row message of an answer. */
  function RowDue(p: Plan, s: Scan): nat {
    if s.inExecute then 0 else Get(p.execute, s.counts.execute)
  }

  lemma InsertedIs(fs: seq<Frame>, w: nat)
    requires Lead(fs) < |fs|
    ensures fs[..Lead(fs)] + Copies(w) + [fs[Lead(fs)]] + fs[Lead(fs) + 1..] == Inserted(fs, w)
  {
    hide Copies, Lead;
  }

  /** Row descriptions of a portal, with what is inserted before them. */
  lemma FlowPortal(p: Plan, s: Scan, fs: seq<Frame>)
    requires Completes(RowMessage, fs)
    ensures FlowOut(p, s, fs) == Inserted(fs, RowDue(p, s))
    ensures var s' := FlowEnd(p, s, fs); s'.counts == s.counts && s'.inExecute
  {
    hide FlowOut, FlowEnd, FrameKind, Lead, Get, Copies, Inserted, Passing;
    var n := Lead(fs);
    FlowLed(p, s, fs);
    FlowPassing(p, FlowEnd(p, s, fs[..n + 1]), fs[n + 1..]);
    InsertedIs(fs, RowDue(p, s));
  }

  /** A Bind or Close. */
  lemma FlowCompletion(p: Plan, s: Scan, k: Kind, fs: seq<Frame>)
    requires Completes(k, fs) && (k.BindComplete? || k.CloseComplete?)
    ensures FlowOut(p, s, fs) == Inserted(fs, FlowDue(p, s, k))
    ensures var s' := FlowEnd(p, s, fs); s'.counts == Bump(s.counts, k) && s'.inExecute == s.inExecute
  {
    hide FlowOut, FlowEnd, FrameKind, Lead, FlowDue, Copies, Bump, Inserted, Passing;
    var n := Lead(fs);
    FlowLed(p, s, fs);
    FlowPassing(p, FlowEnd(p, s, fs[..n + 1]), fs[n + 1..]);
    InsertedIs(fs, FlowDue(p, s, k));
  }

  /** A statement Describe: its parameter description, then its row description. */
  lemma FlowDescribe(p: Plan, s: Scan, fs: seq<Frame>)
    requires Describes(fs)
    ensures var n := Lead(fs);
            && Lead(fs) < |fs|
            && FlowOut(p, s, fs) == fs[..n] + Copies(Get(p.paramDesc, s.counts.paramDesc)) + [fs[n]] + Inserted(fs[n + 1..], RowDue(p, s))
    ensures var s' := FlowEnd(p, s, fs); s'.counts == Bump(s.counts, ParameterDescription) && s'.inExecute
  {
    hide FlowOut, FlowEnd, FrameKind, Lead, Get, Copies, Inserted;
    var n := Lead(fs);
    FlowLed(p, s, fs);
    FlowPortal(p, FlowEnd(p, s, fs[..n + 1]), fs[n + 1..]);
  }

  /** An Execute whose rows have nothing due. */
  lemma FlowExecute(p: Plan, s: Scan, fs: seq<Frame>)
    requires Answers(BatchOperation.Execute, fs) && QuietRows(p, s)
    ensures FlowOut(p, s, fs) == fs
    ensures var s' := FlowEnd(p, s, fs);
            || (s'.counts == Bump(s.counts, CommandComplete) && !s'.inExecute)
            || (s'.counts == s.counts && QuietRows(p, s') && (s.inExecute ==> s'.inExecute))
  {
    hide FlowOut, FlowEnd, Get, Copies, Passing, Rows;
    var n :| 0 <= n < |fs| && ExecutesAt(fs, n);
    var body, last, rest := fs[..n], fs[n], fs[n + 1..];
    FlowRows(p, s, body);
    FlowOne(p, FlowEnd(p, s, body), last);
    FlowAppend(p, s, body, [last]);
    FlowAppend(p, s, body + [last], rest);
    FlowPassing(p, FlowEnd(p, s, body + [last]), rest);
    assert fs == body + [last] + rest;
    assert Copies(0) + [last] == [last] by { NoCopies([last]); }
  }

  lemma NoCopies(fs: seq<Frame>)
    ensures Copies(0) + fs == fs && Copies(0) == []
  {
  }
}
