/** What happens to the synthetic ParseCompletes when an error and its ReadyForQuery arrive in different buffers. */
module BatchErrors {
  import opened Wire
  import opened Frames
  import opened BatchReorder
  import opened BatchConservation
  import opened BatchPlacement

  lemma {:induction false} RunCounts(p: Plan, total: nat, s: Scan, fs: seq<Frame>)
    requires Run(p, total, s, fs).Scanned?
    ensures Run(p, total, s, fs).counts == CountAll(s.counts, fs)
    decreases |fs|
  {
    if fs != [] {
      var k := FrameKind(fs[0]);
      RunCounts(p, total, Advance(s, k, Due(p, total, s, k)), fs[1..]);
    }
  }

  /** The call finishes and its output is these items: the server's messages in order, with that many ParseCompletes. */
  ghost predicate Inserts(r: Reply, items: seq<Item>, fs: seq<Frame>, n: nat) {
    r.Reply? && r.bytes == Render(items) && Originals(items) == fs && SyntheticCount(items) == n
  }

  /** A buffer that ends an aborted batch: messages of the batch, the error, then quiet messages. */
  ghost predicate Aborted(fs: seq<Frame>) {
    && (exists e :: 0 <= e < |fs| && ErrorAt(fs, e))
    && forall i :: 0 <= i < |fs| ==> !FrameKind(fs[i]).ReadyForQuery?
  }

  ghost predicate ErrorAt(fs: seq<Frame>, e: nat)
    requires e < |fs|
  {
    && FrameKind(fs[e]).ErrorResponse?
    && (forall i :: 0 <= i < e ==> !FrameKind(fs[i]).ErrorResponse?)
    && (forall i :: e < i < |fs| ==> Quiet(fs[i]))
  }

  lemma {:induction false} QuietRun(p: Plan, total: nat, s: Scan, fs: seq<Frame>)
    requires forall i :: 0 <= i < |fs| ==> Quiet(fs[i])
    ensures Run(p, total, s, fs).Scanned? && SyntheticCount(Run(p, total, s, fs).items) == 0
    decreases |fs|
  {
    if fs != [] {
      assert Quiet(fs[0]);
      var s' := Advance(s, FrameKind(fs[0]), 0);
      QuietRun(p, total, s', fs[1..]);
      ItemsAfter(0, fs[0], Run(p, total, s', fs[1..]).items);
    }
  }

  lemma {:induction false} AbortedRun(p: Plan, total: nat, s: Scan, fs: seq<Frame>, e: nat)
    requires DistinctPlan(p) && s.inserted + Left(p, s) <= total
    requires e < |fs| && ErrorAt(fs, e)
    requires forall i :: 0 <= i < |fs| ==> !FrameKind(fs[i]).ReadyForQuery?
    ensures Run(p, total, s, fs).Scanned?
    ensures s.inserted + SyntheticCount(Run(p, total, s, fs).items) == total
    decreases |fs|
  {
    var k := FrameKind(fs[0]);
    var due := Due(p, total, s, k);
    var tail := fs[1..];
    if e == 0 {
      QuietRun(p, total, Advance(s, k, due), tail);
    } else {
      StepSpends(p, total, s, k);
      assert ErrorAt(tail, e - 1);
      AbortedRun(p, total, Advance(s, k, due), tail, e - 1);
    }
    ItemsAfter(due, fs[0], Run(p, total, Advance(s, k, due), tail).items);
  }

  /** A call on whole messages, when its scan does not underflow. */
  lemma CallOutput(p: Plan, done: ResponseCounts, fs: seq<Frame>) returns (items: seq<Item>)
    requires AllFramed(fs)
    requires var rel := Remaining(p, done); Run(rel, PlanSum(rel), SCAN_START, fs).Scanned?
    ensures var rel, r := Remaining(p, done), Splice(p, done, Flatten(fs));
            && r.Reply? && r.bytes == Render(items) && Originals(items) == fs && r.done == CountAll(done, fs)
            && SyntheticCount(items) == if PlanSum(rel) + rel.pending == 0 then 0
                                        else SyntheticCount(Run(rel, PlanSum(rel), SCAN_START, fs).items)
  {
    hide Run, Render, CountAll, Tally, AllFramed;
    var rel := Remaining(p, done);
    SplitFlatten(fs);
    assert Plus(done, NO_RESPONSES) == done;
    CountAllPlus(done, NO_RESPONSES, fs);
    if PlanSum(rel) + rel.pending == 0 {
      TallyCounts(fs);
      items := seq(|fs|, i requires 0 <= i < |fs| => Original(fs[i]));
      PlainItems(fs);
    } else {
      RunKeepsOriginals(rel, PlanSum(rel), SCAN_START, fs);
      RunCounts(rel, PlanSum(rel), SCAN_START, fs);
      items := Run(rel, PlanSum(rel), SCAN_START, fs).items;
    }
  }

  /** The buffer with the error flushes every mapped insertion still open, and remembers none of them. */
  lemma AbortedCall(p: Plan, done: ResponseCounts, fs: seq<Frame>) returns (items: seq<Item>)
    requires DistinctPlan(Remaining(p, done)) && AllFramed(fs) && Aborted(fs)
    ensures Inserts(Splice(p, done, Flatten(fs)), items, fs, PlanSum(Remaining(p, done)))
    ensures Splice(p, done, Flatten(fs)).done == CountAll(done, fs)
  {
    hide Run, Render, CountAll, AllFramed, Splice;
    var rel := Remaining(p, done);
    StartLeft(rel);
    var e :| 0 <= e < |fs| && ErrorAt(fs, e);
    AbortedRun(rel, PlanSum(rel), SCAN_START, fs, e);
    items := CallOutput(p, done, fs);
  }

  /** The buffer with the ReadyForQuery inserts whatever the counts still leave open, and what was pending. */
  lemma SettlingCall(p: Plan, done: ResponseCounts, fs: seq<Frame>) returns (items: seq<Item>)
    requires DistinctPlan(Remaining(p, done)) && AllFramed(fs)
    requires fs != [] && FrameKind(fs[|fs| - 1]).ReadyForQuery?
    requires forall i :: 0 <= i < |fs| - 1 ==> Quiet(fs[i])
    ensures Inserts(Splice(p, done, Flatten(fs)), items, fs, PlanSum(Remaining(p, done)) + p.pending)
  {
    hide Run, Render, CountAll, AllFramed, Splice;
    var rel := Remaining(p, done);
    StartLeft(rel);
    assert OneReply(fs);
    RunSpendsAll(rel, PlanSum(rel), SCAN_START, fs);
    items := CallOutput(p, done, fs);
  }

  lemma {:induction false} RelevantDistinct(m: InsertionMap, a: nat)
    requires Distinct(m)
    ensures Distinct(Relevant(m, a))
    ensures forall i :: 0 <= i < |Relevant(m, a)| ==>
      exists j :: 0 <= j < |m| && m[j].0 == a + Relevant(m, a)[i].0
  {
    if m != [] {
      var t := Relevant(m[1..], a);
      RelevantDistinct(m[1..], a);
      forall i | 0 <= i < |t| ensures exists j :: 1 <= j < |m| && m[j].0 == a + t[i].0 {
        var j :| 0 <= j < |m[1..]| && m[1..][j].0 == a + t[i].0;
        assert m[j + 1].0 == a + t[i].0;
      }
      if m[0].0 >= a {
        assert Relevant(m, a) == [(m[0].0 - a, m[0].1)] + t;
      }
    }
  }

  lemma RemainingDistinct(p: Plan, done: ResponseCounts)
    requires DistinctPlan(p)
    ensures DistinctPlan(Remaining(p, done))
  {
    RelevantDistinct(p.bind, done.bindComplete);
    RelevantDistinct(p.paramDesc, done.paramDesc);
    RelevantDistinct(p.execute, done.execute);
    RelevantDistinct(p.close, done.closeComplete);
  }

  /** How many ParseCompletes the batch is owed when those replies have passed. */
  function Owed(ops: seq<BatchOperation>, done: ResponseCounts): nat {
    PlanSum(Remaining(PlanOf(ops), done)) + PlanOf(ops).pending
  }

  /**
   An error whose ReadyForQuery comes in the next buffer, whatever earlier buffers have answered: both calls finish and
   keep the server's messages in order; together they insert what the batch was owed if and only if no mapped insertion
   was still open after the error, and each one that was open is inserted twice.
   */
  lemma ErrorAcrossBuffers(ops: seq<BatchOperation>, done: ResponseCounts, first: seq<Frame>, second: seq<Frame>)
      returns (one: seq<Item>, two: seq<Item>)
    requires SkippedCount(ops) > 0 && AllFramed(first) && AllFramed(second) && Aborted(first)
    requires second != [] && FrameKind(second[|second| - 1]).ReadyForQuery?
    requires forall i :: 0 <= i < |second| - 1 ==> Quiet(second[i])
    ensures var open := PlanSum(Remaining(PlanOf(ops), CountAll(done, first)));
            var a := Reorder(ops, SkippedCount(ops), done, Flatten(first));
            && Inserts(a, one, first, SyntheticCount(one))
            && Inserts(Reorder(ops, SkippedCount(ops), a.done, Flatten(second)), two, second, SyntheticCount(two))
            && SyntheticCount(one) + SyntheticCount(two) == Owed(ops, done) + open
            && (SyntheticCount(one) + SyntheticCount(two) == Owed(ops, done) <==> open == 0)
    ensures Owed(ops, NO_RESPONSES) == SkippedCount(ops)
  {
    hide Run, Render, CountAll, AllFramed, Splice, Aborted, Quiet;
    var p := PlanOf(ops);
    PlanConserves(ops);
    StartPlan(ops);
    RemainingDistinct(p, done);
    one := AbortedCall(p, done, first);
    RemainingDistinct(p, CountAll(done, first));
    two := SettlingCall(p, CountAll(done, first), second);
  }
}
