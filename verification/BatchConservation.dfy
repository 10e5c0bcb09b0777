/** No skipped Parse goes unanswered, none is answered twice, and the server's bytes pass through. */
module BatchConservation {
  import opened Wire
  import opened Frames
  import opened BatchReorder

  /** The server's messages among the items of a rewritten reply. */
  function Originals(items: seq<Item>): seq<Frame> {
    if items == [] then []
    else if items[0].Synthetic? then Originals(items[1..])
    else [items[0].frame] + Originals(items[1..])
  }

  function SyntheticCount(items: seq<Item>): nat {
    if items == [] then 0
    else (if items[0].Synthetic? then 1 else 0) + SyntheticCount(items[1..])
  }

  lemma {:induction false} ItemsAfter(n: nat, f: Frame, items: seq<Item>)
    ensures Originals(Synthetics(n) + [Original(f)] + items) == [f] + Originals(items)
    ensures SyntheticCount(Synthetics(n) + [Original(f)] + items) == n + SyntheticCount(items)
  {
    var all := Synthetics(n) + [Original(f)] + items;
    if n == 0 {
      assert all[1..] == items;
    } else {
      assert all[1..] == Synthetics(n - 1) + [Original(f)] + items;
      ItemsAfter(n - 1, f, items);
    }
  }

  /** Erasing what was inserted gives back the server's messages, whatever they are. */
  lemma {:induction false} RunKeepsOriginals(p: Plan, total: nat, s: Scan, fs: seq<Frame>)
    requires Run(p, total, s, fs).Scanned?
    ensures Originals(Run(p, total, s, fs).items) == fs
    decreases |fs|
  {
    if fs != [] {
      var k := FrameKind(fs[0]);
      var due := Due(p, total, s, k);
      var rest := Run(p, total, Advance(s, k, due), fs[1..]);
      RunKeepsOriginals(p, total, Advance(s, k, due), fs[1..]);
      ItemsAfter(due, fs[0], rest.items);
    }
  }

  /** Messages before which nothing is inserted. */
  predicate Quiet(f: Frame) {
    FrameKind(f).PassThrough? || FrameKind(f).CommandComplete?
  }

  /** A reply that ends in its only ReadyForQuery, with only quiet messages after an ErrorResponse. */
  ghost predicate OneReply(fs: seq<Frame>) {
    && fs != [] && FrameKind(fs[|fs| - 1]).ReadyForQuery?
    && (forall i :: 0 <= i < |fs| - 1 ==> !FrameKind(fs[i]).ReadyForQuery?)
    && (forall i, j :: 0 <= i < j < |fs| - 1 && FrameKind(fs[i]).ErrorResponse? ==> Quiet(fs[j]))
  }

  /** What the maps can still ask for in the rest of this call. */
  ghost function Left(p: Plan, s: Scan): nat {
    Sum(Relevant(p.bind, s.counts.bindComplete)) + Sum(Relevant(p.paramDesc, s.counts.paramDesc)) +
    Sum(Relevant(p.close, s.counts.closeComplete)) +
    Sum(Relevant(p.execute, s.counts.execute + if s.inExecute then 1 else 0))
  }

  ghost predicate DistinctPlan(p: Plan) {
    Distinct(p.bind) && Distinct(p.paramDesc) && Distinct(p.execute) && Distinct(p.close)
  }

  /** One step inserts only what leaves the maps. */
  lemma StepSpends(p: Plan, total: nat, s: Scan, k: Kind)
    requires DistinctPlan(p) && !k.ErrorResponse? && !k.ReadyForQuery?
    ensures Due(p, total, s, k) >= 0
    ensures Due(p, total, s, k) + Left(p, Advance(s, k, Due(p, total, s, k))) <= Left(p, s)
  {
    PendingSplit(p.bind, s.counts.bindComplete);
    PendingSplit(p.paramDesc, s.counts.paramDesc);
    PendingSplit(p.close, s.counts.closeComplete);
    PendingSplit(p.execute, s.counts.execute);
  }

  lemma {:induction false} SettledRun(p: Plan, total: nat, s: Scan, fs: seq<Frame>)
    requires fs != [] && FrameKind(fs[|fs| - 1]).ReadyForQuery?
    requires forall i :: 0 <= i < |fs| - 1 ==> Quiet(fs[i])
    requires s.inserted == total
    ensures Run(p, total, s, fs).Scanned? && SyntheticCount(Run(p, total, s, fs).items) == p.pending
    decreases |fs|
  {
    var k := FrameKind(fs[0]);
    var due := Due(p, total, s, k);
    var s' := Advance(s, k, due);
    if |fs| == 1 {
      assert fs[1..] == [];
      ItemsAfter(due, fs[0], []);
    } else {
      assert Quiet(fs[0]);
      SettledRun(p, total, s', fs[1..]);
      ItemsAfter(due, fs[0], Run(p, total, s', fs[1..]).items);
    }
  }

  lemma {:induction false} RunSpendsAll(p: Plan, total: nat, s: Scan, fs: seq<Frame>)
    requires DistinctPlan(p) && OneReply(fs)
    requires s.inserted + Left(p, s) <= total
    ensures Run(p, total, s, fs).Scanned?
    ensures s.inserted + SyntheticCount(Run(p, total, s, fs).items) == total + p.pending
    decreases |fs|
  {
    var k := FrameKind(fs[0]);
    var due := Due(p, total, s, k);
    if |fs| == 1 {
      assert fs[1..] == [];
      ItemsAfter(due, fs[0], []);
    } else {
      var s' := Advance(s, k, due);
      if k.ErrorResponse? {
        SettledRun(p, total, s', fs[1..]);
      } else {
        StepSpends(p, total, s, k);
        RunSpendsAll(p, total, s', fs[1..]);
      }
      ItemsAfter(due, fs[0], Run(p, total, s', fs[1..]).items);
    }
  }

  lemma StartLeft(p: Plan)
    ensures Left(p, SCAN_START) == PlanSum(p)
  {
    WholeMapRelevant(p.bind);
    WholeMapRelevant(p.paramDesc);
    WholeMapRelevant(p.execute);
    WholeMapRelevant(p.close);
  }

  lemma StartPlan(ops: seq<BatchOperation>)
    ensures Remaining(PlanOf(ops), NO_RESPONSES) == PlanOf(ops)
  {
    var p := PlanOf(ops);
    WholeMapRelevant(p.bind);
    WholeMapRelevant(p.paramDesc);
    WholeMapRelevant(p.execute);
    WholeMapRelevant(p.close);
  }

  /**
   Conservation: for every batch and every buffer whose complete messages form one reply, the call
   finishes, its output is the server's messages in their order with exactly one synthetic
   ParseComplete per skipped Parse, and any bytes after the last complete message follow unchanged.
   */
  lemma Conservation(ops: seq<BatchOperation>, response: seq<byte>) returns (items: seq<Item>)
    requires OneReply(Split(response))
    ensures Reorder(ops, SkippedCount(ops), NO_RESPONSES, response).Reply?
    ensures Reorder(ops, SkippedCount(ops), NO_RESPONSES, response).bytes == Render(items) + Rest(response)
    ensures Originals(items) == Split(response)
    ensures SyntheticCount(items) == SkippedCount(ops)
  {
    PlanConserves(ops);
    StartPlan(ops);
    var p, fs := PlanOf(ops), Split(response);
    if ops == [] || SkippedCount(ops) == 0 || PlanSum(p) + p.pending == 0 {
      items := seq(|fs|, i requires 0 <= i < |fs| => Original(fs[i]));
      PlainItems(fs);
      SplitCovers(response);
    } else {
      StartLeft(p);
      RunSpendsAll(p, PlanSum(p), SCAN_START, fs);
      RunKeepsOriginals(p, PlanSum(p), SCAN_START, fs);
      items := Run(p, PlanSum(p), SCAN_START, fs).items;
    }
  }

  lemma {:induction false} PlainItems(fs: seq<Frame>)
    ensures var items := seq(|fs|, i requires 0 <= i < |fs| => Original(fs[i]));
            Originals(items) == fs && SyntheticCount(items) == 0 && Render(items) == Flatten(fs)
  {
    if fs != [] {
      PlainItems(fs[1..]);
      var items := seq(|fs|, i requires 0 <= i < |fs| => Original(fs[i]));
      assert items[1..] == seq(|fs[1..]|, i requires 0 <= i < |fs[1..]| => Original(fs[1..][i]));
    }
  }
}
