/** Which batches can have their ParseCompletes placed exactly when the reply comes in one buffer. */
module BatchShapes {
  import opened BatchReorder
  import opened BatchExact

  /**
   How far a batch has come. `Start`: nothing yet that is answered with rows. `Early(k)`: its first such operation was
   a portal Describe with `k` skipped Parses waiting, and the Execute that consumes them has still to come.
   `Doomed(k)`: a Parse was skipped before that Execute came. `Later(x)`: rows may come before which nothing is due any
   more; the first Execute consumed `x`. `Astray`: a skipped Parse waited where none may.
   */
  datatype Stage = Start | Early(k: nat) | Doomed(k: nat) | Later(x: nat) | Astray

  function Move(st: Stage, w: nat, op: BatchOperation): Stage {
    match st
    case Start =>
      (match op
       case Describe => Later(0)
       case DescribePortal => if w > 0 then Early(w) else Later(0)
       case Execute => if w > 0 then Astray else Later(0)
       case _ => Start)
    case Early(k) =>
      (match op
       case ParseSent => st
       case DescribePortal => st
       case ParseSkipped => Doomed(k)
       case Execute => Later(k)
       case _ => Astray)
    case Doomed(k) => if op.ParseSent? || op.ParseSkipped? then st else Astray
    case Later(_) => if (op.Execute? || op.DescribePortal?) && w > 0 then Astray else st
    case Astray => Astray
  }

  function StageOf(ops: seq<BatchOperation>): Stage {
    if ops == [] then Start
    else var n := |ops| - 1; Move(StageOf(ops[..n]), Waiting(ops[..n]), ops[n])
  }

  /**
   Placeable in one buffer: no skipped Parse waits at an Execute or a portal Describe, with one exception. The first
   operation of the batch that is answered with rows may be a portal Describe at which some wait, if after it only sent
   Parses and portal Describes come before an Execute.
   */
  predicate OnePlaceable(ops: seq<BatchOperation>) {
    StageOf(ops).Start? || StageOf(ops).Later?
  }

  /** What the plan holds at each stage. */
  ghost predicate PlanAt(q: Plan, st: Stage, w: nat) {
    match st
    case Start => q.pending == w && q.at.execute == 0 && q.execute == []
    case Early(k) => k > 0 && q.pending == k && w == 0 && q.at.execute == 0 && q.execute == []
    case Doomed(k) => k > 0 && q.pending == k + w && w > 0 && q.at.execute == 0 && q.execute == []
    case Later(x) =>
      && q.pending == w && Get(q.execute, 0) == x && (q.at.execute == 0 ==> q.execute == [])
      && forall c: nat :: c > 0 ==> Get(q.execute, c) == 0
    case Astray => true
  }

  lemma {:induction false} PlanStage(ops: seq<BatchOperation>)
    ensures PlanAt(PlanOf(ops), StageOf(ops), Waiting(ops))
  {
    if ops != [] {
      var n := |ops| - 1;
      PlanStage(ops[..n]);
      PlanConserves(ops[..n]);
      PlanMove(PlanOf(ops[..n]), StageOf(ops[..n]), Waiting(ops[..n]), ops[n]);
    }
  }

  function WaitingAfter(w: nat, op: BatchOperation): nat {
    match op
    case ParseSkipped => w + 1
    case ParseSent => w
    case _ => 0
  }

  lemma PlanMove(q: Plan, st: Stage, w: nat, op: BatchOperation)
    requires PlanAt(q, st, w) && ValidPlan(q)
    ensures PlanAt(Extend(q, op), Move(st, w, op), WaitingAfter(w, op))
  {
    AddPendingKeeps(q.execute, q.at.execute, q.pending);
  }

  /** Stages that are never left again. */
  lemma {:induction false} StageForward(ops: seq<BatchOperation>, n: nat)
    requires n <= |ops|
    ensures var st, last := StageOf(ops[..n]), StageOf(ops);
            match st
            case Start => true
            case Early(k) => last == Early(k) || last == Doomed(k) || last == Later(k) || last == Astray
            case Doomed(k) => last == Doomed(k) || last == Astray
            case Later(x) => last == Later(x) || last == Astray
            case Astray => last == Astray
    decreases |ops|
  {
    if n == |ops| {
      assert ops[..n] == ops;
    } else {
      var init := ops[..|ops| - 1];
      assert init[..n] == ops[..n];
      StageForward(init, n);
    }
  }

  /** Placeable in every cut is placeable in one buffer without the exception. */
  lemma {:induction false} PlaceableStage(ops: seq<BatchOperation>)
    ensures Placeable(ops) <==> StageOf(ops) == Start || StageOf(ops) == Later(0)
  {
    if ops != [] {
      var n := |ops| - 1;
      PlaceableStage(ops[..n]);
      PlanStage(ops[..n]);
    }
  }
}
