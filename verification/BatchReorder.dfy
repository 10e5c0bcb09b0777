/**
 Splicing synthetic ParseComplete messages into the replies of an extended-query batch
 (src/client/batch_handling.rs).
 */
module BatchReorder {
  import opened Wire
  import opened Frames

  // ---------------------------------------------------------------- insertion maps

  /** Pairs of an index and how many ParseCompletes go before the message of that index. */
  type InsertionMap = seq<(nat, nat)>

  function Add(m: InsertionMap, index: nat, count: nat): InsertionMap {
    if m == [] then [(index, count)]
    else if m[0].0 == index then [(index, m[0].1 + count)] + m[1..]
    else [m[0]] + Add(m[1..], index, count)
  }

  /** The count stored for an index, 0 when there is none. */
  function Get(m: InsertionMap, index: nat): nat {
    if m == [] then 0
    else if m[0].0 == index then m[0].1
    else Get(m[1..], index)
  }

  function Sum(m: InsertionMap): nat {
    if m == [] then 0 else m[0].1 + Sum(m[1..])
  }

  /** The entries at or past an offset, counted from it. */
  function Relevant(m: InsertionMap, offset: nat): InsertionMap {
    if m == [] then []
    else if m[0].0 >= offset then [(m[0].0 - offset, m[0].1)] + Relevant(m[1..], offset)
    else Relevant(m[1..], offset)
  }

  ghost predicate Distinct(m: InsertionMap) {
    forall i, j :: 0 <= i < j < |m| ==> m[i].0 != m[j].0
  }

  lemma {:induction false} AddDistinct(m: InsertionMap, index: nat, count: nat)
    requires Distinct(m)
    ensures Distinct(Add(m, index, count))
    ensures forall i :: 0 <= i < |Add(m, index, count)| ==>
              Add(m, index, count)[i].0 == index || exists j :: 0 <= j < |m| && m[j].0 == Add(m, index, count)[i].0
  {
    if m != [] && m[0].0 != index {
      AddDistinct(m[1..], index, count);
      var t := Add(m[1..], index, count);
      forall i | 0 <= i < |t| ensures t[i].0 != m[0].0 {
        if t[i].0 != index {
          var j :| 0 <= j < |m[1..]| && m[1..][j].0 == t[i].0;
          assert m[j + 1].0 == t[i].0;
        }
      }
      forall i | 0 <= i < |t| + 1
        ensures Add(m, index, count)[i].0 == index ||
                exists j :: 0 <= j < |m| && m[j].0 == Add(m, index, count)[i].0
      {
        if i == 0 {
          assert m[0].0 == Add(m, index, count)[0].0;
        } else if t[i - 1].0 != index {
          var j :| 0 <= j < |m[1..]| && m[1..][j].0 == t[i - 1].0;
          assert m[j + 1].0 == Add(m, index, count)[i].0;
        }
      }
    }
  }

  lemma {:induction false} AddGet(m: InsertionMap, index: nat, count: nat, k: nat)
    ensures Get(Add(m, index, count), k) == if k == index then Get(m, k) + count else Get(m, k)
    ensures Sum(Add(m, index, count)) == Sum(m) + count
  {
    if m != [] {
      if m[0].0 == index {
        assert Add(m, index, count)[1..] == m[1..];
      } else {
        assert Add(m, index, count)[1..] == Add(m[1..], index, count);
        AddGet(m[1..], index, count, k);
      }
    }
  }

  lemma {:induction false} RelevantGet(m: InsertionMap, offset: nat, k: nat)
    ensures Get(Relevant(m, offset), k) == Get(m, offset + k)
  {
    if m != [] {
      RelevantGet(m[1..], offset, k);
      if m[0].0 >= offset {
        assert Relevant(m, offset)[1..] == Relevant(m[1..], offset);
      }
    }
  }

  /** What is still to be inserted from `c` on: the entry at `c`, then the rest. */
  lemma {:induction false} PendingSplit(m: InsertionMap, c: nat)
    requires Distinct(m)
    ensures Sum(Relevant(m, c)) == Get(m, c) + Sum(Relevant(m, c + 1))
  {
    if m != [] {
      var t := m[1..];
      PendingSplit(t, c);
      if m[0].0 >= c {
        assert Relevant(m, c)[1..] == Relevant(t, c);
      }
      if m[0].0 >= c + 1 {
        assert Relevant(m, c + 1)[1..] == Relevant(t, c + 1);
      }
      if m[0].0 == c {
        AbsentGet(t, c);
      }
    }
  }

  lemma {:induction false} AbsentGet(m: InsertionMap, k: nat)
    requires forall i :: 0 <= i < |m| ==> m[i].0 != k
    ensures Get(m, k) == 0
  {
    if m != [] {
      AbsentGet(m[1..], k);
    }
  }

  ghost predicate Below(m: InsertionMap, n: nat) {
    forall i :: 0 <= i < |m| ==> m[i].0 < n
  }

  lemma {:induction false} NothingPast(m: InsertionMap, n: nat)
    requires Below(m, n)
    ensures Sum(Relevant(m, n)) == 0
  {
    if m != [] {
      NothingPast(m[1..], n);
    }
  }

  lemma {:induction false} WholeMapRelevant(m: InsertionMap)
    ensures Relevant(m, 0) == m
  {
    if m != [] {
      WholeMapRelevant(m[1..]);
    }
  }

  // ---------------------------------------------------------------- the plan of a batch

  /** Operations of a batch; the statement names the code keeps beside them are never read. */
  datatype BatchOperation = ParseSkipped | ParseSent | Describe | DescribePortal | Bind | Execute | Close

  datatype ResponseCounts = ResponseCounts(bindComplete: nat, paramDesc: nat, execute: nat, closeComplete: nat)

  const NO_RESPONSES := ResponseCounts(0, 0, 0, 0)

  function Plus(a: ResponseCounts, b: ResponseCounts): ResponseCounts {
    ResponseCounts(a.bindComplete + b.bindComplete, a.paramDesc + b.paramDesc,
                   a.execute + b.execute, a.closeComplete + b.closeComplete)
  }

  /** Where the ParseCompletes of a batch go; `at` counts the operations seen of each kind. */
  datatype Plan = Plan(bind: InsertionMap, paramDesc: InsertionMap, execute: InsertionMap, close: InsertionMap,
                       pending: nat, at: ResponseCounts)

  const NO_PLAN := Plan([], [], [], [], 0, NO_RESPONSES)

  function AddPending(m: InsertionMap, index: nat, pending: nat): InsertionMap {
    if pending > 0 then Add(m, index, pending) else m
  }

  function Extend(p: Plan, op: BatchOperation): Plan {
    match op
    case ParseSkipped => p.(pending := p.pending + 1)
    case ParseSent => p
    case Describe =>
      p.(paramDesc := AddPending(p.paramDesc, p.at.paramDesc, p.pending), pending := 0,
         at := p.at.(paramDesc := p.at.paramDesc + 1))
    case Bind =>
      p.(bind := AddPending(p.bind, p.at.bindComplete, p.pending), pending := 0,
         at := p.at.(bindComplete := p.at.bindComplete + 1))
    case DescribePortal => p
    case Execute =>
      p.(execute := AddPending(p.execute, p.at.execute, p.pending), pending := 0,
         at := p.at.(execute := p.at.execute + 1))
    case Close =>
      p.(close := AddPending(p.close, p.at.closeComplete, p.pending), pending := 0,
         at := p.at.(closeComplete := p.at.closeComplete + 1))
  }

  function PlanOf(ops: seq<BatchOperation>): Plan {
    if ops == [] then NO_PLAN else Extend(PlanOf(ops[..|ops| - 1]), ops[|ops| - 1])
  }

  function SkippedCount(ops: seq<BatchOperation>): nat {
    if ops == [] then 0
    else SkippedCount(ops[..|ops| - 1]) + if ops[|ops| - 1].ParseSkipped? then 1 else 0
  }

  /** How many operations of a batch are of one kind. */
  function Count(ops: seq<BatchOperation>, op: BatchOperation): nat {
    if ops == [] then 0 else Count(ops[..|ops| - 1], op) + if ops[|ops| - 1] == op then 1 else 0
  }

  /** The indices of a plan are the numbers of operations of each kind. */
  lemma {:induction false} PlanCounts(ops: seq<BatchOperation>)
    ensures PlanOf(ops).at == ResponseCounts(Count(ops, Bind), Count(ops, Describe), Count(ops, Execute), Count(ops, Close))
  {
    if ops != [] {
      PlanCounts(ops[..|ops| - 1]);
    }
  }

  function PlanSum(p: Plan): nat {
    Sum(p.bind) + Sum(p.paramDesc) + Sum(p.execute) + Sum(p.close)
  }

  ghost predicate ValidPlan(p: Plan) {
    && Distinct(p.bind) && Below(p.bind, p.at.bindComplete)
    && Distinct(p.paramDesc) && Below(p.paramDesc, p.at.paramDesc)
    && Distinct(p.execute) && Below(p.execute, p.at.execute)
    && Distinct(p.close) && Below(p.close, p.at.closeComplete)
  }

  lemma AddPendingKeeps(m: InsertionMap, n: nat, pending: nat)
    requires Distinct(m) && Below(m, n)
    ensures Distinct(AddPending(m, n, pending)) && Below(AddPending(m, n, pending), n + 1)
    ensures Sum(AddPending(m, n, pending)) == Sum(m) + pending
    ensures Get(AddPending(m, n, pending), n) == pending
    ensures forall k: nat :: k != n ==> Get(AddPending(m, n, pending), k) == Get(m, k)
  {
    hide Add, Get, Sum;
    AddDistinct(m, n, pending);
    AbsentGet(m, n);
    forall k: nat ensures pending > 0 ==> Get(Add(m, n, pending), k) == if k == n then Get(m, k) + pending else Get(m, k)
    {
      AddGet(m, n, pending, k);
    }
    AddGet(m, n, pending, 0);
  }

  lemma ExtendKeeps(p: Plan, op: BatchOperation)
    requires ValidPlan(p)
    ensures ValidPlan(Extend(p, op))
    ensures PlanSum(Extend(p, op)) + Extend(p, op).pending
         == PlanSum(p) + p.pending + if op.ParseSkipped? then 1 else 0
  {
    AddPendingKeeps(p.bind, p.at.bindComplete, p.pending);
    AddPendingKeeps(p.paramDesc, p.at.paramDesc, p.pending);
    AddPendingKeeps(p.execute, p.at.execute, p.pending);
    AddPendingKeeps(p.close, p.at.closeComplete, p.pending);
  }

  /** The plan loses no skipped Parse and invents none. */
  lemma {:induction false} PlanConserves(ops: seq<BatchOperation>)
    ensures ValidPlan(PlanOf(ops))
    ensures PlanSum(PlanOf(ops)) + PlanOf(ops).pending == SkippedCount(ops)
  {
    if ops != [] {
      PlanConserves(ops[..|ops| - 1]);
      ExtendKeeps(PlanOf(ops[..|ops| - 1]), ops[|ops| - 1]);
    }
  }

  // ---------------------------------------------------------------- one call

  /** The ParseComplete message: '1' and length 4. */
  const PARSE_COMPLETE: Frame := [49, 0, 0, 0, 4]

  datatype Kind =
    | BindComplete | ParameterDescription | CloseComplete | CommandComplete
    | RowMessage      // DataRow, NoData or RowDescription
    | ErrorResponse | ReadyForQuery | PassThrough

  function KindOf(t: byte): Kind {
    if t == '2' as int then BindComplete
    else if t == 't' as int then ParameterDescription
    else if t == '3' as int then CloseComplete
    else if t == 'C' as int then CommandComplete
    else if t == 'D' as int || t == 'n' as int || t == 'T' as int then RowMessage
    else if t == 'E' as int then ErrorResponse
    else if t == 'Z' as int then ReadyForQuery
    else PassThrough
  }

  function FrameKind(f: Frame): Kind {
    if f == [] then PassThrough else KindOf(f[0])
  }

  function Bump(c: ResponseCounts, k: Kind): ResponseCounts {
    match k
    case BindComplete => c.(bindComplete := c.bindComplete + 1)
    case ParameterDescription => c.(paramDesc := c.paramDesc + 1)
    case CommandComplete => c.(execute := c.execute + 1)
    case CloseComplete => c.(closeComplete := c.closeComplete + 1)
    case _ => c
  }

  /** The part of a plan that earlier calls have not answered yet. */
  function Remaining(p: Plan, done: ResponseCounts): Plan {
    p.(bind := Relevant(p.bind, done.bindComplete), paramDesc := Relevant(p.paramDesc, done.paramDesc),
       execute := Relevant(p.execute, done.execute), close := Relevant(p.close, done.closeComplete))
  }

  /** Variables of the loop over one reply buffer. */
  datatype Scan = Scan(counts: ResponseCounts, inserted: nat, inExecute: bool)

  const SCAN_START := Scan(NO_RESPONSES, 0, false)

  /** How many ParseCompletes go before a message; negative where the code's subtraction underflows. */
  function Due(p: Plan, total: nat, s: Scan, k: Kind): int {
    match k
    case BindComplete => Get(p.bind, s.counts.bindComplete)
    case ParameterDescription => Get(p.paramDesc, s.counts.paramDesc)
    case CloseComplete => Get(p.close, s.counts.closeComplete)
    case RowMessage => if s.inExecute then 0 else Get(p.execute, s.counts.execute)
    case ErrorResponse => total - s.inserted
    case ReadyForQuery => total + p.pending - s.inserted
    case _ => 0
  }

  function Advance(s: Scan, k: Kind, due: nat): Scan {
    Scan(Bump(s.counts, k), s.inserted + due,
         if k.CommandComplete? then false else if k.RowMessage? then true else s.inExecute)
  }

  /** A message of the rewritten reply: one of ours, or one of the server's. */
  datatype Item = Synthetic | Original(frame: Frame)

  function Synthetics(n: nat): (items: seq<Item>)
    ensures |items| == n
  {
    seq(n, _ => Synthetic)
  }

  datatype Scanned = Scanned(items: seq<Item>, counts: ResponseCounts) | Underflow

  /** The rewriting loop over the complete messages of one buffer. */
  function Run(p: Plan, total: nat, s: Scan, fs: seq<Frame>): Scanned
    decreases |fs|
  {
    if fs == [] then Scanned([], s.counts)
    else
      var k := FrameKind(fs[0]);
      var due := Due(p, total, s, k);
      if due < 0 then Underflow
      else
        match Run(p, total, Advance(s, k, due), fs[1..])
        case Underflow => Underflow
        case Scanned(items, counts) => Scanned(Synthetics(due) + [Original(fs[0])] + items, counts)
  }

  function ItemBytes(i: Item): seq<byte> {
    if i.Synthetic? then PARSE_COMPLETE else i.frame
  }

  function Render(items: seq<Item>): seq<byte> {
    if items == [] then [] else ItemBytes(items[0]) + Render(items[1..])
  }

  /** The counting loop of the early return: it also counts a message cut off at the end of the buffer. */
  function Tally(r: seq<byte>): ResponseCounts
    decreases |r|
  {
    if |r| < 5 then NO_RESPONSES
    else if FrameLen(r) > |r| then Bump(NO_RESPONSES, KindOf(r[0]))
    else Bump(Tally(r[FrameLen(r)..]), KindOf(r[0]))
  }

  /** Result of a call: the bytes for the client and the counts carried over, or an integer underflow. */
  datatype Reply = Reply(bytes: seq<byte>, done: ResponseCounts) | Overflowed

  /** A call for a batch with the given plan, when `done` replies have passed before. */
  function Splice(plan: Plan, done: ResponseCounts, response: seq<byte>): Reply {
    var p := Remaining(plan, done);
    if PlanSum(p) + p.pending == 0 then Reply(response, Plus(done, Tally(response)))
    else
      match Run(p, PlanSum(p), SCAN_START, Split(response))
      case Underflow => Overflowed
      case Scanned(items, counts) => Reply(Render(items) + Rest(response), Plus(done, counts))
  }

  /** `reorder_parse_complete_responses` on a batch, the number of skipped Parses and the counts so far. */
  function Reorder(ops: seq<BatchOperation>, skipped: nat, done: ResponseCounts, response: seq<byte>): Reply {
    if ops == [] || skipped == 0 then Reply(response, done) else Splice(PlanOf(ops), done, response)
  }

  lemma {:induction false} RenderAppend(a: seq<Item>, b: seq<Item>)
    ensures Render(a + b) == Render(a) + Render(b)
  {
    if a == [] {
      assert a + b == b;
    } else {
      assert (a + b)[1..] == a[1..] + b;
      RenderAppend(a[1..], b);
    }
  }
}
