/**
 * The admission gates: a shared counter that concurrent tasks raise, test, and lower again when they are turned away
 * or done (benches/pool_anticipation_benchmarks.rs:29-36, src/app/server.rs:880-908, 950-981).
 */
module Admission {

  /** `try_take_burst_slot` admits when the value before its increment is below the cap. */
  function BurstLimit(max: nat): nat { max }

  /** The accept loop turns a client away when the value before its increment is above the setting. */
  function AcceptLimit(maxConnections: nat): nat { maxConnections + 1 }

  /** `raised` holds, per task between its increment and its test, the value that it got. */
  datatype Gate = Gate(counter: int, raised: map<nat, int>, holders: set<nat>, rejected: set<nat>)

  const Open := Gate(0, map[], {}, {})

  datatype Action = Raise(t: nat) | Test(t: nat) | RollBack(t: nat) | Release(t: nat)

  predicate Busy(g: Gate, t: nat) { t in g.raised || t in g.holders || t in g.rejected }

  /** One atomic step of one task; a step that the task cannot take now changes nothing. */
  function Step(limit: nat, g: Gate, a: Action): Gate {
    match a
    case Raise(t) =>
      if Busy(g, t) then g else g.(counter := g.counter + 1, raised := g.raised[t := g.counter])
    case Test(t) =>
      if t !in g.raised then g
      else if g.raised[t] < limit then g.(raised := g.raised - {t}, holders := g.holders + {t})
      else g.(raised := g.raised - {t}, rejected := g.rejected + {t})
    case RollBack(t) =>
      if t !in g.rejected then g else g.(counter := g.counter - 1, rejected := g.rejected - {t})
    case Release(t) =>
      if t !in g.holders then g else g.(counter := g.counter - 1, holders := g.holders - {t})
  }

  function Run(limit: nat, acts: seq<Action>): Gate {
    if acts == [] then Open else Step(limit, Run(limit, acts[..|acts| - 1]), acts[|acts| - 1])
  }

  /** Tasks that hold a slot or are about to learn that they do. */
  function Admitted(limit: nat, g: Gate): set<nat> {
    g.holders + set t | t in g.raised && g.raised[t] < limit
  }

  /** Tasks turned away whose increment is not rolled back yet. */
  function TurnedAway(limit: nat, g: Gate): set<nat> {
    g.rejected + set t | t in g.raised && g.raised[t] >= limit
  }

  /** A task is in one place at a time. */
  predicate Apart(g: Gate) {
    g.holders !! g.raised.Keys && g.rejected !! g.raised.Keys && g.holders !! g.rejected
  }

  ghost predicate Balanced(limit: nat, g: Gate) {
    && Apart(g)
    && g.counter == |Admitted(limit, g)| + |TurnedAway(limit, g)|
    && |Admitted(limit, g)| <= limit
  }

  /** The admitted after a step. */
  function AdmittedAfter(limit: nat, g: Gate, a: Action): set<nat> {
    if a.Raise? && !Busy(g, a.t) && g.counter < limit then Admitted(limit, g) + {a.t}
    else if a.Release? && a.t in g.holders then Admitted(limit, g) - {a.t}
    else Admitted(limit, g)
  }

  function TurnedAwayAfter(limit: nat, g: Gate, a: Action): set<nat> {
    if a.Raise? && !Busy(g, a.t) && g.counter >= limit then TurnedAway(limit, g) + {a.t}
    else if a.RollBack? && a.t in g.rejected then TurnedAway(limit, g) - {a.t}
    else TurnedAway(limit, g)
  }

  lemma StepSets(limit: nat, g: Gate, a: Action)
    requires Apart(g)
    ensures Apart(Step(limit, g, a))
    ensures Admitted(limit, Step(limit, g, a)) == AdmittedAfter(limit, g, a)
    ensures TurnedAway(limit, Step(limit, g, a)) == TurnedAwayAfter(limit, g, a)
  {
    var g' := Step(limit, g, a);
    forall x ensures x in Admitted(limit, g') <==> x in AdmittedAfter(limit, g, a) {}
    forall x ensures x in TurnedAway(limit, g') <==> x in TurnedAwayAfter(limit, g, a) {}
  }

  lemma StepBalanced(limit: nat, g: Gate, a: Action)
    requires Balanced(limit, g)
    ensures Balanced(limit, Step(limit, g, a))
  {
    hide Admitted, TurnedAway, Apart;
    StepSets(limit, g, a);
    Outside(limit, g, a.t);
  }

  lemma Outside(limit: nat, g: Gate, t: nat)
    requires Apart(g)
    ensures !Busy(g, t) ==> t !in Admitted(limit, g) && t !in TurnedAway(limit, g)
    ensures t in g.holders ==> t in Admitted(limit, g)
    ensures t in g.rejected ==> t in TurnedAway(limit, g)
  {
  }

  /** In every interleaving the counter is the holders plus the rejections not rolled back, and the holders keep the cap. */
  lemma {:induction false} GateHolds(limit: nat, acts: seq<Action>)
    ensures Balanced(limit, Run(limit, acts))
    ensures |Run(limit, acts).holders| <= limit
  {
    if acts != [] {
      GateHolds(limit, acts[..|acts| - 1]);
      StepBalanced(limit, Run(limit, acts[..|acts| - 1]), acts[|acts| - 1]);
    }
    var g := Run(limit, acts);
    Smaller(g.holders, Admitted(limit, g));
  }

  lemma Smaller(a: set<nat>, b: set<nat>)
    requires a <= b
    ensures |a| <= |b|
  {
    assert b == a + (b - a);
  }

  lemma BurstSlotsKeepCap(max: nat, acts: seq<Action>)
    ensures |Run(BurstLimit(max), acts).holders| <= max
  {
    GateHolds(BurstLimit(max), acts);
  }

  // ---------------------------------------------------------------- the bound is reached

  function FirstTasks(n: nat): (r: set<nat>)
    ensures forall t :: t in r ==> t < n
  {
    if n == 0 then {} else FirstTasks(n - 1) + {n - 1}
  }

  /** Every task raises and tests before the next one comes. */
  function InTurn(n: nat): seq<Action> {
    if n == 0 then [] else InTurn(n - 1) + [Raise(n - 1), Test(n - 1)]
  }

  lemma {:induction false} FillsUp(limit: nat, n: nat)
    requires n <= limit
    ensures Run(limit, InTurn(n)) == Gate(n, map[], FirstTasks(n), {}) && |FirstTasks(n)| == n
  {
    hide Step;
    if n > 0 {
      FillsUp(limit, n - 1);
      var acts := InTurn(n - 1);
      RunThen(limit, acts, Raise(n - 1));
      RunThen(limit, acts + [Raise(n - 1)], Test(n - 1));
      assert acts + [Raise(n - 1)] + [Test(n - 1)] == InTurn(n);
      OneMore(limit, FirstTasks(n - 1), n - 1);
    }
  }

  /** The next task comes in while there is room. */
  lemma OneMore(limit: nat, holders: set<nat>, t: nat)
    requires t < limit && |holders| == t && t !in holders
    ensures var g := Step(limit, Gate(t, map[], holders, {}), Raise(t));
            Step(limit, g, Test(t)) == Gate(t + 1, map[], holders + {t}, {})
    ensures |holders + {t}| == t + 1
  {
    var g := Step(limit, Gate(t, map[], holders, {}), Raise(t));
    assert g.raised == map[t := t];
    assert g.raised - {t} == map[];
  }

  lemma RunThen(limit: nat, acts: seq<Action>, a: Action)
    ensures Run(limit, acts + [a]) == Step(limit, Run(limit, acts), a)
  {
    assert (acts + [a])[..|acts|] == acts;
  }

  /** A number of clients that some interleaving has admitted at once. */
  ghost predicate Reachable(limit: nat, n: nat) {
    exists acts :: |Run(limit, acts).holders| == n
  }

  /** The accept loop has at most `max_connections + 1` clients at once, and does reach that many. */
  lemma AcceptLoopBound(maxConnections: nat, n: nat)
    ensures Reachable(AcceptLimit(maxConnections), n) <==> n <= maxConnections + 1
  {
    var limit := AcceptLimit(maxConnections);
    if n <= maxConnections + 1 {
      FillsUp(limit, n);
      assert |Run(limit, InTurn(n)).holders| == n;
    } else {
      forall acts ensures |Run(limit, acts).holders| != n {
        GateHolds(limit, acts);
      }
    }
  }
}
