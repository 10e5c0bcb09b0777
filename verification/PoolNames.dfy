/**
 Where server names come from: the pool's statement cache and one process-wide counter
 (src/server/prepared_statement_cache.rs:537-582, src/messages/extended.rs:137-145).
 */
module PoolNames {
  import opened Statements
  import opened ClientProtocol
  import opened ClientRenaming

  datatype Pool = Pool(counter: nat, cache: map<nat, SharedParse>)

  /**
   One use of the pool by any client: registering a Parse under its hash, or drawing a name for an async
   client. A registration may miss although the entry exists, when another client is inserting it at the
   same time; after an insertion the pool may drop entries.
   */
  datatype PoolEvent =
    | Register(text: Statement, planner: nat, miss: bool, dropped: set<nat>)
    | DrawAsync(text: Statement)

  function PoolStep(p: Pool, h: Hashing, e: PoolEvent): (Pool, SharedParse) {
    match e
    case Register(text, planner, miss, dropped) =>
      var hash := h.of(text, planner);
      if hash in p.cache && !miss then (p, p.cache[hash])
      else
        var created := SharedParse(Pooled(p.counter), text);
        (Pool(p.counter + 1, p.cache[hash := created] - dropped), created)
    case DrawAsync(text) => (p.(counter := p.counter + 1), SharedParse(Async(p.counter), text))
  }

  function RunPool(h: Hashing, events: seq<PoolEvent>): Pool {
    if events == [] then Pool(0, map[])
    else PoolStep(RunPool(h, events[..|events| - 1]), h, events[|events| - 1]).0
  }

  /** The names handed out in a run, with the text each was handed out for. */
  function BoundIn(h: Hashing, events: seq<PoolEvent>): Bindings {
    if events == [] then map[]
    else
      var n := |events| - 1;
      var given := PoolStep(RunPool(h, events[..n]), h, events[n]).1;
      BoundIn(h, events[..n])[given.name := given.text]
  }

  function Number(n: ServerName): nat { n.n }

  ghost predicate PoolSound(p: Pool, h: Hashing, bound: Bindings) {
    && (forall n :: n in bound ==> Number(n) < p.counter)
    && (forall k :: k in p.cache ==> p.cache[k].text == h.text(k) && Means(bound, p.cache[k].name, p.cache[k].text))
  }

  /** One use of the pool hands out a statement with the text asked for, and rebinds no name. */
  lemma PoolStepSound(p: Pool, h: Hashing, bound: Bindings, e: PoolEvent)
    requires PoolSound(p, h, bound) && CollisionFree(h)
    ensures var (p', given) := PoolStep(p, h, e);
            var bound' := bound[given.name := given.text];
            && given.text == e.text
            && (given.name in bound ==> bound[given.name] == given.text)
            && PoolSound(p', h, bound')
  {
    if e.Register? {
      assert h.text(h.of(e.text, e.planner)) == e.text;
    }
  }

  lemma {:induction false} PoolRunSound(h: Hashing, events: seq<PoolEvent>)
    requires CollisionFree(h)
    ensures PoolSound(RunPool(h, events), h, BoundIn(h, events))
  {
    if events != [] {
      var n := |events| - 1;
      PoolRunSound(h, events[..n]);
      PoolStepSound(RunPool(h, events[..n]), h, BoundIn(h, events[..n]), events[n]);
    }
  }

  /**
   In every run, by any clients and with any entries dropped, what is handed out at step `i` has the text
   asked for, and its name still means that text at the end of the run.
   */
  lemma {:induction false} NamesBoundForEver(h: Hashing, events: seq<PoolEvent>, i: nat)
    requires CollisionFree(h) && i < |events|
    ensures var given := PoolStep(RunPool(h, events[..i]), h, events[i]).1;
            given.text == events[i].text && Means(BoundIn(h, events), given.name, given.text)
    decreases |events|
  {
    var n := |events| - 1;
    PoolRunSound(h, events[..n]);
    PoolStepSound(RunPool(h, events[..n]), h, BoundIn(h, events[..n]), events[n]);
    if i < n {
      NamesBoundForEver(h, events[..n], i);
      assert events[..n][..i] == events[..i];
    }
  }

  // ---------------------------------------------------------------- sharing

  /** What the pool hands out at step `i`. */
  function HandedOut(h: Hashing, events: seq<PoolEvent>, i: nat): SharedParse
    requires i < |events|
  {
    PoolStep(RunPool(h, events[..i]), h, events[i]).1
  }

  /** From step `i` to step `j` the entry of a hash is neither dropped nor replaced by a registration that missed. */
  ghost predicate Stays(h: Hashing, events: seq<PoolEvent>, hash: nat, i: nat, j: nat)
    requires i <= j <= |events|
  {
    forall k :: i <= k < j && events[k].Register? ==>
      hash !in events[k].dropped && (k > i && h.of(events[k].text, events[k].planner) == hash ==> !events[k].miss)
  }

  lemma {:induction false} EntryStays(h: Hashing, events: seq<PoolEvent>, i: nat, j: nat)
    requires i < j <= |events| && events[i].Register?
    requires Stays(h, events, h.of(events[i].text, events[i].planner), i, j)
    ensures var hash := h.of(events[i].text, events[i].planner); var p := RunPool(h, events[..j]);
            hash in p.cache && p.cache[hash] == HandedOut(h, events, i)
    decreases j
  {
    assert events[..j][..j - 1] == events[..j - 1];
    if j > i + 1 {
      EntryStays(h, events, i, j - 1);
    }
  }

  /** While the entry stays, whoever registers the same text under the same planner settings gets the same statement. */
  lemma SameStatementShared(h: Hashing, events: seq<PoolEvent>, i: nat, j: nat)
    requires i < j < |events| && events[i].Register? && events[j].Register?
    requires h.of(events[i].text, events[i].planner) == h.of(events[j].text, events[j].planner) && !events[j].miss
    requires Stays(h, events, h.of(events[i].text, events[i].planner), i, j)
    ensures HandedOut(h, events, j) == HandedOut(h, events, i)
  {
    EntryStays(h, events, i, j);
  }
}
