/** Renaming soundness for any number of clients on one pool, with the pool's promises discharged. */
module SharedPool {
  import opened Wire
  import opened Statements
  import opened ClientProtocol
  import opened ClientRenaming
  import opened PoolNames

  /**
   A message of one client, and what happens around it: whether its registration misses and what the pool drops, whether
   a name is drawn from the counter, and what the server answers.
   */
  datatype Act = Act(client: nat, msg: ClientMessage, planner: nat, miss: bool, dropped: set<nat>, draws: bool,
                     serverHas: bool, registration: Registration)

  /** The uses of the pool that a message makes. */
  function Uses(a: Act): seq<PoolEvent> {
    if !a.msg.Parse? then []
    else [Register(a.msg.text, a.planner, a.miss, a.dropped)] + if a.draws then [DrawAsync(a.msg.text)] else []
  }

  function PoolEvents(acts: seq<Act>): seq<PoolEvent> {
    if acts == [] then [] else PoolEvents(acts[..|acts| - 1]) + Uses(acts[|acts| - 1])
  }

  /** The surroundings in which a message is processed, after the messages before it. */
  function EnvOf(h: Hashing, before: seq<PoolEvent>, a: Act): Env {
    if !a.msg.Parse? then Env(a.planner, None, Pooled(0), a.serverHas, a.registration)
    else
      var events, n := before + Uses(a), |before|;
      Env(a.planner, Some(HandedOut(h, events, n)), if a.draws then HandedOut(h, events, n + 1).name else HandedOut(h, events, n).name,
          a.serverHas, a.registration)
  }

  /** The session of one client within the run. */
  function TraceOf(h: Hashing, acts: seq<Act>, c: nat): seq<Event> {
    if acts == [] then []
    else
      var n := |acts| - 1;
      TraceOf(h, acts[..n], c) +
      if acts[n].client == c then [Event(acts[n].msg, EnvOf(h, PoolEvents(acts[..n]), acts[n]))] else []
  }

  lemma {:induction false} EventsGrow(acts: seq<Act>, n: nat)
    requires n <= |acts|
    ensures PoolEvents(acts[..n]) <= PoolEvents(acts)
    decreases |acts|
  {
    if n == |acts| {
      assert acts[..n] == acts;
    } else {
      var init := acts[..|acts| - 1];
      assert init[..n] == acts[..n];
      EventsGrow(init, n);
    }
  }

  /** What is handed out at a use does not depend on later uses. */
  lemma GivenEarly(h: Hashing, events: seq<PoolEvent>, all: seq<PoolEvent>, i: nat)
    requires events <= all && i < |events|
    ensures HandedOut(h, events, i) == HandedOut(h, all, i)
  {
    assert events[..i] == all[..i];
  }

  /** The pool keeps its promises to the `n`-th message of the run. */
  lemma EnvKept(h: Hashing, acts: seq<Act>, n: nat)
    requires CollisionFree(h) && n < |acts|
    ensures EnvOk(h, BoundIn(h, PoolEvents(acts)), Event(acts[n].msg, EnvOf(h, PoolEvents(acts[..n]), acts[n])))
  {
    hide BoundIn, RunPool;
    var a, before, all := acts[n], PoolEvents(acts[..n]), PoolEvents(acts);
    if a.msg.Parse? {
      var now, i := before + Uses(a), |before|;
      assert acts[..n + 1][..n] == acts[..n];
      EventsGrow(acts, n + 1);
      GivenEarly(h, now, all, i);
      NamesBoundForEver(h, all, i);
      if a.draws {
        GivenEarly(h, now, all, i + 1);
        NamesBoundForEver(h, all, i + 1);
      }
      assert h.text(h.of(a.msg.text, a.planner)) == a.msg.text;
    }
  }

  /** Every message of the session was processed. */
  ghost predicate AllDone(s: ClientState, h: Hashing, trace: seq<Event>) {
    trace != [] ==>
      var n := |trace| - 1;
      && AllDone(s, h, trace[..n])
      && OnMessage(RunClient(s, h, trace[..n]), h, trace[n].msg, trace[n].env).1.Done?
  }

  lemma {:induction false} SessionInProgress(h: Hashing, acts: seq<Act>, n: nat, c: nat, s: ClientState)
    requires CollisionFree(h) && n <= |acts| && AllDone(s, h, TraceOf(h, acts[..n], c))
    ensures InProgress(s, h, BoundIn(h, PoolEvents(acts)), TraceOf(h, acts[..n], c))
    decreases n
  {
    hide EnvOk, OnMessage, BoundIn, PoolEvents, EnvOf;
    if n > 0 {
      var some, init := acts[..n], acts[..n - 1];
      assert some[..n - 1] == init;
      var trace := TraceOf(h, init, c);
      if acts[n - 1].client == c {
        var e := Event(acts[n - 1].msg, EnvOf(h, PoolEvents(init), acts[n - 1]));
        assert TraceOf(h, some, c) == trace + [e] && (trace + [e])[..|trace|] == trace;
        EnvKept(h, acts, n - 1);
      } else {
        assert TraceOf(h, some, c) == trace + [] == trace;
      }
      SessionInProgress(h, acts, n - 1, c, s);
    }
  }

  /**
   In every run of any clients on one pool, with any drops, misses and evictions, each client's Binds and statement
   Describes are renamed soundly, the meaning of a server name being what the pool handed it out for in that run.
   */
  lemma SharedRenaming(h: Hashing, acts: seq<Act>, c: nat, anonSize: nat, e: Event)
    requires CollisionFree(h) && (e.msg.Bind? || e.msg.Describe?)
    requires AllDone(NewClient(true, anonSize), h, TraceOf(h, acts, c))
    ensures var trace := TraceOf(h, acts, c);
            RenamedSoundly(RunClient(NewClient(true, anonSize), h, trace), h, BoundIn(h, PoolEvents(acts)), Known(trace), e)
  {
    hide RenamedSoundly, AllDone, BoundIn, PoolEvents, TraceOf, InProgress;
    assert acts[..|acts|] == acts;
    SessionInProgress(h, acts, |acts|, c, NewClient(true, anonSize));
    RenamingSound(anonSize, h, BoundIn(h, PoolEvents(acts)), TraceOf(h, acts, c), e);
  }
}
