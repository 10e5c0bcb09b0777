/** Every event of the auth-query cache explained: what was hit, why a fetch began, and where each entry comes from. */
module AuthAnswers {
  import opened Wire
  import opened AuthCache

  // ---------------------------------------------------------------- what should happen

  /** Younger than the TTL of its kind, in milliseconds. */
  predicate Young(cfg: Config, e: Entry, now: nat) {
    now - e.fetchedAt < (if e.negative then cfg.failureTtl else cfg.ttl) * 1_000_000
  }

  predicate JustRefetched(cfg: Config, e: Entry, now: nat) {
    e.lastRefetch.Some? && now - e.lastRefetch.value < cfg.minInterval * 1_000_000
  }

  /** The entry that an executor's answer gives; a failure gives none. */
  predicate EntryFor(e: Entry, answer: Answer) {
    match answer
    case Found(password) => !e.negative && e.password == password
    case NotFound => e.negative && e.password == ""
    case Failed => false
  }

  /** A user that was not found is given as none; one that was, with the entry. */
  predicate Gives(e: Entry, gives: Outcome) {
    (e.negative ==> gives == NoUser) && (!e.negative ==> gives == Credentials(e))
  }

  predicate OfCall(x: Event, t: nat) {
    !x.Invalidated? && !x.EntryCleared? && !x.LockCleared? && x.t == t
  }

  /** The latest event of a call. */
  function LastOf(log: seq<Event>, t: nat): Option<Event> {
    if log == [] then None
    else if OfCall(log[|log| - 1], t) then Some(log[|log| - 1])
    else LastOf(log[..|log| - 1], t)
  }

  predicate BeganBy(x: Option<Event>, u: User, kind: Kind, now: nat) {
    x.Some? && x.value.Began? && x.value.user == u && x.value.kind == kind && x.value.at <= now
  }

  predicate AnsweredBy(x: Option<Event>, u: User, kind: Kind, now: nat) {
    x.Some? && x.value.Answered? && x.value.user == u && x.value.kind == kind && x.value.at <= now
  }

  /** A refetch is stamped, no earlier than it was fetched; `get_or_fetch` is not. */
  predicate StampedFor(e: Entry, kind: Kind) {
    if kind.Get? then e.lastRefetch.None? else e.lastRefetch.Some? && e.fetchedAt <= e.lastRefetch.value
  }

  /** Why event `x` comes after these events. */
  predicate Explained(cfg: Config, log: seq<Event>, x: Event) {
    var cached := LastRecorded(log, x.user);
    match x
    case Hit(_, _, e, gives, at) => cached == Some(e) && Young(cfg, e, at) && Gives(e, gives)
    case RateLimited(_, _, gives, at) => cached.Some? && JustRefetched(cfg, cached.value, at) && gives == NoUser
    case Began(_, u, Get, found, at) => found == cached && |u| <= 63 && (found.Some? ==> !Young(cfg, found.value, at))
    case Began(_, _, Refetch, found, at) => found == cached && (found.Some? ==> !JustRefetched(cfg, found.value, at))
    case Answered(t, u, kind, _, at) => BeganBy(LastOf(log, t), u, kind, at)
    case Recorded(t, u, kind, e) =>
      var last := LastOf(log, t);
      AnsweredBy(last, u, kind, e.fetchedAt) && EntryFor(e, last.value.answer) && StampedFor(e, kind)
    case Returned(t, u, kind, gives) =>
      var last := LastOf(log, t);
      && last.Some? && last.value.Recorded? && last.value.user == u && last.value.kind == kind
      && Gives(last.value.entry, gives)
    case _ => true
  }

  ghost predicate AllExplained(cfg: Config, log: seq<Event>) {
    forall i :: 0 <= i < |log| ==> Explained(cfg, log[..i], log[i])
  }

  // ---------------------------------------------------------------- calls

  /** How far a call has come, by its latest event. */
  predicate OnTrack(s: World, t: nat, task: Task) {
    var last := LastOf(s.log, t);
    && (task.kind.Get? ==> |task.user| <= 63)
    && match task.pc
       case Start => task.kind.Get?
       case Fetching(_) => BeganBy(last, task.user, task.kind, s.now)
       case Creating(_, password) =>
         && AnsweredBy(last, task.user, task.kind, s.now)
         && last.value.answer == (if password.Some? then Found(password.value) else NotFound)
       case Made(_, e) =>
         && AnsweredBy(last, task.user, task.kind, e.fetchedAt) && EntryFor(e, last.value.answer) && e.fetchedAt <= s.now
         && (e.lastRefetch.None? || StampedFor(e, task.kind)) && (task.kind.Get? ==> e.lastRefetch.None?)
       case Published(_, e) => last == Some(Recorded(t, task.user, task.kind, e))
       case _ => true
  }

  /** No answer is lost: a call that got one goes on to record it, and to return what it recorded. */
  predicate Pending(s: World, t: nat) {
    var last := LastOf(s.log, t);
    && (last.Some? && last.value.Answered? && !last.value.answer.Failed? ==>
          t in s.tasks && (s.tasks[t].pc.Creating? || s.tasks[t].pc.Made?))
    && (last.Some? && last.value.Recorded? ==> t in s.tasks && s.tasks[t].pc.Published?)
  }

  predicate CallKept(s: World, t: nat) {
    (t in s.tasks ==> OnTrack(s, t, s.tasks[t])) && Pending(s, t)
  }

  lemma LastOfAppend(log: seq<Event>, x: Event, t: nat)
    ensures LastOf(log + [x], t) == if OfCall(x, t) then Some(x) else LastOf(log, t)
  {
    assert (log + [x])[..|log|] == log;
  }

  /** What a step adds to the log, and for which call. */
  lemma StepAdds(cfg: Config, s: World, a: Action, t: nat)
    ensures var s' := Step(cfg, s, a); var x := EventOf(cfg, s, a);
            && s'.log == (if x.None? then s.log else s.log + [x.value])
            && LastOf(s'.log, t) == (if x.Some? && OfCall(x.value, t) then x else LastOf(s.log, t))
            && (x.Some? && OfCall(x.value, t) ==> a.Advance? && a.t == t && t in s.tasks)
  {
    hide LastOf, EntriesAfter, TasksAfter, LocksAfter, Fresh, EndsAtCheck;
    var x := EventOf(cfg, s, a);
    if x.Some? {
      LastOfAppend(s.log, x.value, t);
    }
  }

  /** Another call's step leaves a call where it is. */
  lemma OtherStep(cfg: Config, s: World, a: Action, t: nat)
    requires CallKept(s, t) && !(a.Advance? && a.t == t)
    ensures CallKept(Step(cfg, s, a), t)
  {
    hide LastOf, EntriesAfter, EventOf, LocksAfter, Next;
    StepAdds(cfg, s, a, t);
  }

  lemma OwnStep(cfg: Config, s: World, t: nat, answer: Answer)
    requires CallKept(s, t)
    ensures CallKept(Step(cfg, s, Advance(t, answer)), t)
  {
    hide LastOf, EntriesAfter, LocksAfter, Fresh, Held;
    StepAdds(cfg, s, Advance(t, answer), t);
  }

  /** The arithmetic of the two checks. */
  lemma ExpiredIff(cfg: Config, e: Entry, now: nat)
    requires e.fetchedAt <= now
    ensures Expired(cfg, e, now) <==> !Young(cfg, e, now)
    ensures Limited(cfg, e, now) <==> JustRefetched(cfg, e, now)
  {
  }

  lemma StepExplained(cfg: Config, s: World, a: Action)
    requires (forall t :: CallKept(s, t)) && StampsOrdered(s)
    requires forall u :: Lookup(s, u) == LastRecorded(s.log, u)
    ensures EventOf(cfg, s, a).Some? ==> Explained(cfg, s.log, EventOf(cfg, s, a).value)
  {
    hide LastOf, LastRecorded, Expired, Limited, Young, JustRefetched;
    if a.Advance? && a.t in s.tasks {
      var u := s.tasks[a.t].user;
      assert CallKept(s, a.t);
      assert Lookup(s, u) == LastRecorded(s.log, u);
      if u in s.entries {
        CachedStamped(cfg, s, u);
        ExpiredIff(cfg, s.entries[u], s.now);
      }
    }
  }

  lemma {:induction false} LastRecordedAt(log: seq<Event>, u: User) returns (i: nat)
    requires LastRecorded(log, u).Some?
    ensures i < |log| && log[i].Recorded? && Some(log[i].entry) == LastRecorded(log, u)
  {
    var n := |log| - 1;
    if log[n].Recorded? && log[n].user == u {
      i := n;
    } else {
      i := LastRecordedAt(log[..n], u);
    }
  }

  lemma CachedStamped(cfg: Config, s: World, u: User)
    requires StampsOrdered(s) && u in s.entries && Lookup(s, u) == LastRecorded(s.log, u)
    ensures s.entries[u].fetchedAt <= s.now
  {
    hide LastRecorded;
    var i := LastRecordedAt(s.log, u);
  }

  // ---------------------------------------------------------------- every run

  lemma {:induction false} RunStamped(cfg: Config, acts: seq<Action>)
    ensures StampsOrdered(Run(cfg, acts))
  {
    hide Step, StampsOrdered;
    if acts == [] {
      NothingStamped();
    } else {
      var n := |acts| - 1;
      RunStamped(cfg, acts[..n]);
      StampsOrderedStep(cfg, Run(cfg, acts[..n]), acts[n]);
    }
  }

  lemma NothingStamped()
    ensures StampsOrdered(Empty)
  {
  }

  lemma {:induction false} RunKept(cfg: Config, acts: seq<Action>, t: nat)
    ensures CallKept(Run(cfg, acts), t)
  {
    hide Step, CallKept;
    if acts == [] {
      NothingKept(t);
    } else {
      var n := |acts| - 1;
      var s, a := Run(cfg, acts[..n]), acts[n];
      RunKept(cfg, acts[..n], t);
      if a.Advance? && a.t == t {
        OwnStep(cfg, s, t, a.answer);
      } else {
        OtherStep(cfg, s, a, t);
      }
    }
  }

  lemma NothingKept(t: nat)
    ensures CallKept(Empty, t)
  {
  }

  /**
   In every interleaving every event has its reason. A hit gives the latest recorded entry, younger than the TTL of its
   kind; a fetch begins only without such an entry, and a refetch only outside the interval; a call is rate limited only
   within it. An entry is recorded only by the call whose executor answered Found or NotFound, with what it answered and
   stamped after it, and a call returns what it recorded.
   */
  lemma {:induction false} EveryEventExplained(cfg: Config, acts: seq<Action>)
    ensures AllExplained(cfg, Run(cfg, acts).log)
  {
    hide Explained, Step, EventOf, CallKept, StampsOrdered, LastRecorded;
    if acts != [] {
      var n := |acts| - 1;
      var s := Run(cfg, acts[..n]);
      EveryEventExplained(cfg, acts[..n]);
      EveryHitIsYoung(cfg, acts[..n]);
      RunStamped(cfg, acts[..n]);
      forall t: nat ensures CallKept(s, t) {
        RunKept(cfg, acts[..n], t);
      }
      StepExplained(cfg, s, acts[n]);
      StepAdds(cfg, s, acts[n], 0);
      MoreExplained(cfg, s.log, EventOf(cfg, s, acts[n]));
    }
  }

  lemma MoreExplained(cfg: Config, log: seq<Event>, x: Option<Event>)
    requires AllExplained(cfg, log) && (x.Some? ==> Explained(cfg, log, x.value))
    ensures AllExplained(cfg, if x.None? then log else log + [x.value])
  {
    hide Explained;
    if x.Some? {
      forall i | 0 <= i <= |log| ensures Explained(cfg, (log + [x.value])[..i], (log + [x.value])[i]) {
        assert (log + [x.value])[..i] == log[..i];
      }
    }
  }

  /** No answer is lost: whoever got one has recorded it or is about to, and returns it or is about to. */
  lemma NoAnswerLost(cfg: Config, acts: seq<Action>, t: nat)
    ensures Pending(Run(cfg, acts), t)
  {
    RunKept(cfg, acts, t);
  }

  /** A call that is dropped at an await point is gone, and nothing else changes; at any other point it stays. */
  lemma Dropped(cfg: Config, s: World, t: nat)
    requires t in s.tasks
    ensures var s' := Step(cfg, s, Drop(t));
            && s'.entries == s.entries && s'.locks == s.locks && s'.log == s.log
            && s'.tasks == if s.tasks[t].pc.Waiting? || s.tasks[t].pc.Fetching? then s.tasks - {t} else s.tasks
  {
  }

  // ---------------------------------------------------------------- both directions of the checks

  /**
   `get_or_fetch` hits exactly when the latest recorded entry is younger than its TTL, and then begins no fetch; otherwise
   it goes on to the lock, and under the lock it begins one.
   */
  lemma HitIffYoung(cfg: Config, acts: seq<Action>, t: nat, answer: Answer)
    requires var s := Run(cfg, acts); t in s.tasks && s.tasks[t].kind.Get? && (s.tasks[t].pc.Start? || s.tasks[t].pc.Holding?)
    ensures var s, s' := Run(cfg, acts), Run(cfg, acts + [Advance(t, answer)]);
            var u := s.tasks[t].user;
            var e := LastRecorded(s.log, u);
            if e.Some? && Young(cfg, e.value, s.now) then
              && t !in s'.tasks && |s'.log| == |s.log| + 1 && s'.log[..|s.log|] == s.log
              && s'.log[|s.log|].Hit? && s'.log[|s.log|].t == t && s'.log[|s.log|].entry == e.value
              && Gives(e.value, s'.log[|s.log|].gives)
            else if s.tasks[t].pc.Start? then t in s'.tasks && s'.tasks[t].pc.NeedLock? && s'.log == s.log
            else t in s'.tasks && s'.tasks[t].pc.Fetching? && s'.log == s.log + [Began(t, u, Get, e, s.now)]
  {
    hide Run, LastRecorded, Expired, Young, EntriesAfter, LocksAfter;
    RunThen(cfg, acts, Advance(t, answer));
    Cached(cfg, acts, Run(cfg, acts).tasks[t].user);
  }

  /** A refetch is rate limited exactly when the latest recorded entry was refetched within the interval. */
  lemma LimitedIffRecent(cfg: Config, acts: seq<Action>, t: nat, answer: Answer)
    requires var s := Run(cfg, acts); t in s.tasks && s.tasks[t].kind.Refetch? && s.tasks[t].pc.Holding?
    ensures var s, s' := Run(cfg, acts), Run(cfg, acts + [Advance(t, answer)]);
            var u := s.tasks[t].user;
            var e := LastRecorded(s.log, u);
            if e.Some? && JustRefetched(cfg, e.value, s.now) then
              t !in s'.tasks && s'.log == s.log + [RateLimited(t, u, NoUser, s.now)]
            else t in s'.tasks && s'.tasks[t].pc.Fetching? && s'.log == s.log + [Began(t, u, Refetch, e, s.now)]
  {
    hide Run, LastRecorded, Limited, JustRefetched, EntriesAfter, LocksAfter;
    RunThen(cfg, acts, Advance(t, answer));
    Cached(cfg, acts, Run(cfg, acts).tasks[t].user);
  }

  /** The cache holds the latest recorded entry, and the two checks read it as they should. */
  lemma Cached(cfg: Config, acts: seq<Action>, u: User)
    ensures var s := Run(cfg, acts);
            && Lookup(s, u) == LastRecorded(s.log, u)
            && (u in s.entries ==>
                  && (Expired(cfg, s.entries[u], s.now) <==> !Young(cfg, s.entries[u], s.now))
                  && (Limited(cfg, s.entries[u], s.now) <==> JustRefetched(cfg, s.entries[u], s.now)))
  {
    hide Run, LastRecorded, StampsOrdered;
    EveryHitIsYoung(cfg, acts);
    RunStamped(cfg, acts);
    var s := Run(cfg, acts);
    if u in s.entries {
      CachedStamped(cfg, s, u);
      ExpiredIff(cfg, s.entries[u], s.now);
    }
  }
}
