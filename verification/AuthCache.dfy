/**
 * The auth-query cache as interleaved steps of its callers (src/auth/auth_query.rs:690-1052): double-checked locking
 * per username, one TTL for users found and one for users not found, and a rate limit on refetches.
 */
module AuthCache {
  import opened Wire

  type User = string

  const MAX_USERNAME_LEN := 63
  const NANOS_PER_MILLI := 1_000_000

  /** Durations in milliseconds; the clock counts nanoseconds. */
  datatype Config = Config(ttl: nat, failureTtl: nat, minInterval: nat)

  datatype Entry = Entry(negative: bool, password: string, fetchedAt: nat, lastRefetch: Option<nat>)

  function TtlOf(cfg: Config, e: Entry): nat {
    if e.negative then cfg.failureTtl else cfg.ttl
  }

  /** `is_expired`: whole milliseconds elapsed against the TTL of the entry's kind. */
  predicate Expired(cfg: Config, e: Entry, now: nat) {
    (now - e.fetchedAt) / NANOS_PER_MILLI >= TtlOf(cfg, e)
  }

  predicate Limited(cfg: Config, e: Entry, now: nat) {
    e.lastRefetch.Some? && now - e.lastRefetch.value < cfg.minInterval * NANOS_PER_MILLI
  }

  // ---------------------------------------------------------------- tasks

  /** `get_or_fetch` and `refetch_on_failure`. */
  datatype Kind = Get | Refetch

  /** How far a call has come. From `Holding` on it has the mutex `l`. */
  datatype Pc =
    | Start
    | NeedLock
    | Waiting(l: nat)
    | Holding(l: nat)
    | Fetching(l: nat)
    | Creating(l: nat, password: Option<string>)
    | Made(l: nat, entry: Entry)
    | Published(l: nat, entry: Entry)

  datatype Task = Task(user: User, kind: Kind, pc: Pc)

  predicate Holds(pc: Pc, l: nat) {
    !pc.Start? && !pc.NeedLock? && !pc.Waiting? && pc.l == l
  }

  /** A fetch has begun and its result is not recorded yet. */
  predicate InFlight(pc: Pc) {
    pc.Fetching? || pc.Creating? || pc.Made?
  }

  /** What the executor replies. */
  datatype Answer = Found(password: string) | NotFound | Failed

  /** What a call returns. */
  datatype Outcome = Credentials(entry: Entry) | NoUser | Error

  function OutcomeOf(e: Entry): Outcome {
    if e.negative then NoUser else Credentials(e)
  }

  datatype Event =
    | Hit(t: nat, user: User, entry: Entry, gives: Outcome, at: nat)
    | Began(t: nat, user: User, kind: Kind, found: Option<Entry>, at: nat)
    | Answered(t: nat, user: User, kind: Kind, answer: Answer, at: nat)
    | Recorded(t: nat, user: User, kind: Kind, entry: Entry)
    | Returned(t: nat, user: User, kind: Kind, gives: Outcome)
    | RateLimited(t: nat, user: User, gives: Outcome, at: nat)
    | Invalidated(user: User)
    | EntryCleared(user: User)
    | LockCleared(user: User)

  datatype World = World(now: nat, entries: map<User, Entry>, locks: map<User, nat>, nextLock: nat,
                         tasks: map<nat, Task>, log: seq<Event>)

  const Empty := World(0, map[], map[], 0, map[], [])

  function Lookup(s: World, u: User): Option<Entry> {
    if u in s.entries then Some(s.entries[u]) else None
  }

  predicate Fresh(cfg: Config, s: World, u: User) {
    u in s.entries && !Expired(cfg, s.entries[u], s.now)
  }

  ghost predicate Held(s: World, l: nat) {
    exists t :: t in s.tasks && Holds(s.tasks[t].pc, l)
  }

  /** The lock object a call clones: the user's, or a new one. */
  function LockFor(s: World, u: User): nat {
    if u in s.locks then s.locks[u] else s.nextLock
  }

  /** Whether the check under the lock ends the call: a fresh entry a `get_or_fetch`, the rate limit a refetch. */
  predicate EndsAtCheck(cfg: Config, s: World, task: Task) {
    match task.kind
    case Get => Fresh(cfg, s, task.user)
    case Refetch => task.user in s.entries && Limited(cfg, s.entries[task.user], s.now)
  }

  /** A refetch stamps its entry once more before it publishes it. */
  predicate NeedsStamp(task: Task) {
    task.pc.Made? && task.kind.Refetch? && task.pc.entry.lastRefetch.None?
  }

  /** Where the next step of a call leads, or nothing when it returns; `answer` is the executor's reply. */
  ghost function Next(cfg: Config, s: World, task: Task, answer: Answer): Option<Pc> {
    match task.pc
    case Start => if Fresh(cfg, s, task.user) then None else Some(NeedLock)
    case NeedLock => Some(Waiting(LockFor(s, task.user)))
    case Waiting(l) => Some(if Held(s, l) then Waiting(l) else Holding(l))
    case Holding(l) => if EndsAtCheck(cfg, s, task) then None else Some(Fetching(l))
    case Fetching(l) =>
      (match answer
       case Found(password) => Some(Creating(l, Some(password)))
       case NotFound => Some(Creating(l, None))
       case Failed => None)
    case Creating(l, password) =>
      Some(Made(l, if password.Some? then Entry(false, password.value, s.now, None) else Entry(true, "", s.now, None)))
    case Made(l, e) => Some(if NeedsStamp(task) then Made(l, e.(lastRefetch := Some(s.now))) else Published(l, e))
    case Published(_, _) => None
  }

  /** What the step shows to the outside. */
  function Shown(cfg: Config, s: World, t: nat, task: Task, answer: Answer): Option<Event> {
    var u := task.user;
    match task.pc
    case Start => if Fresh(cfg, s, u) then Some(Hit(t, u, s.entries[u], OutcomeOf(s.entries[u]), s.now)) else None
    case Holding(_) =>
      if !EndsAtCheck(cfg, s, task) then Some(Began(t, u, task.kind, Lookup(s, u), s.now))
      else if task.kind.Get? then Some(Hit(t, u, s.entries[u], OutcomeOf(s.entries[u]), s.now))
      else Some(RateLimited(t, u, NoUser, s.now))
    case Fetching(_) => Some(Answered(t, u, task.kind, answer, s.now))
    case Made(_, e) => if NeedsStamp(task) then None else Some(Recorded(t, u, task.kind, e))
    case Published(_, e) => Some(Returned(t, u, task.kind, OutcomeOf(e)))
    case _ => None
  }

  /** `Drop` ends a call at one of its await points. `clear` drops entries and lock objects user by user. */
  datatype Action =
    | Tick(d: nat)
    | Call(t: nat, user: User, kind: Kind)
    | Advance(t: nat, answer: Answer)
    | Drop(t: nat)
    | Invalidate(user: User)
    | ClearEntry(user: User)
    | ClearLock(user: User)

  function EventOf(cfg: Config, s: World, a: Action): Option<Event> {
    match a
    case Advance(t, answer) => if t in s.tasks then Shown(cfg, s, t, s.tasks[t], answer) else None
    case Invalidate(u) => Some(Invalidated(u))
    case ClearEntry(u) => Some(EntryCleared(u))
    case ClearLock(u) => Some(LockCleared(u))
    case _ => None
  }

  ghost function TasksAfter(cfg: Config, s: World, a: Action): map<nat, Task> {
    match a
    case Call(t, u, kind) =>
      if t in s.tasks || (kind.Get? && |u| > MAX_USERNAME_LEN) then s.tasks
      else s.tasks[t := Task(u, kind, if kind.Get? then Start else NeedLock)]
    case Advance(t, answer) =>
      if t !in s.tasks then s.tasks
      else
        var pc := Next(cfg, s, s.tasks[t], answer);
        if pc.None? then s.tasks - {t} else s.tasks[t := s.tasks[t].(pc := pc.value)]
    case Drop(t) =>
      if t in s.tasks && (s.tasks[t].pc.Waiting? || s.tasks[t].pc.Fetching?) then s.tasks - {t} else s.tasks
    case _ => s.tasks
  }

  function LocksAfter(s: World, a: Action): map<User, nat> {
    match a
    case Advance(t, _) =>
      if t in s.tasks && s.tasks[t].pc.NeedLock? then s.locks[s.tasks[t].user := LockFor(s, s.tasks[t].user)] else s.locks
    case ClearLock(u) => s.locks - {u}
    case _ => s.locks
  }

  /** Entries change exactly by the events that say so. */
  function EntriesAfter(entries: map<User, Entry>, x: Option<Event>): map<User, Entry> {
    match x
    case Some(Recorded(_, u, _, e)) => entries[u := e]
    case Some(Invalidated(u)) => entries - {u}
    case Some(EntryCleared(u)) => entries - {u}
    case _ => entries
  }

  ghost function Step(cfg: Config, s: World, a: Action): World {
    var x := EventOf(cfg, s, a);
    World(if a.Tick? then s.now + a.d else s.now, EntriesAfter(s.entries, x), LocksAfter(s, a), s.nextLock + 1,
          TasksAfter(cfg, s, a), if x.None? then s.log else s.log + [x.value])
  }

  ghost function Run(cfg: Config, acts: seq<Action>): World {
    if acts == [] then Empty else Step(cfg, Run(cfg, acts[..|acts| - 1]), acts[|acts| - 1])
  }

  // ---------------------------------------------------------------- mutual exclusion

  /** No two calls have the same mutex. */
  ghost predicate Exclusive(s: World) {
    forall t1, t2 :: t1 in s.tasks && t2 in s.tasks && t1 != t2 && !s.tasks[t1].pc.Start? && !s.tasks[t1].pc.NeedLock? ==>
      !(Holds(s.tasks[t1].pc, s.tasks[t1].pc.l) && Holds(s.tasks[t2].pc, s.tasks[t1].pc.l))
  }

  lemma ExclusiveStep(cfg: Config, s: World, a: Action)
    requires Exclusive(s)
    ensures Exclusive(Step(cfg, s, a))
  {
    hide EventOf, EntriesAfter, LocksAfter, Fresh, EndsAtCheck;
  }

  /** While no lock object of a user has been dropped, all its calls have cloned the one in the map. */
  ghost predicate OneLock(s: World, u: User) {
    LockCleared(u) !in s.log ==>
      forall t :: t in s.tasks && s.tasks[t].user == u && !s.tasks[t].pc.Start? && !s.tasks[t].pc.NeedLock? ==>
        u in s.locks && s.tasks[t].pc.l == s.locks[u]
  }

  lemma OneLockStep(cfg: Config, s: World, a: Action, u: User)
    requires OneLock(s, u)
    ensures OneLock(Step(cfg, s, a), u)
  {
  }

  /** What holds in every state. */
  ghost predicate Locked(s: World, u: User) {
    Exclusive(s) && OneLock(s, u)
  }

  lemma {:induction false} RunLocked(cfg: Config, acts: seq<Action>, u: User)
    ensures Locked(Run(cfg, acts), u)
  {
    hide Step;
    if acts != [] {
      var n := |acts| - 1;
      RunLocked(cfg, acts[..n], u);
      ExclusiveStep(cfg, Run(cfg, acts[..n]), acts[n]);
      OneLockStep(cfg, Run(cfg, acts[..n]), acts[n], u);
    }
  }

  /** Every interleaving in which `clear` drops no lock object of a user has at most one fetch for it in flight. */
  lemma OneFetchInFlight(cfg: Config, acts: seq<Action>, u: User, t1: nat, t2: nat)
    requires LockCleared(u) !in Run(cfg, acts).log
    requires t1 in Run(cfg, acts).tasks && t2 in Run(cfg, acts).tasks
    requires var s := Run(cfg, acts); s.tasks[t1].user == u == s.tasks[t2].user && InFlight(s.tasks[t1].pc) && InFlight(s.tasks[t2].pc)
    ensures t1 == t2
  {
    hide Step, Run;
    RunLocked(cfg, acts, u);
  }

  // ---------------------------------------------------------------- fetches of get_or_fetch

  predicate RecordedAt(log: seq<Event>, i: int, u: User) {
    0 <= i < |log| && log[i].Recorded? && log[i].user == u
  }

  predicate GotAt(log: seq<Event>, i: int, u: User) {
    RecordedAt(log, i, u) && log[i].kind.Get?
  }

  predicate NoClears(log: seq<Event>, u: User) {
    LockCleared(u) !in log && EntryCleared(u) !in log
  }

  /** The entry was recorded by event `i` or a later one before `k`. */
  ghost predicate RecordedSince(log: seq<Event>, u: User, e: Entry, i: nat, k: int) {
    exists m :: i <= m < k && RecordedAt(log, m, u) && log[m].entry == e
  }

  /** Event `k` ends what event `i` recorded: an invalidation, or an entry recorded since then found expired. */
  ghost predicate Ends(cfg: Config, log: seq<Event>, u: User, i: nat, k: int) {
    && i < k < |log|
    && (|| log[k] == Invalidated(u)
        || (&& log[k].Began? && log[k].user == u && log[k].found.Some? && Expired(cfg, log[k].found.value, log[k].at)
            && RecordedSince(log, u, log[k].found.value, i, k)))
  }

  ghost predicate Ended(cfg: Config, log: seq<Event>, u: User, i: nat) {
    exists k :: Ends(cfg, log, u, i, k)
  }

  ghost predicate NoGetInFlight(s: World, u: User) {
    forall t :: t in s.tasks && s.tasks[t].user == u && s.tasks[t].kind.Get? ==> !InFlight(s.tasks[t].pc)
  }

  ghost predicate StillHeld(s: World, u: User, i: nat) {
    u in s.entries && RecordedSince(s.log, u, s.entries[u], i, |s.log|) && NoGetInFlight(s, u)
  }

  /** What a `get_or_fetch` recorded is still in the cache with no new fetch under way, or something ended it. */
  ghost predicate GetsEnd(cfg: Config, s: World, u: User) {
    NoClears(s.log, u) ==> forall i: nat :: GotAt(s.log, i, u) ==> Ended(cfg, s.log, u, i) || StillHeld(s, u, i)
  }

  lemma RecordedSinceGrows(log: seq<Event>, x: Event, u: User, e: Entry, i: nat, k: int)
    requires k <= |log| && RecordedSince(log, u, e, i, k)
    ensures RecordedSince(log + [x], u, e, i, k) && RecordedSince(log + [x], u, e, i, k + 1)
  {
    var m :| i <= m < k && RecordedAt(log, m, u) && log[m].entry == e;
    assert RecordedAt(log + [x], m, u) && (log + [x])[m].entry == e;
  }

  lemma EndedGrows(cfg: Config, log: seq<Event>, x: Event, u: User, i: nat, k: int)
    requires Ends(cfg, log, u, i, k)
    ensures Ends(cfg, log + [x], u, i, k)
  {
    if log[k] != Invalidated(u) {
      RecordedSinceGrows(log, x, u, log[k].found.value, i, k);
    }
  }

  /** A step appends at most one event. */
  lemma StepLogs(cfg: Config, s: World, a: Action)
    ensures var s' := Step(cfg, s, a); s'.log == s.log || s'.log == s.log + [s'.log[|s.log|]]
  {
  }

  /** What a step that logs does to the entry of one user. */
  lemma StepEntry(cfg: Config, s: World, a: Action, u: User)
    ensures var s' := Step(cfg, s, a);
            if s'.log == s.log + [Invalidated(u)] || s'.log == s.log + [EntryCleared(u)] then u !in s'.entries
            else if |s'.log| > |s.log| && RecordedAt(s'.log, |s.log|, u) then Lookup(s', u) == Some(s'.log[|s.log|].entry)
            else Lookup(s', u) == Lookup(s, u)
  {
    hide EventOf, TasksAfter, LocksAfter;
    var s' := Step(cfg, s, a);
    assert |s'.log| > |s.log| ==> EventOf(cfg, s, a) == Some(s'.log[|s.log|]);
    assert (s.log + [Invalidated(u)])[|s.log|] == Invalidated(u);
    assert (s.log + [EntryCleared(u)])[|s.log|] == EntryCleared(u);
  }

  /** A call comes to have a fetch in flight only by the event that begins it. */
  lemma StepBegins(cfg: Config, s: World, a: Action, u: User, t: nat)
    requires t in Step(cfg, s, a).tasks
    ensures var s' := Step(cfg, s, a); var task := s'.tasks[t];
            task.user == u && InFlight(task.pc) ==>
              && t in s.tasks && s.tasks[t].user == u && s.tasks[t].kind == task.kind
              && (InFlight(s.tasks[t].pc) ||
                  (s'.log == s.log + [Began(t, u, task.kind, Lookup(s, u), s.now)] && (task.kind.Get? ==> !Fresh(cfg, s, u))))
  {
  }

  /** When a result is recorded, no other call has a fetch for that user in flight. */
  lemma RecordsAlone(cfg: Config, s: World, a: Action, u: User)
    requires Locked(s, u) && NoClears(s.log, u)
    requires var s' := Step(cfg, s, a); |s'.log| > |s.log| && RecordedAt(s'.log, |s.log|, u)
    ensures var s' := Step(cfg, s, a); forall t :: t in s'.tasks && s'.tasks[t].user == u ==> !InFlight(s'.tasks[t].pc)
  {
  }

  lemma GetsEndStep(cfg: Config, s: World, a: Action, u: User, i: nat)
    requires Locked(s, u) && GetsEnd(cfg, s, u)
    requires NoClears(Step(cfg, s, a).log, u) && GotAt(Step(cfg, s, a).log, i, u)
    ensures Ended(cfg, Step(cfg, s, a).log, u, i) || StillHeld(Step(cfg, s, a), u, i)
  {
    hide Step, Locked;
    var s' := Step(cfg, s, a);
    StepLogs(cfg, s, a);
    assert NoClears(s.log, u);
    if i < |s.log| && Ended(cfg, s.log, u, i) {
      var k :| Ends(cfg, s.log, u, i, k);
      if s'.log != s.log {
        EndedGrows(cfg, s.log, s'.log[|s.log|], u, i, k);
      }
      assert Ends(cfg, s'.log, u, i, k);
    } else if |s'.log| > |s.log| && RecordedAt(s'.log, |s.log|, u) {
      RecordsAlone(cfg, s, a, u);
      StepEntry(cfg, s, a, u);
      assert StillHeld(s', u, i);
    } else {
      assert GotAt(s.log, i, u);
      HeldStep(cfg, s, a, u, i);
    }
  }

  /** What is held stays held, or the event of this step ends it. */
  lemma HeldStep(cfg: Config, s: World, a: Action, u: User, i: nat)
    requires StillHeld(s, u, i) && NoClears(Step(cfg, s, a).log, u) && i < |s.log|
    requires var s' := Step(cfg, s, a); |s'.log| > |s.log| ==> !RecordedAt(s'.log, |s.log|, u)
    ensures Ended(cfg, Step(cfg, s, a).log, u, i) || StillHeld(Step(cfg, s, a), u, i)
  {
    hide Step;
    var s' := Step(cfg, s, a);
    StepLogs(cfg, s, a);
    StepEntry(cfg, s, a, u);
    if s'.log != s.log {
      RecordedSinceGrows(s.log, s'.log[|s.log|], u, s.entries[u], i, |s.log|);
    }
    if s'.log == s.log + [Invalidated(u)] {
      assert Ends(cfg, s'.log, u, i, |s.log|);
    } else if !NoGetInFlight(s', u) {
      var t :| t in s'.tasks && s'.tasks[t].user == u && s'.tasks[t].kind.Get? && InFlight(s'.tasks[t].pc);
      StepBegins(cfg, s, a, u, t);
      assert Ends(cfg, s'.log, u, i, |s.log|);
    }
  }

  /** Between two recorded fetches of `get_or_fetch` something ended what the first recorded. */
  ghost predicate Separated(cfg: Config, log: seq<Event>, u: User) {
    forall i: nat, j :: i < j && GotAt(log, i, u) && GotAt(log, j, u) ==> exists k :: k < j && Ends(cfg, log, u, i, k)
  }

  lemma SeparatedStep(cfg: Config, s: World, a: Action, u: User)
    requires GetsEnd(cfg, s, u) && Separated(cfg, s.log, u) && NoClears(s.log, u)
    ensures Separated(cfg, Step(cfg, s, a).log, u)
  {
    hide Step;
    var s' := Step(cfg, s, a);
    StepLogs(cfg, s, a);
    forall i: nat, j | i < j && GotAt(s'.log, i, u) && GotAt(s'.log, j, u)
      ensures exists k :: k < j && Ends(cfg, s'.log, u, i, k)
    {
      assert GotAt(s.log, i, u);
      var k;
      if j < |s.log| {
        assert GotAt(s.log, j, u);
        k :| k < j && Ends(cfg, s.log, u, i, k);
      } else {
        GetWasInFlight(cfg, s, a, u);
        k :| Ends(cfg, s.log, u, i, k);
      }
      if s'.log != s.log {
        EndedGrows(cfg, s.log, s'.log[|s.log|], u, i, k);
      }
    }
  }

  /** What `get_or_fetch` records, it had in flight. */
  lemma GetWasInFlight(cfg: Config, s: World, a: Action, u: User)
    requires |Step(cfg, s, a).log| > |s.log| && GotAt(Step(cfg, s, a).log, |s.log|, u)
    ensures !NoGetInFlight(s, u)
  {
    assert a.Advance? && a.t in s.tasks && s.tasks[a.t].pc.Made?;
  }

  lemma {:induction false} RunSeparated(cfg: Config, acts: seq<Action>, u: User)
    requires NoClears(Run(cfg, acts).log, u)
    ensures GetsEnd(cfg, Run(cfg, acts), u) && Separated(cfg, Run(cfg, acts).log, u)
  {
    hide Step;
    if acts != [] {
      var n := |acts| - 1;
      var s := Run(cfg, acts[..n]);
      StepLogs(cfg, s, acts[n]);
      RunSeparated(cfg, acts[..n], u);
      RunLocked(cfg, acts[..n], u);
      SeparatedStep(cfg, s, acts[n], u);
      forall i: nat | GotAt(Run(cfg, acts).log, i, u)
        ensures Ended(cfg, Run(cfg, acts).log, u, i) || StillHeld(Run(cfg, acts), u, i)
      {
        GetsEndStep(cfg, s, acts[n], u, i);
      }
    }
  }

  /**
   * In every interleaving without `clear`, two recorded fetches begun by `get_or_fetch` for one user have between
   * them an invalidation, or a fetch that found an entry recorded since the first one expired.
   */
  lemma FetchesHaveAnEndBetween(cfg: Config, acts: seq<Action>, u: User, i: nat, j: nat)
    requires NoClears(Run(cfg, acts).log, u)
    requires i < j && GotAt(Run(cfg, acts).log, i, u) && GotAt(Run(cfg, acts).log, j, u)
    ensures exists k :: i < k < j && Ends(cfg, Run(cfg, acts).log, u, i, k)
  {
    RunSeparated(cfg, acts, u);
  }

  // ---------------------------------------------------------------- hits

  /** What a run of events leaves in the cache for a user. */
  function LastRecorded(log: seq<Event>, u: User): Option<Entry> {
    if log == [] then None
    else
      var x := log[|log| - 1];
      if x.Recorded? && x.user == u then Some(x.entry)
      else if x == Invalidated(u) || x == EntryCleared(u) then None
      else LastRecorded(log[..|log| - 1], u)
  }

  ghost predicate HitsSound(cfg: Config, log: seq<Event>) {
    forall i :: 0 <= i < |log| && log[i].Hit? ==>
      && log[i].at - log[i].entry.fetchedAt < (if log[i].entry.negative then cfg.failureTtl else cfg.ttl) * NANOS_PER_MILLI
      && LastRecorded(log[..i], log[i].user) == Some(log[i].entry)
  }

  /** Every hit returns the latest recorded entry, not invalidated since, and it is younger than the TTL of its kind. */
  lemma {:induction false} EveryHitIsYoung(cfg: Config, acts: seq<Action>)
    ensures HitsSound(cfg, Run(cfg, acts).log)
    ensures forall u :: Lookup(Run(cfg, acts), u) == LastRecorded(Run(cfg, acts).log, u)
  {
    if acts != [] {
      hide Step, HitsSound;
      var n := |acts| - 1;
      var s, s' := Run(cfg, acts[..n]), Run(cfg, acts);
      EveryHitIsYoung(cfg, acts[..n]);
      StepLogs(cfg, s, acts[n]);
      forall u ensures Lookup(s', u) == LastRecorded(s'.log, u) {
        StepEntry(cfg, s, acts[n], u);
        assert s'.log != s.log ==> s'.log[..|s'.log| - 1] == s.log;
      }
      HitStep(cfg, s, acts[n]);
    }
  }

  lemma HitStep(cfg: Config, s: World, a: Action)
    requires HitsSound(cfg, s.log) && forall u :: Lookup(s, u) == LastRecorded(s.log, u)
    ensures HitsSound(cfg, Step(cfg, s, a).log)
  {
    var s' := Step(cfg, s, a);
    StepLogs(cfg, s, a);
    forall i | 0 <= i < |s'.log| && s'.log[i].Hit?
      ensures s'.log[i].at - s'.log[i].entry.fetchedAt
            < (if s'.log[i].entry.negative then cfg.failureTtl else cfg.ttl) * NANOS_PER_MILLI
      ensures LastRecorded(s'.log[..i], s'.log[i].user) == Some(s'.log[i].entry)
    {
      if i < |s.log| {
        assert s'.log[..i] == s.log[..i];
      } else {
        assert s'.log[..i] == s.log;
      }
    }
  }

  // ---------------------------------------------------------------- the rate limit

  predicate RefetchedAt(log: seq<Event>, i: int, u: User) {
    RecordedAt(log, i, u) && log[i].kind.Refetch?
  }

  predicate Undisturbed(log: seq<Event>, u: User) {
    NoClears(log, u) && Invalidated(u) !in log
  }

  /** Entries are stamped in order. */
  predicate Stamped(e: Entry, now: nat) {
    e.fetchedAt <= now && (e.lastRefetch.Some? ==> e.fetchedAt <= e.lastRefetch.value <= now)
  }

  ghost predicate StampsOrdered(s: World) {
    && (forall t :: t in s.tasks && s.tasks[t].pc.Made? ==> Stamped(s.tasks[t].pc.entry, s.now))
    && (forall i :: 0 <= i < |s.log| && s.log[i].Recorded? ==>
          Stamped(s.log[i].entry, s.now) && (s.log[i].kind.Refetch? ==> s.log[i].entry.lastRefetch.Some?))
  }

  lemma StampsOrderedStep(cfg: Config, s: World, a: Action)
    requires StampsOrdered(s)
    ensures StampsOrdered(Step(cfg, s, a))
  {
    StepLogs(cfg, s, a);
  }

  ghost predicate Idle(s: World, u: User) {
    forall t :: t in s.tasks && s.tasks[t].user == u ==> !InFlight(s.tasks[t].pc)
  }

  /** The time from which a new fetch is allowed after a recorded refetch. */
  function Allowed(cfg: Config, e: Entry): nat {
    e.fetchedAt + cfg.minInterval * NANOS_PER_MILLI
  }

  /** Until then the entry stays, and nobody fetches. */
  ghost predicate Quiet(cfg: Config, s: World, u: User) {
    forall i :: RefetchedAt(s.log, i, u) ==>
      s.now >= Allowed(cfg, s.log[i].entry) || (Lookup(s, u) == Some(s.log[i].entry) && Idle(s, u))
  }

  /** Every fetch for the user begins at least `min_interval` after the result of each refetch recorded before it. */
  ghost predicate Spaced(cfg: Config, log: seq<Event>, u: User) {
    forall i, k :: RefetchedAt(log, i, u) && i < k < |log| && log[k].Began? && log[k].user == u ==>
      log[k].at >= Allowed(cfg, log[i].entry)
  }

  predicate TtlsCover(cfg: Config) {
    cfg.ttl >= cfg.minInterval && cfg.failureTtl >= cfg.minInterval
  }

  /** An entry that a refetch recorded stops every fetch until the interval is over. */
  lemma NothingBegins(cfg: Config, s: World, a: Action, u: User, e: Entry)
    requires TtlsCover(cfg) && Lookup(s, u) == Some(e) && s.now < Allowed(cfg, e)
    requires Stamped(e, s.now) && e.lastRefetch.Some?
    ensures var s' := Step(cfg, s, a); |s'.log| > |s.log| ==> !(s'.log[|s.log|].Began? && s'.log[|s.log|].user == u)
  {
  }

  /** What is recorded was in flight. */
  lemma WasInFlight(cfg: Config, s: World, a: Action, u: User)
    requires |Step(cfg, s, a).log| > |s.log| && RecordedAt(Step(cfg, s, a).log, |s.log|, u)
    ensures !Idle(s, u)
  {
    assert a.Advance? && a.t in s.tasks && s.tasks[a.t].pc.Made?;
  }

  lemma QuietStep(cfg: Config, s: World, a: Action, u: User)
    requires TtlsCover(cfg) && Locked(s, u) && StampsOrdered(s) && Quiet(cfg, s, u) && Undisturbed(Step(cfg, s, a).log, u)
    ensures Quiet(cfg, Step(cfg, s, a), u)
  {
    hide Step, Locked, StampsOrdered, Quiet;
    var s' := Step(cfg, s, a);
    StepLogs(cfg, s, a);
    forall i | RefetchedAt(s'.log, i, u)
      ensures s'.now >= Allowed(cfg, s'.log[i].entry) || (Lookup(s', u) == Some(s'.log[i].entry) && Idle(s', u))
    {
      if i == |s.log| {
        RecordsAlone(cfg, s, a, u);
        StepEntry(cfg, s, a, u);
      } else {
        QuietFor(cfg, s, a, u, i);
      }
    }
    QuietIs(cfg, s', u);
  }

  lemma QuietIs(cfg: Config, s: World, u: User)
    requires forall i :: RefetchedAt(s.log, i, u) ==>
               s.now >= Allowed(cfg, s.log[i].entry) || (Lookup(s, u) == Some(s.log[i].entry) && Idle(s, u))
    ensures Quiet(cfg, s, u)
  {
  }

  lemma ClockForward(cfg: Config, s: World, a: Action)
    ensures Step(cfg, s, a).now >= s.now
  {
  }

  lemma QuietFor(cfg: Config, s: World, a: Action, u: User, i: nat)
    requires TtlsCover(cfg) && StampsOrdered(s) && Quiet(cfg, s, u) && RefetchedAt(s.log, i, u)
    requires Undisturbed(Step(cfg, s, a).log, u)
    ensures var s' := Step(cfg, s, a);
            s'.now >= Allowed(cfg, s.log[i].entry) || (Lookup(s', u) == Some(s.log[i].entry) && Idle(s', u))
  {
    hide Step;
    var s' := Step(cfg, s, a);
    var e := s.log[i].entry;
    StepLogs(cfg, s, a);
    ClockForward(cfg, s, a);
    if s'.now < Allowed(cfg, e) {
      NothingBegins(cfg, s, a, u, e);
      if |s'.log| > |s.log| && RecordedAt(s'.log, |s.log|, u) {
        WasInFlight(cfg, s, a, u);
      }
      StepEntry(cfg, s, a, u);
      forall t | t in s'.tasks && s'.tasks[t].user == u ensures !InFlight(s'.tasks[t].pc) {
        StepBegins(cfg, s, a, u, t);
      }
    }
  }

  lemma SpacedStep(cfg: Config, s: World, a: Action, u: User)
    requires TtlsCover(cfg) && StampsOrdered(s) && Quiet(cfg, s, u) && Spaced(cfg, s.log, u)
    ensures Spaced(cfg, Step(cfg, s, a).log, u)
  {
    hide Step;
    var s' := Step(cfg, s, a);
    StepLogs(cfg, s, a);
    forall i, k | RefetchedAt(s'.log, i, u) && i < k < |s'.log| && s'.log[k].Began? && s'.log[k].user == u
      ensures s'.log[k].at >= Allowed(cfg, s'.log[i].entry)
    {
      assert RefetchedAt(s.log, i, u);
      if k == |s.log| {
        BeganNow(cfg, s, a);
        if s.now < Allowed(cfg, s.log[i].entry) {
          NothingBegins(cfg, s, a, u, s.log[i].entry);
        }
      }
    }
  }

  lemma BeganNow(cfg: Config, s: World, a: Action)
    requires |Step(cfg, s, a).log| > |s.log| && Step(cfg, s, a).log[|s.log|].Began?
    ensures Step(cfg, s, a).log[|s.log|].at == s.now
  {
  }

  lemma {:induction false} RunSpaced(cfg: Config, acts: seq<Action>, u: User)
    requires TtlsCover(cfg) && Undisturbed(Run(cfg, acts).log, u)
    ensures var s := Run(cfg, acts); StampsOrdered(s) && Quiet(cfg, s, u) && Spaced(cfg, s.log, u)
  {
    if acts != [] {
      hide Step, Locked, StampsOrdered, Quiet, Spaced;
      var n := |acts| - 1;
      var s := Run(cfg, acts[..n]);
      StepLogs(cfg, s, acts[n]);
      RunSpaced(cfg, acts[..n], u);
      RunLocked(cfg, acts[..n], u);
      StampsOrderedStep(cfg, s, acts[n]);
      QuietStep(cfg, s, acts[n], u);
      SpacedStep(cfg, s, acts[n], u);
    }
  }

  // ---------------------------------------------------------------- exactly when the rate limit holds

  /** Refetches are spaced by `min_interval` in every run that no `invalidate` and no `clear` disturbs. */
  ghost predicate RateKept(cfg: Config) {
    forall acts, u, i, k ::
      var log := Run(cfg, acts).log;
      Undisturbed(log, u) && RefetchedAt(log, i, u) && RefetchBegunAt(log, k, u) && i < k ==>
        log[k].at >= Allowed(cfg, log[i].entry)
  }

  predicate RefetchBegunAt(log: seq<Event>, k: int, u: User) {
    0 <= k < |log| && log[k].Began? && log[k].user == u && log[k].kind.Refetch?
  }

  lemma RunThen(cfg: Config, acts: seq<Action>, a: Action)
    ensures Run(cfg, acts + [a]) == Step(cfg, Run(cfg, acts), a)
  {
    assert (acts + [a])[..|acts|] == acts;
  }

  /** A step of the only call there is. */
  lemma Alone(cfg: Config, acts: seq<Action>, task: Task, answer: Answer) returns (more: seq<Action>)
    requires Run(cfg, acts).tasks == map[0 := task]
    ensures var s, s' := Run(cfg, acts), Run(cfg, more);
            && (var pc := Next(cfg, s, task, answer);
                s'.tasks == if pc.None? then map[] else map[0 := task.(pc := pc.value)])
            && s'.now == s.now && s'.log == s.log + (var x := Shown(cfg, s, 0, task, answer); if x.None? then [] else [x.value])
            && s'.entries == EntriesAfter(s.entries, Shown(cfg, s, 0, task, answer))
            && (task.pc.Waiting? ==> !Held(s, task.pc.l))
  {
    hide Next, Shown, EntriesAfter;
    more := acts + [Advance(0, answer)];
    RunThen(cfg, acts, Advance(0, answer));
    var s := Run(cfg, acts);
    assert 0 in s.tasks;
    assert Run(cfg, more) == Step(cfg, s, Advance(0, answer));
  }

  /** A call that its check lets through, up to the moment its fetch begins. */
  lemma Begins(cfg: Config, acts: seq<Action>, u: User, kind: Kind) returns (more: seq<Action>, l: nat)
    requires var s := Run(cfg, acts); s.tasks == map[] && !EndsAtCheck(cfg, s, Task(u, kind, Start)) && |u| <= MAX_USERNAME_LEN
    ensures var s, s' := Run(cfg, acts), Run(cfg, more);
            && s'.tasks == map[0 := Task(u, kind, Fetching(l))] && s'.now == s.now && s'.entries == s.entries
            && s'.log == s.log + [Began(0, u, kind, Lookup(s, u), s.now)]
  {
    hide Step, Run;
    var s := Run(cfg, acts);
    more := acts + [Call(0, u, kind)];
    RunThen(cfg, acts, Call(0, u, kind));
    Called(cfg, s, u, kind);
    if kind.Get? {
      more := Alone(cfg, more, Task(u, kind, Start), Failed);
    }
    l := LockFor(Run(cfg, more), u);
    more := Alone(cfg, more, Task(u, kind, NeedLock), Failed);
    more := Alone(cfg, more, Task(u, kind, Waiting(l)), Failed);
    more := Alone(cfg, more, Task(u, kind, Holding(l)), Failed);
  }

  lemma Called(cfg: Config, s: World, u: User, kind: Kind)
    requires s.tasks == map[] && |u| <= MAX_USERNAME_LEN
    ensures var s' := Step(cfg, s, Call(0, u, kind));
            && s'.tasks == map[0 := Task(u, kind, if kind.Get? then Start else NeedLock)]
            && s'.now == s.now && s'.entries == s.entries && s'.log == s.log
  {
  }

  function EntryMade(kind: Kind, negative: bool, now: nat): Entry {
    Entry(negative, "", now, if kind.Refetch? then Some(now) else None)
  }

  function ReplyMade(negative: bool): Answer { if negative then NotFound else Found("") }

  /** The events of one call that fetches, from beginning to end. */
  function Fetched(u: User, kind: Kind, negative: bool, found: Option<Entry>, now: nat): seq<Event> {
    var e := EntryMade(kind, negative, now);
    [Began(0, u, kind, found, now), Answered(0, u, kind, ReplyMade(negative), now), Recorded(0, u, kind, e),
     Returned(0, u, kind, OutcomeOf(e))]
  }

  /** The same call up to its return. */
  lemma Fetches(cfg: Config, acts: seq<Action>, u: User, kind: Kind, negative: bool) returns (more: seq<Action>)
    requires var s := Run(cfg, acts); s.tasks == map[] && !EndsAtCheck(cfg, s, Task(u, kind, Start)) && |u| <= MAX_USERNAME_LEN
    ensures var s, s' := Run(cfg, acts), Run(cfg, more);
            && s'.tasks == map[] && s'.now == s.now && s'.entries == s.entries[u := EntryMade(kind, negative, s.now)]
            && s'.log == s.log + Fetched(u, kind, negative, Lookup(s, u), s.now)
  {
    hide Step, Run, EndsAtCheck;
    var s := Run(cfg, acts);
    var l;
    more, l := Begins(cfg, acts, u, kind);
    more := Alone(cfg, more, Task(u, kind, Fetching(l)), ReplyMade(negative));
    more := Alone(cfg, more, Task(u, kind, Creating(l, if negative then None else Some(""))), Failed);
    more := Publishes(cfg, more, u, kind, l, Entry(negative, "", s.now, None));
  }

  /** A call with its entry made, up to its return. */
  lemma Publishes(cfg: Config, acts: seq<Action>, u: User, kind: Kind, l: nat, made: Entry) returns (more: seq<Action>)
    requires Run(cfg, acts).tasks == map[0 := Task(u, kind, Made(l, made))] && made.lastRefetch.None?
    ensures var s, s' := Run(cfg, acts), Run(cfg, more);
            var e := if kind.Refetch? then made.(lastRefetch := Some(s.now)) else made;
            && s'.tasks == map[] && s'.now == s.now && s'.entries == s.entries[u := e]
            && s'.log == s.log + [Recorded(0, u, kind, e), Returned(0, u, kind, OutcomeOf(e))]
  {
    hide Step, Run;
    more := acts;
    var e := made;
    if kind.Refetch? {
      more := Alone(cfg, more, Task(u, kind, Made(l, e)), Failed);
      e := e.(lastRefetch := Some(Run(cfg, acts).now));
    }
    more := Alone(cfg, more, Task(u, kind, Made(l, e)), Failed);
    more := Alone(cfg, more, Task(u, kind, Published(l, e)), Failed);
  }

  lemma Ticked(cfg: Config, acts: seq<Action>, d: nat)
    ensures var s, s' := Run(cfg, acts), Run(cfg, acts + [Tick(d)]);
            s'.now == s.now + d && s'.tasks == s.tasks && s'.entries == s.entries && s'.log == s.log
  {
    RunThen(cfg, acts, Tick(d));
  }

  /** A TTL below `min_interval`: the entry expires, `get_or_fetch` forgets the refetch, and the next one is let through. */
  lemma TooSoon(cfg: Config, negative: bool)
    requires (if negative then cfg.failureTtl else cfg.ttl) < cfg.minInterval
    ensures !RateKept(cfg)
  {
    hide Step, Run, Fetched;
    var u := "u";
    var ttl := if negative then cfg.failureTtl else cfg.ttl;
    RunOfNothing(cfg);
    var acts := Fetches(cfg, [], u, Refetch, negative);
    var e := EntryMade(Refetch, negative, 0);
    Ticked(cfg, acts, ttl * NANOS_PER_MILLI);
    acts := acts + [Tick(ttl * NANOS_PER_MILLI)];
    acts := Fetches(cfg, acts, u, Get, negative);
    var l;
    acts, l := Begins(cfg, acts, u, Refetch);
    var later := ttl * NANOS_PER_MILLI;
    var found := EntryMade(Get, negative, later);
    LogOfTooSoon(u, negative, e, found, later);
    var log := Run(cfg, acts).log;
    assert log == TooSoonLog(u, negative, e, found, later);
    assert log[8].at < Allowed(cfg, e);
  }

  /** A refetch, a fetch after its entry has expired, and the beginning of a refetch. */
  function TooSoonLog(u: User, negative: bool, e: Entry, found: Entry, later: nat): seq<Event> {
    [] + Fetched(u, Refetch, negative, None, 0) + Fetched(u, Get, negative, Some(e), later) +
    [Began(0, u, Refetch, Some(found), later)]
  }

  lemma LogOfTooSoon(u: User, negative: bool, e: Entry, found: Entry, later: nat)
    requires e == EntryMade(Refetch, negative, 0)
    ensures var log := TooSoonLog(u, negative, e, found, later);
            && Undisturbed(log, u) && RefetchedAt(log, 2, u) && log[2].entry == e
            && RefetchBegunAt(log, 8, u) && log[8].at == later
  {
  }

  lemma RunOfNothing(cfg: Config)
    ensures Run(cfg, []) == Empty
  {
  }

  /** The rate limit holds over all undisturbed runs if and only if both TTLs are at least `min_interval`. */
  lemma RateLimitIff(cfg: Config)
    ensures RateKept(cfg) <==> TtlsCover(cfg)
  {
    hide Run;
    if cfg.ttl < cfg.minInterval {
      TooSoon(cfg, false);
    } else if cfg.failureTtl < cfg.minInterval {
      TooSoon(cfg, true);
    } else {
      forall acts, u, i, k |
        var log := Run(cfg, acts).log;
        Undisturbed(log, u) && RefetchedAt(log, i, u) && RefetchBegunAt(log, k, u) && i < k
        ensures Run(cfg, acts).log[k].at >= Allowed(cfg, Run(cfg, acts).log[i].entry)
      {
        RunSpaced(cfg, acts, u);
      }
    }
  }

  // ---------------------------------------------------------------- what clear breaks

  ghost predicate TwoInFlight(s: World, u: User) {
    exists t1, t2 :: t1 in s.tasks && t2 in s.tasks && t1 != t2 && s.tasks[t1].user == u == s.tasks[t2].user
                     && InFlight(s.tasks[t1].pc) && InFlight(s.tasks[t2].pc)
  }

  /** With the lock object dropped in between, two fetches for one user are in flight at once. */
  lemma ClearAdmitsTwo(cfg: Config) returns (acts: seq<Action>)
    ensures TwoInFlight(Run(cfg, acts), "u")
  {
    hide Run;
    var u := "u";
    RunOfNothing(cfg);
    acts := StartRefetch(cfg, [], 0, u, Empty);
    var s := Run(cfg, acts);
    RunThen(cfg, acts, ClearLock(u));
    acts := acts + [ClearLock(u)];
    acts := StartRefetch(cfg, acts, 1, u, Run(cfg, acts));
    assert InFlight(Run(cfg, acts).tasks[0].pc) && InFlight(Run(cfg, acts).tasks[1].pc);
  }

  /** A refetch that finds no entry and no lock object begins its fetch, beside whatever else runs. */
  lemma StartRefetch(cfg: Config, acts: seq<Action>, t: nat, u: User, s: World) returns (more: seq<Action>)
    requires s == Run(cfg, acts) && t !in s.tasks && u !in s.locks && u !in s.entries
    requires forall t' :: t' in s.tasks ==> !s.tasks[t'].pc.Start? && !s.tasks[t'].pc.NeedLock? && s.tasks[t'].pc.l < s.nextLock
    ensures var s' := Run(cfg, more);
            && s'.tasks == s.tasks[t := Task(u, Refetch, Fetching(s.nextLock + 1))]
            && s'.entries == s.entries && s'.nextLock == s.nextLock + 4
  {
    hide Run;
    RunThen(cfg, acts, Call(t, u, Refetch));
    more := acts + [Call(t, u, Refetch)];
    var s1 := Run(cfg, more);
    assert s1.tasks == s.tasks[t := Task(u, Refetch, NeedLock)];
    RunThen(cfg, more, Advance(t, Failed));
    more := more + [Advance(t, Failed)];
    var s2 := Run(cfg, more);
    assert s2.tasks == s.tasks[t := Task(u, Refetch, Waiting(s.nextLock + 1))];
    assert !Held(s2, s.nextLock + 1);
    RunThen(cfg, more, Advance(t, Failed));
    more := more + [Advance(t, Failed)];
    var s3 := Run(cfg, more);
    assert s3.tasks == s.tasks[t := Task(u, Refetch, Holding(s.nextLock + 1))];
    RunThen(cfg, more, Advance(t, Failed));
    more := more + [Advance(t, Failed)];
  }
}
