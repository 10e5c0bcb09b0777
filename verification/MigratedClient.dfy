/** What a client may still refer to after its connection has moved to a new process. */
module MigratedClient {
  import opened Wire
  import opened Statements
  import opened PreparedCache
  import opened ClientProtocol
  import opened ClientRenaming
  import opened MigratedCache

  /** `reconstruct_prepared_state`: the replayed cache in an otherwise new state, so with no latest unnamed statement. */
  function Arrived<Ip>(u: Strings, w: World, cap: nat, s: M.State<Ip>): ClientState {
    NewClient(s.preparedEnabled, cap).(asyncClient := s.asyncClient,
                                       cache := Replay(u, w, s.asyncClient, cap, s.entries, |s.entries|))
  }

  /** The new pool's promise for each entry it registers: its names are bound to the text of the entry. */
  ghost predicate Rebinds(u: Strings, w: World, asyncClient: bool, bound: Bindings, es: seq<M.Entry>) {
    forall i :: 0 <= i < |es| && w.register(i).Some? ==>
      Means(bound, ServerNameOf(Restored(w, asyncClient, es[i], i)), w.register(i).value.text)
  }

  ghost predicate AllBound(c: Cache, bound: Bindings) {
    && ValidCache(c)
    && forall k :: Peek(c, k).Some? ==> Means(bound, ServerNameOf(Peek(c, k).value), Peek(c, k).value.parse.text)
  }

  lemma PutBound(c: Cache, bound: Bindings, key: Key, v: CachedStatement)
    requires AllBound(c, bound) && Means(bound, ServerNameOf(v), v.parse.text)
    ensures AllBound(CachePut(c, key, v).0, bound)
  {
    hide ValidCache, CachePut;
    var victim := PutWrites(c, key, v);
  }

  lemma {:induction false} ReplayBound(u: Strings, w: World, asyncClient: bool, cap: nat, bound: Bindings,
                                       es: seq<M.Entry>, n: nat)
    requires n <= |es| && Rebinds(u, w, asyncClient, bound, es)
    ensures AllBound(Replay(u, w, asyncClient, cap, es, n), bound)
  {
    hide CachePut, AllBound;
    if n == 0 {
      NewBound(cap, bound);
    } else {
      ReplayBound(u, w, asyncClient, cap, bound, es, n - 1);
      if w.register(n - 1).Some? {
        PutBound(Replay(u, w, asyncClient, cap, es, n - 1), bound, KeyOf(u, es[n - 1].key),
                 Restored(w, asyncClient, es[n - 1], n - 1));
      }
    }
  }

  /** Every entry of the replayed cache goes by its own drawn name for an async client, and by the pool's otherwise. */
  ghost predicate NamedAfresh(w: World, asyncClient: bool, c: Cache, n: nat) {
    && ValidCache(c)
    && forall k :: Peek(c, k).Some? ==>
         exists i :: 0 <= i < n && w.register(i).Some? && ServerNameOf(Peek(c, k).value) == FreshName(w, asyncClient, i)
  }

  function FreshName(w: World, asyncClient: bool, i: nat): ServerName
    requires w.register(i).Some?
  {
    if asyncClient then Async(w.draw(i)) else w.register(i).value.name
  }

  lemma {:induction false} ReplayNames(u: Strings, w: World, asyncClient: bool, cap: nat, es: seq<M.Entry>, n: nat)
    requires n <= |es|
    ensures NamedAfresh(w, asyncClient, Replay(u, w, asyncClient, cap, es, n), n)
  {
    hide CachePut, ValidCache, NewCache;
    if n == 0 {
      NewBound(cap, map[]);
      NothingCached(cap);
    } else {
      ReplayNames(u, w, asyncClient, cap, es, n - 1);
      var c := Replay(u, w, asyncClient, cap, es, n - 1);
      if w.register(n - 1).Some? {
        var v := Restored(w, asyncClient, es[n - 1], n - 1);
        assert ServerNameOf(v) == FreshName(w, asyncClient, n - 1);
        var victim := PutWrites(c, KeyOf(u, es[n - 1].key), v);
      }
    }
  }

  lemma NothingCached(cap: nat)
    ensures ValidCache(NewCache(cap)) && forall k :: Peek(NewCache(cap), k).None?
  {
  }

  lemma NewBound(cap: nat, bound: Bindings)
    ensures AllBound(NewCache(cap), bound)
  {
  }

  /** A sound cache, migrated and rebound, is sound for what the client knew, less the unnamed statement. */
  lemma MigratedSound(c: Cache, c': Cache, cap: nat, last: Option<nat>, h: Hashing, bound: Bindings, bound': Bindings,
                      known: map<string, Statement>)
    requires Sound(c, last, h, bound, known) && Migrated(c, c', cap) && AllBound(c', bound')
    ensures Sound(c', None, h, bound', known - {""})
  {
    hide ValidCache, Peek, AnonymousCount;
    forall n ensures SameStatement(Peek(c, Named(n)), Peek(c', Named(n))) {
    }
    forall k | Peek(c', Anonymous(k)).Some? ensures SameStatement(Peek(c, Anonymous(k)), Peek(c', Anonymous(k))) {
    }
  }

  lemma {:induction false} NotRecalled(known: map<string, Statement>, trace: seq<Event>)
    requires "" !in known
    requires forall i :: 0 <= i < |trace| ==> !(trace[i].msg.Parse? && trace[i].msg.name == "")
    ensures "" !in Recall(known, trace)
  {
    if trace != [] {
      NotRecalled(known, trace[..|trace| - 1]);
    }
  }

  /** The migration data describes the client: its mode and its cache, listed in any order. */
  ghost predicate Describes<Ip>(u: Strings, s: M.State<Ip>, client: ClientState, ps: seq<Pair>) {
    && s.preparedEnabled == client.enabled && s.asyncClient == client.asyncClient
    && Lists(client.cache, ps) && s.entries == EntriesOf(u, ps)
  }

  /**
   Renaming stays sound through encode, decode and replay, for every session before and every session after: the client
   may refer to what it knew, less the unnamed statement, which it has to parse again even where its entry survived.
   */
  lemma RenamingSurvivesMigration<Ip(!new)>(
      anonSize: nat, h: Hashing, bound: Bindings, before: seq<Event>,
      std: M.Std<Ip>, s: M.State<Ip>, ps: seq<Pair>, u: Strings, w: World, cap: nat,
      bound': Bindings, after: seq<Event>, e: Event)
    requires CollisionFree(h) && InProgress(NewClient(true, anonSize), h, bound, before)
    requires Describes(u, s, RunClient(NewClient(true, anonSize), h, before), ps)
    requires M.StdOk(std) && M.StateTyped(std, s) && M.StateFits(s) && |M.PutState(std, s)| < 0x8000_0000_0000_0000
    requires StringsOk(u) && Registers(u, w, s.entries) && Rebinds(u, w, s.asyncClient, bound', s.entries)
    requires InProgress(Arrived(u, w, cap, s), h, bound', after)
    requires e.msg.Bind? || e.msg.Describe?
    ensures var got := M.GetState(std, M.PutState(std, s));
            && got.Ok?
            && var now := RunClient(Arrived(u, w, cap, got.value), h, after);
            && RenamedSoundly(now, h, bound', Recall(Known(before) - {""}, after), e)
            && (e.msg.name == "" && (forall i :: 0 <= i < |after| ==> !(after[i].msg.Parse? && after[i].msg.name == ""))
                ==> OnMessage(now, h, e.msg, e.env).1.UnknownStatement?)
  {
    hide Sound, Migrated, AllBound, Replay, Lists, RunClient, Recall, InProgress, OnMessage, Rebinds, Registers, EntriesOf,
      StringsOk, M.StdOk, M.StateTyped, M.StateFits, M.GetState, M.PutState, ValidCache;
    R.RoundTripIffFits(std, s);
    var was := RunClient(NewClient(true, anonSize), h, before);
    SessionSound(anonSize, h, bound, before);
    SoundIsValid(was.cache, was.lastAnonymous, h, bound, Known(before));
    ReplayMigrates(was.cache, ps, u, w, s.asyncClient, cap);
    ReplayBound(u, w, s.asyncClient, cap, bound', s.entries, |s.entries|);
    var start := Arrived(u, w, cap, s);
    EntriesListed(u, ps);
    MigratedSound(was.cache, start.cache, cap, was.lastAnonymous, h, bound, bound', Known(before));
    RunSound(start, h, bound', Known(before) - {""}, after);
    SoundRenames(RunClient(start, h, after), h, bound', Recall(Known(before) - {""}, after), e);
    if forall i :: 0 <= i < |after| ==> !(after[i].msg.Parse? && after[i].msg.name == "") {
      NotRecalled(Known(before) - {""}, after);
    }
  }

  lemma SoundIsValid(c: Cache, last: Option<nat>, h: Hashing, bound: Bindings, known: map<string, Statement>)
    requires Sound(c, last, h, bound, known)
    ensures ValidCache(c)
  {
  }

  lemma EntriesListed(u: Strings, ps: seq<Pair>)
    ensures |EntriesOf(u, ps)| == |ps|
  {
  }
}
