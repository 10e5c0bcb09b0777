/** Renaming is sound: whatever the run, a forwarded statement name means what the client last parsed under it. */
module ClientRenaming {
  import opened Wire
  import opened Statements
  import opened PreparedCache
  import opened BatchReorder
  import opened ClientProtocol

  datatype Event = Event(msg: ClientMessage, env: Env)

  /** A name and the one text it is bound to, for ever and on every server. */
  type Bindings = map<ServerName, Statement>

  predicate Means(bound: Bindings, name: ServerName, text: Statement) {
    name in bound && bound[name] == text
  }

  /** What the pool promises: a shared Parse for a hash carries the text of that hash under a bound name. */
  ghost predicate EnvOk(h: Hashing, bound: Bindings, e: Event) {
    e.msg.Parse? && e.env.shared.Some? ==>
      var shared := e.env.shared.value;
      && shared.text == h.text(h.of(e.msg.text, e.env.planner))
      && Means(bound, shared.name, shared.text)
      && Means(bound, e.env.asyncName, shared.text)
  }

  /**
   What the client may refer to, by its own history alone: the latest Parse of each name, minus named
   statements it closed and statements the server refused to hold.
   */
  function Remember(known: map<string, Statement>, e: Event): map<string, Statement> {
    match e.msg
    case Parse(name, text) => known[name := text]
    case Close(statement, name) => if statement && name != "" then known - {name} else known
    case Bind(name, _, _) => if e.env.registration.Rejected? then known - {name} else known
    case Describe(name) => if e.env.registration.Rejected? then known - {name} else known
    case _ => known
  }

  /** What the client may refer to after these messages, having known those statements before. */
  function Recall(known: map<string, Statement>, trace: seq<Event>): map<string, Statement> {
    if trace == [] then known else Remember(Recall(known, trace[..|trace| - 1]), trace[|trace| - 1])
  }

  function Known(trace: seq<Event>): map<string, Statement> {
    Recall(map[], trace)
  }

  function RunClient(s: ClientState, h: Hashing, trace: seq<Event>): ClientState {
    if trace == [] then s
    else
      var n := |trace| - 1;
      OnMessage(RunClient(s, h, trace[..n]), h, trace[n].msg, trace[n].env).0
  }

  /** A session in progress: every message so far was processed, under the pool's promises. */
  ghost predicate InProgress(s: ClientState, h: Hashing, bound: Bindings, trace: seq<Event>) {
    trace != [] ==>
      var n := |trace| - 1;
      && InProgress(s, h, bound, trace[..n])
      && EnvOk(h, bound, trace[n])
      && OnMessage(RunClient(s, h, trace[..n]), h, trace[n].msg, trace[n].env).1.Done?
  }

  ghost predicate Faithful(bound: Bindings, c: CachedStatement, text: Statement) {
    c.parse.text == text && Means(bound, ServerNameOf(c), text)
  }

  /** Named entries are exactly the known names; unnamed entries carry the text of their hash. */
  ghost predicate SoundNamed(c: Cache, bound: Bindings, known: map<string, Statement>) {
    && (forall n :: Peek(c, Named(n)).Some? <==> n != "" && n in known)
    && (forall n :: Peek(c, Named(n)).Some? ==> Faithful(bound, Peek(c, Named(n)).value, known[n]))
  }

  ghost predicate SoundAnonymous(c: Cache, h: Hashing, bound: Bindings) {
    forall k :: Peek(c, Anonymous(k)).Some? ==> Faithful(bound, Peek(c, Anonymous(k)).value, h.text(k))
  }

  /**
   The unnamed statement: the last hash stands for its text, and is always cached. Only another unnamed Parse can evict
   an unnamed entry, and it makes its own entry the last one.
   */
  ghost predicate SoundLast(c: Cache, last: Option<nat>, h: Hashing, known: map<string, Statement>) {
    && (last.Some? && Peek(c, Anonymous(last.value)).Some? ==> "" in known)
    && ("" in known ==> last.Some? && h.text(last.value) == known[""] && Peek(c, Anonymous(last.value)).Some?)
  }

  ghost predicate Sound(c: Cache, last: Option<nat>, h: Hashing, bound: Bindings, known: map<string, Statement>) {
    ValidCache(c) && SoundNamed(c, bound, known) && SoundAnonymous(c, h, bound) && SoundLast(c, last, h, known)
  }

  lemma NewNamedKeeps(c: Cache, c': Cache, last: Option<nat>, h: Hashing, bound: Bindings,
                      known: map<string, Statement>, name: string, text: Statement, cached: CachedStatement)
    requires Sound(c, last, h, bound, known) && Faithful(bound, cached, text) && name != ""
    requires ValidCache(c')
    requires forall k :: Peek(c', k) == if k == Named(name) then Some(cached) else Peek(c, k)
    ensures Sound(c', last, h, bound, known[name := text])
  {
  }

  lemma NewAnonymousKeeps(c: Cache, c': Cache, last: Option<nat>, h: Hashing, bound: Bindings,
                          known: map<string, Statement>, hash: nat, cached: CachedStatement)
    requires Sound(c, last, h, bound, known) && Faithful(bound, cached, h.text(hash))
    requires ValidCache(c')
    requires Peek(c', Anonymous(hash)) == Some(cached)
    requires forall n :: Peek(c', Named(n)) == Peek(c, Named(n))
    requires forall k :: k != hash && Peek(c', Anonymous(k)).Some? ==> Peek(c', Anonymous(k)) == Peek(c, Anonymous(k))
    ensures Sound(c', Some(hash), h, bound, known["" := h.text(hash)])
  {
  }

  lemma PutKeeps(c: Cache, last: Option<nat>, h: Hashing, bound: Bindings, known: map<string, Statement>,
                 name: string, text: Statement, hash: nat, cached: CachedStatement)
    requires Sound(c, last, h, bound, known) && Faithful(bound, cached, text) && h.text(hash) == text
    ensures var c' := CachePut(c, KeyFor(name, hash), cached).0;
            Sound(c', if name == "" then Some(hash) else last, h, bound, known[name := text])
  {
    var _ := PutWrites(c, KeyFor(name, hash), cached);
    var c' := CachePut(c, KeyFor(name, hash), cached).0;
    if name == "" {
      NewAnonymousKeeps(c, c', last, h, bound, known, hash, cached);
    } else {
      NewNamedKeeps(c, c', last, h, bound, known, name, text, cached);
    }
  }

  /** Dropping the entry a name refers to, together with the memory of it. */
  lemma DropKeeps(c: Cache, c': Cache, last: Option<nat>, h: Hashing, bound: Bindings, known: map<string, Statement>,
                  name: string)
    requires Sound(c, last, h, bound, known) && ValidCache(c')
    requires name == "" ==> last.Some?
    requires var key := if name != "" then Named(name) else Anonymous(last.value);
             forall k :: Peek(c', k) == if k == key then None else Peek(c, k)
    ensures Sound(c', last, h, bound, known - {name})
  {
  }

  /** Looking a statement up changes no entry, except that a refused one is dropped. */
  lemma ResolveReads(s: ClientState, name: string, env: Env)
    requires ValidCache(s.cache)
    ensures var (s', cached, outcome) := Resolve(s, name, env);
            && ValidCache(s'.cache) && s' == s.(cache := s'.cache)
            && cached == (if LookupKey(s, name).Some? then Peek(s.cache, LookupKey(s, name).value) else None)
            && (cached.None? <==> outcome.UnknownStatement?)
            && (outcome.Aborted? <==> cached.Some? && env.registration.Failed?)
            && (cached.Some? && !env.registration.Failed? ==> outcome.Done?)
            && (forall k :: Peek(s'.cache, k) ==
                  if cached.Some? && env.registration.Rejected? && LookupKey(s, name) == Some(k) then None
                  else Peek(s.cache, k))
  {
    if LookupKey(s, name).Some? {
      var key := LookupKey(s, name).value;
      GetReads(s.cache, key);
      var c := CacheGet(s.cache, key).0;
      GetReads(c, key);
      PopRemoves(CacheGet(c, key).0, key);
    }
  }

  lemma ResolveKeeps(s: ClientState, h: Hashing, bound: Bindings, known: map<string, Statement>, name: string, env: Env)
    requires Sound(s.cache, s.lastAnonymous, h, bound, known)
    requires Resolve(s, name, env).2.Done?
    ensures Sound(Resolve(s, name, env).0.cache, s.lastAnonymous, h, bound,
                  if env.registration.Rejected? then known - {name} else known)
  {
    ResolveReads(s, name, env);
    var c' := Resolve(s, name, env).0.cache;
    if env.registration.Rejected? {
      DropKeeps(s.cache, c', s.lastAnonymous, h, bound, known, name);
    } else {
      assert forall k :: Peek(c', k) == Peek(s.cache, k);
    }
  }

  lemma CloseKeeps(c: Cache, last: Option<nat>, h: Hashing, bound: Bindings, known: map<string, Statement>, name: string)
    requires Sound(c, last, h, bound, known) && name != ""
    ensures Sound(CachePop(c, Named(name)).0, last, h, bound, known - {name})
  {
    PopRemoves(c, Named(name));
    DropKeeps(c, CachePop(c, Named(name)).0, last, h, bound, known, name);
  }

  lemma ParseKeeps(s: ClientState, h: Hashing, bound: Bindings, known: map<string, Statement>, e: Event)
    requires Sound(s.cache, s.lastAnonymous, h, bound, known) && CollisionFree(h) && EnvOk(h, bound, e)
    requires e.msg.Parse? && s.enabled && OnMessage(s, h, e.msg, e.env).1.Done?
    ensures var s' := OnMessage(s, h, e.msg, e.env).0;
            Sound(s'.cache, s'.lastAnonymous, h, bound, Remember(known, e))
  {
    var hash := h.of(e.msg.text, e.env.planner);
    var cached := CachedStatement(e.env.shared.value, hash, if s.asyncClient then Some(e.env.asyncName) else None);
    assert h.text(hash) == e.msg.text;
    PutKeeps(s.cache, s.lastAnonymous, h, bound, known, e.msg.name, e.msg.text, hash, cached);
  }

  lemma StepKeeps(s: ClientState, h: Hashing, bound: Bindings, known: map<string, Statement>, e: Event)
    requires Sound(s.cache, s.lastAnonymous, h, bound, known) && CollisionFree(h) && EnvOk(h, bound, e)
    requires s.enabled && OnMessage(s, h, e.msg, e.env).1.Done?
    ensures var s' := OnMessage(s, h, e.msg, e.env).0;
            s'.enabled && Sound(s'.cache, s'.lastAnonymous, h, bound, Remember(known, e))
  {
    match e.msg
    case Parse(_, _) => ParseKeeps(s, h, bound, known, e);
    case Bind(name, _, _) =>
      ResolveReads(s, name, e.env);
      ResolveKeeps(s, h, bound, known, name, e.env);
    case Describe(name) =>
      ResolveReads(s, name, e.env);
      ResolveKeeps(s, h, bound, known, name, e.env);
    case Close(_, name) =>
      if name != "" {
        CloseKeeps(s.cache, s.lastAnonymous, h, bound, known, name);
      }
    case _ =>
  }

  lemma {:induction false} RunSound(s: ClientState, h: Hashing, bound: Bindings, known: map<string, Statement>,
                                    trace: seq<Event>)
    requires CollisionFree(h) && InProgress(s, h, bound, trace)
    requires s.enabled && Sound(s.cache, s.lastAnonymous, h, bound, known)
    ensures var s' := RunClient(s, h, trace);
            s'.enabled && Sound(s'.cache, s'.lastAnonymous, h, bound, Recall(known, trace))
  {
    hide Sound, EnvOk, OnMessage, Remember, CollisionFree;
    if trace != [] {
      var n := |trace| - 1;
      RunSound(s, h, bound, known, trace[..n]);
      StepKeeps(RunClient(s, h, trace[..n]), h, bound, Recall(known, trace[..n]), trace[n]);
    }
  }

  lemma SessionSound(anonSize: nat, h: Hashing, bound: Bindings, trace: seq<Event>)
    requires CollisionFree(h) && InProgress(NewClient(true, anonSize), h, bound, trace)
    ensures var s := RunClient(NewClient(true, anonSize), h, trace);
            s.enabled && Sound(s.cache, s.lastAnonymous, h, bound, Known(trace))
  {
    RunSound(NewClient(true, anonSize), h, bound, map[], trace);
  }

  /** The message a step appended to the buffer for the server. */
  function Last(s: ClientState): Option<Forwarded> {
    if s.buffer == [] then None else Some(s.buffer[|s.buffer| - 1])
  }

  /** The client's own Bind or statement Describe with another name in it. */
  predicate SameButName(f: Forwarded, m: ClientMessage, server: ServerName) {
    match m
    case Bind(_, portal, body) => f == BindOut(Renamed(server), portal, body)
    case Describe(_) => f == DescribeOut(Renamed(server))
    case _ => false
  }

  /**
   What a Bind or statement Describe must come to, the client knowing these statements: forwarded as it is but under a
   server name bound to the text it knows; refused with SQLSTATE 26000 exactly when it knows no statement of that name;
   stopped exactly when it knows one and the server connection is broken.
   */
  ghost predicate RenamedSoundly(s: ClientState, h: Hashing, bound: Bindings, known: map<string, Statement>, e: Event)
    requires e.msg.Bind? || e.msg.Describe?
  {
    var (s', outcome) := OnMessage(s, h, e.msg, e.env);
    var name := e.msg.name;
    && (outcome.Done? ==>
          && name in known && Last(s').Some? && s'.buffer == s.buffer + [Last(s').value]
          && (exists server :: SameButName(Last(s').value, e.msg, server) && Means(bound, server, known[name])))
    && (!outcome.Done? ==> s'.buffer == s.buffer)
    && (outcome.Aborted? <==> name in known && e.env.registration.Failed?)
    && (outcome.UnknownStatement? <==> name !in known)
  }

  lemma SoundRenames(s: ClientState, h: Hashing, bound: Bindings, known: map<string, Statement>, e: Event)
    requires s.enabled && Sound(s.cache, s.lastAnonymous, h, bound, known)
    requires e.msg.Bind? || e.msg.Describe?
    ensures RenamedSoundly(s, h, bound, known, e)
  {
    hide Sound, Resolve;
    var cached := Resolve(s, e.msg.name, e.env).1;
    SoundResolves(s, h, bound, known, e.msg.name, e.env);
    if OnMessage(s, h, e.msg, e.env).1.Done? {
      var s' := OnMessage(s, h, e.msg, e.env).0;
      assert SameButName(Last(s').value, e.msg, ServerNameOf(cached.value));
    }
  }

  /** A lookup in a sound cache finds what the client knows. */
  lemma SoundResolves(s: ClientState, h: Hashing, bound: Bindings, known: map<string, Statement>, name: string, env: Env)
    requires s.enabled && Sound(s.cache, s.lastAnonymous, h, bound, known)
    ensures var (s', cached, outcome) := Resolve(s, name, env);
            && s'.buffer == s.buffer && s'.ops == s.ops
            && (outcome.UnknownStatement? <==> name !in known) && (cached.None? <==> name !in known)
            && (cached.Some? ==> Means(bound, ServerNameOf(cached.value), known[name]))
            && (outcome.Aborted? <==> cached.Some? && env.registration.Failed?)
  {
    ResolveReads(s, name, env);
  }

  /**
   Renaming soundness, over every session of named, unnamed and async statements and whatever the size of the cache:
   what the client knows is what its own history says.
   */
  lemma RenamingSound(anonSize: nat, h: Hashing, bound: Bindings, trace: seq<Event>, e: Event)
    requires CollisionFree(h) && InProgress(NewClient(true, anonSize), h, bound, trace)
    requires e.msg.Bind? || e.msg.Describe?
    ensures RenamedSoundly(RunClient(NewClient(true, anonSize), h, trace), h, bound, Known(trace), e)
  {
    hide RenamedSoundly, Sound;
    SessionSound(anonSize, h, bound, trace);
    SoundRenames(RunClient(NewClient(true, anonSize), h, trace), h, bound, Known(trace), e);
  }

  /** Every Parse the client's messages send to a server uses a name for the text that name is bound to. */
  lemma ParseOutSound(anonSize: nat, h: Hashing, bound: Bindings, trace: seq<Event>, e: Event)
    requires CollisionFree(h) && InProgress(NewClient(true, anonSize), h, bound, trace)
    requires e.msg.Parse? && EnvOk(h, bound, e)
    ensures var s := RunClient(NewClient(true, anonSize), h, trace);
            var (s', outcome) := OnMessage(s, h, e.msg, e.env);
            && (outcome.Done? && s'.buffer != s.buffer ==>
                  && Last(s').Some? && Last(s').value.ParseOut? && Last(s').value.text == e.msg.text
                  && Last(s').value.name.Renamed? && Means(bound, Last(s').value.name.server, e.msg.text))
            && (outcome.Done? && s'.buffer == s.buffer ==>
                  e.env.serverHas && !s.asyncClient && s'.ops == s.ops + [ParseSkipped])
  {
    SessionSound(anonSize, h, bound, trace);
    var s := RunClient(NewClient(true, anonSize), h, trace);
    assert h.text(h.of(e.msg.text, e.env.planner)) == e.msg.text;
  }
}
