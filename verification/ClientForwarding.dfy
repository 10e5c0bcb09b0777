/** What a session sends to the server, told from the client's own messages alone. */
module ClientForwarding {
  import opened Wire
  import opened Statements
  import opened PreparedCache
  import opened BatchReorder
  import opened ClientProtocol
  import opened ClientRenaming

  // ---------------------------------------------------------------- the history

  /**
   Whether the client has sent a Flush, under which server name each of its statements was last parsed, and for the batch
   at hand: what the server was sent, the operations in order, how many Parses were sent, and which were skipped.
   */
  datatype History = History(async: bool, names: map<string, ServerName>, sent: seq<Forwarded>, ops: seq<BatchOperation>,
                             parses: nat, skipped: multiset<ServerName>)

  const NO_HISTORY := History(false, map[], [], [], 0, multiset{})

  /** The name a statement gets: an async client draws its own. */
  function NameFor(hst: History, env: Env): ServerName
    requires env.shared.Some?
  {
    if hst.async then env.asyncName else env.shared.value.name
  }

  predicate Skipped(hst: History, env: Env) { env.serverHas && !hst.async }

  function Say(hst: History, f: Forwarded, op: BatchOperation): History {
    hst.(sent := hst.sent + [f], ops := hst.ops + [op])
  }

  function Forget(hst: History, name: string): History { hst.(names := hst.names - {name}) }

  /** A Bind or statement Describe of a statement: under the name of its latest Parse. */
  function Named(enabled: bool, hst: History, name: string): WireName {
    if enabled && name in hst.names then Renamed(hst.names[name]) else AsGiven(name)
  }

  function Refused(enabled: bool, hst: History, name: string, env: Env): History {
    if enabled && env.registration.Rejected? then Forget(hst, name) else hst
  }

  /** One message: sent on with only the statement name replaced, or a Parse that the server does not need. */
  function Tell(enabled: bool, hst: History, e: Event): History {
    match e.msg
    case Parse(name, text) =>
      if !enabled then Say(hst, ParseOut(AsGiven(name), text), ParseSent)
      else if e.env.shared.None? then hst
      else
        var server := NameFor(hst, e.env);
        var hst' := hst.(names := hst.names[name := server]);
        var out := ParseOut(Renamed(server), text);
        if Skipped(hst, e.env) then hst'.(ops := hst.ops + [ParseSkipped], skipped := hst.skipped + multiset{server})
        else if e.env.serverHas then hst'.(sent := hst.sent + [out])
        else Say(hst', out, ParseSent).(parses := hst.parses + 1)
    case Bind(name, portal, body) =>
      Refused(enabled, Say(hst, BindOut(Named(enabled, hst, name), portal, body), BatchOperation.Bind), name, e.env)
    case Describe(name) =>
      Refused(enabled, Say(hst, DescribeOut(Named(enabled, hst, name)), BatchOperation.Describe), name, e.env)
    case DescribePortal(portal) => Say(hst, DescribePortalOut(portal), BatchOperation.DescribePortal)
    case Execute(body) => Say(hst, ExecuteOut(body), BatchOperation.Execute)
    case Close(statement, name) =>
      var hst' := Say(hst, CloseOut(statement, name), BatchOperation.Close);
      if enabled && statement && name != "" then Forget(hst', name) else hst'
    case Sync => hst.(sent := [], ops := [], parses := 0, skipped := multiset{})
    case Flush => hst.(async := true, sent := [], ops := [], parses := 0, skipped := multiset{})
  }

  function Told(enabled: bool, trace: seq<Event>): History {
    if trace == [] then NO_HISTORY
    else Tell(enabled, Told(enabled, trace[..|trace| - 1]), trace[|trace| - 1])
  }

  // ---------------------------------------------------------------- the cache knows the names

  ghost predicate NamesKept(c: Cache, last: Option<nat>, names: map<string, ServerName>) {
    && ValidCache(c)
    && (forall n :: Peek(c, Key.Named(n)).Some? ==> n != "" && n in names && ServerNameOf(Peek(c, Key.Named(n)).value) == names[n])
    && (last.Some? && Peek(c, Anonymous(last.value)).Some? ==>
          "" in names && ServerNameOf(Peek(c, Anonymous(last.value)).value) == names[""])
  }

  lemma PutNamed(c: Cache, last: Option<nat>, names: map<string, ServerName>, name: string, hash: nat, cached: CachedStatement)
    requires NamesKept(c, last, names)
    ensures var c' := CachePut(c, KeyFor(name, hash), cached).0;
            NamesKept(c', if name == "" then Some(hash) else last, names[name := ServerNameOf(cached)])
  {
    hide CachePut, ValidCache, ServerNameOf;
    var victim := PutWrites(c, KeyFor(name, hash), cached);
  }

  /** Fewer entries, and the same memory, or one name less of what is gone. */
  lemma DropNamed(c: Cache, c': Cache, last: Option<nat>, names: map<string, ServerName>, name: string)
    requires NamesKept(c, last, names) && ValidCache(c')
    requires forall k :: Peek(c', k).Some? ==> Peek(c', k) == Peek(c, k)
    requires name != "" ==> Peek(c', Key.Named(name)).None?
    requires name == "" ==> last.Some? ==> Peek(c', Anonymous(last.value)).None?
    ensures NamesKept(c', last, names - {name})
  {
  }

  lemma SameNamed(c: Cache, c': Cache, last: Option<nat>, names: map<string, ServerName>)
    requires NamesKept(c, last, names) && ValidCache(c') && forall k :: Peek(c', k) == Peek(c, k)
    ensures NamesKept(c', last, names)
  {
  }

  // ---------------------------------------------------------------- the list of skipped Parses

  function SkippedList(ss: seq<SkippedParse>): seq<ServerName> {
    seq(|ss|, i requires 0 <= i < |ss| => ss[i].statement)
  }

  /** The statements of a list of skipped Parses, whatever their order and marks. */
  function SkippedNames(ss: seq<SkippedParse>): multiset<ServerName> {
    multiset(SkippedList(ss))
  }

  lemma SkippedMore(ss: seq<SkippedParse>, s: SkippedParse)
    ensures SkippedNames(ss + [s]) == SkippedNames(ss) + multiset{s.statement}
  {
    assert SkippedList(ss + [s]) == SkippedList(ss) + [s.statement];
  }

  /** Marks change no statement, and moving an entry to the end loses none. */
  lemma BeginningKeeps(ss: seq<SkippedParse>)
    ensures SkippedNames(MarkBeginning(ss)) == SkippedNames(ss)
  {
    assert SkippedList(MarkBeginning(ss)) == SkippedList(ss);
  }

  lemma BoundKeeps(ss: seq<SkippedParse>, name: ServerName)
    ensures SkippedNames(MarkBound(ss, name)) == SkippedNames(ss)
  {
    assert SkippedList(MarkBound(ss, name)) == SkippedList(ss);
  }

  lemma RetargetKeeps(ss: seq<SkippedParse>, name: ServerName)
    ensures SkippedNames(Retarget(ss, name)) == SkippedNames(ss)
  {
    var i := FirstAtBind(ss, name, 0);
    if i < |ss| {
      var all := SkippedList(ss);
      assert SkippedList(Retarget(ss, name)) == all[..i] + all[i + 1..] + [all[i]];
      Rotated(all, i);
    }
  }

  lemma Rotated(all: seq<ServerName>, i: nat)
    requires i < |all|
    ensures multiset(all[..i] + all[i + 1..] + [all[i]]) == multiset(all)
  {
    assert all == all[..i] + [all[i]] + all[i + 1..];
  }

  /** A Parse that is sent marks every entry without a Bind. */
  lemma BeginningMarks(ss: seq<SkippedParse>, i: nat)
    requires i < |ss|
    ensures MarkBeginning(ss)[i]
         == SkippedParse(ss[i].statement, ss[i].target, ss[i].insertAtBeginning || !ss[i].hasBind, ss[i].hasBind)
  {
  }

  /** A Bind marks the first entry of its statement that waits for one. */
  lemma BoundMarks(ss: seq<SkippedParse>, name: ServerName, i: nat)
    requires i <= |ss| && (forall j :: 0 <= j < i ==> !Waits(ss[j], name)) && (i < |ss| ==> Waits(ss[i], name))
    ensures MarkBound(ss, name)
         == if i == |ss| then ss
            else ss[i := SkippedParse(name, BeforeBindComplete, ss[i].insertAtBeginning, true)]
  {
    var k := FirstAwaiting(ss, name, 0);
    assert k == i by {
      assert i < |ss| ==> AwaitsBind(ss[i], name);
      assert k < |ss| ==> Waits(ss[k], name);
    }
  }

  /** A statement Describe moves the first entry of its statement that is placed at a BindComplete to the end. */
  lemma RetargetMarks(ss: seq<SkippedParse>, name: ServerName, i: nat)
    requires i <= |ss| && (forall j :: 0 <= j < i ==> !Placed(ss[j], name)) && (i < |ss| ==> Placed(ss[i], name))
    ensures Retarget(ss, name)
         == if i == |ss| then ss
            else ss[..i] + ss[i + 1..] + [SkippedParse(name, BeforeParameterDescription, ss[i].insertAtBeginning, ss[i].hasBind)]
  {
    var k := FirstAtBind(ss, name, 0);
    assert k == i by {
      assert i < |ss| ==> AtBindComplete(ss[i], name);
      assert k < |ss| ==> Placed(ss[k], name);
    }
  }

  /** A skipped Parse of this statement that waits for its Bind, and one that is placed at a BindComplete. */
  predicate Waits(s: SkippedParse, name: ServerName) {
    s.statement == name && s.target == BeforeBindComplete && !s.hasBind
  }

  predicate Placed(s: SkippedParse, name: ServerName) {
    s.statement == name && s.target == BeforeBindComplete
  }

  /** How a Parse ends, what it adds to the list when it is skipped, and when it counts an eviction. */
  lemma ParseEnds(s: ClientState, h: Hashing, name: string, text: Statement, env: Env)
    requires ValidCache(s.cache)
    ensures var (s', outcome) := OnParse(s, h, name, text, env);
            var key := Anonymous(h.of(text, env.planner));
            && !outcome.UnknownStatement?
            && (outcome.Done? <==> !s.enabled || (env.shared.Some? && (env.serverHas || env.registration == Registered)))
            && (s.enabled && outcome.Done? && env.serverHas && !s.asyncClient ==>
                  s'.skipped == s.skipped + [SkippedParse(env.shared.value.name, BeforeBindComplete, false, false)])
            && (s.enabled && env.shared.Some? ==>
                  s'.evictions == s.evictions +
                    if name == "" && s.cache.anonymous.Limited? && Peek(s.cache, key).None?
                       && |s.cache.anonymous.lru.entries| == s.cache.anonymous.lru.cap then 1 else 0)
            && (!s.enabled || env.shared.None? ==> s'.evictions == s.evictions)
  {
    hide CachePut, ValidCache, MarkBeginning;
    if s.enabled && env.shared.Some? {
      var hash := h.of(text, env.planner);
      var cached := CachedStatement(env.shared.value, hash, if s.asyncClient then Some(env.asyncName) else None);
      var victim := PutWrites(s.cache, KeyFor(name, hash), cached);
    }
  }

  // ---------------------------------------------------------------- every step

  /** The state says what the history says. */
  ghost predicate Tells(enabled: bool, s: ClientState, hst: History) {
    && s.enabled == enabled && s.asyncClient == hst.async && s.buffer == hst.sent && s.ops == hst.ops
    && s.parsesSent == hst.parses && SkippedNames(s.skipped) == hst.skipped && NamesKept(s.cache, s.lastAnonymous, hst.names)
  }

  lemma ParseTold(enabled: bool, s: ClientState, h: Hashing, bound: Bindings, hst: History, e: Event)
    requires Tells(enabled, s, hst) && e.msg.Parse? && CollisionFree(h) && EnvOk(h, bound, e)
    requires OnMessage(s, h, e.msg, e.env).1.Done?
    ensures Tells(enabled, OnMessage(s, h, e.msg, e.env).0, Tell(enabled, hst, e))
  {
    hide NamesKept, CachePut, KeyFor, SkippedNames, MarkBeginning;
    if enabled {
      SkippedMore(s.skipped, SkippedParse(NameFor(hst, e.env), BeforeBindComplete, false, false));
      BeginningKeeps(s.skipped);
      var hash := h.of(e.msg.text, e.env.planner);
      assert h.text(hash) == e.msg.text;
      var cached := CachedStatement(e.env.shared.value, hash, if s.asyncClient then Some(e.env.asyncName) else None);
      PutNamed(s.cache, s.lastAnonymous, hst.names, e.msg.name, hash, cached);
    }
  }

  /** A lookup that succeeds finds the name of the latest Parse. */
  lemma LookupNamed(s: ClientState, hst: History, name: string, env: Env)
    requires NamesKept(s.cache, s.lastAnonymous, hst.names)
    ensures var (s', cached, outcome) := Resolve(s, name, env);
            && s' == s.(cache := s'.cache)
            && (cached.Some? ==> name in hst.names && ServerNameOf(cached.value) == hst.names[name])
            && (outcome.Done? ==>
                  && cached.Some?
                  && NamesKept(s'.cache, s.lastAnonymous, if env.registration.Rejected? then hst.names - {name} else hst.names))
  {
    hide Resolve, ServerNameOf;
    ResolveReads(s, name, env);
    var (s', cached, outcome) := Resolve(s, name, env);
    if outcome.Done? {
      if env.registration.Rejected? {
        DropNamed(s.cache, s'.cache, s.lastAnonymous, hst.names, name);
      } else {
        SameNamed(s.cache, s'.cache, s.lastAnonymous, hst.names);
      }
    }
  }

  lemma LookupTold(enabled: bool, s: ClientState, h: Hashing, hst: History, e: Event)
    requires Tells(enabled, s, hst) && (e.msg.Bind? || e.msg.Describe?)
    requires OnMessage(s, h, e.msg, e.env).1.Done?
    ensures Tells(enabled, OnMessage(s, h, e.msg, e.env).0, Tell(enabled, hst, e))
  {
    hide NamesKept, Resolve, MarkBound, Retarget, ServerNameOf, SkippedNames;
    if enabled {
      LookupNamed(s, hst, e.msg.name, e.env);
      var cached := Resolve(s, e.msg.name, e.env).1;
      BoundKeeps(s.skipped, ServerNameOf(cached.value));
      RetargetKeeps(s.skipped, ServerNameOf(cached.value));
    }
  }

  lemma CloseTold(enabled: bool, s: ClientState, h: Hashing, hst: History, e: Event)
    requires Tells(enabled, s, hst) && e.msg.Close?
    ensures Tells(enabled, OnMessage(s, h, e.msg, e.env).0, Tell(enabled, hst, e))
  {
    hide CachePop, ServerNameOf, ValidCache;
    if enabled && e.msg.statement && e.msg.name != "" {
      PopRemoves(s.cache, Key.Named(e.msg.name));
      DropNamed(s.cache, CachePop(s.cache, Key.Named(e.msg.name)).0, s.lastAnonymous, hst.names, e.msg.name);
    }
  }

  lemma StepTold(enabled: bool, s: ClientState, h: Hashing, bound: Bindings, hst: History, e: Event)
    requires Tells(enabled, s, hst) && CollisionFree(h) && EnvOk(h, bound, e) && OnMessage(s, h, e.msg, e.env).1.Done?
    ensures Tells(enabled, OnMessage(s, h, e.msg, e.env).0, Tell(enabled, hst, e))
  {
    hide NamesKept, OnParse, OnBind, OnDescribe, SkippedList, SkippedNames, CachePop, Refused, Named, EnvOk;
    assert SkippedNames([]) == multiset{} by { NoneSkipped(); }
    match e.msg
    case Parse(_, _) => ParseTold(enabled, s, h, bound, hst, e);
    case Bind(_, _, _) => LookupTold(enabled, s, h, hst, e);
    case Describe(_) => LookupTold(enabled, s, h, hst, e);
    case Close(_, _) => CloseTold(enabled, s, h, hst, e);
    case _ =>
  }

  lemma NoneSkipped()
    ensures SkippedNames([]) == multiset{}
  {
    assert SkippedList([]) == [];
  }

  lemma {:induction false} RunTold(enabled: bool, anonSize: nat, h: Hashing, bound: Bindings, trace: seq<Event>)
    requires CollisionFree(h) && InProgress(NewClient(enabled, anonSize), h, bound, trace)
    ensures Tells(enabled, RunClient(NewClient(enabled, anonSize), h, trace), Told(enabled, trace))
  {
    hide OnMessage, Tell, EnvOk, NamesKept, SkippedNames;
    if trace == [] {
      NothingNamed(anonSize);
      NoneSkipped();
    } else {
      var n := |trace| - 1;
      RunTold(enabled, anonSize, h, bound, trace[..n]);
      StepTold(enabled, RunClient(NewClient(enabled, anonSize), h, trace[..n]), h, bound, Told(enabled, trace[..n]), trace[n]);
    }
  }

  lemma NothingNamed(anonSize: nat)
    ensures NamesKept(NewCache(anonSize), None, map[])
  {
  }

  /**
   In every session, with prepared statements enabled or not, whatever is cached, evicted or shared: the buffer for the
   server is the client's own messages since the last Sync or Flush, in order, with only the statement names replaced,
   each by the server name under which the client last parsed it, and without the Parses that were skipped; and the
   recorded batch is the operations of these messages.
   */
  lemma SessionForwards(enabled: bool, anonSize: nat, h: Hashing, bound: Bindings, trace: seq<Event>)
    requires CollisionFree(h) && InProgress(NewClient(enabled, anonSize), h, bound, trace)
    ensures var s, hst := RunClient(NewClient(enabled, anonSize), h, trace), Told(enabled, trace);
            && s.buffer == hst.sent && s.ops == hst.ops && s.asyncClient == hst.async && s.parsesSent == hst.parses
            && SkippedNames(s.skipped) == hst.skipped
  {
    hide RunClient, Told, InProgress;
    RunTold(enabled, anonSize, h, bound, trace);
  }
}
