/** Rewriting of Parse, Bind, Describe and Close on their way to the server (src/client/protocol.rs). */
module ClientProtocol {
  import opened Wire
  import opened Statements
  import opened PreparedCache
  import opened BatchReorder
  import BatchLoops

  // ---------------------------------------------------------------- state

  datatype Target = BeforeBindComplete | BeforeParameterDescription

  datatype SkippedParse = SkippedParse(statement: ServerName, target: Target, insertAtBeginning: bool, hasBind: bool)

  /** A statement name on the wire: as the client wrote it, or as the pooler renamed it. */
  datatype WireName = AsGiven(name: string) | Renamed(server: ServerName)

  /** Messages waiting in the buffer for the server; `body` is what follows the statement name. */
  datatype Forwarded =
    | ParseOut(name: WireName, text: Statement)
    | BindOut(name: WireName, portal: string, body: string)
    | DescribeOut(name: WireName)
    | DescribePortalOut(portal: string)
    | ExecuteOut(body: string)
    | CloseOut(statement: bool, given: string)

  datatype ClientState = ClientState(
    enabled: bool,
    asyncClient: bool,
    cache: Cache,
    lastAnonymous: Option<nat>,
    skipped: seq<SkippedParse>,
    ops: seq<BatchOperation>,
    parsesSent: nat,
    evictions: nat,
    buffer: seq<Forwarded>)

  function NewClient(enabled: bool, anonSize: nat): ClientState {
    ClientState(enabled, false, NewCache(anonSize), None, [], [], 0, 0, [])
  }

  /** How a step ends: done, SQLSTATE 26000 to the client, or an error that ends the session. */
  datatype Outcome = Done | UnknownStatement | Aborted

  /** The hash of a Parse under planner settings, collision-free: `text` recovers the statement. */
  datatype Hashing = Hashing(of: (Statement, nat) -> nat, text: nat -> Statement)

  ghost predicate CollisionFree(h: Hashing) {
    forall t, planner :: h.text(h.of(t, planner)) == t
  }

  /** Answer of a server asked to hold a statement. */
  datatype Registration = Registered | Rejected | Failed

  /** The planner settings, and what the pool and the server answer, while one message is processed. */
  datatype Env = Env(planner: nat, shared: Option<SharedParse>, asyncName: ServerName, serverHas: bool,
                     registration: Registration)

  datatype ClientMessage =
    | Parse(name: string, text: Statement)
    | Bind(name: string, portal: string, body: string)
    | Describe(name: string)
    | DescribePortal(portal: string)
    | Execute(body: string)
    | Close(statement: bool, name: string)
    | Sync
    | Flush

  // ---------------------------------------------------------------- bookkeeping of skipped Parses

  function MarkBeginning(ss: seq<SkippedParse>): (r: seq<SkippedParse>)
    ensures |r| == |ss|
  {
    seq(|ss|, i requires 0 <= i < |ss| => if ss[i].hasBind then ss[i] else ss[i].(insertAtBeginning := true))
  }

  predicate AwaitsBind(s: SkippedParse, name: ServerName) {
    s.statement == name && s.target.BeforeBindComplete? && !s.hasBind
  }

  /** Index of the first entry from `i` on that waits for a Bind of the statement, or the length. */
  function FirstAwaiting(ss: seq<SkippedParse>, name: ServerName, i: nat): (r: nat)
    requires i <= |ss|
    ensures i <= r <= |ss| && (r < |ss| ==> AwaitsBind(ss[r], name))
    ensures forall k :: i <= k < r ==> !AwaitsBind(ss[k], name)
    decreases |ss| - i
  {
    if i == |ss| || AwaitsBind(ss[i], name) then i else FirstAwaiting(ss, name, i + 1)
  }

  function MarkBound(ss: seq<SkippedParse>, name: ServerName): (r: seq<SkippedParse>)
    ensures |r| == |ss|
  {
    var i := FirstAwaiting(ss, name, 0);
    if i == |ss| then ss else ss[i := ss[i].(hasBind := true)]
  }

  predicate AtBindComplete(s: SkippedParse, name: ServerName) {
    s.statement == name && s.target.BeforeBindComplete?
  }

  /** Index of the first entry from `i` on of the statement that is still placed at a BindComplete, or the length. */
  function FirstAtBind(ss: seq<SkippedParse>, name: ServerName, i: nat): (r: nat)
    requires i <= |ss|
    ensures i <= r <= |ss| && (r < |ss| ==> AtBindComplete(ss[r], name))
    ensures forall k :: i <= k < r ==> !AtBindComplete(ss[k], name)
    decreases |ss| - i
  {
    if i == |ss| || AtBindComplete(ss[i], name) then i else FirstAtBind(ss, name, i + 1)
  }

  function Retarget(ss: seq<SkippedParse>, name: ServerName): (r: seq<SkippedParse>)
    ensures |r| == |ss|
  {
    var i := FirstAtBind(ss, name, 0);
    if i == |ss| then ss else ss[..i] + ss[i + 1..] + [ss[i].(target := BeforeParameterDescription)]
  }

  // ---------------------------------------------------------------- steps

  /** Remembering a parsed statement: under its name, or as the latest unnamed one under its hash. */
  function Store(s: ClientState, name: string, hash: nat, cached: CachedStatement): ClientState {
    var put := CachePut(s.cache, KeyFor(name, hash), cached);
    s.(lastAnonymous := if name == "" then Some(hash) else s.lastAnonymous,
       cache := put.0,
       evictions := s.evictions + if put.1.Evicted? then 1 else 0)
  }

  /** Sending a Parse to the server, or skipping it when the server holds the statement. */
  function SendOrSkip(s: ClientState, server: ServerName, text: Statement, env: Env): (ClientState, Outcome) {
    if env.serverHas && s.asyncClient then
      (s.(buffer := s.buffer + [ParseOut(Renamed(server), text)]), Done)
    else if env.serverHas then
      (s.(skipped := s.skipped + [SkippedParse(server, BeforeBindComplete, false, false)],
          ops := s.ops + [ParseSkipped]), Done)
    else if !env.registration.Registered? then (s, Aborted)
    else
      (s.(skipped := MarkBeginning(s.skipped),
          buffer := s.buffer + [ParseOut(Renamed(server), text)],
          parsesSent := s.parsesSent + 1,
          ops := s.ops + [ParseSent]), Done)
  }

  function OnParse(s: ClientState, h: Hashing, name: string, text: Statement, env: Env): (ClientState, Outcome) {
    if !s.enabled then
      (s.(buffer := s.buffer + [ParseOut(AsGiven(name), text)], ops := s.ops + [ParseSent]), Done)
    else if env.shared.None? then (s, Aborted)
    else
      var hash := h.of(text, env.planner);
      var cached := CachedStatement(env.shared.value, hash, if s.asyncClient then Some(env.asyncName) else None);
      SendOrSkip(Store(s, name, hash, cached), ServerNameOf(cached), cached.parse.text, env)
  }

  function LookupKey(s: ClientState, name: string): Option<Key> {
    if name != "" then Some(Named(name))
    else if s.lastAnonymous.Some? then Some(Anonymous(s.lastAnonymous.value))
    else None
  }

  /** Find the statement of a Bind or Describe and make sure the server holds it. */
  function Resolve(s: ClientState, name: string, env: Env): (ClientState, Option<CachedStatement>, Outcome) {
    match LookupKey(s, name)
    case None => (s, None, UnknownStatement)
    case Some(key) =>
      var got := CacheGet(s.cache, key);
      if got.1.None? then (s.(cache := got.0), None, UnknownStatement)
      else
        var again := CacheGet(got.0, key);
        match env.registration
        case Registered => (s.(cache := again.0), got.1, Done)
        case Rejected => (s.(cache := CachePop(again.0, key).0), got.1, Done)
        case Failed => (s.(cache := again.0), got.1, Aborted)
  }

  function OnBind(s: ClientState, name: string, portal: string, body: string, env: Env): (ClientState, Outcome) {
    if !s.enabled then
      (s.(buffer := s.buffer + [BindOut(AsGiven(name), portal, body)], ops := s.ops + [BatchOperation.Bind]), Done)
    else
      var (s1, cached, outcome) := Resolve(s, name, env);
      if cached.None? || !outcome.Done? then (s1, outcome)
      else
        var server := ServerNameOf(cached.value);
        (s1.(skipped := MarkBound(s.skipped, server),
             buffer := s.buffer + [BindOut(Renamed(server), portal, body)],
             ops := s.ops + [BatchOperation.Bind]), Done)
  }

  function OnDescribe(s: ClientState, name: string, env: Env): (ClientState, Outcome) {
    if !s.enabled then
      (s.(buffer := s.buffer + [DescribeOut(AsGiven(name))], ops := s.ops + [BatchOperation.Describe]), Done)
    else
      var (s1, cached, outcome) := Resolve(s, name, env);
      if cached.None? || !outcome.Done? then (s1, outcome)
      else
        var server := ServerNameOf(cached.value);
        (s1.(skipped := Retarget(s.skipped, server),
             buffer := s.buffer + [DescribeOut(Renamed(server))],
             ops := s.ops + [BatchOperation.Describe]), Done)
  }

  function OnDescribePortal(s: ClientState, portal: string): ClientState {
    s.(buffer := s.buffer + [DescribePortalOut(portal)], ops := s.ops + [BatchOperation.DescribePortal])
  }

  function OnExecute(s: ClientState, body: string): ClientState {
    s.(buffer := s.buffer + [ExecuteOut(body)], ops := s.ops + [BatchOperation.Execute])
  }

  function OnClose(s: ClientState, statement: bool, name: string): ClientState {
    s.(buffer := s.buffer + [CloseOut(statement, name)], ops := s.ops + [BatchOperation.Close],
       cache := if s.enabled && statement && name != "" then CachePop(s.cache, Named(name)).0 else s.cache)
  }

  /** A Flush first writes a ParseComplete for each skipped Parse to the client, and forgets the batch if there was one. */
  function OnFlush(s: ClientState): (ClientState, seq<byte>) {
    (if s.skipped == [] then s else s.(skipped := [], ops := []), Render(Synthetics(|s.skipped|)))
  }

  /** Sync and Flush send the buffer and reset the batch; Flush makes the client async for good. */
  function OnBatchEnd(s: ClientState, flush: bool): ClientState {
    s.(asyncClient := s.asyncClient || flush, skipped := [], ops := [], parsesSent := 0, buffer := [])
  }

  function OnMessage(s: ClientState, h: Hashing, m: ClientMessage, env: Env): (ClientState, Outcome) {
    match m
    case Parse(name, text) => OnParse(s, h, name, text, env)
    case Bind(name, portal, body) => OnBind(s, name, portal, body, env)
    case Describe(name) => OnDescribe(s, name, env)
    case DescribePortal(portal) => (OnDescribePortal(s, portal), Done)
    case Execute(body) => (OnExecute(s, body), Done)
    case Close(statement, name) => (OnClose(s, statement, name), Done)
    case Sync => (OnBatchEnd(s, false), Done)
    case Flush => (OnBatchEnd(s, true), Done)
  }

  // ---------------------------------------------------------------- the client object

  class Client {
    const enabled: bool
    const cache: PreparedStatementCache
    var asyncClient: bool
    var lastAnonymous: Option<nat>
    var skipped: seq<SkippedParse>
    var ops: seq<BatchOperation>
    var parsesSent: nat
    var evictions: nat
    var buffer: seq<Forwarded>
    var processed: ResponseCounts

    function View(): ClientState
      reads this, cache
    {
      ClientState(enabled, asyncClient, cache.View(), lastAnonymous, skipped, ops, parsesSent, evictions, buffer)
    }

    ghost predicate Valid()
      reads this, cache
    {
      ValidCache(cache.View())
    }

    constructor (enabled: bool, anonSize: nat)
      ensures Valid() && View() == NewClient(enabled, anonSize) && processed == NO_RESPONSES && fresh(cache)
    {
      this.enabled := enabled;
      cache := new PreparedStatementCache(anonSize);
      asyncClient, lastAnonymous, skipped, ops := false, None, [], [];
      parsesSent, evictions, buffer, processed := 0, 0, [], NO_RESPONSES;
    }

    method ProcessParse(h: Hashing, name: string, text: Statement, env: Env) returns (r: Outcome)
      requires Valid()
      modifies this, cache
      ensures Valid() && (View(), r) == OnParse(old(View()), h, name, text, env) && processed == old(processed)
    {
      if !enabled {
        buffer := buffer + [ParseOut(AsGiven(name), text)];
        ops := ops + [ParseSent];
        return Done;
      }
      var hash := h.of(text, env.planner);
      if env.shared.None? {
        return Aborted;
      }
      var shared := env.shared.value;
      var asyncName := if asyncClient then Some(env.asyncName) else None;
      var cached := CachedStatement(shared, hash, asyncName);
      StoreStatement(name, hash, cached);
      r := SendOrSkipParse(ServerNameOf(cached), shared.text, env);
    }

    method StoreStatement(name: string, hash: nat, cached: CachedStatement)
      requires Valid()
      modifies this`lastAnonymous, this`evictions, cache
      ensures Valid() && View() == Store(old(View()), name, hash, cached)
    {
      if name == "" {
        lastAnonymous := Some(hash);
      }
      var outcome := cache.Put(KeyFor(name, hash), cached);
      if outcome.Evicted? {
        evictions := evictions + 1;
      }
    }

    method SendOrSkipParse(server: ServerName, text: Statement, env: Env) returns (r: Outcome)
      modifies this`buffer, this`skipped, this`ops, this`parsesSent
      ensures (View(), r) == SendOrSkip(old(View()), server, text, env)
    {
      if env.serverHas {
        if asyncClient {
          buffer := buffer + [ParseOut(Renamed(server), text)];
        } else {
          skipped := skipped + [SkippedParse(server, BeforeBindComplete, false, false)];
          ops := ops + [ParseSkipped];
        }
      } else {
        if !env.registration.Registered? {
          return Aborted;
        }
        MarkPending();
        buffer := buffer + [ParseOut(Renamed(server), text)];
        parsesSent := parsesSent + 1;
        ops := ops + [ParseSent];
      }
      r := Done;
    }

    /** Skipped Parses without a Bind yet go to the beginning once another Parse is sent. */
    method MarkPending()
      modifies this`skipped
      ensures skipped == MarkBeginning(old(skipped))
    {
      var i := 0;
      while i < |skipped|
        invariant 0 <= i <= |skipped| == |old(skipped)|
        invariant skipped[..i] == MarkBeginning(old(skipped))[..i]
        invariant skipped[i..] == old(skipped)[i..]
      {
        assert skipped[i] == old(skipped)[i];
        if !skipped[i].insertAtBeginning && !skipped[i].hasBind {
          skipped := skipped[i := skipped[i].(insertAtBeginning := true)];
        }
        i := i + 1;
      }
    }

    method ResolveStatement(name: string, env: Env) returns (cached: Option<CachedStatement>, r: Outcome)
      requires Valid()
      modifies cache
      ensures Valid() && (View(), cached, r) == Resolve(old(View()), name, env)
    {
      var key;
      if name == "" {
        if lastAnonymous.None? {
          return None, UnknownStatement;
        }
        key := Anonymous(lastAnonymous.value);
      } else {
        key := Named(name);
      }
      cached := cache.Get(key);
      if cached.None? {
        return cached, UnknownStatement;
      }
      // ensure_prepared_statement_is_on_server reads the entry once more
      var _ := cache.Get(key);
      match env.registration
      case Registered => r := Done;
      case Rejected =>
        var _ := cache.Pop(key);
        r := Done;
      case Failed => r := Aborted;
    }

    method ProcessBind(name: string, portal: string, body: string, env: Env) returns (r: Outcome)
      requires Valid()
      modifies this, cache
      ensures Valid() && (View(), r) == OnBind(old(View()), name, portal, body, env) && processed == old(processed)
    {
      if !enabled {
        buffer := buffer + [BindOut(AsGiven(name), portal, body)];
        ops := ops + [BatchOperation.Bind];
        return Done;
      }
      var cached;
      cached, r := ResolveStatement(name, env);
      if cached.None? || !r.Done? {
        return r;
      }
      var server := ServerNameOf(cached.value);
      MarkFirstWaiting(server);
      buffer := buffer + [BindOut(Renamed(server), portal, body)];
      ops := ops + [BatchOperation.Bind];
    }

    method MarkFirstWaiting(name: ServerName)
      modifies this`skipped
      ensures skipped == MarkBound(old(skipped), name)
    {
      var i := 0;
      while i < |skipped| && !AwaitsBind(skipped[i], name)
        invariant 0 <= i <= |skipped| && skipped == old(skipped)
        invariant FirstAwaiting(skipped, name, 0) == FirstAwaiting(skipped, name, i)
      {
        i := i + 1;
      }
      if i < |skipped| {
        skipped := skipped[i := skipped[i].(hasBind := true)];
      }
    }

    method ProcessDescribe(name: string, env: Env) returns (r: Outcome)
      requires Valid()
      modifies this, cache
      ensures Valid() && (View(), r) == OnDescribe(old(View()), name, env) && processed == old(processed)
    {
      if !enabled {
        buffer := buffer + [DescribeOut(AsGiven(name))];
        ops := ops + [BatchOperation.Describe];
        return Done;
      }
      var cached;
      cached, r := ResolveStatement(name, env);
      if cached.None? || !r.Done? {
        return r;
      }
      var server := ServerNameOf(cached.value);
      RetargetFirst(server);
      buffer := buffer + [DescribeOut(Renamed(server))];
      ops := ops + [BatchOperation.Describe];
    }

    method RetargetFirst(name: ServerName)
      modifies this`skipped
      ensures skipped == Retarget(old(skipped), name)
    {
      var i := 0;
      while i < |skipped| && !AtBindComplete(skipped[i], name)
        invariant 0 <= i <= |skipped| && skipped == old(skipped)
        invariant FirstAtBind(skipped, name, 0) == FirstAtBind(skipped, name, i)
      {
        i := i + 1;
      }
      if i < |skipped| {
        var entry := skipped[i];
        skipped := skipped[..i] + skipped[i + 1..];
        skipped := skipped + [entry.(target := BeforeParameterDescription)];
      }
    }

    method ProcessClose(statement: bool, name: string)
      requires Valid()
      modifies this, cache
      ensures Valid() && View() == OnClose(old(View()), statement, name) && processed == old(processed)
    {
      buffer := buffer + [CloseOut(statement, name)];
      ops := ops + [BatchOperation.Close];
      if enabled && statement && name != "" {
        var _ := cache.Pop(Named(name));
      }
    }

    /** Splices the ParseCompletes of skipped Parses into a buffer of the reply; None is an integer underflow. */
    method ReorderParseCompletes(response: seq<byte>) returns (r: Option<seq<byte>>)
      modifies this`processed
      ensures match Reorder(ops, |skipped|, old(processed), response)
              case Reply(bytes, done) => r == Some(bytes) && processed == done
              case Overflowed => r == None && processed == old(processed)
    {
      var reply := BatchLoops.ReorderBuffer(ops, |skipped|, processed, response);
      if reply.Overflowed? {
        return None;
      }
      processed := reply.done;
      r := Some(reply.bytes);
    }

    /** The bytes written to the client at a Flush before the server is asked. */
    method FlushSkipped() returns (out: seq<byte>)
      modifies this`skipped, this`ops
      ensures (View(), out) == OnFlush(old(View()))
    {
      out := BatchLoops.PutParseCompletes([], |skipped|);
      assert out == Render(Synthetics(|skipped|));
      if |skipped| > 0 {
        skipped, ops := [], [];
      }
    }

    /** End of a Sync or Flush: the buffer has been sent and answered. */
    method EndBatch(flush: bool)
      modifies this
      ensures View() == OnBatchEnd(old(View()), flush) && processed == NO_RESPONSES
    {
      if flush {
        asyncClient := true;
      }
      buffer := [];
      parsesSent, skipped, ops, processed := 0, [], [], NO_RESPONSES;
    }
  }
}
