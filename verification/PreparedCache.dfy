/** Prepared statements as the pooler names them. */
module Statements {
  import opened Wire

  /** What a Parse message says: the query text and the parameter type oids. */
  datatype Statement = Statement(query: string, paramTypes: seq<int>)

  /** Names the pooler gives statements on a server: `DOORMAN_<n>` and `DOORMAN_async_<n>`. */
  datatype ServerName = Pooled(n: nat) | Async(n: nat)

  /** The pool's shared copy of a Parse, under the name the pool gave it. */
  datatype SharedParse = SharedParse(name: ServerName, text: Statement)

  datatype CachedStatement = CachedStatement(parse: SharedParse, hash: nat, asyncName: Option<ServerName>)

  function ServerNameOf(c: CachedStatement): ServerName {
    if c.asyncName.Some? then c.asyncName.value else c.parse.name
  }

  datatype Key = Named(name: string) | Anonymous(hash: nat)

  function KeyFor(name: string, hash: nat): Key {
    if name == "" then Anonymous(hash) else Named(name)
  }
}

/** The per-client statement cache (src/client/core.rs:59-251). */
module PreparedCache {
  import opened Wire
  import opened Lru
  import opened Statements

  datatype AnonymousCache =
    | Unlimited(m: map<nat, CachedStatement>)
    | Limited(lru: Lru<CachedStatement>)

  datatype Cache = Cache(named: map<string, CachedStatement>, anonymous: AnonymousCache)

  datatype PutOutcome = Inserted | Replaced(prev: CachedStatement) | Evicted(victim: CachedStatement)

  function NewCache(anonSize: nat): Cache {
    Cache(map[], if anonSize > 0 then Limited(Lru(anonSize, [])) else Unlimited(map[]))
  }

  function MapGet<K, V>(m: map<K, V>, k: K): Option<V> {
    if k in m then Some(m[k]) else None
  }

  function CacheGet(c: Cache, key: Key): (Cache, Option<CachedStatement>) {
    match key
    case Named(s) => (c, MapGet(c.named, s))
    case Anonymous(h) =>
      match c.anonymous
      case Unlimited(m) => (c, MapGet(m, h))
      case Limited(l) => var (l', v) := LruGet(l, h); (c.(anonymous := Limited(l')), v)
  }

  function CachePut(c: Cache, key: Key, v: CachedStatement): (Cache, PutOutcome) {
    match key
    case Named(s) =>
      (c.(named := c.named[s := v]), if s in c.named then Replaced(c.named[s]) else Inserted)
    case Anonymous(h) =>
      match c.anonymous
      case Unlimited(m) =>
        (c.(anonymous := Unlimited(m[h := v])), if h in m then Replaced(m[h]) else Inserted)
      case Limited(l) =>
        var (l', displaced) := LruPush(l, h, v);
        (c.(anonymous := Limited(l')),
         if displaced.None? then Inserted
         else if Lookup(l.entries, h).Some? then Replaced(displaced.value.1)
         else Evicted(displaced.value.1))
  }

  function CachePop(c: Cache, key: Key): (Cache, Option<CachedStatement>) {
    match key
    case Named(s) => (c.(named := c.named - {s}), MapGet(c.named, s))
    case Anonymous(h) =>
      match c.anonymous
      case Unlimited(m) => (c.(anonymous := Unlimited(m - {h})), MapGet(m, h))
      case Limited(l) => var (l', v) := LruPop(l, h); (c.(anonymous := Limited(l')), v)
  }

  function CacheClear(c: Cache): Cache {
    Cache(map[], if c.anonymous.Limited? then Limited(c.anonymous.lru.(entries := [])) else Unlimited(map[]))
  }

  /** What the cache holds under a key, leaving recency alone. */
  function Peek(c: Cache, key: Key): Option<CachedStatement> {
    match key
    case Named(s) => MapGet(c.named, s)
    case Anonymous(h) =>
      if c.anonymous.Limited? then Lookup(c.anonymous.lru.entries, h) else MapGet(c.anonymous.m, h)
  }

  ghost predicate ValidCache(c: Cache) {
    c.anonymous.Limited? ==> ValidLru(c.anonymous.lru)
  }

  // ---------------------------------------------------------------- single operations

  /** A read returns what is stored and changes nothing any later read can see. */
  lemma GetReads(c: Cache, key: Key)
    requires ValidCache(c)
    ensures ValidCache(CacheGet(c, key).0)
    ensures CacheGet(c, key).1 == Peek(c, key)
    ensures forall k :: Peek(CacheGet(c, key).0, k) == Peek(c, k)
  {
    if key.Anonymous? && c.anonymous.Limited? {
      var l := c.anonymous.lru;
      FrontInserted(l.entries, key.hash);
    }
  }

  lemma FrontInserted(es: seq<(nat, CachedStatement)>, k: nat)
    requires DistinctKeys(es)
    ensures DistinctKeys(Without(es, k))
    ensures forall v :: DistinctKeys([(k, v)] + Without(es, k))
    ensures |Without(es, k)| == |es| - (if Lookup(es, k).Some? then 1 else 0)
    ensures forall v, j :: Lookup([(k, v)] + Without(es, k), j) == if j == k then Some(v) else Lookup(es, j)
  {
    WithoutKeeps(es, k);
    forall v, j ensures Lookup([(k, v)] + Without(es, k), j) == if j == k then Some(v) else Lookup(es, j) {
      assert ([(k, v)] + Without(es, k))[1..] == Without(es, k);
    }
  }

  /** After a write every key reads as before, except the one written and, on eviction, one victim. */
  lemma PutWrites(c: Cache, key: Key, v: CachedStatement) returns (victim: Key)
    requires ValidCache(c)
    ensures ValidCache(CachePut(c, key, v).0)
    ensures Peek(CachePut(c, key, v).0, key) == Some(v)
    ensures CachePut(c, key, v).1.Evicted? <==>
              && key.Anonymous? && c.anonymous.Limited? && Peek(c, key).None?
              && |c.anonymous.lru.entries| == c.anonymous.lru.cap
    ensures CachePut(c, key, v).1.Evicted? ==>
              && c.anonymous.lru.entries != []
              && victim == Anonymous(c.anonymous.lru.entries[|c.anonymous.lru.entries| - 1].0) && victim != key
              && Peek(c, victim) == Some(CachePut(c, key, v).1.victim)
              && Peek(CachePut(c, key, v).0, victim).None?
    ensures forall k :: k != key && !(CachePut(c, key, v).1.Evicted? && k == victim) ==>
              Peek(CachePut(c, key, v).0, k) == Peek(c, k)
    ensures CachePut(c, key, v).1.Replaced? <==> Peek(c, key).Some?
    ensures CachePut(c, key, v).1.Replaced? ==> Peek(c, key) == Some(CachePut(c, key, v).1.prev)
  {
    victim := key;
    if key.Anonymous? && c.anonymous.Limited? {
      var l := c.anonymous.lru;
      var es := l.entries;
      LookupHas(es, key.hash);
      if Lookup(es, key.hash).Some? {
        FrontInserted(es, key.hash);
      } else if |es| == l.cap {
        var n := |es| - 1;
        victim := Anonymous(es[n].0);
        LastDropped(es);
        PushedFront(es[..n], key.hash, v);
        LookupHas(es, es[n].0);
      } else {
        PushedFront(es, key.hash, v);
      }
    }
  }

  lemma PushedFront(es: seq<(nat, CachedStatement)>, k: nat, v: CachedStatement)
    requires DistinctKeys(es) && Lookup(es, k).None?
    ensures DistinctKeys([(k, v)] + es)
    ensures forall j :: Lookup([(k, v)] + es, j) == if j == k then Some(v) else Lookup(es, j)
  {
    LookupHas(es, k);
    assert ([(k, v)] + es)[1..] == es;
  }

  lemma {:induction false} LastDropped(es: seq<(nat, CachedStatement)>)
    requires es != [] && DistinctKeys(es)
    ensures var n := |es| - 1;
            && DistinctKeys(es[..n])
            && forall j :: Lookup(es[..n], j) == if j == es[n].0 then None else Lookup(es, j)
  {
    var n := |es| - 1;
    if n > 0 {
      LastDropped(es[1..]);
      assert es[1..][..n - 1] == es[..n][1..];
    }
  }

  lemma PopRemoves(c: Cache, key: Key)
    requires ValidCache(c)
    ensures ValidCache(CachePop(c, key).0)
    ensures CachePop(c, key).1 == Peek(c, key)
    ensures forall k :: Peek(CachePop(c, key).0, k) == if k == key then None else Peek(c, k)
  {
    if key.Anonymous? && c.anonymous.Limited? {
      WithoutKeeps(c.anonymous.lru.entries, key.hash);
    }
  }

  // ---------------------------------------------------------------- the cache object

  class PreparedStatementCache {
    var named: map<string, CachedStatement>
    var anonymous: AnonymousCache

    function View(): Cache
      reads this
    {
      Cache(named, anonymous)
    }

    constructor (anonSize: nat)
      ensures View() == NewCache(anonSize) && ValidCache(View())
    {
      named := map[];
      if anonSize > 0 {
        anonymous := Limited(Lru(anonSize, []));
      } else {
        anonymous := Unlimited(map[]);
      }
    }

    method Get(key: Key) returns (r: Option<CachedStatement>)
      requires ValidCache(View())
      modifies this
      ensures ValidCache(View()) && (View(), r) == CacheGet(old(View()), key)
      ensures r == old(Peek(View(), key)) && forall k :: Peek(View(), k) == old(Peek(View(), k))
    {
      GetReads(View(), key);
      match key
      case Named(s) =>
        r := if s in named then Some(named[s]) else None;
      case Anonymous(h) =>
        match anonymous {
          case Unlimited(m) => r := if h in m then Some(m[h]) else None;
          case Limited(l) =>
            var res := LruGet(l, h);
            anonymous, r := Limited(res.0), res.1;
        }
    }

    method Put(key: Key, value: CachedStatement) returns (outcome: PutOutcome)
      requires ValidCache(View())
      modifies this
      ensures ValidCache(View()) && (View(), outcome) == CachePut(old(View()), key, value)
    {
      var _ := PutWrites(View(), key, value);
      match key
      case Named(s) =>
        outcome := if s in named then Replaced(named[s]) else Inserted;
        named := named[s := value];
      case Anonymous(h) =>
        match anonymous {
          case Unlimited(m) =>
            outcome := if h in m then Replaced(m[h]) else Inserted;
            anonymous := Unlimited(m[h := value]);
          case Limited(l) =>
            var keyExisted := Lookup(l.entries, h).Some?;
            var res := LruPush(l, h, value);
            anonymous := Limited(res.0);
            match res.1 {
              case None => outcome := Inserted;
              case Some(displaced) => outcome := if keyExisted then Replaced(displaced.1) else Evicted(displaced.1);
            }
        }
    }

    method Pop(key: Key) returns (r: Option<CachedStatement>)
      requires ValidCache(View())
      modifies this
      ensures ValidCache(View()) && (View(), r) == CachePop(old(View()), key)
      ensures forall k :: Peek(View(), k) == if k == key then None else old(Peek(View(), k))
    {
      PopRemoves(View(), key);
      match key
      case Named(s) =>
        r := if s in named then Some(named[s]) else None;
        named := named - {s};
      case Anonymous(h) =>
        match anonymous {
          case Unlimited(m) =>
            r := if h in m then Some(m[h]) else None;
            anonymous := Unlimited(m - {h});
          case Limited(l) =>
            var res := LruPop(l, h);
            anonymous, r := Limited(res.0), res.1;
        }
    }

    method Clear()
      requires ValidCache(View())
      modifies this
      ensures ValidCache(View()) && View() == CacheClear(old(View()))
      ensures forall k :: Peek(View(), k).None?
    {
      named := map[];
      match anonymous {
        case Unlimited(_) => anonymous := Unlimited(map[]);
        case Limited(l) => anonymous := Limited(l.(entries := []));
      }
    }
  }

  // ---------------------------------------------------------------- runs

  datatype CacheOp = Get(key: Key) | Put(key: Key, value: CachedStatement) | Pop(key: Key) | Clear

  function Step(c: Cache, op: CacheOp): Cache {
    match op
    case Get(k) => CacheGet(c, k).0
    case Put(k, v) => CachePut(c, k, v).0
    case Pop(k) => CachePop(c, k).0
    case Clear => CacheClear(c)
  }

  predicate Evicts(c: Cache, op: CacheOp) {
    op.Put? && CachePut(c, op.key, op.value).1.Evicted?
  }

  function RunOps(c: Cache, ops: seq<CacheOp>): Cache {
    if ops == [] then c else Step(RunOps(c, ops[..|ops| - 1]), ops[|ops| - 1])
  }

  /** No put of the run reports an eviction. */
  ghost predicate NeverEvicts(c: Cache, ops: seq<CacheOp>) {
    ops != [] ==>
      var n := |ops| - 1;
      NeverEvicts(c, ops[..n]) && !Evicts(RunOps(c, ops[..n]), ops[n])
  }

  /** Every entry of the bounded cache is an entry of the unlimited one; named entries agree. */
  ghost predicate Refines(l: Cache, u: Cache) {
    && ValidCache(l) && ValidCache(u) && l.anonymous.Limited? && u.anonymous.Unlimited? && l.named == u.named
    && forall k :: Peek(l, k).Some? ==> Peek(l, k) == Peek(u, k)
  }

  ghost predicate SameContents(l: Cache, u: Cache) {
    forall k :: Peek(l, k) == Peek(u, k)
  }

  lemma RefinesStep(l: Cache, u: Cache, op: CacheOp)
    requires Refines(l, u)
    ensures Refines(Step(l, op), Step(u, op))
    ensures SameContents(l, u) && !Evicts(l, op) ==> SameContents(Step(l, op), Step(u, op))
    ensures Step(l, op).anonymous.lru.cap == l.anonymous.lru.cap
  {
    match op
    case Get(k) =>
      GetReads(l, k);
      GetReads(u, k);
    case Put(k, v) =>
      var _ := PutWrites(l, k, v);
      var _ := PutWrites(u, k, v);
    case Pop(k) =>
      PopRemoves(l, k);
      PopRemoves(u, k);
    case Clear =>
  }

  /**
   Under the same run of get, put, pop and clear the bounded cache is always a part of the unlimited
   one and never exceeds its capacity; it is all of it as long as no put has reported an eviction.
   */
  lemma {:induction false} LruRefinesUnlimited(cap: nat, ops: seq<CacheOp>)
    requires cap > 0
    ensures Refines(RunOps(NewCache(cap), ops), RunOps(NewCache(0), ops))
    ensures RunOps(NewCache(cap), ops).anonymous.lru.cap == cap
    ensures |RunOps(NewCache(cap), ops).anonymous.lru.entries| <= cap
    ensures NeverEvicts(NewCache(cap), ops) ==>
              SameContents(RunOps(NewCache(cap), ops), RunOps(NewCache(0), ops))
  {
    if ops != [] {
      var n := |ops| - 1;
      LruRefinesUnlimited(cap, ops[..n]);
      RefinesStep(RunOps(NewCache(cap), ops[..n]), RunOps(NewCache(0), ops[..n]), ops[n]);
    }
  }

  /** A named entry leaves only by a pop of its name or a clear. */
  lemma NamedStay(c: Cache, op: CacheOp, name: string)
    requires ValidCache(c) && name in c.named
    ensures name in Step(c, op).named <==> op != Clear && op != Pop(Named(name))
    ensures op.Put? && op.key == Named(name) ==> Step(c, op).named[name] == op.value
    ensures op != Clear && op != Pop(Named(name)) && !(op.Put? && op.key == Named(name)) ==>
              Step(c, op).named[name] == c.named[name]
  {
  }

  // ---------------------------------------------------------------- which entry is evicted

  predicate Touches(op: CacheOp, k: nat) {
    (op.Get? || op.Put?) && op.key == Anonymous(k)
  }

  /** Index of the last get or put of an anonymous key in a run, -1 when there is none. */
  function LastTouch(ops: seq<CacheOp>, k: nat): int {
    if ops == [] then -1
    else if Touches(ops[|ops| - 1], k) then |ops| - 1
    else LastTouch(ops[..|ops| - 1], k)
  }

  lemma {:induction false} LastTouchBound(ops: seq<CacheOp>, k: nat)
    ensures -1 <= LastTouch(ops, k) < |ops|
    ensures LastTouch(ops, k) >= 0 ==> Touches(ops[LastTouch(ops, k)], k)
    ensures forall i :: LastTouch(ops, k) < i < |ops| ==> !Touches(ops[i], k)
  {
    if ops != [] && !Touches(ops[|ops| - 1], k) {
      LastTouchBound(ops[..|ops| - 1], k);
    }
  }

  ghost predicate ByRecency(ops: seq<CacheOp>, es: seq<(nat, CachedStatement)>) {
    forall i, j :: 0 <= i < j < |es| ==> LastTouch(ops, es[i].0) > LastTouch(ops, es[j].0)
  }

  lemma WithoutByRecency(ops: seq<CacheOp>, es: seq<(nat, CachedStatement)>, k: nat)
    requires ByRecency(ops, es)
    ensures ByRecency(ops, Without(es, k))
  {
    var i := WithoutCuts(es, k);
    var w := Without(es, k);
    assert forall j :: 0 <= j < |w| ==> w[j] == if j < i then es[j] else es[j + 1];
  }

  /** Touching a key puts it in front of everything that was touched before. */
  lemma TouchedFirst(ops: seq<CacheOp>, op: CacheOp, es: seq<(nat, CachedStatement)>, k: nat, v: CachedStatement)
    requires ByRecency(ops, es) && Touches(op, k)
    requires forall i :: 0 <= i < |es| ==> es[i].0 != k
    ensures ByRecency(ops + [op], [(k, v)] + es)
  {
    var all := ops + [op];
    assert all[..|all| - 1] == ops;
    assert LastTouch(all, k) == |ops|;
    forall i | 0 <= i < |es| ensures LastTouch(all, es[i].0) == LastTouch(ops, es[i].0) < |ops| {
      LastTouchBound(ops, es[i].0);
    }
  }

  lemma UntouchedOrder(ops: seq<CacheOp>, op: CacheOp, es: seq<(nat, CachedStatement)>)
    requires ByRecency(ops, es) && forall i :: 0 <= i < |es| ==> !Touches(op, es[i].0)
    ensures ByRecency(ops + [op], es)
  {
    assert (ops + [op])[..|ops + [op]| - 1] == ops;
  }

  lemma RecencyStep(c: Cache, ops: seq<CacheOp>, op: CacheOp)
    requires ValidCache(c) && c.anonymous.Limited? && ByRecency(ops, c.anonymous.lru.entries)
    ensures Step(c, op).anonymous.Limited? && ByRecency(ops + [op], Step(c, op).anonymous.lru.entries)
  {
    var es := c.anonymous.lru.entries;
    if op.Clear? || op.key.Named? {
      UntouchedOrder(ops, op, Step(c, op).anonymous.lru.entries);
    } else {
      var k := op.key.hash;
      LookupHas(es, k);
      WithoutKeeps(es, k);
      WithoutByRecency(ops, es, k);
      match op
      case Get(_) =>
        if Lookup(es, k).Some? {
          TouchedFirst(ops, op, Without(es, k), k, Lookup(es, k).value);
        } else {
          UntouchedOrder(ops, op, es);
        }
      case Put(_, v) =>
        if Lookup(es, k).Some? {
          TouchedFirst(ops, op, Without(es, k), k, v);
        } else if es != [] && |es| >= c.anonymous.lru.cap {
          TouchedFirst(ops, op, es[..|es| - 1], k, v);
        } else {
          TouchedFirst(ops, op, es, k, v);
        }
      case Pop(_) => UntouchedOrder(ops, op, Without(es, k));
    }
  }

  /** In every state a bounded cache can reach, its list is ordered by last use. */
  lemma {:induction false} ListIsRecencyOrder(cap: nat, ops: seq<CacheOp>)
    requires cap > 0
    ensures var c := RunOps(NewCache(cap), ops);
            ValidCache(c) && c.anonymous.Limited? && ByRecency(ops, c.anonymous.lru.entries)
  {
    if ops != [] {
      var n := |ops| - 1;
      ListIsRecencyOrder(cap, ops[..n]);
      LruRefinesUnlimited(cap, ops);
      RecencyStep(RunOps(NewCache(cap), ops[..n]), ops[..n], ops[n]);
      assert ops == ops[..n] + [ops[n]];
    }
  }

  /**
   After any run, a put evicts exactly when its key is fresh and the cache is full, and what leaves
   is the entry whose last get or put lies furthest back.
   */
  lemma EvictionTakesLeastRecent(cap: nat, ops: seq<CacheOp>, k: nat, v: CachedStatement)
    requires cap > 0
    ensures var c := RunOps(NewCache(cap), ops);
            && c.anonymous.Limited?
            && (Evicts(c, Put(Anonymous(k), v)) <==>
                  Peek(c, Anonymous(k)).None? && |c.anonymous.lru.entries| == cap)
            && (Evicts(c, Put(Anonymous(k), v)) ==>
                  exists victim :: EvictedLeastRecent(c, ops, k, v, victim))
  {
    var c := RunOps(NewCache(cap), ops);
    ListIsRecencyOrder(cap, ops);
    LruRefinesUnlimited(cap, ops);
    var victim := PutWrites(c, Anonymous(k), v);
    if Evicts(c, Put(Anonymous(k), v)) {
      LastIsLeastRecent(ops, c.anonymous.lru.entries);
      assert EvictedLeastRecent(c, ops, k, v, victim.hash);
    }
  }

  lemma LastIsLeastRecent(ops: seq<CacheOp>, es: seq<(nat, CachedStatement)>)
    requires es != [] && ByRecency(ops, es)
    ensures forall h :: Lookup(es, h).Some? && h != es[|es| - 1].0 ==>
              LastTouch(ops, es[|es| - 1].0) < LastTouch(ops, h)
  {
    forall h | Lookup(es, h).Some? && h != es[|es| - 1].0
      ensures LastTouch(ops, es[|es| - 1].0) < LastTouch(ops, h)
    {
      LookupHas(es, h);
      var i :| 0 <= i < |es| && es[i].0 == h;
    }
  }

  ghost predicate EvictedLeastRecent(c: Cache, ops: seq<CacheOp>, k: nat, v: CachedStatement, victim: nat) {
    var c' := Step(c, Put(Anonymous(k), v));
    && Peek(c, Anonymous(victim)).Some?
    && Peek(c', Anonymous(victim)).None?
    && (forall key :: key != Anonymous(victim) && key != Anonymous(k) ==> Peek(c', key) == Peek(c, key))
    && (forall h :: Peek(c, Anonymous(h)).Some? && h != victim ==> LastTouch(ops, victim) < LastTouch(ops, h))
  }
}
