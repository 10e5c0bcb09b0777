/** What a client's statement cache becomes after encode, decode and replay (src/client/migration.rs:274-301, 666-714). */
module MigratedCache {
  import opened Wire
  import opened Lru
  import opened Statements
  import opened PreparedCache
  import M = MigrationCodec
  import R = MigrationRoundTrip

  /** A `String` as its UTF-8 bytes, and back. */
  datatype Strings = Strings(bytes: string -> seq<byte>, text: seq<byte> -> string)

  ghost predicate StringsOk(u: Strings) {
    forall s :: u.text(u.bytes(s)) == s
  }

  /** What the pool and the statement counter answer while the i-th entry is replayed. */
  datatype World = World(register: nat -> Option<SharedParse>, draw: nat -> nat)

  type Pair = (Key, CachedStatement)

  // ---------------------------------------------------------------- the old process

  function EntryOf(u: Strings, p: Pair): M.Entry {
    M.Entry(if p.0.Named? then M.Named(u.bytes(p.0.name)) else M.Anonymous(p.0.hash),
            p.1.hash, u.bytes(p.1.parse.text.query), p.1.parse.text.paramTypes)
  }

  function EntriesOf(u: Strings, ps: seq<Pair>): seq<M.Entry> {
    seq(|ps|, i requires 0 <= i < |ps| => EntryOf(u, ps[i]))
  }

  ghost predicate DistinctPairs(ps: seq<Pair>) {
    forall i, j :: 0 <= i < j < |ps| ==> ps[i].0 != ps[j].0
  }

  /** `iter`: every entry of the cache once, in an order the source leaves open. */
  ghost predicate Lists(c: Cache, ps: seq<Pair>) {
    && DistinctPairs(ps)
    && (forall i :: 0 <= i < |ps| ==> Peek(c, ps[i].0) == Some(ps[i].1))
    && (forall k :: Peek(c, k).Some? ==> exists i :: 0 <= i < |ps| && ps[i].0 == k)
  }

  // ---------------------------------------------------------------- the new process

  function KeyOf(u: Strings, k: M.Key): Key {
    if k.Named? then Named(u.text(k.name)) else Anonymous(k.hash)
  }

  function StatementOf(u: Strings, e: M.Entry): Statement {
    Statement(u.text(e.query), e.paramTypes)
  }

  function Restored(w: World, asyncClient: bool, e: M.Entry, i: nat): CachedStatement
    requires w.register(i).Some?
  {
    CachedStatement(w.register(i).value, e.hash, if asyncClient then Some(Async(w.draw(i))) else None)
  }

  /** `reconstruct_prepared_state` after the first `n` entries; one the pool does not register is left out. */
  function Replay(u: Strings, w: World, asyncClient: bool, cap: nat, es: seq<M.Entry>, n: nat): Cache
    requires n <= |es|
  {
    if n == 0 then NewCache(cap)
    else
      var c := Replay(u, w, asyncClient, cap, es, n - 1);
      if w.register(n - 1).None? then c
      else CachePut(c, KeyOf(u, es[n - 1].key), Restored(w, asyncClient, es[n - 1], n - 1)).0
  }

  method ReconstructPreparedState(u: Strings, w: World, asyncClient: bool, cap: nat, es: seq<M.Entry>)
      returns (cache: PreparedStatementCache)
    ensures fresh(cache) && ValidCache(cache.View()) && cache.View() == Replay(u, w, asyncClient, cap, es, |es|)
  {
    hide CachePut, ValidCache, NewCache;
    cache := new PreparedStatementCache(cap);
    var i := 0;
    while i < |es|
      invariant 0 <= i <= |es| && fresh(cache)
      invariant ValidCache(cache.View()) && cache.View() == Replay(u, w, asyncClient, cap, es, i)
    {
      var shared := w.register(i);
      if shared.Some? {
        var cached := CachedStatement(shared.value, es[i].hash, if asyncClient then Some(Async(w.draw(i))) else None);
        var _ := cache.Put(KeyOf(u, es[i].key), cached);
      }
      i := i + 1;
    }
  }

  // ---------------------------------------------------------------- replaying pairs

  /** The puts of the first `n` pairs into an empty cache. */
  function Puts(cap: nat, ps: seq<Pair>, n: nat): Cache
    requires n <= |ps|
  {
    if n == 0 then NewCache(cap) else CachePut(Puts(cap, ps, n - 1), ps[n - 1].0, ps[n - 1].1).0
  }

  /** The anonymous pairs among the first `n`, last first. */
  function AnonymousRev(ps: seq<Pair>, n: nat): seq<(nat, CachedStatement)>
    requires n <= |ps|
  {
    if n == 0 then []
    else if ps[n - 1].0.Named? then AnonymousRev(ps, n - 1)
    else [(ps[n - 1].0.hash, ps[n - 1].1)] + AnonymousRev(ps, n - 1)
  }

  lemma {:induction false} AnonymousRevFrom(ps: seq<Pair>, n: nat)
    requires n <= |ps| && DistinctPairs(ps)
    ensures DistinctKeys(AnonymousRev(ps, n))
    ensures forall i :: 0 <= i < |AnonymousRev(ps, n)| ==>
              exists j :: 0 <= j < n && ps[j] == (Anonymous(AnonymousRev(ps, n)[i].0), AnonymousRev(ps, n)[i].1)
    ensures forall j :: 0 <= j < n && ps[j].0.Anonymous? ==> (ps[j].0.hash, ps[j].1) in AnonymousRev(ps, n)
  {
    if n > 0 {
      AnonymousRevFrom(ps, n - 1);
      var rest := AnonymousRev(ps, n - 1);
      if ps[n - 1].0.Anonymous? {
        var all := AnonymousRev(ps, n);
        forall i | 0 <= i < |all|
          ensures exists j :: 0 <= j < n && ps[j] == (Anonymous(all[i].0), all[i].1)
        {
          if i > 0 {
            assert all[i] == rest[i - 1];
          } else {
            assert ps[n - 1] == (Anonymous(all[0].0), all[0].1);
          }
        }
      }
    }
  }

  function Newest<T>(xs: seq<T>, cap: nat): seq<T> {
    if |xs| <= cap then xs else xs[..cap]
  }

  lemma FreshPush(all: seq<(nat, CachedStatement)>, cap: nat, k: nat, v: CachedStatement)
    requires cap > 0 && Lookup(Newest(all, cap), k).None?
    ensures LruPush(Lru(cap, Newest(all, cap)), k, v).0 == Lru(cap, Newest([(k, v)] + all, cap))
  {
    if |all| >= cap {
      assert all[..cap][..cap - 1] == all[..cap - 1];
      assert ([(k, v)] + all)[..cap] == [(k, v)] + all[..cap - 1];
    }
  }

  lemma NextIsFresh(ps: seq<Pair>, n: nat, cap: nat)
    requires n < |ps| && DistinctPairs(ps) && ps[n].0.Anonymous?
    ensures Lookup(Newest(AnonymousRev(ps, n), cap), ps[n].0.hash).None?
  {
    AnonymousRevFrom(ps, n);
    LookupHas(Newest(AnonymousRev(ps, n), cap), ps[n].0.hash);
  }

  /** A bounded cache holds the last `cap` anonymous pairs. */
  lemma {:induction false} PutsLimited(cap: nat, ps: seq<Pair>, n: nat)
    requires cap > 0 && n <= |ps| && DistinctPairs(ps)
    ensures Puts(cap, ps, n).anonymous == Limited(Lru(cap, Newest(AnonymousRev(ps, n), cap)))
  {
    hide LruPush, Newest, Lookup;
    if n > 0 {
      PutsLimited(cap, ps, n - 1);
      if ps[n - 1].0.Anonymous? {
        NextIsFresh(ps, n - 1, cap);
        FreshPush(AnonymousRev(ps, n - 1), cap, ps[n - 1].0.hash, ps[n - 1].1);
      }
    } else {
      assert Newest<(nat, CachedStatement)>([], cap) == [] by { NewestOfNone(cap); }
    }
  }

  lemma NewestOfNone(cap: nat)
    ensures Newest<(nat, CachedStatement)>([], cap) == []
  {
  }

  lemma {:induction false} PutsUnlimited(ps: seq<Pair>, n: nat)
    requires n <= |ps| && DistinctPairs(ps)
    ensures Puts(0, ps, n).anonymous.Unlimited?
    ensures forall h :: h in Puts(0, ps, n).anonymous.m <==> exists j :: 0 <= j < n && ps[j].0 == Anonymous(h)
    ensures forall j :: 0 <= j < n && ps[j].0.Anonymous? ==> MapGet(Puts(0, ps, n).anonymous.m, ps[j].0.hash) == Some(ps[j].1)
  {
    if n > 0 {
      PutsUnlimited(ps, n - 1);
    }
  }

  lemma {:induction false} PutsNamed(cap: nat, ps: seq<Pair>, n: nat)
    requires n <= |ps| && DistinctPairs(ps)
    ensures forall s :: s in Puts(cap, ps, n).named <==> exists j :: 0 <= j < n && ps[j].0 == Named(s)
    ensures forall j :: 0 <= j < n && ps[j].0.Named? ==> MapGet(Puts(cap, ps, n).named, ps[j].0.name) == Some(ps[j].1)
  {
    if n > 0 {
      PutsNamed(cap, ps, n - 1);
    }
  }

  // ---------------------------------------------------------------- counting

  function AnonymousCount(c: Cache): nat {
    if c.anonymous.Limited? then |c.anonymous.lru.entries| else |c.anonymous.m|
  }

  function KeySet(es: seq<(nat, CachedStatement)>): set<nat> {
    set i | 0 <= i < |es| :: es[i].0
  }

  lemma {:induction false} KeySetSize(es: seq<(nat, CachedStatement)>)
    requires DistinctKeys(es)
    ensures |KeySet(es)| == |es|
  {
    if es != [] {
      var n := |es| - 1;
      KeySetSize(es[..n]);
      assert KeySet(es) == KeySet(es[..n]) + {es[n].0} by {
        forall h | h in KeySet(es) ensures h in KeySet(es[..n]) + {es[n].0} {
          var i :| 0 <= i < |es| && es[i].0 == h;
          if i < n {
            assert es[..n][i].0 == h;
          }
        }
        forall h | h in KeySet(es[..n]) ensures h in KeySet(es) {
          var i :| 0 <= i < n && es[..n][i].0 == h;
          assert es[i].0 == h;
        }
      }
      assert es[n].0 !in KeySet(es[..n]);
    }
  }

  /** A key is among the anonymous pairs of a listing exactly when the cache holds it. */
  lemma ListedKeys(c: Cache, ps: seq<Pair>, h: nat)
    requires ValidCache(c) && Lists(c, ps)
    ensures h in KeySet(AnonymousRev(ps, |ps|)) <==> Peek(c, Anonymous(h)).Some?
  {
    AnonymousRevFrom(ps, |ps|);
    var es := AnonymousRev(ps, |ps|);
    if h in KeySet(es) {
      var i :| 0 <= i < |es| && es[i].0 == h;
      var j :| 0 <= j < |ps| && ps[j] == (Anonymous(h), es[i].1);
    }
    if Peek(c, Anonymous(h)).Some? {
      var j :| 0 <= j < |ps| && ps[j].0 == Anonymous(h);
      var i :| 0 <= i < |es| && es[i] == (h, ps[j].1);
    }
  }

  lemma ListedCount(c: Cache, ps: seq<Pair>)
    requires ValidCache(c) && Lists(c, ps)
    ensures |AnonymousRev(ps, |ps|)| == AnonymousCount(c)
  {
    var es := AnonymousRev(ps, |ps|);
    AnonymousRevFrom(ps, |ps|);
    KeySetSize(es);
    forall h ensures h in KeySet(es) <==> Peek(c, Anonymous(h)).Some? {
      ListedKeys(c, ps, h);
    }
    if c.anonymous.Limited? {
      var held := c.anonymous.lru.entries;
      KeySetSize(held);
      forall h ensures h in KeySet(es) <==> h in KeySet(held) {
        LookupHas(held, h);
      }
      assert KeySet(es) == KeySet(held);
    } else {
      assert KeySet(es) == c.anonymous.m.Keys;
    }
  }

  // ---------------------------------------------------------------- the theorem

  /** The same statement under the same hash, or nothing in both; the pool may have given it another name. */
  predicate SameStatement(a: Option<CachedStatement>, b: Option<CachedStatement>) {
    a.Some? == b.Some? && (a.Some? ==> a.value.hash == b.value.hash && a.value.parse.text == b.value.parse.text)
  }

  /** The pool registers every entry, and its shared copy has the entry's text: a hash names one text for ever. */
  ghost predicate Registers(u: Strings, w: World, es: seq<M.Entry>) {
    forall i :: 0 <= i < |es| ==> w.register(i).Some? && w.register(i).value.text == StatementOf(u, es[i])
  }

  function RestoredPairs(u: Strings, w: World, asyncClient: bool, es: seq<M.Entry>): seq<Pair>
    requires Registers(u, w, es)
  {
    seq(|es|, i requires 0 <= i < |es| => (KeyOf(u, es[i].key), Restored(w, asyncClient, es[i], i)))
  }

  lemma {:induction false} ReplayIsPuts(u: Strings, w: World, asyncClient: bool, cap: nat, es: seq<M.Entry>, n: nat)
    requires n <= |es| && Registers(u, w, es)
    ensures Replay(u, w, asyncClient, cap, es, n) == Puts(cap, RestoredPairs(u, w, asyncClient, es), n)
  {
    hide CachePut, NewCache;
    if n > 0 {
      ReplayIsPuts(u, w, asyncClient, cap, es, n - 1);
    }
  }

  /** Two lists of pairs with the same keys in the same places and the same statements under them. */
  ghost predicate Alike(ps: seq<Pair>, qs: seq<Pair>) {
    |ps| == |qs| && forall i :: 0 <= i < |ps| ==> ps[i].0 == qs[i].0 && SameStatement(Some(ps[i].1), Some(qs[i].1))
  }

  lemma {:induction false} AlikeCount(ps: seq<Pair>, qs: seq<Pair>, n: nat)
    requires Alike(ps, qs) && n <= |ps|
    ensures |AnonymousRev(ps, n)| == |AnonymousRev(qs, n)|
  {
    if n > 0 {
      AlikeCount(ps, qs, n - 1);
    }
  }

  lemma NamedKept(c: Cache, ps: seq<Pair>, qs: seq<Pair>, cap: nat, name: string)
    requires ValidCache(c) && Lists(c, ps) && Alike(ps, qs)
    ensures SameStatement(Peek(c, Named(name)), Peek(Puts(cap, qs, |qs|), Named(name)))
  {
    PutsNamed(cap, qs, |qs|);
  }

  lemma AnonymousKept(c: Cache, ps: seq<Pair>, qs: seq<Pair>, cap: nat, h: nat)
    requires ValidCache(c) && Lists(c, ps) && Alike(ps, qs)
    ensures var c' := Puts(cap, qs, |qs|);
            Peek(c', Anonymous(h)).Some? || cap == 0 || AnonymousCount(c) <= cap ==>
              SameStatement(Peek(c, Anonymous(h)), Peek(c', Anonymous(h)))
  {
    if cap == 0 {
      PutsUnlimited(qs, |qs|);
    } else {
      PutsLimited(cap, qs, |qs|);
      AnonymousRevFrom(qs, |qs|);
      var all := AnonymousRev(qs, |qs|);
      LookupHas(Newest(all, cap), h);
      ListedCount(c, ps);
      AlikeCount(ps, qs, |ps|);
    }
  }

  /** What the old cache `c` and the new one must agree on. */
  ghost predicate Migrated(c: Cache, c': Cache, cap: nat) {
    && ValidCache(c')
    && (forall name :: SameStatement(Peek(c, Named(name)), Peek(c', Named(name))))
    && (forall k :: Peek(c', k).Some? ==> SameStatement(Peek(c, k), Peek(c', k)))
    && (cap == 0 || AnonymousCount(c) <= cap ==> forall k :: SameStatement(Peek(c, k), Peek(c', k)))
    && (0 < cap < AnonymousCount(c) ==> AnonymousCount(c') == cap)
  }

  lemma PutsMigrate(c: Cache, ps: seq<Pair>, qs: seq<Pair>, cap: nat)
    requires ValidCache(c) && Lists(c, ps) && Alike(ps, qs)
    ensures Migrated(c, Puts(cap, qs, |qs|), cap)
  {
    hide Lists, Alike, Puts, ValidCache, SameStatement;
    var c' := Puts(cap, qs, |qs|);
    assert ValidCache(c') && (0 < cap < AnonymousCount(c) ==> AnonymousCount(c') == cap) by {
      SizeKept(c, ps, qs, cap);
    }
    forall name ensures SameStatement(Peek(c, Named(name)), Peek(c', Named(name))) {
      NamedKept(c, ps, qs, cap, name);
    }
    forall k | Peek(c', k).Some? || cap == 0 || AnonymousCount(c) <= cap
      ensures SameStatement(Peek(c, k), Peek(c', k))
    {
      if k.Named? {
        NamedKept(c, ps, qs, cap, k.name);
      } else {
        AnonymousKept(c, ps, qs, cap, k.hash);
      }
    }
  }

  lemma SizeKept(c: Cache, ps: seq<Pair>, qs: seq<Pair>, cap: nat)
    requires ValidCache(c) && Lists(c, ps) && Alike(ps, qs)
    ensures ValidCache(Puts(cap, qs, |qs|))
    ensures 0 < cap < AnonymousCount(c) ==> AnonymousCount(Puts(cap, qs, |qs|)) == cap
  {
    if cap == 0 {
      PutsUnlimited(qs, |qs|);
    } else {
      PutsLimited(cap, qs, |qs|);
      AnonymousRevFrom(qs, |qs|);
      ListedCount(c, ps);
      AlikeCount(ps, qs, |ps|);
    }
  }

  /** Replaying the entries of a cache, in whatever order it was listed, rebuilds it as `Migrated` says. */
  lemma ReplayMigrates(c: Cache, ps: seq<Pair>, u: Strings, w: World, asyncClient: bool, cap: nat)
    requires ValidCache(c) && Lists(c, ps) && StringsOk(u) && Registers(u, w, EntriesOf(u, ps))
    ensures Migrated(c, Replay(u, w, asyncClient, cap, EntriesOf(u, ps), |ps|), cap)
  {
    hide Lists, Migrated, Puts, Replay, ValidCache;
    var es := EntriesOf(u, ps);
    var qs := RestoredPairs(u, w, asyncClient, es);
    assert Alike(ps, qs);
    ReplayIsPuts(u, w, asyncClient, cap, es, |es|);
    PutsMigrate(c, ps, qs, cap);
  }

  /** Encode, decode and replay: the cache of every client state that fits its fields is migrated. */
  lemma CacheSurvivesMigration<Ip(!new)>(std: M.Std<Ip>, s: M.State<Ip>, c: Cache, ps: seq<Pair>, u: Strings, w: World, cap: nat)
    requires M.StdOk(std) && M.StateTyped(std, s) && M.StateFits(s) && |M.PutState(std, s)| < 0x8000_0000_0000_0000
    requires ValidCache(c) && Lists(c, ps) && StringsOk(u) && s.entries == EntriesOf(u, ps) && Registers(u, w, s.entries)
    ensures var got := M.GetState(std, M.PutState(std, s));
            && got.Ok?
            && var es := got.value.entries;
               Migrated(c, Replay(u, w, got.value.asyncClient, cap, es, |es|), cap)
  {
    hide Lists, Migrated, Replay, ValidCache, StringsOk, M.StdOk, M.StateTyped, M.StateFits, M.GetState, M.PutState;
    R.RoundTripIffFits(std, s);
    ReplayMigrates(c, ps, u, w, s.asyncClient, cap);
  }
}
