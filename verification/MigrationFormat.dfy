/** The migration format as a relation between bytes and states: exactly what the decoder accepts. */
module MigrationFormat {
  import opened Wire
  import opened MigrationCodec

  // ---------------------------------------------------------------- the format

  /** Number `n` stands in the `k` bytes from `pos` to `end`. */
  ghost predicate NumAt(b: Buffer, pos: nat, k: nat, n: nat, end: nat) {
    end == pos + k <= |b| && n < Pow256(k) && b[pos..end] == ToBE(k, n)
  }

  /** A signed number, in two's complement. */
  ghost predicate IntAt(b: Buffer, pos: nat, n: int, end: nat) {
    -0x8000_0000 <= n < 0x8000_0000 && NumAt(b, pos, 4, if n < 0 then n + 0x1_0000_0000 else n, end)
  }

  /** A flag is set by any byte but zero. */
  ghost predicate FlagAt(b: Buffer, pos: nat, flag: bool, end: nat) {
    end == pos + 1 <= |b| && (flag <==> b[pos] != 0)
  }

  /** Bytes after their length in `k` bytes. */
  ghost predicate BytesAt(b: Buffer, pos: nat, k: nat, s: seq<byte>, end: nat) {
    NumAt(b, pos, k, |s|, pos + k) && end == pos + k + |s| <= |b| && b[pos + k..end] == s
  }

  ghost predicate StrAt<Ip>(std: Std<Ip>, b: Buffer, pos: nat, s: Text, end: nat) {
    BytesAt(b, pos, 2, s, end) && std.isUtf8(s)
  }

  /** Elements one after the other. */
  ghost predicate AllAt<T>(at: (Buffer, nat, T, nat) -> bool, b: Buffer, pos: nat, xs: seq<T>, end: nat)
    decreases |xs|
  {
    if xs == [] then end == pos
    else exists mid: nat :: at(b, pos, xs[0], mid) && AllAt(at, b, mid, xs[1..], end)
  }

  /** A tag of zero and a name, or any other tag and a hash. */
  ghost predicate KeyAt<Ip>(std: Std<Ip>, b: Buffer, pos: nat, k: Key, end: nat) {
    && pos < |b|
    && match k
       case Named(name) => b[pos] == 0 && StrAt(std, b, pos + 1, name, end)
       case Anonymous(hash) => b[pos] != 0 && NumAt(b, pos + 1, 8, hash, end)
  }

  ghost predicate QueryAt<Ip>(std: Std<Ip>, b: Buffer, pos: nat, q: Text, end: nat) {
    |q| <= 10_485_760 && BytesAt(b, pos, 4, q, end) && std.isUtf8(q)
  }

  ghost predicate TypesAt(b: Buffer, pos: nat, ts: seq<int>, end: nat) {
    |ts| <= 32_767 && NumAt(b, pos, 2, |ts|, pos + 2) && AllAt(IntAt, b, pos + 2, ts, end)
  }

  ghost predicate EntryAt<Ip>(std: Std<Ip>, b: Buffer, pos: nat, e: Entry, end: nat) {
    var p1 := pos + if e.key.Named? then 3 + |e.key.name| else 9;
    var p2 := p1 + 12 + |e.query|;
    && KeyAt(std, b, pos, e.key, p1) && NumAt(b, p1, 8, e.hash, p1 + 8)
    && QueryAt(std, b, p1 + 8, e.query, p2) && TypesAt(b, p2, e.paramTypes, end)
  }

  ghost predicate PairAt<Ip>(std: Std<Ip>, b: Buffer, pos: nat, p: (Text, Text), end: nat) {
    StrAt(std, b, pos, p.0, pos + 2 + |p.0|) && StrAt(std, b, pos + 2 + |p.0|, p.1, end)
  }

  ghost function PairsFormat<Ip>(std: Std<Ip>): (Buffer, nat, (Text, Text), nat) -> bool {
    (b: Buffer, pos: nat, p: (Text, Text), end: nat) => PairAt(std, b, pos, p, end)
  }

  ghost predicate ParametersAt<Ip>(std: Std<Ip>, b: Buffer, pos: nat, ps: seq<(Text, Text)>, end: nat) {
    NumAt(b, pos, 2, |ps|, pos + 2) && AllAt(PairsFormat(std), b, pos + 2, ps, end)
  }

  ghost function EntriesFormat<Ip>(std: Std<Ip>): (Buffer, nat, Entry, nat) -> bool {
    (b: Buffer, pos: nat, e: Entry, end: nat) => EntryAt(std, b, pos, e, end)
  }

  ghost predicate PreparedAt<Ip>(std: Std<Ip>, b: Buffer, pos: nat, p: Prepared<Entry>, end: nat) {
    && FlagAt(b, pos, p.enabled, pos + 1) && FlagAt(b, pos + 1, p.asyncClient, pos + 2)
    && |p.entries| <= 100_000 && NumAt(b, pos + 2, 4, |p.entries|, pos + 6)
    && AllAt(EntriesFormat(std), b, pos + 6, p.entries, end)
  }

  /** A port, and an address in any text that parses to it. */
  ghost predicate AddressAt<Ip>(std: Std<Ip>, b: Buffer, pos: nat, a: Address<Ip>, end: nat) {
    NumAt(b, pos, 2, a.port, pos + 2) &&
    exists text :: BytesAt(b, pos + 2, 1, text, end) && std.isUtf8(text) && std.parse(text) == Some(a.ip)
  }

  ghost predicate WhoAt<Ip>(std: Std<Ip>, b: Buffer, pos: nat, w: Who<Ip>, end: nat) {
    var mid := pos + 4 + |w.pool| + |w.user|;
    PairAt(std, b, pos, (w.pool, w.user), mid) && AddressAt(std, b, mid, w.address, end)
  }

  /** The backend auth is absent, or has an unknown tag, or one of three; what follows it is ignored. */
  ghost predicate AuthAt<Ip>(std: Std<Ip>, b: Buffer, pos: nat, a: Option<BackendAuth>) {
    match a
    case None => pos >= |b| || b[pos] !in [1, 2, 3]
    case Some(Md5PassTheHash(hash)) => pos < |b| && b[pos] == 1 && StrAt(std, b, pos + 1, hash, pos + 3 + |hash|)
    case Some(ScramPassthrough(key)) => pos < |b| && b[pos] == 2 && BytesAt(b, pos + 1, 2, key, pos + 3 + |key|)
    case Some(ScramPending) => pos < |b| && b[pos] == 3
  }

  /** The magic "PGMG", version 2, and the fields in order. */
  ghost predicate StateAt<Ip>(std: Std<Ip>, b: Buffer, s: State<Ip>) {
    && |b| >= 19 && b[..6] == [0x50, 0x47, 0x4D, 0x47, 0, 2]
    && NumAt(b, 6, 8, s.connectionId, 14) && IntAt(b, 14, s.secretKey, 18) && FlagAt(b, 18, s.transactionMode, 19)
    && exists p1: nat, p2: nat, p3: nat ::
         && WhoAt(std, b, 19, Who(s.poolName, s.username, Address(s.port, s.ip)), p1)
         && ParametersAt(std, b, p1, s.parameters, p2)
         && PreparedAt(std, b, p2, PreparedOf(s), p3)
         && FlagAt(b, p3, s.useTls, p3 + 1) && AuthAt(std, b, p3 + 1, s.backendAuth)
  }

  // ---------------------------------------------------------------- numbers

  lemma {:induction false} ToBEOfUInt(b: Buffer, pos: nat, k: nat)
    requires pos + k <= |b|
    ensures UInt(b, pos, k) < Pow256(k) && ToBE(k, UInt(b, pos, k)) == b[pos..pos + k]
  {
    if k > 0 {
      ToBEOfUInt(b, pos, k - 1);
      var n, x: nat := UInt(b, pos, k - 1), b[pos + k - 1];
      DivMod(n, x);
      assert b[pos..pos + k] == b[pos..pos + k - 1] + [x];
    }
  }

  lemma DivMod(n: nat, x: nat)
    requires x < 256
    ensures (n * 256 + x) / 256 == n && (n * 256 + x) % 256 == x
  {
  }

  lemma {:induction false} ToBEInjective(k: nat, m: nat, n: nat)
    requires m < Pow256(k) && n < Pow256(k) && ToBE(k, m) == ToBE(k, n)
    ensures m == n
  {
    if k > 0 {
      var a, c := ToBE(k - 1, m / 256), ToBE(k - 1, n / 256);
      assert (a + [m % 256])[..k - 1] == a && (c + [n % 256])[..k - 1] == c;
      assert (a + [m % 256])[k - 1] == m % 256 && (c + [n % 256])[k - 1] == n % 256;
      ToBEInjective(k - 1, m / 256, n / 256);
    }
  }

  lemma NumIff(b: Buffer, pos: nat, k: nat, n: nat)
    ensures NumAt(b, pos, k, n, pos + k) <==> pos + k <= |b| && UInt(b, pos, k) == n
  {
    if pos + k <= |b| {
      ToBEOfUInt(b, pos, k);
      if NumAt(b, pos, k, n, pos + k) {
        ToBEInjective(k, n, UInt(b, pos, k));
      }
    }
  }

  lemma IntIff(b: Buffer, pos: nat, n: int, end: nat)
    ensures IntAt(b, pos, n, end) <==> GetI32(b, pos) == Ok((n, end))
  {
    hide NumAt, UInt;
    Widths();
    if end == pos + 4 <= |b| {
      UIntBound(b, pos, 4);
      if -0x8000_0000 <= n < 0x8000_0000 {
        NumIff(b, pos, 4, if n < 0 then n + 0x1_0000_0000 else n);
      }
    } else {
      NumEnds(b, pos, 4, n, end);
    }
  }

  lemma NumEnds(b: Buffer, pos: nat, k: nat, n: int, end: nat)
    ensures forall m: nat :: NumAt(b, pos, k, m, end) ==> end == pos + k <= |b|
  {
  }

  lemma ByteIs(b: Buffer, pos: nat)
    requires pos < |b|
    ensures UInt(b, pos, 1) == b[pos]
  {
    assert UInt(b, pos, 0) == 0;
  }

  // ---------------------------------------------------------------- texts

  lemma BytesIff(b: Buffer, pos: nat, k: nat, s: seq<byte>, end: nat)
    ensures BytesAt(b, pos, k, s, end) <==>
              && pos + k <= |b| && end == pos + k + |s| && UInt(b, pos, k) == |s|
              && pos + k + UInt(b, pos, k) <= |b| && s == b[pos + k..pos + k + UInt(b, pos, k)]
  {
    hide NumAt, UInt;
    NumIff(b, pos, k, |s|);
  }

  lemma StrIff<Ip>(std: Std<Ip>, b: Buffer, pos: nat, s: Text, end: nat)
    ensures StrAt(std, b, pos, s, end) <==> GetStr(std, b, pos) == Ok((s, end))
  {
    hide BytesAt, UInt;
    BytesIff(b, pos, 2, s, end);
  }

  lemma PairIff<Ip>(std: Std<Ip>, b: Buffer, pos: nat, p: (Text, Text), end: nat)
    ensures PairAt(std, b, pos, p, end) <==> GetPair(std, b, pos) == Ok((p, end))
  {
    hide StrAt, GetStr;
    StrIff(std, b, pos, p.0, pos + 2 + |p.0|);
    StrIff(std, b, pos + 2 + |p.0|, p.1, end);
    StrEnds(std, b, pos);
    var first := GetStr(std, b, pos);
    if GetPair(std, b, pos) == Ok((p, end)) {
      assert first == Ok((p.0, first.value.1));
      var second := GetStr(std, b, first.value.1);
      Parsed2(second, p.1, end);
    }
  }

  lemma Parsed2<T>(r: Parsed<T>, x: T, end: nat)
    requires r.Ok? && r.value.0 == x && r.value.1 == end
    ensures r == Ok((x, end))
  {
  }

  lemma StrEnds<Ip>(std: Std<Ip>, b: Buffer, pos: nat)
    ensures GetStr(std, b, pos).Ok? ==> GetStr(std, b, pos).value.1 == pos + 2 + |GetStr(std, b, pos).value.0|
  {
  }

  // ---------------------------------------------------------------- lists

  ghost predicate Agree<T(!new)>(at: (Buffer, nat, T, nat) -> bool, get: (Buffer, nat) -> Parsed<T>, b: Buffer) {
    forall pos: nat, x, end: nat :: at(b, pos, x, end) <==> get(b, pos) == Ok((x, end))
  }

  lemma {:induction false} AllIff<T(!new)>(at: (Buffer, nat, T, nat) -> bool, get: (Buffer, nat) -> Parsed<T>, b: Buffer,
                                           pos: nat, n: nat, read: seq<T>, xs: seq<T>, end: nat)
    requires Agree(at, get, b)
    ensures |xs| == n && AllAt(at, b, pos, xs, end) <==> GetAll(get, b, pos, n, read) == Ok((read + xs, end))
    decreases n
  {
    var r := GetAll(get, b, pos, n, read);
    if n == 0 {
      assert read == read + xs <==> xs == [] by { assert |read + xs| == |read| + |xs|; }
    } else if get(b, pos).Err? {
      if xs != [] {
        assert forall mid: nat :: at(b, pos, xs[0], mid) <==> get(b, pos) == Ok((xs[0], mid));
      }
    } else {
      var (x, p) := get(b, pos).value;
      AllGrows(get, b, p, n - 1, read + [x]);
      if xs != [] && xs[0] == x {
        assert at(b, pos, x, p);
        assert forall mid: nat :: at(b, pos, x, mid) <==> mid == p;
        AllIff(at, get, b, p, n - 1, read + [x], xs[1..], end);
        assert read + [x] + xs[1..] == read + xs;
      } else if xs != [] {
        assert forall mid: nat :: !at(b, pos, xs[0], mid);
        if r.Ok? {
          assert r.value.0[|read|] == x && (read + xs)[|read|] == xs[0];
        }
      }
    }
  }

  /** What was read stays in front. */
  lemma {:induction false} AllGrows<T>(get: (Buffer, nat) -> Parsed<T>, b: Buffer, pos: nat, n: nat, read: seq<T>)
    ensures var r := GetAll(get, b, pos, n, read); r.Ok? ==> read <= r.value.0
    decreases n
  {
    if n > 0 && get(b, pos).Ok? {
      var (x, p) := get(b, pos).value;
      AllGrows(get, b, p, n - 1, read + [x]);
    }
  }

  lemma PairsAgree<Ip>(std: Std<Ip>, b: Buffer)
    ensures Agree(PairsFormat(std), PairReader(std), b)
  {
    hide PairAt, GetPair;
    forall pos: nat, p, end: nat ensures PairAt(std, b, pos, p, end) <==> GetPair(std, b, pos) == Ok((p, end)) {
      PairIff(std, b, pos, p, end);
    }
  }

  lemma IntsAgree(b: Buffer)
    ensures Agree(IntAt, GetI32, b)
  {
    hide IntAt, GetI32;
    forall pos: nat, n, end: nat ensures IntAt(b, pos, n, end) <==> GetI32(b, pos) == Ok((n, end)) {
      IntIff(b, pos, n, end);
    }
  }

  lemma ParametersIff<Ip>(std: Std<Ip>, b: Buffer, pos: nat, ps: seq<(Text, Text)>, end: nat)
    ensures ParametersAt(std, b, pos, ps, end) <==> GetParameters(std, b, pos) == Ok((ps, end))
  {
    hide NumAt, UInt, AllAt, GetAll;
    NumIff(b, pos, 2, |ps|);
    if pos + 2 <= |b| {
      PairsAgree(std, b);
      AllIff(PairsFormat(std), PairReader(std), b, pos + 2, UInt(b, pos, 2), [], ps, end);
      assert [] + ps == ps;
    }
  }

  // ---------------------------------------------------------------- entries

  lemma KeyIff<Ip>(std: Std<Ip>, b: Buffer, pos: nat, k: Key, end: nat)
    ensures KeyAt(std, b, pos, k, end) <==> GetKey(std, b, pos) == Ok((k, end))
    ensures GetKey(std, b, pos) == Ok((k, end)) ==> end == pos + if k.Named? then 3 + |k.name| else 9
  {
    hide StrAt, GetStr, NumAt, UInt;
    if pos < |b| {
      ByteIs(b, pos);
      match k
      case Named(name) =>
        StrIff(std, b, pos + 1, name, end);
        StrEnds(std, b, pos + 1);
      case Anonymous(hash) =>
        NumIff(b, pos + 1, 8, hash);
        NumEnds(b, pos + 1, 8, hash, end);
    }
  }

  lemma QueryIff<Ip>(std: Std<Ip>, b: Buffer, pos: nat, q: Text, end: nat)
    requires pos + 4 <= |b|
    ensures QueryAt(std, b, pos, q, end) <==> GetQuery(std, b, pos) == Ok((q, end))
    ensures GetQuery(std, b, pos) == Ok((q, end)) ==> end == pos + 4 + |q|
  {
    hide BytesAt, UInt;
    BytesIff(b, pos, 4, q, end);
  }

  lemma TypesIff(b: Buffer, pos: nat, ts: seq<int>, end: nat)
    ensures TypesAt(b, pos, ts, end) <==> GetParamTypes(b, pos) == Ok((ts, end))
  {
    hide NumAt, UInt, AllAt, GetAll, IntAt, GetI32;
    NumIff(b, pos, 2, |ts|);
    if pos + 2 <= |b| {
      IntsAgree(b);
      AllIff(IntAt, GetI32, b, pos + 2, UInt(b, pos, 2), [], ts, end);
      assert [] + ts == ts;
      if AllAt(IntAt, b, pos + 2, ts, end) {
        IntsEnd(b, pos + 2, ts, end);
      }
    }
  }

  lemma {:induction false} IntsEnd(b: Buffer, pos: nat, ts: seq<int>, end: nat)
    requires AllAt(IntAt, b, pos, ts, end)
    ensures end == pos + 4 * |ts| && (ts != [] ==> end <= |b|)
    decreases |ts|
  {
    if ts != [] {
      var mid: nat :| IntAt(b, pos, ts[0], mid) && AllAt(IntAt, b, mid, ts[1..], end);
      IntsEnd(b, mid, ts[1..], end);
    }
  }

  lemma EntryIff<Ip>(std: Std<Ip>, b: Buffer, pos: nat, e: Entry, end: nat)
    ensures EntryAt(std, b, pos, e, end) <==> GetEntry(std, b, pos) == Ok((e, end))
  {
    hide KeyAt, GetKey, NumAt, UInt, QueryAt, GetQuery, TypesAt, GetParamTypes;
    var p1 := pos + if e.key.Named? then 3 + |e.key.name| else 9;
    var p2 := p1 + 12 + |e.query|;
    var key := GetKey(std, b, pos);
    KeyIff(std, b, pos, e.key, p1);
    if key.Ok? {
      KeyIff(std, b, pos, key.value.0, key.value.1);
    }
    NumIff(b, p1, 8, e.hash);
    QueryStarts(std, b, p1 + 8, e.query, p2);
    TypesIff(b, p2, e.paramTypes, end);
    if p1 + 12 <= |b| {
      QueryIff(std, b, p1 + 8, e.query, p2);
      var q := GetQuery(std, b, p1 + 8);
      if q.Ok? {
        QueryIff(std, b, p1 + 8, q.value.0, q.value.1);
      }
    }
    if GetEntry(std, b, pos) == Ok((e, end)) {
      assert key == Ok((e.key, key.value.1));
      var q := GetQuery(std, b, p1 + 8);
      assert q == Ok((e.query, q.value.1));
      Parsed2(GetParamTypes(b, q.value.1), e.paramTypes, end);
    }
  }

  lemma QueryStarts<Ip>(std: Std<Ip>, b: Buffer, pos: nat, q: Text, end: nat)
    ensures QueryAt(std, b, pos, q, end) ==> pos + 4 <= |b|
  {
  }

  lemma EntriesAgree<Ip>(std: Std<Ip>, b: Buffer)
    ensures Agree(EntriesFormat(std), EntryReader(std), b)
  {
    hide EntryAt, GetEntry;
    forall pos: nat, e, end: nat ensures EntryAt(std, b, pos, e, end) <==> GetEntry(std, b, pos) == Ok((e, end)) {
      EntryIff(std, b, pos, e, end);
    }
  }

  lemma FlagIff(b: Buffer, pos: nat, flag: bool)
    ensures FlagAt(b, pos, flag, pos + 1) <==> pos < |b| && flag == (UInt(b, pos, 1) != 0)
  {
    if pos < |b| {
      ByteIs(b, pos);
    }
  }

  lemma PreparedIff<Ip>(std: Std<Ip>, b: Buffer, pos: nat, p: Prepared<Entry>, end: nat)
    ensures PreparedAt(std, b, pos, p, end) <==> GetPrepared(EntryReader(std), b, pos) == Ok((p, end))
  {
    hide NumAt, UInt, AllAt, GetAll, FlagAt;
    FlagIff(b, pos, p.enabled);
    FlagIff(b, pos + 1, p.asyncClient);
    NumIff(b, pos + 2, 4, |p.entries|);
    if pos + 6 <= |b| {
      EntriesAgree(std, b);
      AllIff(EntriesFormat(std), EntryReader(std), b, pos + 6, UInt(b, pos + 2, 4), [], p.entries, end);
      assert [] + p.entries == p.entries;
    }
  }

  // ---------------------------------------------------------------- the rest

  lemma AddressIff<Ip>(std: Std<Ip>, b: Buffer, pos: nat, a: Address<Ip>, end: nat)
    ensures AddressAt(std, b, pos, a, end) <==> GetAddress(std, b, pos) == Ok((a, end))
  {
    hide NumAt, UInt, BytesAt;
    NumIff(b, pos, 2, a.port);
    if GetAddress(std, b, pos) == Ok((a, end)) {
      var text := b[pos + 3..pos + 3 + UInt(b, pos + 2, 1)];
      BytesIff(b, pos + 2, 1, text, end);
      assert BytesAt(b, pos + 2, 1, text, end) && std.parse(text) == Some(a.ip);
    }
    if AddressAt(std, b, pos, a, end) {
      var text :| BytesAt(b, pos + 2, 1, text, end) && std.isUtf8(text) && std.parse(text) == Some(a.ip);
      BytesIff(b, pos + 2, 1, text, end);
      assert pos + 2 + 1 == pos + 3;
      assert text == b[pos + 3..pos + 3 + UInt(b, pos + 2, 1)];
      var r := GetAddress(std, b, pos);
      assert r.Ok? && r.value.0.port == a.port && r.value.0.ip == a.ip;
      Parsed2(r, a, end);
    }
  }

  lemma PairEnds<Ip>(std: Std<Ip>, b: Buffer, pos: nat)
    ensures var r := GetPair(std, b, pos); r.Ok? ==> r.value.1 == pos + 4 + |r.value.0.0| + |r.value.0.1|
  {
    hide GetStr;
    StrEnds(std, b, pos);
    if GetStr(std, b, pos).Ok? {
      StrEnds(std, b, GetStr(std, b, pos).value.1);
    }
  }

  lemma WhoIff<Ip>(std: Std<Ip>, b: Buffer, pos: nat, w: Who<Ip>, end: nat)
    ensures WhoAt(std, b, pos, w, end) <==> GetWho(std, b, pos) == Ok((w, end))
  {
    hide PairAt, GetPair, AddressAt, GetAddress;
    var mid := pos + 4 + |w.pool| + |w.user|;
    PairIff(std, b, pos, (w.pool, w.user), mid);
    PairEnds(std, b, pos);
    AddressIff(std, b, mid, w.address, end);
    if GetWho(std, b, pos) == Ok((w, end)) {
      var names := GetPair(std, b, pos);
      assert names == Ok(((w.pool, w.user), names.value.1));
      Parsed2(GetAddress(std, b, mid), w.address, end);
    }
  }

  lemma AuthIff<Ip>(std: Std<Ip>, b: Buffer, pos: nat, a: Option<BackendAuth>)
    ensures AuthAt(std, b, pos, a) <==> GetAuth(std, b, pos) == Ok(a)
  {
    hide StrAt, GetStr, BytesAt, UInt;
    if pos < |b| {
      ByteIs(b, pos);
      StrEnds(std, b, pos + 1);
      match a
      case Some(Md5PassTheHash(hash)) => StrIff(std, b, pos + 1, hash, pos + 3 + |hash|);
      case Some(ScramPassthrough(key)) => BytesIff(b, pos + 1, 2, key, pos + 3 + |key|);
      case _ =>
    }
  }

  lemma HeaderIff<Ip>(b: Buffer, s: State<Ip>)
    requires |b| >= 19
    ensures b[..6] == [0x50, 0x47, 0x4D, 0x47, 0, 2] <==> UInt(b, 0, 4) == MIGRATION_MAGIC && UInt(b, 4, 2) == MIGRATION_VERSION
    ensures NumAt(b, 6, 8, s.connectionId, 14) <==> UInt(b, 6, 8) == s.connectionId
    ensures IntAt(b, 14, s.secretKey, 18) <==> SInt(b, 14) == s.secretKey
    ensures FlagAt(b, 18, s.transactionMode, 19) <==> s.transactionMode == (UInt(b, 18, 1) != 0)
  {
    hide NumAt, UInt, IntAt, FlagAt;
    NumIff(b, 6, 8, s.connectionId);
    IntIff(b, 14, s.secretKey, 18);
    FlagIff(b, 18, s.transactionMode);
    MagicIff(b);
  }

  lemma MagicIff(b: Buffer)
    requires |b| >= 6
    ensures b[..6] == [0x50, 0x47, 0x4D, 0x47, 0, 2] <==> UInt(b, 0, 4) == MIGRATION_MAGIC && UInt(b, 4, 2) == MIGRATION_VERSION
  {
    assert UInt(b, 0, 1) == b[0] && UInt(b, 0, 2) == UInt(b, 0, 1) * 256 + b[1];
    assert UInt(b, 0, 3) == UInt(b, 0, 2) * 256 + b[2] && UInt(b, 0, 4) == UInt(b, 0, 3) * 256 + b[3];
    assert UInt(b, 4, 1) == b[4] && UInt(b, 4, 2) == UInt(b, 4, 1) * 256 + b[5];
    assert b[..6] == [b[0], b[1], b[2], b[3], b[4], b[5]];
  }

  /** For every buffer: the decoder returns a state if and only if the bytes are in the format and stand for it. */
  lemma DecodesIff<Ip>(std: Std<Ip>, b: Buffer, s: State<Ip>)
    ensures GetState(std, b) == Ok(s) <==> StateAt(std, b, s)
  {
    hide NumAt, UInt, IntAt, FlagAt, WhoAt, GetWho, ParametersAt, GetParameters, PreparedAt, GetPrepared, AuthAt, GetAuth, SInt;
    if |b| >= 19 {
      HeaderIff(b, s);
      var who, prepared := Who(s.poolName, s.username, Address(s.port, s.ip)), PreparedOf(s);
      forall end: nat ensures WhoAt(std, b, 19, who, end) <==> GetWho(std, b, 19) == Ok((who, end)) {
        WhoIff(std, b, 19, who, end);
      }
      forall pos: nat, end: nat
        ensures ParametersAt(std, b, pos, s.parameters, end) <==> GetParameters(std, b, pos) == Ok((s.parameters, end))
      {
        ParametersIff(std, b, pos, s.parameters, end);
      }
      forall pos: nat, end: nat
        ensures PreparedAt(std, b, pos, prepared, end) <==> GetPrepared(EntryReader(std), b, pos) == Ok((prepared, end))
      {
        PreparedIff(std, b, pos, prepared, end);
      }
      forall pos: nat
        ensures FlagAt(b, pos, s.useTls, pos + 1) && AuthAt(std, b, pos + 1, s.backendAuth)
           <==> GetTail(std, b, pos) == Ok((s.useTls, s.backendAuth))
      {
        FlagIff(b, pos, s.useTls);
        AuthIff(std, b, pos + 1, s.backendAuth);
      }
      StateIff(std, b, s);
    }
  }

  lemma StateIff<Ip>(std: Std<Ip>, b: Buffer, s: State<Ip>)
    requires |b| >= 19
    requires b[..6] == [0x50, 0x47, 0x4D, 0x47, 0, 2] <==> UInt(b, 0, 4) == MIGRATION_MAGIC && UInt(b, 4, 2) == MIGRATION_VERSION
    requires NumAt(b, 6, 8, s.connectionId, 14) <==> UInt(b, 6, 8) == s.connectionId
    requires IntAt(b, 14, s.secretKey, 18) <==> SInt(b, 14) == s.secretKey
    requires FlagAt(b, 18, s.transactionMode, 19) <==> s.transactionMode == (UInt(b, 18, 1) != 0)
    requires forall end: nat :: WhoAt(std, b, 19, Who(s.poolName, s.username, Address(s.port, s.ip)), end)
               <==> GetWho(std, b, 19) == Ok((Who(s.poolName, s.username, Address(s.port, s.ip)), end))
    requires forall pos: nat, end: nat :: ParametersAt(std, b, pos, s.parameters, end)
               <==> GetParameters(std, b, pos) == Ok((s.parameters, end))
    requires forall pos: nat, end: nat :: PreparedAt(std, b, pos, PreparedOf(s), end)
               <==> GetPrepared(EntryReader(std), b, pos) == Ok((PreparedOf(s), end))
    requires forall pos: nat {:trigger GetTail(std, b, pos)} ::
               FlagAt(b, pos, s.useTls, pos + 1) && AuthAt(std, b, pos + 1, s.backendAuth)
               <==> GetTail(std, b, pos) == Ok((s.useTls, s.backendAuth))
    ensures GetState(std, b) == Ok(s) <==> StateAt(std, b, s)
  {
    hide NumAt, UInt, IntAt, FlagAt, WhoAt, GetWho, ParametersAt, GetParameters, PreparedAt, GetPrepared, AuthAt, GetTail, SInt;
    if GetState(std, b) == Ok(s) {
      var p1 := GetWho(std, b, 19).value.1;
      var p2 := GetParameters(std, b, p1).value.1;
      var p3 := GetPrepared(EntryReader(std), b, p2).value.1;
      assert GetWho(std, b, 19) == Ok((Who(s.poolName, s.username, Address(s.port, s.ip)), p1));
      assert GetParameters(std, b, p1) == Ok((s.parameters, p2));
      assert GetPrepared(EntryReader(std), b, p2) == Ok((PreparedOf(s), p3));
      assert ParametersAt(std, b, p1, s.parameters, p2) && PreparedAt(std, b, p2, PreparedOf(s), p3);
      var tail := GetTail(std, b, p3);
      assert tail.Ok? && tail.value.0 == s.useTls && tail.value.1 == s.backendAuth;
      assert tail.value == (s.useTls, s.backendAuth);
      assert tail == Ok((s.useTls, s.backendAuth));
    }
    if StateAt(std, b, s) {
      var p1: nat, p2: nat, p3: nat :|
        && WhoAt(std, b, 19, Who(s.poolName, s.username, Address(s.port, s.ip)), p1)
        && ParametersAt(std, b, p1, s.parameters, p2) && PreparedAt(std, b, p2, PreparedOf(s), p3)
        && FlagAt(b, p3, s.useTls, p3 + 1) && AuthAt(std, b, p3 + 1, s.backendAuth);
      assert GetTail(std, b, p3) == Ok((s.useTls, s.backendAuth));
    }
  }

  /** The first faults are told apart in order: too short, wrong magic, wrong version. */
  lemma HeaderErrors<Ip>(std: Std<Ip>, b: Buffer)
    ensures |b| < 19 ==> GetState(std, b) == Err(Short)
    ensures |b| >= 19 && b[..4] != [0x50, 0x47, 0x4D, 0x47] ==> GetState(std, b) == Err(BadMagic)
    ensures |b| >= 19 && b[..4] == [0x50, 0x47, 0x4D, 0x47] && b[4..6] != [0, 2] ==> GetState(std, b) == Err(BadVersion)
  {
    hide GetWho, GetParameters, GetPrepared, GetTail;
    if |b| >= 19 {
      assert UInt(b, 0, 1) == b[0] && UInt(b, 0, 2) == UInt(b, 0, 1) * 256 + b[1];
      assert UInt(b, 0, 3) == UInt(b, 0, 2) * 256 + b[2] && UInt(b, 0, 4) == UInt(b, 0, 3) * 256 + b[3];
      assert UInt(b, 4, 1) == b[4] && UInt(b, 4, 2) == UInt(b, 4, 1) * 256 + b[5];
      assert b[..4] == [b[0], b[1], b[2], b[3]] && b[4..6] == [b[4], b[5]];
    }
  }
}
