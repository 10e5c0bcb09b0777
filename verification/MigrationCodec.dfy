/** The state of an idle client as bytes, for handing it to a new process (src/client/migration.rs:46-467). */
module MigrationCodec {
  import opened Wire

  const MIGRATION_MAGIC := 0x50474D47
  const MIGRATION_VERSION := 2
  const HEADER_SIZE := 19
  const MAX_PREPARED_ENTRIES := 100_000
  const MAX_QUERY_LEN := 10 * 1024 * 1024

  /** A buffer never grows past the allocator's limit of isize::MAX bytes. */
  type Buffer = b: seq<byte> | |b| < 0x8000_0000_0000_0000

  /** UTF-8 text as the bytes of a `String`. */
  type Text = seq<byte>

  // ---------------------------------------------------------------- the state

  datatype Key = Named(name: Text) | Anonymous(hash: nat)

  datatype Entry = Entry(key: Key, hash: nat, query: Text, paramTypes: seq<int>)

  datatype BackendAuth = Md5PassTheHash(hash: Text) | ScramPassthrough(clientKey: seq<byte>) | ScramPending

  datatype State<Ip> = State(
    connectionId: nat,
    secretKey: int,
    transactionMode: bool,
    poolName: Text,
    username: Text,
    port: nat,
    ip: Ip,
    parameters: seq<(Text, Text)>,
    preparedEnabled: bool,
    asyncClient: bool,
    entries: seq<Entry>,
    useTls: bool,
    backendAuth: Option<BackendAuth>)

  /** What the standard library decides: which bytes are UTF-8, and how addresses are printed and parsed. */
  datatype Std<!Ip> = Std(isUtf8: seq<byte> -> bool, show: Ip -> Text, parse: Text -> Option<Ip>)

  ghost predicate StdOk<Ip(!new)>(std: Std<Ip>) {
    forall ip :: std.parse(std.show(ip)) == Some(ip) && std.isUtf8(std.show(ip)) && |std.show(ip)| < 0x100
  }

  predicate U64(n: nat) { n < 0x1_0000_0000_0000_0000 }
  predicate I32(n: int) { -0x8000_0000 <= n < 0x8000_0000 }

  /** What the Rust types of the fields guarantee. */
  predicate EntryTyped<Ip>(std: Std<Ip>, e: Entry) {
    && (e.key.Anonymous? ==> U64(e.key.hash)) && (e.key.Named? ==> std.isUtf8(e.key.name))
    && U64(e.hash) && std.isUtf8(e.query)
    && forall i :: 0 <= i < |e.paramTypes| ==> I32(e.paramTypes[i])
  }

  predicate StateTyped<Ip(!new)>(std: Std<Ip>, s: State<Ip>) {
    && U64(s.connectionId) && I32(s.secretKey) && s.port < 0x1_0000
    && std.isUtf8(s.poolName) && std.isUtf8(s.username)
    && (forall i :: 0 <= i < |s.parameters| ==> std.isUtf8(s.parameters[i].0) && std.isUtf8(s.parameters[i].1))
    && (forall i :: 0 <= i < |s.entries| ==> EntryTyped(std, s.entries[i]))
    && (s.backendAuth.Some? && s.backendAuth.value.Md5PassTheHash? ==> std.isUtf8(s.backendAuth.value.hash))
  }

  /** What the length fields and the decoder's limits admit. */
  predicate FitsStr(s: seq<byte>) { |s| < 0x1_0000 }

  predicate EntryFits(e: Entry) {
    (e.key.Named? ==> FitsStr(e.key.name)) && |e.query| <= MAX_QUERY_LEN && |e.paramTypes| < 0x8000
  }

  predicate AuthFits(a: Option<BackendAuth>) {
    a.Some? ==>
      match a.value
      case Md5PassTheHash(h) => FitsStr(h)
      case ScramPassthrough(k) => FitsStr(k)
      case ScramPending => true
  }

  predicate StateFits<Ip(!new)>(s: State<Ip>) {
    && FitsStr(s.poolName) && FitsStr(s.username)
    && |s.parameters| < 0x1_0000
    && (forall i :: 0 <= i < |s.parameters| ==> FitsStr(s.parameters[i].0) && FitsStr(s.parameters[i].1))
    && |s.entries| <= MAX_PREPARED_ENTRIES
    && (forall i :: 0 <= i < |s.entries| ==> EntryFits(s.entries[i]))
    && AuthFits(s.backendAuth)
  }

  // ---------------------------------------------------------------- printer

  function Flag(b: bool): seq<byte> { if b then [1] else [0] }

  function PutI32(n: int): seq<byte> { ToBE(4, n % 0x1_0000_0000) }

  function PutStr(s: seq<byte>): seq<byte> { ToBE(2, |s|) + s }

  /** The elements of a list from index `i` on, one after the other. */
  function PutAll<T>(put: T -> seq<byte>, xs: seq<T>, i: nat): seq<byte>
    requires i <= |xs|
    decreases |xs| - i
  {
    if i == |xs| then [] else put(xs[i]) + PutAll(put, xs, i + 1)
  }

  function PutKey(k: Key): seq<byte> {
    match k
    case Named(name) => [0] + PutStr(name)
    case Anonymous(hash) => [1] + ToBE(8, hash)
  }

  function PutQuery(q: Text): seq<byte> { ToBE(4, |q|) + q }

  /** A list after its length in `k` bytes. */
  function PutList<T>(k: nat, put: T -> seq<byte>, xs: seq<T>): seq<byte> { ToBE(k, |xs|) + PutAll(put, xs, 0) }

  function PutParamTypes(ts: seq<int>): seq<byte> { PutList(2, PutI32, ts) }

  function PutEntry(e: Entry): seq<byte> {
    PutKey(e.key) + (ToBE(8, e.hash) + (PutQuery(e.query) + PutParamTypes(e.paramTypes)))
  }

  function PutPair(p: (Text, Text)): seq<byte> { PutStr(p.0) + PutStr(p.1) }

  function PutAuth(a: Option<BackendAuth>): seq<byte> {
    match a
    case None => [0]
    case Some(Md5PassTheHash(hash)) => [1] + PutStr(hash)
    case Some(ScramPassthrough(key)) => [2] + PutStr(key)
    case Some(ScramPending) => [3]
  }

  function PutHeader<Ip>(s: State<Ip>): seq<byte> {
    ToBE(4, MIGRATION_MAGIC) + (ToBE(2, MIGRATION_VERSION) + (ToBE(8, s.connectionId) + (PutI32(s.secretKey) + Flag(s.transactionMode))))
  }

  function PutAddress<Ip>(std: Std<Ip>, s: State<Ip>): seq<byte> {
    ToBE(2, s.port) + (ToBE(1, |std.show(s.ip)|) + std.show(s.ip))
  }

  function PutWho<Ip>(std: Std<Ip>, s: State<Ip>): seq<byte> {
    PutPair((s.poolName, s.username)) + PutAddress(std, s)
  }

  function PutParameters(ps: seq<(Text, Text)>): seq<byte> { PutList(2, PutPair, ps) }

  datatype Prepared<+T> = Prepared(enabled: bool, asyncClient: bool, entries: seq<T>)

  function PutPrepared<T>(put: T -> seq<byte>, p: Prepared<T>): seq<byte> {
    Flag(p.enabled) + (Flag(p.asyncClient) + PutList(4, put, p.entries))
  }

  function PreparedOf<Ip>(s: State<Ip>): Prepared<Entry> {
    Prepared(s.preparedEnabled, s.asyncClient, s.entries)
  }

  function PutTail<Ip>(s: State<Ip>): seq<byte> {
    Flag(s.useTls) + PutAuth(s.backendAuth)
  }

  /** `serialize_state`. */
  function PutState<Ip>(std: Std<Ip>, s: State<Ip>): seq<byte> {
    PutHeader(s) + (PutWho(std, s) + (PutParameters(s.parameters) + (PutPrepared(PutEntry, PreparedOf(s)) + PutTail(s))))
  }

  // ---------------------------------------------------------------- parser

  datatype Error = Short | BadMagic | BadVersion | BadUtf8 | BadIp | TooManyEntries | QueryTooLong

  datatype Result<+T> = Ok(value: T) | Err(error: Error) {
    predicate IsFailure() { Err? }
    function PropagateFailure<U>(): Result<U>
      requires Err?
    {
      Err(error)
    }
    function Extract(): T
      requires Ok?
    {
      value
    }
  }

  /** A parsed value and the position after it. */
  type Parsed<T> = Result<(T, nat)>

  /** The unsigned integer of `k` bytes at a position; the `get_u*` calls of the source assume they are there. */
  function UInt(b: Buffer, pos: nat, k: nat): nat
    requires pos + k <= |b|
  {
    if k == 0 then 0 else UInt(b, pos, k - 1) * 256 + b[pos + k - 1]
  }

  lemma {:induction false} UIntBound(b: Buffer, pos: nat, k: nat)
    requires pos + k <= |b|
    ensures UInt(b, pos, k) < Pow256(k)
  {
    if k > 0 {
      UIntBound(b, pos, k - 1);
    }
  }

  function SInt(b: Buffer, pos: nat): int
    requires pos + 4 <= |b|
  {
    var n := UInt(b, pos, 4);
    if n < 0x8000_0000 then n else n - 0x1_0000_0000
  }

  /** `n` elements from a position on, after those read so far. */
  function GetAll<T>(get: (Buffer, nat) -> Parsed<T>, b: Buffer, pos: nat, n: nat, read: seq<T>): (r: Parsed<seq<T>>)
    ensures r.Ok? ==> |r.value.0| == |read| + n
    decreases n
  {
    if n == 0 then Ok((read, pos))
    else
      var (x, p) :- get(b, pos);
      GetAll(get, b, p, n - 1, read + [x])
  }

  function GetStr<Ip>(std: Std<Ip>, b: Buffer, pos: nat): Parsed<Text> {
    if pos + 2 > |b| then Err(Short)
    else
      var len := UInt(b, pos, 2);
      if pos + 2 + len > |b| then Err(Short)
      else if !std.isUtf8(b[pos + 2..pos + 2 + len]) then Err(BadUtf8)
      else Ok((b[pos + 2..pos + 2 + len], pos + 2 + len))
  }

  function GetPair<Ip>(std: Std<Ip>, b: Buffer, pos: nat): Parsed<(Text, Text)> {
    var (k, p1) :- GetStr(std, b, pos);
    var (v, p2) :- GetStr(std, b, p1);
    Ok(((k, v), p2))
  }

  function PairReader<Ip>(std: Std<Ip>): (Buffer, nat) -> Parsed<(Text, Text)> {
    (b, pos) => GetPair(std, b, pos)
  }

  function GetParameters<Ip>(std: Std<Ip>, b: Buffer, pos: nat): Parsed<seq<(Text, Text)>> {
    if pos + 2 > |b| then Err(Short) else GetAll(PairReader(std), b, pos + 2, UInt(b, pos, 2), [])
  }

  function GetI32(b: Buffer, pos: nat): Parsed<int> {
    if pos + 4 > |b| then Err(Short) else Ok((SInt(b, pos), pos + 4))
  }

  /** A parameter count with its sign bit set is refused like one that asks for too much: see `ReadParamTypes`. */
  function GetParamTypes(b: Buffer, pos: nat): Parsed<seq<int>> {
    if pos + 2 > |b| then Err(Short)
    else
      var n := UInt(b, pos, 2);
      if n >= 0x8000 || pos + 2 + 4 * n > |b| then Err(Short) else GetAll(GetI32, b, pos + 2, n, [])
  }

  function GetKey<Ip>(std: Std<Ip>, b: Buffer, pos: nat): Parsed<Key> {
    if pos + 1 > |b| then Err(Short)
    else if UInt(b, pos, 1) == 0 then
      var (name, p) :- GetStr(std, b, pos + 1);
      Ok((Named(name), p))
    else if pos + 9 > |b| then Err(Short)
    else Ok((Anonymous(UInt(b, pos + 1, 8)), pos + 9))
  }

  function GetQuery<Ip>(std: Std<Ip>, b: Buffer, pos: nat): Parsed<Text>
    requires pos + 4 <= |b|
  {
    var len := UInt(b, pos, 4);
    if len > MAX_QUERY_LEN then Err(QueryTooLong)
    else if pos + 4 + len > |b| then Err(Short)
    else if !std.isUtf8(b[pos + 4..pos + 4 + len]) then Err(BadUtf8)
    else Ok((b[pos + 4..pos + 4 + len], pos + 4 + len))
  }

  function GetEntry<Ip>(std: Std<Ip>, b: Buffer, pos: nat): Parsed<Entry> {
    var (key, p1) :- GetKey(std, b, pos);
    if p1 + 12 > |b| then Err(Short)
    else
      var (query, p2) :- GetQuery(std, b, p1 + 8);
      var (types, p3) :- GetParamTypes(b, p2);
      Ok((Entry(key, UInt(b, p1, 8), query, types), p3))
  }

  function EntryReader<Ip>(std: Std<Ip>): (Buffer, nat) -> Parsed<Entry> {
    (b, pos) => GetEntry(std, b, pos)
  }

  function GetPrepared<T>(get: (Buffer, nat) -> Parsed<T>, b: Buffer, pos: nat): Parsed<Prepared<T>> {
    if pos + 6 > |b| then Err(Short)
    else
      var count := UInt(b, pos + 2, 4);
      if count > MAX_PREPARED_ENTRIES then Err(TooManyEntries)
      else
        var (entries, p) :- GetAll(get, b, pos + 6, count, []);
        Ok((Prepared(UInt(b, pos, 1) != 0, UInt(b, pos + 1, 1) != 0, entries), p))
  }

  datatype Address<Ip> = Address(port: nat, ip: Ip)

  function GetAddress<Ip>(std: Std<Ip>, b: Buffer, pos: nat): Parsed<Address<Ip>> {
    if pos + 3 > |b| then Err(Short)
    else
      var port, len := UInt(b, pos, 2), UInt(b, pos + 2, 1);
      if pos + 3 + len > |b| then Err(Short)
      else
        var text := b[pos + 3..pos + 3 + len];
        if !std.isUtf8(text) || std.parse(text).None? then Err(BadIp)
        else Ok((Address(port, std.parse(text).value), pos + 3 + len))
  }

  function GetBytes(b: Buffer, pos: nat): Parsed<seq<byte>> {
    if pos + 2 > |b| then Err(Short)
    else
      var len := UInt(b, pos, 2);
      if pos + 2 + len > |b| then Err(Short) else Ok((b[pos + 2..pos + 2 + len], pos + 2 + len))
  }

  /** The backend-auth tail: absent, unknown and "none" tags all decode to nothing. */
  function GetAuth<Ip>(std: Std<Ip>, b: Buffer, pos: nat): Result<Option<BackendAuth>> {
    if pos >= |b| then Ok(None)
    else
      var tag := UInt(b, pos, 1);
      if tag == 1 then
        var (hash, _) :- GetStr(std, b, pos + 1);
        Ok(Some(Md5PassTheHash(hash)))
      else if tag == 2 then
        var (key, _) :- GetBytes(b, pos + 1);
        Ok(Some(ScramPassthrough(key)))
      else if tag == 3 then Ok(Some(ScramPending))
      else Ok(None)
  }

  /** The last fields: whether TLS is used, and the backend auth. */
  function GetTail<Ip>(std: Std<Ip>, b: Buffer, pos: nat): Result<(bool, Option<BackendAuth>)> {
    if pos + 1 > |b| then Err(Short)
    else
      var auth :- GetAuth(std, b, pos + 1);
      Ok((UInt(b, pos, 1) != 0, auth))
  }

  datatype Who<Ip> = Who(pool: Text, user: Text, address: Address<Ip>)

  function GetWho<Ip>(std: Std<Ip>, b: Buffer, pos: nat): Parsed<Who<Ip>> {
    var (names, p1) :- GetPair(std, b, pos);
    var (address, p2) :- GetAddress(std, b, p1);
    Ok((Who(names.0, names.1, address), p2))
  }

  /** `deserialize_state`. */
  function GetState<Ip>(std: Std<Ip>, b: Buffer): Result<State<Ip>> {
    if HEADER_SIZE > |b| then Err(Short)
    else if UInt(b, 0, 4) != MIGRATION_MAGIC then Err(BadMagic)
    else if UInt(b, 4, 2) != MIGRATION_VERSION then Err(BadVersion)
    else
      var (who, p1) :- GetWho(std, b, HEADER_SIZE);
      var (parameters, p2) :- GetParameters(std, b, p1);
      var (prepared, p3) :- GetPrepared(EntryReader(std), b, p2);
      var (useTls, auth) :- GetTail(std, b, p3);
      Ok(State(UInt(b, 6, 8), SInt(b, 14), UInt(b, 18, 1) != 0, who.pool, who.user, who.address.port, who.address.ip,
               parameters, prepared.enabled, prepared.asyncClient, prepared.entries, useTls, auth))
  }
}
