/** The encoder and the decoder as the source runs them: one appends to a buffer, the other advances a cursor. */
module MigrationBuffers {
  import opened Wire
  import opened MigrationCodec

  // ---------------------------------------------------------------- encoder

  class Writer {
    var data: seq<byte>

    constructor ()
      ensures data == []
    {
      data := [];
    }

    /** The `put_u8` to `put_u64` calls, and `put_i32` for its 32-bit pattern. */
    method PutUInt(k: nat, n: nat)
      modifies this
      ensures data == old(data) + ToBE(k, n)
    {
      data := data + ToBE(k, n);
    }

    method PutSlice(s: seq<byte>)
      modifies this
      ensures data == old(data) + s
    {
      data := data + s;
    }

    method PutFlag(b: bool)
      modifies this
      ensures data == old(data) + Flag(b)
    {
      PutSlice(if b then [1] else [0]);
    }

    method WriteStr(s: seq<byte>)
      modifies this
      ensures data == old(data) + PutStr(s)
    {
      hide ToBE;
      PutUInt(2, |s|);
      PutSlice(s);
      assert data == old(data) + (ToBE(2, |s|) + s);
    }

    method WriteKey(key: Key)
      modifies this
      ensures data == old(data) + PutKey(key)
    {
      hide ToBE, PutStr;
      match key
      case Named(name) =>
        PutSlice([0]);
        WriteStr(name);
        assert data == old(data) + ([0] + PutStr(name));
      case Anonymous(hash) =>
        PutSlice([1]);
        PutUInt(8, hash);
        assert data == old(data) + ([1] + ToBE(8, hash));
    }

    method WriteParamTypes(ts: seq<int>)
      modifies this
      ensures data == old(data) + PutParamTypes(ts)
    {
      hide ToBE;
      PutUInt(2, |ts|);
      var i := 0;
      while i < |ts|
        invariant 0 <= i <= |ts|
        invariant data + PutAll(PutI32, ts, i) == old(data) + PutList(2, PutI32, ts)
      {
        ghost var before := data;
        PutUInt(4, ts[i] % 0x1_0000_0000);
        Appended(PutI32, ts, i, before, data);
        i := i + 1;
      }
    }

    method WriteEntry(e: Entry)
      modifies this
      ensures data == old(data) + PutEntry(e)
    {
      hide ToBE, PutKey, PutParamTypes;
      WriteKey(e.key);
      PutUInt(8, e.hash);
      PutUInt(4, |e.query|);
      PutSlice(e.query);
      WriteParamTypes(e.paramTypes);
      assert data == old(data) + PutEntry(e);
    }

    /** `serialize_prepared_state`. */
    method WritePrepared(p: Prepared<Entry>)
      modifies this
      ensures data == old(data) + PutPrepared(PutEntry, p)
    {
      hide ToBE, Flag, PutEntry;
      PutFlag(p.enabled);
      PutFlag(p.asyncClient);
      PutUInt(4, |p.entries|);
      var i := 0;
      while i < |p.entries|
        invariant 0 <= i <= |p.entries|
        invariant data + PutAll(PutEntry, p.entries, i) == old(data) + PutPrepared(PutEntry, p)
      {
        ghost var before := data;
        WriteEntry(p.entries[i]);
        Appended(PutEntry, p.entries, i, before, data);
        i := i + 1;
      }
    }

    method WriteParameters(ps: seq<(Text, Text)>)
      modifies this
      ensures data == old(data) + PutParameters(ps)
    {
      hide ToBE, PutStr;
      PutUInt(2, |ps|);
      var i := 0;
      while i < |ps|
        invariant 0 <= i <= |ps|
        invariant data + PutAll(PutPair, ps, i) == old(data) + PutList(2, PutPair, ps)
      {
        ghost var before := data;
        WriteStr(ps[i].0);
        WriteStr(ps[i].1);
        assert data == before + PutPair(ps[i]);
        Appended(PutPair, ps, i, before, data);
        i := i + 1;
      }
    }

    method WriteAuth(a: Option<BackendAuth>)
      modifies this
      ensures data == old(data) + PutAuth(a)
    {
      hide ToBE;
      match a
      case None => PutSlice([0]);
      case Some(Md5PassTheHash(hash)) =>
        PutSlice([1]);
        WriteStr(hash);
        assert data == old(data) + ([1] + PutStr(hash));
      case Some(ScramPassthrough(key)) =>
        PutSlice([2]);
        PutUInt(2, |key|);
        PutSlice(key);
        assert data == old(data) + ([2] + (ToBE(2, |key|) + key));
      case Some(ScramPending) => PutSlice([3]);
    }

    method WriteHeader<Ip>(s: State<Ip>)
      modifies this
      ensures data == old(data) + PutHeader(s)
    {
      hide ToBE, Flag;
      PutUInt(4, MIGRATION_MAGIC);
      PutUInt(2, MIGRATION_VERSION);
      PutUInt(8, s.connectionId);
      PutUInt(4, s.secretKey % 0x1_0000_0000);
      PutFlag(s.transactionMode);
      assert data == old(data) + PutHeader(s);
    }

    method WriteWho<Ip>(std: Std<Ip>, s: State<Ip>)
      modifies this
      ensures data == old(data) + PutWho(std, s)
    {
      hide ToBE, PutStr;
      WriteStr(s.poolName);
      WriteStr(s.username);
      PutUInt(2, s.port);
      var text := std.show(s.ip);
      PutUInt(1, |text|);
      PutSlice(text);
      assert data == old(data) + PutWho(std, s);
    }
  }

  /** One more element at the end of the buffer is one fewer to come. */
  lemma Appended<T>(put: T -> seq<byte>, xs: seq<T>, i: nat, before: seq<byte>, after: seq<byte>)
    requires i < |xs| && after == before + put(xs[i])
    ensures after + PutAll(put, xs, i + 1) == before + PutAll(put, xs, i)
  {
  }

  /** `serialize_state`. */
  method SerializeState<Ip>(std: Std<Ip>, s: State<Ip>) returns (buf: seq<byte>)
    ensures buf == PutState(std, s)
  {
    hide PutHeader, PutWho, PutParameters, PutPrepared, PutAuth, Flag, ToBE, PutAll;
    var w := new Writer();
    w.WriteHeader(s);
    w.WriteWho(std, s);
    w.WriteParameters(s.parameters);
    w.WritePrepared(PreparedOf(s));
    w.PutFlag(s.useTls);
    w.WriteAuth(s.backendAuth);
    buf := w.data;
    assert buf == PutState(std, s);
  }

  // ---------------------------------------------------------------- decoder

  /** `buf.get_i16() as usize` on a 64-bit machine: a negative count becomes a huge one. */
  function CountAsUsize(n: nat): nat
    requires n < 0x1_0000
  {
    if n < 0x8000 then n else 0x1_0000_0000_0000_0000 - (0x1_0000 - n)
  }

  /** `num_params * 4`, wrapping at 64 bits. */
  function ParamBytes(count: nat): nat {
    (count * 4) % 0x1_0000_0000_0000_0000
  }

  /** A negative parameter count asks for more bytes than any buffer holds; a count from 0 on asks for its own. */
  lemma NegativeCountTooLong(n: nat)
    requires n < 0x1_0000
    ensures n < 0x8000 ==> CountAsUsize(n) == n && ParamBytes(n) == 4 * n
    ensures n >= 0x8000 ==> ParamBytes(CountAsUsize(n)) >= 0x8000_0000_0000_0000
  {
    if n >= 0x8000 {
      var k := 0x1_0000 - n;
      assert CountAsUsize(n) * 4 == 3 * 0x1_0000_0000_0000_0000 + (0x1_0000_0000_0000_0000 - 4 * k);
    }
  }

  /** What a decoding step returns and where it leaves the cursor, against what the grammar says. */
  predicate Agrees<T(==)>(r: Result<T>, pos: nat, spec: Parsed<T>) {
    match spec
    case Ok((value, next)) => r == Ok(value) && pos == next
    case Err(e) => r == Err(e)
  }

  class Reader {
    const data: Buffer
    var pos: nat

    ghost predicate Valid()
      reads this
    {
      pos <= |data|
    }

    constructor (data: Buffer)
      ensures Valid() && this.data == data && pos == 0
    {
      this.data, pos := data, 0;
    }

    /** `require`: whether `need` more bytes are there. */
    predicate Has(need: nat)
      requires Valid()
      reads this
    {
      |data| - pos >= need
    }

    /** The `get_u8` to `get_u64` calls, which panic when the bytes are not there. */
    method TakeUInt(k: nat) returns (n: nat)
      requires Valid() && Has(k)
      modifies `pos
      ensures Valid() && pos == old(pos) + k && n == UInt(data, old(pos), k)
    {
      n := 0;
      var i := 0;
      while i < k
        invariant 0 <= i <= k && n == UInt(data, pos, i)
      {
        n := n * 256 + data[pos + i];
        i := i + 1;
      }
      pos := pos + k;
    }

    method TakeI32() returns (n: int)
      requires Valid() && Has(4)
      modifies `pos
      ensures Valid() && pos == old(pos) + 4 && n == SInt(data, old(pos))
    {
      n := TakeUInt(4);
      if n >= 0x8000_0000 {
        n := n - 0x1_0000_0000;
      }
    }

    /** `copy_to_slice`. */
    method TakeSlice(len: nat) returns (s: seq<byte>)
      requires Valid() && Has(len)
      modifies `pos
      ensures Valid() && pos == old(pos) + len && s == data[old(pos)..pos]
    {
      s := data[pos..pos + len];
      pos := pos + len;
    }

    method ReadStr<Ip>(std: Std<Ip>) returns (r: Result<Text>)
      requires Valid()
      modifies `pos
      ensures Valid() && Agrees(r, pos, GetStr(std, data, old(pos)))
    {
      if !Has(2) { return Err(Short); }
      var len := TakeUInt(2);
      if !Has(len) { return Err(Short); }
      var v := TakeSlice(len);
      if !std.isUtf8(v) { return Err(BadUtf8); }
      r := Ok(v);
    }

    method ReadKey<Ip>(std: Std<Ip>) returns (r: Result<Key>)
      requires Valid()
      modifies `pos
      ensures Valid() && Agrees(r, pos, GetKey(std, data, old(pos)))
    {
      hide UInt, GetStr;
      if !Has(1) { return Err(Short); }
      var kind := TakeUInt(1);
      if kind == 0 {
        var name :- ReadStr(std);
        r := Ok(Named(name));
      } else {
        if !Has(8) { return Err(Short); }
        var hash := TakeUInt(8);
        r := Ok(Anonymous(hash));
      }
    }

    method ReadParamTypes() returns (r: Result<seq<int>>)
      requires Valid()
      modifies `pos
      ensures Valid() && Agrees(r, pos, GetParamTypes(data, old(pos)))
    {
      hide UInt, SInt, CountAsUsize, ParamBytes;
      if !Has(2) { return Err(Short); }
      var n := TakeUInt(2);
      Widths();
      UIntBound(data, old(pos), 2);
      NegativeCountTooLong(n);
      var count := CountAsUsize(n);
      if !Has(ParamBytes(count)) { return Err(Short); }
      var types: seq<int> := [];
      var i := 0;
      while i < count
        invariant 0 <= i <= count && Valid() && Has(4 * (count - i))
        invariant GetParamTypes(data, old(pos)) == GetAll(GetI32, data, pos, count - i, types)
      {
        var t := TakeI32();
        types := types + [t];
        i := i + 1;
      }
      r := Ok(types);
    }

    method ReadQuery<Ip>(std: Std<Ip>) returns (r: Result<Text>)
      requires Valid() && Has(4)
      modifies `pos
      ensures Valid() && Agrees(r, pos, GetQuery(std, data, old(pos)))
    {
      hide UInt;
      var len := TakeUInt(4);
      if len > MAX_QUERY_LEN { return Err(QueryTooLong); }
      if !Has(len) { return Err(Short); }
      var bytes := TakeSlice(len);
      if !std.isUtf8(bytes) { return Err(BadUtf8); }
      r := Ok(bytes);
    }

    method ReadEntry<Ip>(std: Std<Ip>) returns (r: Result<Entry>)
      requires Valid()
      modifies `pos
      ensures Valid() && Agrees(r, pos, GetEntry(std, data, old(pos)))
    {
      hide UInt, GetKey, GetQuery, GetParamTypes;
      var key :- ReadKey(std);
      if !Has(8 + 4) { return Err(Short); }
      var hash := TakeUInt(8);
      var query :- ReadQuery(std);
      var types :- ReadParamTypes();
      r := Ok(Entry(key, hash, query, types));
    }

    method ReadPrepared<Ip>(std: Std<Ip>) returns (r: Result<Prepared<Entry>>)
      requires Valid()
      modifies `pos
      ensures Valid() && Agrees(r, pos, GetPrepared(EntryReader(std), data, old(pos)))
    {
      hide UInt, GetEntry;
      if !Has(2 + 4) { return Err(Short); }
      var enabled := TakeUInt(1);
      var asyncClient := TakeUInt(1);
      var count := TakeUInt(4);
      if count > MAX_PREPARED_ENTRIES { return Err(TooManyEntries); }
      var entries: seq<Entry> := [];
      var i := 0;
      ghost var all := GetAll(EntryReader(std), data, pos, count, []);
      while i < count
        invariant 0 <= i <= count && Valid()
        invariant all == GetAll(EntryReader(std), data, pos, count - i, entries)
      {
        var e :- ReadEntry(std);
        entries := entries + [e];
        i := i + 1;
      }
      r := Ok(Prepared(enabled != 0, asyncClient != 0, entries));
    }

    method ReadParameters<Ip>(std: Std<Ip>) returns (r: Result<seq<(Text, Text)>>)
      requires Valid()
      modifies `pos
      ensures Valid() && Agrees(r, pos, GetParameters(std, data, old(pos)))
    {
      hide UInt, GetStr;
      if !Has(2) { return Err(Short); }
      var count := TakeUInt(2);
      var ps: seq<(Text, Text)> := [];
      var i := 0;
      while i < count
        invariant 0 <= i <= count && Valid()
        invariant GetParameters(std, data, old(pos)) == GetAll(PairReader(std), data, pos, count - i, ps)
      {
        var k :- ReadStr(std);
        var v :- ReadStr(std);
        ps := ps + [(k, v)];
        i := i + 1;
      }
      r := Ok(ps);
    }

    method ReadAddress<Ip(==)>(std: Std<Ip>) returns (r: Result<Address<Ip>>)
      requires Valid()
      modifies `pos
      ensures Valid() && Agrees(r, pos, GetAddress(std, data, old(pos)))
    {
      hide UInt;
      if !Has(3) { return Err(Short); }
      var port := TakeUInt(2);
      var len := TakeUInt(1);
      if !Has(len) { return Err(Short); }
      var text := TakeSlice(len);
      if !std.isUtf8(text) { return Err(BadIp); }
      var ip := std.parse(text);
      if ip.None? { return Err(BadIp); }
      r := Ok(Address(port, ip.value));
    }

    method ReadAuth<Ip>(std: Std<Ip>) returns (r: Result<Option<BackendAuth>>)
      requires Valid()
      modifies `pos
      ensures Valid() && r == GetAuth(std, data, old(pos))
    {
      hide UInt, GetStr;
      if pos == |data| { return Ok(None); }
      var tag := TakeUInt(1);
      if tag == 1 {
        var hash :- ReadStr(std);
        r := Ok(Some(Md5PassTheHash(hash)));
      } else if tag == 2 {
        if !Has(2) { return Err(Short); }
        var len := TakeUInt(2);
        if !Has(len) { return Err(Short); }
        var key := TakeSlice(len);
        r := Ok(Some(ScramPassthrough(key)));
      } else if tag == 3 {
        r := Ok(Some(ScramPending));
      } else {
        r := Ok(None);
      }
    }

    method ReadWho<Ip(==)>(std: Std<Ip>) returns (r: Result<Who<Ip>>)
      requires Valid()
      modifies `pos
      ensures Valid() && Agrees(r, pos, GetWho(std, data, old(pos)))
    {
      hide GetStr, GetAddress;
      var poolName :- ReadStr(std);
      var username :- ReadStr(std);
      var address :- ReadAddress(std);
      r := Ok(Who(poolName, username, address));
    }

    method ReadTail<Ip>(std: Std<Ip>) returns (r: Result<(bool, Option<BackendAuth>)>)
      requires Valid()
      modifies `pos
      ensures Valid() && r == GetTail(std, data, old(pos))
    {
      hide UInt, GetAuth;
      if !Has(1) { return Err(Short); }
      var useTls := TakeUInt(1);
      var auth :- ReadAuth(std);
      r := Ok((useTls != 0, auth));
    }
  }

  /** `deserialize_state`: on every buffer it ends with the value or the error of the grammar. */
  method DeserializeState<Ip(==)>(std: Std<Ip>, buf: Buffer) returns (r: Result<State<Ip>>)
    ensures r == GetState(std, buf)
  {
    hide UInt, SInt, GetWho, GetParameters, GetPrepared, GetTail;
    var reader := new Reader(buf);
    if !reader.Has(HEADER_SIZE) { return Err(Short); }
    var magic := reader.TakeUInt(4);
    if magic != MIGRATION_MAGIC { return Err(BadMagic); }
    var version := reader.TakeUInt(2);
    if version != MIGRATION_VERSION { return Err(BadVersion); }
    var connectionId := reader.TakeUInt(8);
    var secretKey := reader.TakeI32();
    var transactionMode := reader.TakeUInt(1);
    var who :- reader.ReadWho(std);
    var parameters :- reader.ReadParameters(std);
    var prepared :- reader.ReadPrepared(std);
    var tail :- reader.ReadTail(std);
    r := Ok(State(connectionId, secretKey, transactionMode != 0, who.pool, who.user, who.address.port, who.address.ip,
                  parameters, prepared.enabled, prepared.asyncClient, prepared.entries, tail.0, tail.1));
  }
}
