/** Decoding what was encoded gives the state back exactly when every length fits its field. */
module MigrationRoundTrip {
  import opened Wire
  import opened MigrationCodec

  /** `s`, from its index `i` on, stands in the buffer where `s` begins at `pos`. */
  ghost predicate At(b: Buffer, pos: nat, s: seq<byte>, i: nat := 0)
    requires i <= |s|
    decreases |s| - i
  {
    pos + |s| <= |b| && (i < |s| ==> b[pos + i] == s[i] && At(b, pos, s, i + 1))
  }

  lemma {:induction false} AtSlice(b: Buffer, pos: nat, s: seq<byte>, i: nat := 0)
    requires i <= |s| && At(b, pos, s, i)
    ensures pos + |s| <= |b| && b[pos + i..pos + |s|] == s[i..]
    decreases |s| - i
  {
    if i < |s| {
      AtSlice(b, pos, s, i + 1);
      assert b[pos + i..pos + |s|] == [b[pos + i]] + b[pos + i + 1..pos + |s|];
      assert s[i..] == [s[i]] + s[i + 1..];
    }
  }

  lemma {:induction false} SliceAt(b: Buffer, pos: nat, s: seq<byte>, i: nat := 0)
    requires i <= |s| && pos + |s| <= |b| && b[pos..pos + |s|] == s
    ensures At(b, pos, s, i)
    decreases |s| - i
  {
    if i < |s| {
      assert b[pos..pos + |s|][i] == b[pos + i];
      SliceAt(b, pos, s, i + 1);
    }
  }

  lemma AtParts(b: Buffer, pos: nat, s: seq<byte>, t: seq<byte>)
    requires At(b, pos, s + t)
    ensures At(b, pos, s) && At(b, pos + |s|, t)
  {
    AtSlice(b, pos, s + t);
    assert b[pos..pos + |s|] == (s + t)[..|s|] == s;
    assert b[pos + |s|..pos + |s| + |t|] == (s + t)[|s|..] == t;
    SliceAt(b, pos, s);
    SliceAt(b, pos + |s|, t);
  }

  lemma {:induction false} ReadUInt(b: Buffer, pos: nat, k: nat, n: nat)
    requires At(b, pos, ToBE(k, n)) && n < Pow256(k)
    ensures UInt(b, pos, k) == n
    decreases k
  {
    if k > 0 {
      AtParts(b, pos, ToBE(k - 1, n / 256), [n % 256]);
      ReadUInt(b, pos, k - 1, n / 256);
      AtSlice(b, pos + k - 1, [n % 256]);
      assert b[pos + k - 1..pos + k][0] == [n % 256][0];
    }
  }

  lemma ReadTag(b: Buffer, pos: nat, tag: byte)
    requires At(b, pos, [tag])
    ensures UInt(b, pos, 1) == tag
  {
    AtSlice(b, pos, [tag]);
    assert b[pos..pos + 1][0] == [tag][0];
    assert UInt(b, pos, 1) == UInt(b, pos, 0) * 256 + b[pos];
  }

  lemma ReadFlag(b: Buffer, pos: nat, flag: bool)
    requires At(b, pos, Flag(flag))
    ensures (UInt(b, pos, 1) != 0) == flag
  {
    ReadTag(b, pos, if flag then 1 else 0);
  }

  lemma ReadI32(b: Buffer, pos: nat, n: int)
    requires At(b, pos, PutI32(n)) && I32(n)
    ensures SInt(b, pos) == n && GetI32(b, pos) == Ok((n, pos + |PutI32(n)|))
  {
    Widths();
    ReadUInt(b, pos, 4, n % 0x1_0000_0000);
  }

  lemma ReadStr<Ip>(std: Std<Ip>, b: Buffer, pos: nat, s: Text)
    requires At(b, pos, PutStr(s)) && FitsStr(s) && std.isUtf8(s)
    ensures GetStr(std, b, pos) == Ok((s, pos + |PutStr(s)|))
  {
    Widths();
    AtParts(b, pos, ToBE(2, |s|), s);
    ReadUInt(b, pos, 2, |s|);
    AtSlice(b, pos + 2, s);
  }

  /** Every element of a list is read back wherever it stands. */
  ghost predicate Readable<T(!new)>(put: T -> seq<byte>, get: (Buffer, nat) -> Parsed<T>, b: Buffer, xs: seq<T>) {
    forall j, p: nat :: 0 <= j < |xs| && At(b, p, put(xs[j])) ==> get(b, p) == Ok((xs[j], p + |put(xs[j])|))
  }

  lemma ReadOne<T(!new)>(put: T -> seq<byte>, get: (Buffer, nat) -> Parsed<T>, b: Buffer, pos: nat, xs: seq<T>, j: nat)
    requires j < |xs| && At(b, pos, put(xs[j])) && Readable(put, get, b, xs)
    ensures get(b, pos) == Ok((xs[j], pos + |put(xs[j])|))
  {
  }

  lemma {:induction false} ReadAll<T(!new)>(put: T -> seq<byte>, get: (Buffer, nat) -> Parsed<T>, b: Buffer, pos: nat,
                                            xs: seq<T>, i: nat)
    requires i <= |xs| && At(b, pos, PutAll(put, xs, i)) && Readable(put, get, b, xs)
    ensures GetAll(get, b, pos, |xs| - i, xs[..i]) == Ok((xs, pos + |PutAll(put, xs, i)|))
    decreases |xs| - i
  {
    hide At, Readable;
    if i == |xs| {
      assert xs[..i] == xs;
    } else {
      AtParts(b, pos, put(xs[i]), PutAll(put, xs, i + 1));
      ReadOne(put, get, b, pos, xs, i);
      ReadAll(put, get, b, pos + |put(xs[i])|, xs, i + 1);
      assert xs[..i] + [xs[i]] == xs[..i + 1];
    }
  }

  /** So a list after its length is read back too. */
  lemma ReadList<T(!new)>(k: nat, put: T -> seq<byte>, get: (Buffer, nat) -> Parsed<T>, b: Buffer, pos: nat, xs: seq<T>)
    requires At(b, pos, PutList(k, put, xs)) && |xs| < Pow256(k) && Readable(put, get, b, xs)
    ensures pos + k <= |b| && UInt(b, pos, k) == |xs|
    ensures GetAll(get, b, pos + k, |xs|, []) == Ok((xs, pos + |PutList(k, put, xs)|))
  {
    AtParts(b, pos, ToBE(k, |xs|), PutAll(put, xs, 0));
    ReadUInt(b, pos, k, |xs|);
    ReadAll(put, get, b, pos + k, xs, 0);
    assert xs[..0] == [];
  }

  predicate PairOk<Ip>(std: Std<Ip>, p: (Text, Text)) {
    FitsStr(p.0) && FitsStr(p.1) && std.isUtf8(p.0) && std.isUtf8(p.1)
  }

  lemma ReadPair<Ip>(std: Std<Ip>, b: Buffer, pos: nat, p: (Text, Text))
    requires At(b, pos, PutPair(p)) && PairOk(std, p)
    ensures GetPair(std, b, pos) == Ok((p, pos + |PutPair(p)|))
  {
    AtParts(b, pos, PutStr(p.0), PutStr(p.1));
    ReadStr(std, b, pos, p.0);
    ReadStr(std, b, pos + |PutStr(p.0)|, p.1);
  }

  lemma PairsReadable<Ip>(std: Std<Ip>, b: Buffer, ps: seq<(Text, Text)>)
    requires forall j :: 0 <= j < |ps| ==> PairOk(std, ps[j])
    ensures Readable(PutPair, PairReader(std), b, ps)
  {
    forall j, p: nat | 0 <= j < |ps| && At(b, p, PutPair(ps[j]))
      ensures PairReader(std)(b, p) == Ok((ps[j], p + |PutPair(ps[j])|))
    {
      ReadPair(std, b, p, ps[j]);
    }
  }

  lemma ReadParameters<Ip>(std: Std<Ip>, b: Buffer, pos: nat, ps: seq<(Text, Text)>)
    requires At(b, pos, PutParameters(ps)) && |ps| < 0x1_0000 && Readable(PutPair, PairReader(std), b, ps)
    ensures GetParameters(std, b, pos) == Ok((ps, pos + |PutParameters(ps)|))
  {
    Widths();
    ReadList(2, PutPair, PairReader(std), b, pos, ps);
  }

  lemma {:induction false} I32sLength(ns: seq<int>, i: nat)
    requires i <= |ns|
    ensures |PutAll(PutI32, ns, i)| == 4 * (|ns| - i)
    decreases |ns| - i
  {
    if i < |ns| {
      I32sLength(ns, i + 1);
    }
  }

  lemma ReadParamTypes(b: Buffer, pos: nat, ns: seq<int>)
    requires At(b, pos, PutParamTypes(ns)) && |ns| < 0x8000
    requires forall i :: 0 <= i < |ns| ==> I32(ns[i])
    ensures GetParamTypes(b, pos) == Ok((ns, pos + |PutParamTypes(ns)|))
  {
    Widths();
    I32sLength(ns, 0);
    forall j, p: nat | 0 <= j < |ns| && At(b, p, PutI32(ns[j]))
      ensures GetI32(b, p) == Ok((ns[j], p + |PutI32(ns[j])|))
    {
      ReadI32(b, p, ns[j]);
    }
    ReadList(2, PutI32, GetI32, b, pos, ns);
  }

  lemma ReadKey<Ip>(std: Std<Ip>, b: Buffer, pos: nat, k: Key)
    requires At(b, pos, PutKey(k))
    requires k.Named? ==> FitsStr(k.name) && std.isUtf8(k.name)
    requires k.Anonymous? ==> U64(k.hash)
    ensures GetKey(std, b, pos) == Ok((k, pos + |PutKey(k)|))
  {
    Widths();
    match k
    case Named(name) =>
      AtParts(b, pos, [0], PutStr(name));
      ReadTag(b, pos, 0);
      ReadStr(std, b, pos + 1, name);
    case Anonymous(hash) =>
      AtParts(b, pos, [1], ToBE(8, hash));
      ReadTag(b, pos, 1);
      ReadUInt(b, pos + 1, 8, hash);
  }

  lemma ReadQuery<Ip>(std: Std<Ip>, b: Buffer, pos: nat, q: Text)
    requires At(b, pos, PutQuery(q)) && |q| <= MAX_QUERY_LEN && std.isUtf8(q)
    ensures pos + 4 <= |b| && GetQuery(std, b, pos) == Ok((q, pos + |PutQuery(q)|))
  {
    Widths();
    AtParts(b, pos, ToBE(4, |q|), q);
    ReadUInt(b, pos, 4, |q|);
    AtSlice(b, pos + 4, q);
  }

  lemma ReadEntry<Ip>(std: Std<Ip>, b: Buffer, pos: nat, e: Entry)
    requires At(b, pos, PutEntry(e)) && EntryTyped(std, e) && EntryFits(e)
    ensures GetEntry(std, b, pos) == Ok((e, pos + |PutEntry(e)|))
  {
    hide PutKey, PutQuery, PutParamTypes, ToBE, GetKey, GetQuery, GetParamTypes, UInt;
    Widths();
    var p1 := pos + |PutKey(e.key)|;
    var p2 := p1 + 8 + |PutQuery(e.query)|;
    AtParts(b, pos, PutKey(e.key), ToBE(8, e.hash) + (PutQuery(e.query) + PutParamTypes(e.paramTypes)));
    AtParts(b, p1, ToBE(8, e.hash), PutQuery(e.query) + PutParamTypes(e.paramTypes));
    AtParts(b, p1 + 8, PutQuery(e.query), PutParamTypes(e.paramTypes));
    ReadKey(std, b, pos, e.key);
    ReadUInt(b, p1, 8, e.hash);
    ReadQuery(std, b, p1 + 8, e.query);
    ReadParamTypes(b, p2, e.paramTypes);
  }

  lemma EntriesReadable<Ip>(std: Std<Ip>, b: Buffer, es: seq<Entry>)
    requires forall j :: 0 <= j < |es| ==> EntryTyped(std, es[j]) && EntryFits(es[j])
    ensures Readable(PutEntry, EntryReader(std), b, es)
  {
    hide PutEntry, GetEntry, EntryTyped, EntryFits;
    forall j, p: nat | 0 <= j < |es| && At(b, p, PutEntry(es[j]))
      ensures EntryReader(std)(b, p) == Ok((es[j], p + |PutEntry(es[j])|))
    {
      ReadEntry(std, b, p, es[j]);
    }
  }

  lemma ReadPrepared<T(!new)>(put: T -> seq<byte>, get: (Buffer, nat) -> Parsed<T>, b: Buffer, pos: nat, p: Prepared<T>)
    requires At(b, pos, PutPrepared(put, p)) && |p.entries| <= MAX_PREPARED_ENTRIES && Readable(put, get, b, p.entries)
    ensures GetPrepared(get, b, pos) == Ok((p, pos + |PutPrepared(put, p)|))
  {
    Widths();
    var list := PutList(4, put, p.entries);
    AtParts(b, pos, Flag(p.enabled), Flag(p.asyncClient) + list);
    AtParts(b, pos + 1, Flag(p.asyncClient), list);
    ReadFlag(b, pos, p.enabled);
    ReadFlag(b, pos + 1, p.asyncClient);
    ReadList(4, put, get, b, pos + 2, p.entries);
  }

  lemma ReadAuth<Ip>(std: Std<Ip>, b: Buffer, pos: nat, a: Option<BackendAuth>)
    requires At(b, pos, PutAuth(a)) && AuthFits(a)
    requires a.Some? && a.value.Md5PassTheHash? ==> std.isUtf8(a.value.hash)
    ensures GetAuth(std, b, pos) == Ok(a)
  {
    Widths();
    match a
    case None => ReadTag(b, pos, 0);
    case Some(Md5PassTheHash(hash)) =>
      AtParts(b, pos, [1], PutStr(hash));
      ReadTag(b, pos, 1);
      ReadStr(std, b, pos + 1, hash);
    case Some(ScramPassthrough(key)) =>
      AtParts(b, pos, [2], PutStr(key));
      ReadTag(b, pos, 2);
      AtParts(b, pos + 1, ToBE(2, |key|), key);
      ReadUInt(b, pos + 1, 2, |key|);
      AtSlice(b, pos + 3, key);
    case Some(ScramPending) => ReadTag(b, pos, 3);
  }

  lemma ReadTail<Ip(!new)>(std: Std<Ip>, b: Buffer, pos: nat, s: State<Ip>)
    requires At(b, pos, PutTail(s)) && StateTyped(std, s) && AuthFits(s.backendAuth)
    ensures GetTail(std, b, pos) == Ok((s.useTls, s.backendAuth))
  {
    AtParts(b, pos, Flag(s.useTls), PutAuth(s.backendAuth));
    ReadFlag(b, pos, s.useTls);
    ReadAuth(std, b, pos + 1, s.backendAuth);
  }

  lemma ReadAddress<Ip(!new)>(std: Std<Ip>, b: Buffer, pos: nat, s: State<Ip>)
    requires StdOk(std) && At(b, pos, PutAddress(std, s)) && s.port < 0x1_0000
    ensures GetAddress(std, b, pos) == Ok((Address(s.port, s.ip), pos + |PutAddress(std, s)|))
  {
    Widths();
    var text := std.show(s.ip);
    AtParts(b, pos, ToBE(2, s.port), ToBE(1, |text|) + text);
    AtParts(b, pos + 2, ToBE(1, |text|), text);
    ReadUInt(b, pos, 2, s.port);
    ReadUInt(b, pos + 2, 1, |text|);
    AtSlice(b, pos + 3, text);
  }

  lemma ReadWho<Ip(!new)>(std: Std<Ip>, b: Buffer, pos: nat, s: State<Ip>)
    requires StdOk(std) && At(b, pos, PutWho(std, s)) && s.port < 0x1_0000 && PairOk(std, (s.poolName, s.username))
    ensures GetWho(std, b, pos)
         == Ok((Who(s.poolName, s.username, Address(s.port, s.ip)), pos + |PutWho(std, s)|))
  {
    var names := (s.poolName, s.username);
    AtParts(b, pos, PutPair(names), PutAddress(std, s));
    ReadPair(std, b, pos, names);
    ReadAddress(std, b, pos + |PutPair(names)|, s);
  }

  lemma ReadHeader<Ip(!new)>(b: Buffer, s: State<Ip>)
    requires At(b, 0, PutHeader(s)) && U64(s.connectionId) && I32(s.secretKey)
    ensures HEADER_SIZE == |PutHeader(s)| <= |b|
    ensures UInt(b, 0, 4) == MIGRATION_MAGIC && UInt(b, 4, 2) == MIGRATION_VERSION
    ensures UInt(b, 6, 8) == s.connectionId && SInt(b, 14) == s.secretKey
    ensures (UInt(b, 18, 1) != 0) == s.transactionMode
  {
    Widths();
    var mode := Flag(s.transactionMode);
    var key := PutI32(s.secretKey) + mode;
    var id := ToBE(8, s.connectionId) + key;
    AtParts(b, 0, ToBE(4, MIGRATION_MAGIC), ToBE(2, MIGRATION_VERSION) + id);
    AtParts(b, 4, ToBE(2, MIGRATION_VERSION), id);
    AtParts(b, 6, ToBE(8, s.connectionId), key);
    AtParts(b, 14, PutI32(s.secretKey), mode);
    ReadUInt(b, 0, 4, MIGRATION_MAGIC);
    ReadUInt(b, 4, 2, MIGRATION_VERSION);
    ReadUInt(b, 6, 8, s.connectionId);
    ReadI32(b, 14, s.secretKey);
    ReadFlag(b, 18, s.transactionMode);
  }

  /** Every state that fits comes back from its encoding, whatever follows it in the buffer. */
  lemma ReadState<Ip(!new)>(std: Std<Ip>, b: Buffer, s: State<Ip>)
    requires StdOk(std) && StateTyped(std, s) && StateFits(s) && At(b, 0, PutState(std, s))
    ensures GetState(std, b) == Ok(s)
  {
    hide PutHeader, PutWho, PutParameters, PutPrepared, PutTail, GetWho, GetParameters, GetPrepared, GetTail, UInt, EntryTyped, EntryFits, At;
    var who, params, prepared, tail := PutWho(std, s), PutParameters(s.parameters), PutPrepared(PutEntry, PreparedOf(s)), PutTail(s);
    AtParts(b, 0, PutHeader(s), who + (params + (prepared + tail)));
    ReadHeader(b, s);
    var p1 := HEADER_SIZE + |who|;
    var p2 := p1 + |params|;
    var p3 := p2 + |prepared|;
    AtParts(b, HEADER_SIZE, who, params + (prepared + tail));
    AtParts(b, p1, params, prepared + tail);
    AtParts(b, p2, prepared, tail);
    ReadWho(std, b, HEADER_SIZE, s);
    PairsReadable(std, b, s.parameters);
    ReadParameters(std, b, p1, s.parameters);
    EntriesReadable(std, b, s.entries);
    ReadPrepared(PutEntry, EntryReader(std), b, p2, PreparedOf(s));
    ReadTail(std, b, p3, s);
  }

  // ---------------------------------------------------------------- what the decoder can return

  lemma StrFits<Ip>(std: Std<Ip>, b: Buffer, pos: nat)
    ensures GetStr(std, b, pos).Ok? ==> FitsStr(GetStr(std, b, pos).value.0)
  {
    Widths();
    if pos + 2 <= |b| {
      UIntBound(b, pos, 2);
    }
  }

  lemma PairFits<Ip>(std: Std<Ip>, b: Buffer, pos: nat)
    ensures GetPair(std, b, pos).Ok? ==>
              FitsStr(GetPair(std, b, pos).value.0.0) && FitsStr(GetPair(std, b, pos).value.0.1)
  {
    StrFits(std, b, pos);
    if GetStr(std, b, pos).Ok? {
      StrFits(std, b, GetStr(std, b, pos).value.1);
    }
  }

  /** A list has a property when whatever the element reader returns has it. */
  lemma {:induction false} AllFit<T(!new)>(get: (Buffer, nat) -> Parsed<T>, ok: T -> bool, b: Buffer, pos: nat, n: nat, read: seq<T>)
    requires forall p: nat :: get(b, p).Ok? ==> ok(get(b, p).value.0)
    requires GetAll(get, b, pos, n, read).Ok? && forall i :: 0 <= i < |read| ==> ok(read[i])
    ensures var xs := GetAll(get, b, pos, n, read).value.0; forall i :: 0 <= i < |xs| ==> ok(xs[i])
    decreases n
  {
    if n > 0 {
      var (x, p) := get(b, pos).value;
      AllFit(get, ok, b, p, n - 1, read + [x]);
    }
  }

  function PairFit(p: (Text, Text)): bool { FitsStr(p.0) && FitsStr(p.1) }

  lemma ParametersFit<Ip>(std: Std<Ip>, b: Buffer, pos: nat)
    requires GetParameters(std, b, pos).Ok?
    ensures var ps := GetParameters(std, b, pos).value.0;
            |ps| < 0x1_0000 && forall i :: 0 <= i < |ps| ==> PairFit(ps[i])
  {
    Widths();
    UIntBound(b, pos, 2);
    forall p: nat | PairReader(std)(b, p).Ok? ensures PairFit(PairReader(std)(b, p).value.0) {
      PairFits(std, b, p);
    }
    AllFit(PairReader(std), PairFit, b, pos + 2, UInt(b, pos, 2), []);
  }

  lemma EntryDecodedFits<Ip>(std: Std<Ip>, b: Buffer, pos: nat)
    ensures GetEntry(std, b, pos).Ok? ==> EntryFits(GetEntry(std, b, pos).value.0)
  {
    StrFits(std, b, pos + 1);
  }

  lemma PreparedFits<Ip>(std: Std<Ip>, b: Buffer, pos: nat)
    requires GetPrepared(EntryReader(std), b, pos).Ok?
    ensures var es := GetPrepared(EntryReader(std), b, pos).value.0.entries;
            |es| <= MAX_PREPARED_ENTRIES && forall i :: 0 <= i < |es| ==> EntryFits(es[i])
  {
    forall p: nat | EntryReader(std)(b, p).Ok? ensures EntryFits(EntryReader(std)(b, p).value.0) {
      EntryDecodedFits(std, b, p);
    }
    AllFit(EntryReader(std), EntryFits, b, pos + 6, UInt(b, pos + 2, 4), []);
  }

  lemma AuthDecodedFits<Ip>(std: Std<Ip>, b: Buffer, pos: nat)
    ensures GetAuth(std, b, pos).Ok? ==> AuthFits(GetAuth(std, b, pos).value)
  {
    Widths();
    StrFits(std, b, pos + 1);
    if pos + 3 <= |b| {
      UIntBound(b, pos + 1, 2);
    }
  }

  /** Whatever the bytes, a decoded state has lengths that fit. */
  lemma DecodedFits<Ip(!new)>(std: Std<Ip>, b: Buffer)
    ensures GetState(std, b).Ok? ==> StateFits(GetState(std, b).value)
  {
    if GetState(std, b).Ok? {
      PairFits(std, b, HEADER_SIZE);
      var p1 := GetWho(std, b, HEADER_SIZE).value.1;
      ParametersFit(std, b, p1);
      var p2 := GetParameters(std, b, p1).value.1;
      PreparedFits(std, b, p2);
      var p3 := GetPrepared(EntryReader(std), b, p2).value.1;
      AuthDecodedFits(std, b, p3 + 1);
      assert forall i :: 0 <= i < |GetState(std, b).value.parameters| ==> PairFit(GetState(std, b).value.parameters[i]);
    }
  }

  /** The round trip, in both directions: a state comes back from its encoding if and only if it fits. */
  lemma RoundTripIffFits<Ip(!new)>(std: Std<Ip>, s: State<Ip>)
    requires StdOk(std) && StateTyped(std, s) && |PutState(std, s)| < 0x8000_0000_0000_0000
    ensures GetState(std, PutState(std, s)) == Ok(s) <==> StateFits(s)
  {
    var b: Buffer := PutState(std, s);
    if StateFits(s) {
      assert b[0..|b|] == b;
      SliceAt(b, 0, b);
      ReadState(std, b, s);
    } else {
      DecodedFits(std, b);
    }
  }
}
