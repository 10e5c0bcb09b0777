/** Exactly which messages the SCRAM parsers accept, and what they read in them (src/auth/scram.rs:62-150, 280-360). */
module ScramMessages {
  import opened Wire
  import opened TextOps
  import opened Scram
  import opened ScramAgreement

  // ---------------------------------------------------------------- the client's first message

  /** `client-first-message-bare` of section 7 of RFC 5802; `more` are extensions. */
  function BareMessage(user: string, nonce: string, more: string): string {
    Comma("n=" + user, "r=" + nonce + more)
  }

  function AuthzidPart(authzid: Option<string>): string { if authzid.Some? then "a=" + authzid.value else "" }

  /** The same after its `gs2-header`. */
  function FirstMessage(flag: char, authzid: Option<string>, user: string, nonce: string, more: string): string {
    Comma([flag], Comma(AuthzidPart(authzid), BareMessage(user, nonce, more)))
  }

  /** Fields without a comma, and extensions only after one. */
  predicate FirstFits(flag: char, authzid: Option<string>, user: string, nonce: string, more: string) {
    && (flag == 'n' || flag == 'y') && (authzid.Some? ==> ',' !in authzid.value) && ',' !in user && ',' !in nonce
    && (more == "" || more[0] == ',')
  }

  /** The parts of a text with a comma in it. */
  lemma SplitComma(a: string, b: string)
    requires ',' !in a
    ensures Split(Comma(a, b), ',') == [a] + Split(b, ',')
  {
    hide Split, SplitOnce;
    SplitAt(a, ',', b);
  }

  lemma SplitMore(nonce: string, more: string)
    requires ',' !in nonce && (more == "" || more[0] == ',')
    ensures var parts := Split("r=" + nonce + more, ','); parts[0] == "r=" + nonce && Join(parts, ',') == "r=" + nonce + more
  {
    var part := "r=" + nonce;
    JoinSplit(part + more, ',');
    if more == "" {
      assert part + more == part;
    } else {
      assert part + more == Comma(part, more[1..]);
      SplitComma(part, more[1..]);
    }
  }

  lemma FirstParts(flag: char, authzid: Option<string>, user: string, nonce: string, more: string)
    requires FirstFits(flag, authzid, user, nonce, more)
    ensures var parts := Split(FirstMessage(flag, authzid, user, nonce, more), ',');
            && |parts| >= 4 && parts[0] == [flag] && parts[1] == AuthzidPart(authzid)
            && parts[2] == "n=" + user && parts[3] == "r=" + nonce
            && Join(parts[2..], ',') == BareMessage(user, nonce, more)
  {
    hide Split, Join, Comma;
    var az, bare := AuthzidPart(authzid), BareMessage(user, nonce, more);
    SplitComma("n=" + user, "r=" + nonce + more);
    SplitComma(az, bare);
    SplitComma([flag], Comma(az, bare));
    SplitMore(nonce, more);
    JoinSplit(bare, ',');
    var parts := Split(FirstMessage(flag, authzid, user, nonce, more), ',');
    assert parts == [[flag], az] + Split(bare, ',');
    assert parts[2..] == Split(bare, ',');
  }

  /** Every such message is read as it was written. */
  lemma FirstRead(header: string, flag: char, authzid: Option<string>, user: string, nonce: string, more: string)
    requires |header| == 18 && FirstFits(flag, authzid, user, nonce, more)
    ensures ParseClientFirst(header + FirstMessage(flag, authzid, user, nonce, more))
         == Ok(ClientFirst(user, authzid, nonce, flag, BareMessage(user, nonce, more)))
  {
    hide Split, Join, FirstMessage, BareMessage;
    var data := FirstMessage(flag, authzid, user, nonce, more);
    FirstParts(flag, authzid, user, nonce, more);
    assert (header + data)[18..] == data;
    if authzid.Some? {
      assert ("a=" + authzid.value)[..2] == "a=" && ("a=" + authzid.value)[2..] == authzid.value;
    }
    assert ("n=" + user)[..2] == "n=" && ("n=" + user)[2..] == user;
    assert ("r=" + nonce)[..2] == "r=" && ("r=" + nonce)[2..] == nonce;
  }

  /** A part under a key of one letter. */
  lemma KeyedPart(part: string, key: string)
    requires |key| == 2 && |part| >= 2 && part[..2] == key
    ensures part == key + part[2..]
  {
  }

  lemma JoinFront(parts: seq<string>)
    requires |parts| >= 2
    ensures Join(parts, ',') == Comma(parts[0], Join(parts[1..], ','))
  {
  }

  /** The last field of the base message, with its extensions behind it. */
  lemma JoinLast(parts: seq<string>) returns (more: string)
    requires |parts| >= 1
    ensures Join(parts, ',') == parts[0] + more && (more == "" || more[0] == ',')
  {
    if |parts| == 1 {
      more := "";
    } else {
      more := "," + Join(parts[1..], ',');
      JoinFront(parts);
    }
  }

  /** And nothing else is read: whatever is accepted has this form. */
  lemma FirstOnly(message: string) returns (authzid: Option<string>, user: string, nonce: string, more: string)
    requires ParseClientFirst(message).Ok?
    ensures var f := ParseClientFirst(message).value;
            && f == ClientFirst(user, authzid, nonce, f.gs2Flag, BareMessage(user, nonce, more))
            && FirstFits(f.gs2Flag, authzid, user, nonce, more)
            && |message| >= 18 && message[18..] == FirstMessage(f.gs2Flag, authzid, user, nonce, more)
  {
    hide Split, Join, Comma;
    var f := ParseClientFirst(message).value;
    var parts := Split(message[18..], ',');
    JoinSplit(message[18..], ',');
    SplitHasNone(message[18..], ',');
    authzid, user, nonce := f.authzid, f.authcid, f.nonce;
    assert parts[0] == [f.gs2Flag];
    KeyedPart(parts[2], "n=");
    KeyedPart(parts[3], "r=");
    if parts[1] != "" {
      KeyedPart(parts[1], "a=");
    }
    more := JoinLast(parts[3..]);
    JoinFront(parts);
    JoinFront(parts[1..]);
    JoinFront(parts[2..]);
    assert parts[1..][1..] == parts[2..] && parts[2..][1..] == parts[3..];
    NoComma(parts, authzid, user, nonce);
  }

  lemma NoComma(parts: seq<string>, authzid: Option<string>, user: string, nonce: string)
    requires |parts| >= 4 && forall i :: 0 <= i < |parts| ==> ',' !in parts[i]
    requires parts[1] == AuthzidPart(authzid) && parts[2] == "n=" + user && parts[3] == "r=" + nonce
    ensures (authzid.Some? ==> ',' !in authzid.value) && ',' !in user && ',' !in nonce
  {
    assert forall c :: c in user ==> c in parts[2];
    assert forall c :: c in nonce ==> c in parts[3];
    assert authzid.Some? ==> forall c :: c in authzid.value ==> c in parts[1];
  }

  // ---------------------------------------------------------------- the client's final message

  /** `client-final-message-without-proof` of section 7, `more` being extensions. */
  function Unproved(binding: string, nonce: string, more: string): string {
    Comma("c=" + binding, "r=" + nonce + more)
  }

  function FinalMessage(binding: string, nonce: string, more: string, proof: string): string {
    Comma(Unproved(binding, nonce, more), "p=" + proof)
  }

  predicate FinalFits(binding: string, nonce: string, more: string, proof: string) {
    ',' !in binding && ',' !in nonce && ',' !in proof && (more == "" || more[0] == ',')
  }

  lemma FinalCuts(binding: string, nonce: string, more: string, proof: string)
    requires FinalFits(binding, nonce, more, proof)
    ensures var data := FinalMessage(binding, nonce, more, proof);
            && SplitOnce(data, ',') == Some(("c=" + binding, Comma("r=" + nonce + more, "p=" + proof)))
            && RSplitOnce(data, ',') == Some((Unproved(binding, nonce, more), "p=" + proof))
  {
    hide SplitOnce, RSplitOnce;
    CommaAssoc("c=" + binding, "r=" + nonce + more, "p=" + proof);
    SplitAt("c=" + binding, ',', Comma("r=" + nonce + more, "p=" + proof));
    RSplitAt(Unproved(binding, nonce, more), ',', "p=" + proof);
  }

  lemma NonceCut(nonce: string, more: string, proof: string) returns (rest: string)
    requires ',' !in nonce && (more == "" || more[0] == ',')
    ensures SplitOnce(Comma("r=" + nonce + more, proof), ',') == Some(("r=" + nonce, rest))
  {
    hide SplitOnce;
    var part := "r=" + nonce;
    if more == "" {
      rest := proof;
      assert part + more == part;
    } else {
      rest := Comma(more[1..], proof);
      assert part + more == Comma(part, more[1..]);
      CommaAssoc(part, more[1..], proof);
    }
    SplitAt(part, ',', rest);
  }

  /** Every such message with decodable binding and proof is read as it was written. */
  lemma FinalRead(c: Crypto, binding: string, nonce: string, more: string, proof: string)
    requires FinalFits(binding, nonce, more, proof) && c.decode(binding).Some? && c.decode(proof).Some?
    ensures ParseClientFinal(c, FinalMessage(binding, nonce, more, proof))
         == Ok(ClientFinal(c.decode(binding).value, nonce, c.decode(proof).value, Unproved(binding, nonce, more)))
  {
    hide SplitOnce, RSplitOnce, Field, FinalMessage, Unproved;
    FinalCuts(binding, nonce, more, proof);
    var rest := NonceCut(nonce, more, "p=" + proof);
    FieldIs('c', binding, "key is not c", "compare channel binding settings");
    FieldIs('r', nonce, "parse nonce", "parse nonce");
    FieldIs('p', proof, "parse proof", "parse proof");
    assert "c=" + binding == Keyed('c', binding) && "r=" + nonce == Keyed('r', nonce) && "p=" + proof == Keyed('p', proof);
  }

  lemma SplitOnceIs(s: string, c: char)
    ensures SplitOnce(s, c).Some? ==> c !in SplitOnce(s, c).value.0 && s == SplitOnce(s, c).value.0 + [c] + SplitOnce(s, c).value.1
    ensures RSplitOnce(s, c).Some? ==> c !in RSplitOnce(s, c).value.1 && s == RSplitOnce(s, c).value.0 + [c] + RSplitOnce(s, c).value.1
  {
  }

  lemma FieldOnly(part: string, key: char, other: string, why: string)
    requires Field(part, key, other, why).Ok?
    ensures part == [key, '='] + Field(part, key, other, why).value
  {
    hide SplitOnce;
    SplitOnceIs(part, '=');
  }

  /** And nothing else is read. */
  lemma FinalOnly(c: Crypto, data: string) returns (binding: string, nonce: string, more: string, proof: string)
    requires ParseClientFinal(c, data).Ok?
    ensures data == FinalMessage(binding, nonce, more, proof) && FinalFits(binding, nonce, more, proof)
    ensures c.decode(binding).Some? && c.decode(proof).Some?
    ensures ParseClientFinal(c, data).value
         == ClientFinal(c.decode(binding).value, nonce, c.decode(proof).value, Unproved(binding, nonce, more))
  {
    hide SplitOnce, RSplitOnce, Field;
    var (first, rest) := SplitOnce(data, ',').value;
    SplitOnceIs(data, ',');
    FieldOnly(first, 'c', "key is not c", "compare channel binding settings");
    binding := Field(first, 'c', "key is not c", "compare channel binding settings").value;
    var (second, third) := SplitOnce(rest, ',').value;
    SplitOnceIs(rest, ',');
    FieldOnly(second, 'r', "parse nonce", "parse nonce");
    nonce := Field(second, 'r', "parse nonce", "parse nonce").value;
    var (front, last) := RSplitOnce(data, ',').value;
    FieldOnly(last, 'p', "parse proof", "parse proof");
    proof := Field(last, 'p', "parse proof", "parse proof").value;
    more := FrontIs(first, second, third, front, last, data);
    SubText(first, binding, second, nonce, last, proof);
    assert ['c', '='] + binding == "c=" + binding && ['r', '='] + nonce == "r=" + nonce && ['p', '='] + proof == "p=" + proof;
    assert front == Unproved(binding, nonce, more);
  }

  /** What stands before the last comma begins with the first two parts. */
  lemma FrontIs(first: string, second: string, third: string, front: string, last: string, data: string) returns (more: string)
    requires data == first + [','] + (second + [','] + third) && data == front + [','] + last && ',' !in last
    ensures front == Comma(first, second + more) && (more == "" || more[0] == ',')
  {
    var base := Comma(first, second);
    assert data == base + [','] + third;
    forall j | |front| < j < |data| ensures data[j] != ',' {
      assert data[j] == last[j - |front| - 1];
    }
    assert data[|base|] == ',';
    more := front[|base|..];
    assert data[..|base|] == base && data[..|base|] == front[..|base|];
    assert front == base + more;
    if more != "" {
      assert more[0] == data[|base|];
    }
  }

  lemma SubText(first: string, binding: string, second: string, nonce: string, last: string, proof: string)
    requires first == ['c', '='] + binding && second == ['r', '='] + nonce && last == ['p', '='] + proof
    requires ',' !in first && ',' !in second && ',' !in last
    ensures ',' !in binding && ',' !in nonce && ',' !in proof
  {
    assert forall x :: x in binding ==> x in first;
    assert forall x :: x in nonce ==> x in second;
    assert forall x :: x in proof ==> x in last;
  }

  // ---------------------------------------------------------------- the server's challenge

  /** Three parts, the third a number once "i=" is erased; then nonce and salt are what erasing leaves of the others. */
  lemma ChallengeRead(a: string, b: string, d: string)
    requires ',' !in a && ',' !in b && ',' !in d
    ensures var r := ParseChallenge(Comma(a, Comma(b, d))); var n := ParseU32(Erase(d, 'i', '='));
            r == if n.Some? then Ok(Challenge(Erase(a, 'r', '='), Erase(b, 's', '='), n.value)) else Err("SCRAM")
  {
    hide Erase, ParseU32, Split, Comma;
    SplitComma(a, Comma(b, d));
    SplitComma(b, d);
    SplitNone(d, ',');
    assert [a] + ([b] + [d]) == [a, b, d];
  }

  /** A challenge of any other number of parts is refused. */
  lemma ChallengeOnly(message: string) returns (a: string, b: string, d: string)
    requires ParseChallenge(message).Ok?
    ensures ',' !in a && ',' !in b && ',' !in d && message == Comma(a, Comma(b, d))
  {
    hide Erase, ParseU32, Split, Comma;
    var parts := Split(message, ',');
    SplitHasNone(message, ',');
    JoinSplit(message, ',');
    a, b, d := parts[0], parts[1], parts[2];
    JoinFront(parts);
    JoinFront(parts[1..]);
    assert parts[1..][1..] == [d];
  }

  // ---------------------------------------------------------------- key stretching

  function XorAll(us: seq<Bytes>): Bytes
    requires us != []
  {
    if |us| == 1 then us[0] else Xor(us[0], XorAll(us[1..]))
  }

  lemma XorAssoc(a: Bytes, b: Bytes, d: Bytes)
    requires |a| == |b| == |d|
    ensures Xor(Xor(a, b), d) == Xor(a, Xor(b, d))
  {
    forall i | 0 <= i < |a| ensures Xor(Xor(a, b), d)[i] == Xor(a, Xor(b, d))[i] {
      BitsAssoc(a[i], b[i], d[i]);
    }
  }

  lemma BitsAssoc(x: bv8, y: bv8, z: bv8)
    ensures (x ^ y) ^ z == x ^ (y ^ z)
  {
  }

  lemma {:induction false} XorAllLast(us: seq<Bytes>)
    requires |us| >= 2 && forall i :: 0 <= i < |us| ==> |us[i]| == 32
    ensures |XorAll(us)| == 32 && XorAll(us) == Xor(XorAll(us[..|us| - 1]), us[|us| - 1])
  {
    hide Xor;
    var n := |us| - 1;
    if n == 1 {
      assert us[1..] == [us[1]] && us[..1] == [us[0]];
    } else {
      XorAllLast(us[1..]);
      assert us[1..][..n - 1] == us[..n][1..] && us[1..][n - 1] == us[n];
      XorAllLength(us[..n][1..]);
      XorAssoc(us[0], XorAll(us[..n][1..]), us[n]);
    }
  }

  lemma {:induction false} XorAllLength(us: seq<Bytes>)
    requires us != [] && forall i :: 0 <= i < |us| ==> |us[i]| == 32
    ensures |XorAll(us)| == 32
  {
    hide Xor;
    if |us| > 1 {
      XorAllLength(us[1..]);
    }
  }

  /** `us` are the iterates of section 2.2 of RFC 5802: over the salt and INT(1), then each over the one before. */
  ghost predicate Iterates(c: Crypto, pw: Bytes, salt: Bytes, us: seq<Bytes>) {
    && us != [] && us[0] == c.hmac(pw, salt + [0x00, 0x00, 0x00, 0x01])
    && forall i :: 0 < i < |us| ==> us[i] == c.hmac(pw, us[i - 1])
  }

  /** Hi is the XOR of all of them. */
  lemma {:induction false} HiIsXorOfAll(c: Crypto, pw: Bytes, salt: Bytes, us: seq<Bytes>)
    requires CryptoOk(c) && Iterates(c, pw, salt, us)
    ensures Hi(c, pw, salt, |us|) == XorAll(us) && Iterate(c, pw, salt, |us|) == us[|us| - 1]
  {
    hide Xor;
    var n := |us| - 1;
    forall i | 0 <= i < |us| ensures |us[i]| == 32 {
      assert i > 0 ==> us[i] == c.hmac(pw, us[i - 1]);
    }
    if n > 0 {
      HiIsXorOfAll(c, pw, salt, us[..n]);
      XorAllLast(us);
    }
  }
}
