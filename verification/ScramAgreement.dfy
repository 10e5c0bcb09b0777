/** The two ends agree: what a login between the pooler's client and its server comes to. */
module ScramAgreement {
  import opened Wire
  import opened TextOps
  import opened Scram

  // ---------------------------------------------------------------- parsing what the other end prints

  /** A prefix without separator goes into the first part. */
  lemma SplitPrefix(p: string, s: string, c: char)
    requires c !in p
    ensures Split(p + s, c) == [p + Split(s, c)[0]] + Split(s, c)[1..]
  {
    if c in s {
      var i := IndexOf(s, c);
      var a, b := s[..i], s[i + 1..];
      assert s == a + [c] + b;
      assert p + s == (p + a) + [c] + b;
      hide Split, SplitOnce;
      SplitAt(a, c, b);
      SplitAt(p + a, c, b);
    }
  }

  lemma SplitThree(a: string, b: string, d: string, c: char)
    requires c == ',' && c !in a && c !in b
    ensures Split(Comma(a, Comma(b, d)), c) == [a, b] + Split(d, c)
  {
    hide Split, SplitOnce;
    SplitAt(a, c, Comma(b, d));
    SplitAt(b, c, d);
  }

  /** The client's first message as the server splits it; a comma in the nonce cuts it short. */
  lemma FirstSplits(nonce: string)
    ensures var parts := Split(CLIENT_FIRST + nonce, ',');
            |parts| >= 4 && parts[..3] == ["n", "", "n="] && parts[3] == "r=" + Split(nonce, ',')[0]
            && Join(parts[2..], ',') == CLIENT_FIRST_BARE + nonce
  {
    hide Split, Join;
    var rest := "r=" + nonce;
    var bare := Comma("n=", rest);
    assert CLIENT_FIRST + nonce == Comma("n", Comma("", bare));
    assert CLIENT_FIRST_BARE + nonce == bare;
    SplitThree("n", "", bare, ',');
    SplitAt("n=", ',', rest);
    SplitPrefix("r=", nonce, ',');
    JoinSplit(bare, ',');
    var parts := Split(CLIENT_FIRST + nonce, ',');
    assert parts[2..] == Split(bare, ',');
  }

  lemma FirstParses(header: string, nonce: string)
    requires |header| == 18
    ensures ParseClientFirst(header + (CLIENT_FIRST + nonce))
         == Ok(ClientFirst("", None, Split(nonce, ',')[0], 'n', CLIENT_FIRST_BARE + nonce))
  {
    hide Split, Join;
    FirstSplits(nonce);
    assert (header + (CLIENT_FIRST + nonce))[SASL_HEADER..] == CLIENT_FIRST + nonce;
    var n0 := Split(nonce, ',')[0];
    assert ("r=" + n0)[..2] == "r=" && ("r=" + n0)[2..] == n0;
    assert "n="[..2] == "n=" && "n="[2..] == "";
    var parts := Split(CLIENT_FIRST + nonce, ',');
    assert parts[0] == parts[..3][0] && parts[1] == parts[..3][1] && parts[2] == parts[..3][2];
  }

  lemma SplitNone(s: string, c: char)
    requires c !in s
    ensures Split(s, c) == [s]
  {
  }

  lemma ErasedField(key: char, n: nat)
    requires key == 'i' && n < 0x8000_0000
    ensures ParseU32(Erase(Keyed(key, Print(n)), key, '=')) == Some(n) && ',' !in Keyed(key, Print(n))
  {
    hide ParseU32, Erase, Print;
    EraseKey(key, Print(n));
    forall j | 0 <= j < |Print(n)| ensures Print(n)[j] != key {
      assert Print(n)[j] in Print(n);
    }
    EraseIff(Print(n), key, '=');
    ParseOfPrint(n);
  }

  lemma ChallengeParses(nonce: string, salt: string, n: nat)
    requires ',' !in nonce && ',' !in salt && n < 0x8000_0000
    ensures ParseChallenge(Comma(Keyed('r', nonce), Comma(Keyed('s', salt), Keyed('i', PrintInt(n)))))
         == Ok(Challenge(Erase(nonce, 'r', '='), Erase(salt, 's', '='), n))
  {
    hide Erase, ParseU32, Comma, Split, Print;
    var p0, p1, p2 := Keyed('r', nonce), Keyed('s', salt), Keyed('i', Print(n));
    EraseKey('r', nonce);
    EraseKey('s', salt);
    ErasedField('i', n);
    SplitNone(p2, ',');
    SplitThree(p0, p1, p2, ',');
    assert Split(Comma(p0, Comma(p1, p2)), ',') == [p0, p1, p2];
  }

  lemma FieldIs(key: char, value: string, other: string, why: string)
    requires key != '='
    ensures Field(Keyed(key, value), key, other, why) == Ok(value)
  {
    SplitAt([key], '=', value);
    assert Keyed(key, value) == [key] + ['='] + value;
  }

  lemma FinalParses(c: Crypto, nonce: string, proof: Bytes)
    requires CryptoOk(c) && ',' !in nonce
    ensures ParseClientFinal(c, Comma(WithoutProof(c, nonce), Keyed('p', c.encode(proof))))
         == Ok(ClientFinal(c.bytes("n,,"), nonce, proof, WithoutProof(c, nonce)))
  {
    hide SplitOnce, RSplitOnce, Field;
    var binding := c.encode(c.bytes("n,,"));
    var p0, p1, p2 := Keyed('c', binding), Keyed('r', nonce), Keyed('p', c.encode(proof));
    CommaAssoc(p0, p1, p2);
    SplitAt(p0, ',', Comma(p1, p2));
    SplitAt(p1, ',', p2);
    RSplitAt(WithoutProof(c, nonce), ',', p2);
    FieldIs('c', binding, "key is not c", "compare channel binding settings");
    FieldIs('r', nonce, "parse nonce", "parse nonce");
    FieldIs('p', c.encode(proof), "parse proof", "parse proof");
  }

  // ---------------------------------------------------------------- a whole login

  datatype Session = Session(clientAuth: string, serverAuth: string, clientKey: Bytes)

  /** The exchange between a client and a server with a verifier; `header` and `key` come from outside. */
  function Login(c: Crypto, header: string, st: Client, v: Verifier, key: Bytes): Result<Session> {
    var first :- ParseClientFirst(header + st.message);
    var serverFirst := PrepareServerFirst(c, first.nonce, first.bare, v.salt, v.iterations, key);
    var replied :- Update(c, st, serverFirst.bare);
    var final :- ParseClientFinal(c, replied.message);
    var (last, clientKey) :- PrepareServerFinal(c, first, final, serverFirst, v.serverKey, v.storedKey);
    var _ :- Finish(c, replied, last);
    Ok(Session(replied.authMessage, AuthMessage(serverFirst, final), clientKey))
  }

  /** The client has sent its first message with this nonce. */
  predicate Opened(st: Client, nonce: string) {
    st.nonce == nonce && st.message == CLIENT_FIRST + nonce
  }

  predicate NonceSafe(c: Crypto, nonce: string, key: Bytes) {
    ',' !in nonce && !Contains(nonce + c.encode(key), 'r', '=')
  }

  predicate SaltSafe(c: Crypto, salt: Bytes) {
    !Contains(c.encode(salt), 's', '=')
  }

  /** The key the client proves: the one it was given, or the one its password gives with this salt and count. */
  function KeyOf(c: Crypto, st: Client, salt: Bytes, n: nat): Bytes
    requires n >= 1
  {
    if st.clientKey.Some? then st.clientKey.value else ClientKey(c, SaltedPassword(c, st.password, salt, n))
  }

  function SaltedOf(c: Crypto, st: Client, salt: Bytes, n: nat): Bytes
    requires n >= 1
  {
    if st.clientKey.Some? then st.salted else SaltedPassword(c, st.password, salt, n)
  }

  /** The client's reply to a challenge whose nonce and salt survive the erasing. */
  lemma Replies(c: Crypto, st: Client, nonce: string, salt: Bytes, n: nat)
    requires CryptoOk(c) && ',' !in nonce && 1 <= n < 0x8000_0000 && st.nonce <= nonce
    requires !Contains(nonce, 'r', '=') && SaltSafe(c, salt)
    ensures var challenge := Comma(Keyed('r', nonce), Comma(Keyed('s', c.encode(salt)), Keyed('i', PrintInt(n))));
            var auth := Comma(Comma(CLIENT_FIRST_BARE + st.nonce, challenge), WithoutProof(c, nonce));
            var key := KeyOf(c, st, salt, n);
            var proof := Xor(key, c.hmac(c.h(key), c.bytes(auth))) + Tail(key);
            Update(c, st, challenge)
              == Ok(st.(salted := SaltedOf(c, st, salt, n), authMessage := auth,
                        message := Comma(WithoutProof(c, nonce), Keyed('p', c.encode(proof)))))
  {
    hide Erase, ParseChallenge, Comma, Keyed, PrintInt, WithoutProof, SaltedPassword, Contains;
    ChallengeParses(nonce, c.encode(salt), n);
    EraseIff(nonce, 'r', '=');
    EraseIff(c.encode(salt), 's', '=');
  }

  /** The server accepts the proof of a key that hashes to its StoredKey, and recovers that key from it. */
  lemma Accepts(c: Crypto, first: ClientFirst, serverFirst: ServerFirst, key: Bytes, auth: string, v: Verifier, final: ClientFinal)
    requires CryptoOk(c) && |key| <= 32 && c.h(key) == v.storedKey
    requires first.authzid.None? && first.gs2Flag == 'n' && final.channelBinding == c.bytes("n,,")
    requires final.nonce == serverFirst.nonce && auth == AuthMessage(serverFirst, final)
    requires final.proof == Xor(key, c.hmac(c.h(key), c.bytes(auth)))
    ensures PrepareServerFinal(c, first, final, serverFirst, v.serverKey, v.storedKey)
         == Ok(("v=" + c.encode(c.hmac(v.serverKey, c.bytes(auth))), key))
  {
    hide AuthMessage;
    XorTwice(key, c.hmac(c.h(key), c.bytes(auth)));
    assert ['n'] + ",," == "n,,";
  }

  lemma Finishes(c: Crypto, st: Client, serverKey: Bytes)
    requires CryptoOk(c) && (st.clientKey.None? ==> serverKey == ServerKey(c, st.salted))
    ensures Finish(c, st, "v=" + c.encode(c.hmac(serverKey, c.bytes(st.authMessage)))) == Ok(())
  {
    var s := c.encode(c.hmac(serverKey, c.bytes(st.authMessage)));
    assert ("v=" + s)[2..] == s;
  }

  /**
   * A client with a password accepts the server's last message if and only if it is "v=" and text that decodes to the
   * signature of section 3 of RFC 5802 under the client's own salted password; a wrong signature is a server error. A
   * client with a given key cannot check it, and asks only for the form.
   */
  lemma FinishIff(c: Crypto, st: Client, message: string)
    requires CryptoOk(c)
    ensures var r := Finish(c, st, message);
            var signature := c.hmac(c.hmac(st.salted, c.bytes("Server Key")), c.bytes(st.authMessage));
            && !r.Panic?
            && (st.clientKey.None? ==>
                  && (r.Ok? <==> |message| >= 2 && message[..2] == "v=" && c.decode(message[2..]) == Some(signature))
                  && (|message| >= 4 && message[..2] == "v=" && c.decode(message[2..]).Some? && !r.Ok? ==> r == Err("server error")))
            && (st.clientKey.Some? ==> (r.Ok? <==> |message| >= 4 && message[..2] == "v="))
  {
    assert "v=" <= message <==> |message| >= 2 && message[..2] == "v=";
    if |message| == 2 {
      assert message[2..] == c.encode([]);
      assert c.decode(c.encode([])) == Some([]);
    }
  }

  /** A verifier with this salt and iteration count. */
  predicate Salted(c: Crypto, v: Verifier, salt: Bytes, n: nat) {
    v.salt == c.encode(salt) && v.iterations == n && 1 <= n < 0x8000_0000
  }

  lemma LoginSucceeds(c: Crypto, header: string, st: Client, v: Verifier, key: Bytes, nonce: string, salt: Bytes, n: nat)
    requires CryptoOk(c) && |header| == 18 && Opened(st, nonce) && Salted(c, v, salt, n)
    requires NonceSafe(c, nonce, key) && SaltSafe(c, salt)
    requires |KeyOf(c, st, salt, n)| <= 32 && c.h(KeyOf(c, st, salt, n)) == v.storedKey
    requires st.clientKey.None? ==> v.serverKey == ServerKey(c, SaltedOf(c, st, salt, n))
    ensures var r := Login(c, header, st, v, key);
            r == Ok(Session(AuthText(c, nonce, key, salt, n), AuthText(c, nonce, key, salt, n), KeyOf(c, st, salt, n)))
  {
    hide ParseClientFirst, ParseClientFinal, PrepareServerFinal, Update, Finish, Comma, Keyed, PrintInt, KeyOf, SaltedOf, Xor,
         Split, SaltSafe, Contains, WithoutProof, AuthText, Challenged, Print;
    FirstParses(header, nonce);
    SplitNone(nonce, ',');
    var first := ClientFirst("", None, nonce, 'n', CLIENT_FIRST_BARE + nonce);
    var serverFirst := PrepareServerFirst(c, nonce, first.bare, v.salt, v.iterations, key);
    var whole := serverFirst.nonce;
    Replies(c, st, whole, salt, n);
    var replied := Update(c, st, serverFirst.bare).value;
    var k := KeyOf(c, st, salt, n);
    var proof := Xor(k, c.hmac(c.h(k), c.bytes(replied.authMessage)));
    assert proof + Tail(k) == proof;
    FinalParses(c, whole, proof);
    var final := ClientFinal(c.bytes("n,,"), whole, proof, WithoutProof(c, whole));
    Accepts(c, first, serverFirst, k, replied.authMessage, v, final);
    Finishes(c, replied, v.serverKey);
    ChallengeText(c, nonce, key, salt, n);
  }

  // ---------------------------------------------------------------- logins that fail

  /** Where '=' stands only in the last two places, at most one occurrence can be erased. */
  lemma {:induction false} EraseNearEnd(s: string, a: char)
    requires a != '=' && Contains(s, a, '=') && forall i :: 0 <= i < |s| - 2 ==> s[i] != '='
    ensures |Erase(s, a, '=')| == |s| - 2
  {
    var i :| 0 <= i < |s| - 1 && s[i] == a && s[i + 1] == '=';
    if i > 0 {
      assert s[1..][i - 1] == a && s[1..][i] == '=';
      EraseNearEnd(s[1..], a);
    }
  }

  /** What the client makes of a challenge: nothing else than the erased nonce goes into its reply. */
  lemma RepliesWith(c: Crypto, st: Client, nonce: string, salt: Bytes, n: nat)
    requires CryptoOk(c) && ',' !in nonce && 1 <= n < 0x8000_0000
    ensures var challenge := Comma(Keyed('r', nonce), Comma(Keyed('s', c.encode(salt)), Keyed('i', PrintInt(n))));
            var r := Update(c, st, challenge);
            r.Ok? ==>
              && SaltSafe(c, salt) && st.nonce <= Erase(nonce, 'r', '=')
              && exists proof :: r.value.message == Comma(WithoutProof(c, Erase(nonce, 'r', '=')), Keyed('p', c.encode(proof)))
  {
    hide Erase, ParseChallenge, Comma, Keyed, PrintInt, WithoutProof, SaltedPassword, SaltSafe, Xor;
    ChallengeParses(nonce, c.encode(salt), n);
    if !SaltSafe(c, salt) {
      UnsafeSalt(c, salt);
    }
  }

  lemma UnsafeSalt(c: Crypto, salt: Bytes)
    requires CryptoOk(c) && !SaltSafe(c, salt)
    ensures c.decode(Erase(c.encode(salt), 's', '=')).None?
  {
    hide Erase, Contains;
    EraseNearEnd(c.encode(salt), 's');
  }

  lemma FirstPart(nonce: string)
    ensures ',' !in Split(nonce, ',')[0]
    ensures ',' !in nonce ==> Split(nonce, ',')[0] == nonce
  {
  }

  lemma LoginFails(c: Crypto, header: string, st: Client, v: Verifier, key: Bytes, nonce: string, salt: Bytes, n: nat)
    requires CryptoOk(c) && |header| == 18 && Opened(st, nonce) && Salted(c, v, salt, n)
    requires !(NonceSafe(c, nonce, key) && SaltSafe(c, salt))
    ensures !Login(c, header, st, v, key).Ok?
  {
    hide ParseClientFirst, ParseClientFinal, Update, Finish, Comma, Keyed, PrintInt, Split, SaltSafe, Contains, WithoutProof, Erase;
    FirstParses(header, nonce);
    FirstPart(nonce);
    var first := ParseClientFirst(header + st.message).value;
    var serverFirst := PrepareServerFirst(c, first.nonce, first.bare, v.salt, v.iterations, key);
    var whole := serverFirst.nonce;
    RepliesWith(c, st, whole, salt, n);
    EraseIff(whole, 'r', '=');
    var r := Update(c, st, serverFirst.bare);
    if r.Ok? {
      var proof :| r.value.message == Comma(WithoutProof(c, Erase(whole, 'r', '=')), Keyed('p', c.encode(proof)));
      assert ',' !in nonce by {
        assert forall i :: 0 <= i < |nonce| ==> nonce[i] in Erase(whole, 'r', '=');
      }
      FinalParses(c, Erase(whole, 'r', '='), proof);
    }
  }

  // ---------------------------------------------------------------- the theorems

  /** The combined nonce, and the server's first message, in the letters of section 5 of RFC 5802. */
  function Combined(c: Crypto, nonce: string, key: Bytes): string { nonce + c.encode(key) }

  function Challenged(c: Crypto, nonce: string, key: Bytes, salt: Bytes, n: nat): string {
    "r=" + Combined(c, nonce, key) + ",s=" + c.encode(salt) + ",i=" + Print(n)
  }

  /** AuthMessage of section 3 of RFC 5802, for a client without channel binding. */
  function AuthText(c: Crypto, nonce: string, key: Bytes, salt: Bytes, n: nat): string {
    "n=,r=" + nonce + "," + Challenged(c, nonce, key, salt, n) + ",c=" + c.encode(c.bytes("n,,")) + ",r=" + Combined(c, nonce, key)
  }

  /** SaltedPassword of section 3. */
  function SaltedText(c: Crypto, password: string, salt: Bytes, n: nat): Bytes
    requires n >= 1
  {
    Hi(c, c.normalize(c.bytes(password)), salt, n)
  }

  lemma ChallengeText(c: Crypto, nonce: string, key: Bytes, salt: Bytes, n: nat)
    ensures PrepareServerFirst(c, nonce, "n=,r=" + nonce, c.encode(salt), n, key).bare == Challenged(c, nonce, key, salt, n)
    ensures Comma(Comma("n=,r=" + nonce, Challenged(c, nonce, key, salt, n)), WithoutProof(c, Combined(c, nonce, key)))
         == AuthText(c, nonce, key, salt, n)
  {
    hide Print;
    var whole := nonce + c.encode(key);
    assert Comma(Keyed('r', whole), Comma(Keyed('s', c.encode(salt)), Keyed('i', Print(n))))
        == "r=" + whole + ",s=" + c.encode(salt) + ",i=" + Print(n);
    assert WithoutProof(c, whole) == "c=" + c.encode(c.bytes("n,,")) + ",r=" + whole;
  }

  /**
   * For every password, salt and iteration count, a login with the verifier of that password (StoredKey and ServerKey of
   * section 3 of RFC 5802) succeeds if and only if the nonce has no comma, the combined nonce no "r=" and the encoded
   * salt no "s=". Then both ends have built the AuthMessage of that section and the server has the client's ClientKey.
   */
  lemma Agreement(c: Crypto, header: string, password: string, nonce: string, key: Bytes, salt: Bytes, n: nat)
    requires CryptoOk(c) && |header| == 18 && 1 <= n < 0x8000_0000
    ensures var salted := SaltedText(c, password, salt, n);
            var clientKey := c.hmac(salted, c.bytes("Client Key"));
            var v := Verifier(n, c.encode(salt), c.h(clientKey), c.hmac(salted, c.bytes("Server Key")));
            var r := Login(c, header, FromNonce(password, nonce), v, key);
            && (r.Ok? <==> NonceSafe(c, nonce, key) && SaltSafe(c, salt))
            && (r.Ok? ==> r.value == Session(AuthText(c, nonce, key, salt, n), AuthText(c, nonce, key, salt, n), clientKey))
  {
    hide Login, Hi, NonceSafe, SaltSafe, AuthText;
    var st, v := FromNonce(password, nonce), VerifierOf(c, password, salt, n);
    if NonceSafe(c, nonce, key) && SaltSafe(c, salt) {
      LoginSucceeds(c, header, st, v, key, nonce, salt, n);
    } else {
      LoginFails(c, header, st, v, key, nonce, salt, n);
    }
  }

  /**
   * In the same exchange the client accepts no last message but "v=" and text that decodes to ServerSignature of section
   * 3, made with the ServerKey of its own password.
   */
  lemma OnlyTheSignature(c: Crypto, password: string, nonce: string, key: Bytes, salt: Bytes, n: nat, last: string)
    requires CryptoOk(c) && 1 <= n < 0x8000_0000 && NonceSafe(c, nonce, key) && SaltSafe(c, salt)
    ensures var replied := Update(c, FromNonce(password, nonce), Challenged(c, nonce, key, salt, n));
            var serverKey := c.hmac(SaltedText(c, password, salt, n), c.bytes("Server Key"));
            && replied.Ok?
            && (Finish(c, replied.value, last).Ok? <==>
                  |last| >= 2 && last[..2] == "v="
                  && c.decode(last[2..]) == Some(c.hmac(serverKey, c.bytes(AuthText(c, nonce, key, salt, n)))))
  {
    hide Update, Finish, Hi, Contains, Comma, Keyed, PrintInt, WithoutProof, AuthText, CryptoOk, Challenged;
    var st, whole := FromNonce(password, nonce), Combined(c, nonce, key);
    ChallengeText(c, nonce, key, salt, n);
    CombinedSafe(c, nonce, key);
    Replies(c, st, whole, salt, n);
    PrintNat(n);
    var replied := Update(c, st, Challenged(c, nonce, key, salt, n));
    FinishIff(c, replied.value, last);
  }

  /** An iteration count of 0 is taken as 1. */
  lemma ZeroIsOne(c: Crypto, st: Client, nonce: string, salt: Bytes)
    requires CryptoOk(c) && ',' !in nonce && st.nonce <= nonce && st.clientKey.None?
    requires !Contains(nonce, 'r', '=') && SaltSafe(c, salt)
    ensures var r := Update(c, st, Comma(Keyed('r', nonce), Comma(Keyed('s', c.encode(salt)), Keyed('i', "0"))));
            r.Ok? && r.value.salted == c.hmac(c.normalize(c.bytes(st.password)), salt + [0, 0, 0, 1])
  {
    hide Erase, ParseChallenge, Comma, Keyed, WithoutProof, Contains;
    ChallengeParses(nonce, c.encode(salt), 0);
    assert PrintInt(0) == "0";
    EraseIff(nonce, 'r', '=');
    EraseIff(c.encode(salt), 's', '=');
  }

  /** The proof is as long as the key, and a key longer than a signature keeps its end. */
  lemma ProofLength(key: Bytes, signature: Bytes)
    requires |signature| == 32
    ensures var proof := Xor(key, signature) + Tail(key);
            && |proof| == |key|
            && forall i :: 0 <= i < |key| ==> proof[i] == if i < 32 then key[i] ^ signature[i] else key[i]
  {
  }

  lemma PrintNat(n: nat)
    ensures PrintInt(n) == Print(n)
  {
  }

  lemma CombinedSafe(c: Crypto, nonce: string, key: Bytes)
    requires CryptoOk(c) && NonceSafe(c, nonce, key)
    ensures ',' !in Combined(c, nonce, key) && !Contains(Combined(c, nonce, key), 'r', '=') && nonce <= Combined(c, nonce, key)
  {
    hide Contains;
  }

  /**
   * Whatever the proof bytes, the server accepts only a key that hashes to StoredKey, and that key is what it returns; it
   * refuses a wrong binding, then a wrong nonce, then a wrong key.
   */
  lemma AcceptedKeyHashes(c: Crypto, first: ClientFirst, final: ClientFinal, serverFirst: ServerFirst, v: Verifier)
    requires CryptoOk(c)
    ensures var r := PrepareServerFinal(c, first, final, serverFirst, v.serverKey, v.storedKey);
            var key := Xor(final.proof, c.hmac(v.storedKey, c.bytes(AuthMessage(serverFirst, final))));
            && (r.Ok? <==> c.text(final.channelBinding) == Gs2Header(first) && serverFirst.nonce == final.nonce
                           && c.h(key) == v.storedKey)
            && (r.Ok? ==> r.value.1 == key && |key| <= 32)
            && (c.text(final.channelBinding) != Gs2Header(first) ==> r == Err("e=channel-bindings-dont-match"))
            && (c.text(final.channelBinding) == Gs2Header(first) && serverFirst.nonce != final.nonce ==>
                  r == Err("e=nonce-mismatch"))
            && (c.text(final.channelBinding) == Gs2Header(first) && serverFirst.nonce == final.nonce && c.h(key) != v.storedKey ==>
                  r == Err(if |v.storedKey| == 32 then "e=password-hash" else "e=mismatch-key-length"))
  {
  }

  /** A key the server has accepted opens every verifier with the same StoredKey, under the same conditions. */
  lemma Passthrough(c: Crypto, first: ClientFirst, final: ClientFinal, serverFirst: ServerFirst, v0: Verifier,
                    header: string, v: Verifier, nonce: string, key: Bytes, salt: Bytes, n: nat)
    requires CryptoOk(c) && |header| == 18 && Salted(c, v, salt, n) && v.storedKey == v0.storedKey
    ensures var accepted := PrepareServerFinal(c, first, final, serverFirst, v0.serverKey, v0.storedKey);
            accepted.Ok? ==>
              var r := Login(c, header, FromClientKey(accepted.value.1, nonce), v, key);
              && (r.Ok? <==> NonceSafe(c, nonce, key) && SaltSafe(c, salt))
              && (r.Ok? ==> r.value.clientKey == accepted.value.1 && r.value.clientAuth == r.value.serverAuth)
  {
    hide Login, PrepareServerFinal, NonceSafe, SaltSafe, AuthMessage, AuthText;
    var accepted := PrepareServerFinal(c, first, final, serverFirst, v0.serverKey, v0.storedKey);
    if accepted.Ok? {
      AcceptedKeyHashes(c, first, final, serverFirst, v0);
      var st := FromClientKey(accepted.value.1, nonce);
      if NonceSafe(c, nonce, key) && SaltSafe(c, salt) {
        LoginSucceeds(c, header, st, v, key, nonce, salt, n);
      } else {
        LoginFails(c, header, st, v, key, nonce, salt, n);
      }
    }
  }

  /** The GS2 header with an authorization identity, as section 5.1 of RFC 5802 has the client repeat it. */
  function SentHeader(authzid: string): string { "n,a=" + authzid + "," }

  /**
   * The server leaves the "a=" out of the header it expects, so a client that names an authorization identity and
   * repeats its header as it sent it is always turned away.
   */
  lemma AuthzidTurnedAway(c: Crypto, header: string, authzid: string, rest: string, final: ClientFinal, serverFirst: ServerFirst, v: Verifier)
    requires CryptoOk(c) && |header| == 18 && ',' !in authzid
    requires final.channelBinding == c.bytes(SentHeader(authzid))
    ensures var first := ParseClientFirst(header + (SentHeader(authzid) + rest));
            first.Ok? ==>
              && first.value.authzid == Some(authzid)
              && PrepareServerFinal(c, first.value, final, serverFirst, v.serverKey, v.storedKey)
                   == Err("e=channel-bindings-dont-match")
  {
    hide ParseClientFirst, AuthMessage;
    AuthzidParses(header, authzid, rest);
    var first := ParseClientFirst(header + (SentHeader(authzid) + rest));
    if first.Ok? {
      assert |SentHeader(authzid)| == |Gs2Header(first.value)| + 2;
    }
  }

  lemma AuthzidParses(header: string, authzid: string, rest: string)
    requires |header| == 18 && ',' !in authzid
    ensures var first := ParseClientFirst(header + (SentHeader(authzid) + rest));
            first.Ok? ==> first.value.authzid == Some(authzid)
  {
    hide Split, Join, ParseAuthcid, ParseNonce;
    var sent, part := SentHeader(authzid) + rest, "a=" + authzid;
    assert (header + sent)[SASL_HEADER..] == sent;
    assert sent == Comma("n", Comma(part, rest));
    SplitThree("n", part, rest, ',');
    assert part[..2] == "a=" && part[2..] == authzid;
  }
}
