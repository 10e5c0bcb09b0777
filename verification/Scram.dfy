/** SCRAM-SHA-256 as the pooler plays both ends of it (src/auth/scram.rs, src/auth/scram_client.rs). */
module Scram {
  import opened Wire
  import opened TextOps

  type Bytes = seq<bv8>

  /** What comes from libraries: the hash, the MAC, base64, UTF-8 and saslprep. */
  datatype Crypto = Crypto(
    h: Bytes -> Bytes,
    hmac: (Bytes, Bytes) -> Bytes,
    encode: Bytes -> string,
    decode: string -> Option<Bytes>,
    bytes: string -> Bytes,
    text: Bytes -> string,
    normalize: Bytes -> Bytes)

  /** SHA-256 gives 32 bytes; base64 has an inverse, uses no comma, pads to a multiple of four with '=' at the end only. */
  ghost predicate CryptoOk(c: Crypto) {
    && (forall x :: |c.h(x)| == 32)
    && (forall k, x :: |c.hmac(k, x)| == 32)
    && (forall s :: c.text(c.bytes(s)) == s)
    && (forall x :: c.decode(c.encode(x)) == Some(x) && ',' !in c.encode(x) && |c.encode(x)| == 4 * ((|x| + 2) / 3))
    && (forall x, i :: 0 <= i < |c.encode(x)| - 2 ==> c.encode(x)[i] != '=')
    && (forall s :: c.decode(s).Some? ==> |s| % 4 == 0)
  }

  /** Bytewise XOR over the shorter length, as `zip` pairs them. */
  function Xor(a: Bytes, b: Bytes): (r: Bytes)
    ensures |r| == if |a| < |b| then |a| else |b|
    ensures forall i :: 0 <= i < |r| ==> r[i] == a[i] ^ b[i]
  {
    seq(if |a| < |b| then |a| else |b|, i requires 0 <= i < |a| && i < |b| => a[i] ^ b[i])
  }

  lemma XorTwice(a: Bytes, b: Bytes)
    requires |a| <= |b|
    ensures Xor(Xor(a, b), b) == a
  {
    forall i | 0 <= i < |a| ensures Xor(Xor(a, b), b)[i] == a[i] {
      BitsXorTwice(a[i], b[i]);
    }
  }

  lemma BitsXorTwice(x: bv8, y: bv8)
    ensures (x ^ y) ^ y == x
  {
  }

  // ---------------------------------------------------------------- keys, as section 3 of RFC 5802 defines them

  /** U_i of section 2.2: U_1 over the salt and INT(1), each further one over the one before. */
  function Iterate(c: Crypto, pw: Bytes, salt: Bytes, i: nat): Bytes
    requires i >= 1
  {
    if i == 1 then c.hmac(pw, salt + [0, 0, 0, 1]) else c.hmac(pw, Iterate(c, pw, salt, i - 1))
  }

  /** Hi(str, salt, i) of section 2.2: U_1 XOR ... XOR U_i. */
  function Hi(c: Crypto, pw: Bytes, salt: Bytes, i: nat): Bytes
    requires i >= 1
  {
    if i == 1 then Iterate(c, pw, salt, 1) else Xor(Hi(c, pw, salt, i - 1), Iterate(c, pw, salt, i))
  }

  function SaltedPassword(c: Crypto, password: string, salt: Bytes, i: nat): Bytes
    requires i >= 1
  {
    Hi(c, c.normalize(c.bytes(password)), salt, i)
  }

  function ClientKey(c: Crypto, salted: Bytes): Bytes { c.hmac(salted, c.bytes("Client Key")) }

  function ServerKey(c: Crypto, salted: Bytes): Bytes { c.hmac(salted, c.bytes("Server Key")) }

  /** What the server keeps of a password. */
  datatype Verifier = Verifier(iterations: int, salt: string, storedKey: Bytes, serverKey: Bytes)

  function VerifierOf(c: Crypto, password: string, salt: Bytes, i: nat): Verifier
    requires i >= 1
  {
    var salted := SaltedPassword(c, password, salt, i);
    Verifier(i, c.encode(salt), c.h(ClientKey(c, salted)), ServerKey(c, salted))
  }

  datatype Result<+T> = Ok(value: T) | Err(why: string) | Panic {
    predicate IsFailure() { !Ok? }
    function PropagateFailure<U>(): Result<U>
      requires !Ok?
    {
      if Err? then Err(why) else Panic
    }
    function Extract(): T
      requires Ok?
    {
      value
    }
  }

  // ---------------------------------------------------------------- server

  datatype ClientFirst = ClientFirst(authcid: string, authzid: Option<string>, nonce: string, gs2Flag: char, bare: string)

  datatype ServerFirst = ServerFirst(nonce: string, clientFirstBare: string, bare: string)

  datatype ClientFinal = ClientFinal(channelBinding: Bytes, nonce: string, proof: Bytes, withoutProof: string)

  /** The mechanism name, its NUL and the four length bytes before the client's first message. */
  const SASL_HEADER := 13 + 4 + 1

  function ParseGs2Flag(part: string): Result<char> {
    if part == "" then Err("unsupported channel binding")
    else if part[0] == 'p' then Err("unsupported channel binding")
    else if (part[0] != 'n' && part[0] != 'y') || |part| > 1 then Err("unsupported channel binding")
    else Ok(part[0])
  }

  function ParseAuthzid(part: string): Result<Option<string>> {
    if part == "" then Ok(None)
    else if |part| < 2 || part[..2] != "a=" then Err("unexpected authzid")
    else Ok(Some(part[2..]))
  }

  function ParseAuthcid(part: string): Result<string> {
    if |part| < 2 then Err("unexpected len") else if part[..2] == "n=" then Ok(part[2..]) else Err("unexpected field")
  }

  /** A nonce part of fewer than two bytes is sliced out of range. */
  function ParseNonce(part: string): Result<string> {
    if |part| < 2 then Panic else if part[..2] == "r=" then Ok(part[2..]) else Err("unexpected nonce")
  }

  function ParseClientFirst(message: string): Result<ClientFirst> {
    if |message| < SASL_HEADER then Err("password length")
    else
      var parts := Split(message[SASL_HEADER..], ',');
      var flag :- ParseGs2Flag(parts[0]);
      if |parts| < 2 then Err("unexpected authzid")
      else
        var authzid :- ParseAuthzid(parts[1]);
        if |parts| < 3 then Err("unexpected field")
        else
          var authcid :- ParseAuthcid(parts[2]);
          if |parts| < 4 then Err("unexpected nonce")
          else
            var nonce :- ParseNonce(parts[3]);
            Ok(ClientFirst(authcid, authzid, nonce, flag, Join(parts[2..], ',')))
  }

  /** `key` is what the random generator gave. */
  function PrepareServerFirst(c: Crypto, clientNonce: string, clientFirstBare: string, salt: string, iterations: int, key: Bytes): ServerFirst {
    var nonce := clientNonce + c.encode(key);
    ServerFirst(nonce, clientFirstBare, Comma(Keyed('r', nonce), Comma(Keyed('s', salt), Keyed('i', PrintInt(iterations)))))
  }

  /** The value after `<key>=`; `other` is the error for another key. */
  function Field(part: string, key: char, other: string, why: string): Result<string> {
    match SplitOnce(part, '=')
    case Some((k, v)) => if k == [key] then Ok(v) else Err(other)
    case None => Err(why)
  }

  function Decoded(c: Crypto, s: string, why: string): Result<Bytes> {
    match c.decode(s)
    case Some(x) => Ok(x)
    case None => Err(why)
  }

  function ParseClientFinal(c: Crypto, data: string): Result<ClientFinal> {
    match SplitOnce(data, ',')
    case None => Err("compare channel binding settings")
    case Some((first, rest)) =>
      var binding :- Field(first, 'c', "key is not c", "compare channel binding settings");
      match SplitOnce(rest, ',')
      case None => Err("parse nonce")
      case Some((second, _)) =>
        var nonce :- Field(second, 'r', "parse nonce", "parse nonce");
        match RSplitOnce(data, ',')
        case None => Err("parse proof")
        case Some((withoutProof, last)) =>
          var proof :- Field(last, 'p', "parse proof", "parse proof");
          var bindingBytes :- Decoded(c, binding, "decode channel binding");
          var proofBytes :- Decoded(c, proof, "decode channel proof");
          Ok(ClientFinal(bindingBytes, nonce, proofBytes, withoutProof))
  }

  function Gs2Header(first: ClientFirst): string {
    if first.authzid.Some? then [first.gs2Flag] + "," + first.authzid.value + "," else [first.gs2Flag] + ",,"
  }

  function AuthMessage(first: ServerFirst, final: ClientFinal): string {
    Comma(Comma(first.clientFirstBare, first.bare), final.withoutProof)
  }

  /** The server's last message and the ClientKey it recovered from the proof. */
  function PrepareServerFinal(c: Crypto, clientFirst: ClientFirst, final: ClientFinal, serverFirst: ServerFirst,
                              serverKey: Bytes, storedKey: Bytes): Result<(string, Bytes)> {
    if c.text(final.channelBinding) != Gs2Header(clientFirst) then Err("e=channel-bindings-dont-match")
    else if serverFirst.nonce != final.nonce then Err("e=nonce-mismatch")
    else
      var auth := c.bytes(AuthMessage(serverFirst, final));
      var clientKey := Xor(final.proof, c.hmac(storedKey, auth));
      var hashed := c.h(clientKey);
      if hashed == [] || |hashed| != |storedKey| then Err("e=mismatch-key-length")
      else if hashed != storedKey then Err("e=password-hash")
      else Ok(("v=" + c.encode(c.hmac(serverKey, auth)), clientKey))
  }

  // ---------------------------------------------------------------- client

  datatype Challenge = Challenge(nonce: string, salt: string, iterations: nat)

  function ParseChallenge(message: string): Result<Challenge> {
    var parts := Split(message, ',');
    if |parts| != 3 then Err("SCRAM")
    else
      match ParseU32(Erase(parts[2], 'i', '='))
      case None => Err("SCRAM")
      case Some(n) => Ok(Challenge(Erase(parts[0], 'r', '='), Erase(parts[1], 's', '='), n))
  }

  const CLIENT_FIRST := "n,,n=,r="
  const CLIENT_FIRST_BARE := "n=,r="

  /** The state kept through the exchange; a given ClientKey replaces the password. */
  datatype Client = Client(password: string, nonce: string, message: string, salted: Bytes, authMessage: string,
                           clientKey: Option<Bytes>)

  function FromNonce(password: string, nonce: string): Client {
    Client(password, nonce, CLIENT_FIRST + nonce, seq(32, _ => 0), "", None)
  }

  function FromClientKey(key: Bytes, nonce: string): Client {
    Client("", nonce, CLIENT_FIRST + nonce, seq(32, _ => 0), "", Some(key))
  }

  /** `hi` runs its loop from the second iterate on, so an iteration count of 0 counts as 1. */
  function AtLeastOne(n: nat): nat { if n == 0 then 1 else n }

  function WithoutProof(c: Crypto, nonce: string): string {
    Comma(Keyed('c', c.encode(c.bytes("n,,"))), Keyed('r', nonce))
  }

  /** The state after the server's challenge, whose message is the reply. */
  function Update(c: Crypto, st: Client, message: string): Result<Client> {
    var ch :- ParseChallenge(message);
    if !(st.nonce <= ch.nonce) then Err("SCRAM")
    else
      var salt :- Decoded(c, ch.salt, "SCRAM");
      var salted := if st.clientKey.Some? then st.salted else SaltedPassword(c, st.password, salt, AtLeastOne(ch.iterations));
      var key := if st.clientKey.Some? then st.clientKey.value else ClientKey(c, salted);
      var reply := WithoutProof(c, ch.nonce);
      var auth := Comma(Comma(CLIENT_FIRST_BARE + st.nonce, message), reply);
      var proof := Xor(key, c.hmac(c.h(key), c.bytes(auth))) + Tail(key);
      Ok(st.(salted := salted, authMessage := auth, message := Comma(reply, Keyed('p', c.encode(proof)))))
  }

  /** The part of a key that no signature byte reaches. */
  function Tail(key: Bytes): Bytes {
    if |key| > 32 then key[32..] else []
  }

  function Finish(c: Crypto, st: Client, message: string): Result<()> {
    if !("v=" <= message) || |message| < 4 then Err("SCRAM")
    else if st.clientKey.Some? then Ok(())
    else
      var signature :- Decoded(c, message[2..], "SCRAM");
      if c.hmac(ServerKey(c, st.salted), c.bytes(st.authMessage)) == signature then Ok(()) else Err("server error")
  }
}
