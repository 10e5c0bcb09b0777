/** The SCRAM code that changes things in place: key stretching, the proof, the comparison and the client's state. */
module ScramLoops {
  import opened Wire
  import opened TextOps
  import opened Scram

  /** `for (x, y) in a.iter_mut().zip(b) { *x ^= y }` */
  method XorInto(a: array<bv8>, b: Bytes)
    modifies a
    ensures |b| >= a.Length ==> a[..] == Xor(old(a[..]), b)
    ensures |b| < a.Length ==> a[..] == Xor(old(a[..]), b) + old(a[..])[|b|..]
  {
    var i := 0;
    while i < a.Length && i < |b|
      invariant 0 <= i <= a.Length && i <= |b|
      invariant forall j :: 0 <= j < i ==> a[j] == old(a[j]) ^ b[j]
      invariant forall j :: i <= j < a.Length ==> a[j] == old(a[j])
    {
      a[i] := a[i] ^ b[i];
      i := i + 1;
    }
  }

  /** The client proof, computed in a copy of the key. */
  method Signed(key: Bytes, signature: Bytes) returns (proof: Bytes)
    requires |signature| == 32
    ensures proof == Xor(key, signature) + Tail(key)
  {
    var copy := new bv8[|key|](i requires 0 <= i < |key| => key[i]);
    assert copy[..] == key;
    XorInto(copy, signature);
    proof := copy[..];
  }

  lemma MacLength(c: Crypto, key: Bytes, x: Bytes)
    requires CryptoOk(c)
    ensures |c.hmac(key, x)| == 32
  {
  }

  /** `hi`: the running XOR of the iterates; a count of 0 counts as 1. */
  method StretchPassword(c: Crypto, pw: Bytes, salt: Bytes, n: nat) returns (hi: array<bv8>)
    requires CryptoOk(c)
    ensures fresh(hi) && hi[..] == Hi(c, pw, salt, AtLeastOne(n))
  {
    hide CryptoOk, Xor;
    var prev := c.hmac(pw, salt + [0, 0, 0, 1]);
    MacLength(c, pw, salt + [0, 0, 0, 1]);
    hi := new bv8[|prev|](i requires 0 <= i < |prev| => prev[i]);
    assert hi[..] == prev;
    var i := 1;
    while i < n
      invariant 1 <= i <= AtLeastOne(n) && fresh(hi) && hi.Length == 32
      invariant prev == Iterate(c, pw, salt, i) && hi[..] == Hi(c, pw, salt, i)
    {
      MacLength(c, pw, prev);
      prev := c.hmac(pw, prev);
      XorInto(hi, prev);
      i := i + 1;
    }
  }

  /** The accumulating comparison of `prepare_server_final_message`: zero exactly on equality. */
  method Differences(stored: Bytes, hashed: Bytes) returns (d: bv8)
    requires |stored| == |hashed|
    ensures d == 0 <==> stored == hashed
  {
    d := 0;
    var i := 0;
    while i < |stored|
      invariant 0 <= i <= |stored|
      invariant d == 0 <==> stored[..i] == hashed[..i]
    {
      OrXor(d, stored[i], hashed[i]);
      assert stored[..i + 1] == stored[..i] + [stored[i]] && hashed[..i + 1] == hashed[..i] + [hashed[i]];
      d := d | (stored[i] ^ hashed[i]);
      i := i + 1;
    }
    assert stored[..i] == stored && hashed[..i] == hashed;
  }

  lemma OrXor(d: bv8, x: bv8, y: bv8)
    ensures d | (x ^ y) == 0 <==> d == 0 && x == y
  {
  }

  method ServerFinal(c: Crypto, clientFirst: ClientFirst, final: ClientFinal, serverFirst: ServerFirst,
                     serverKey: Bytes, storedKey: Bytes) returns (r: Result<(string, Bytes)>)
    ensures r == PrepareServerFinal(c, clientFirst, final, serverFirst, serverKey, storedKey)
  {
    var gs2Header := [clientFirst.gs2Flag] + ",,";
    if clientFirst.authzid.Some? {
      gs2Header := [clientFirst.gs2Flag] + "," + clientFirst.authzid.value + ",";
    }
    if c.text(final.channelBinding) != gs2Header { return Err("e=channel-bindings-dont-match"); }
    if serverFirst.nonce != final.nonce { return Err("e=nonce-mismatch"); }
    var auth := c.bytes(AuthMessage(serverFirst, final));
    var clientKey := Xor(final.proof, c.hmac(storedKey, auth));
    var hashed := c.h(clientKey);
    if hashed == [] || |hashed| != |storedKey| { return Err("e=mismatch-key-length"); }
    var notEqual := Differences(storedKey, hashed);
    if notEqual != 0 { return Err("e=password-hash"); }
    r := Ok(("v=" + c.encode(c.hmac(serverKey, auth)), clientKey));
  }

  class ScramSha256 {
    var password: string
    var salted: Bytes
    var authMessage: string
    var message: string
    var nonce: string
    var clientKey: Option<Bytes>

    function View(): Client
      reads this
    {
      Client(password, nonce, message, salted, authMessage, clientKey)
    }

    constructor FromNonce(password: string, nonce: string)
      ensures View() == Scram.FromNonce(password, nonce)
    {
      this.password, this.nonce, message := password, nonce, CLIENT_FIRST + nonce;
      salted, authMessage, clientKey := seq(32, _ => 0), "", None;
    }

    constructor FromClientKey(key: Bytes, nonce: string)
      ensures View() == Scram.FromClientKey(key, nonce)
    {
      password, this.nonce, message := "", nonce, CLIENT_FIRST + nonce;
      salted, authMessage, clientKey := seq(32, _ => 0), "", Some(key);
    }

    /** The state and the reply of the specification, or the state as it was and an error. */
    method Update(c: Crypto, challenge: string) returns (r: Result<string>)
      requires CryptoOk(c)
      modifies this
      ensures var spec := Scram.Update(c, old(View()), challenge);
              if spec.Ok? then View() == spec.value && r == Ok(message) else View() == old(View()) && !r.Ok?
    {
      hide ParseChallenge, Comma, Keyed, Hi, WithoutProof, CryptoOk, Xor, Tail;
      var ch :- ParseChallenge(challenge);
      if !(nonce <= ch.nonce) { return Err("SCRAM"); }
      var salt :- Decoded(c, ch.salt, "SCRAM");
      var key: Bytes;
      if clientKey.Some? {
        key := clientKey.value;
      } else {
        var stretched := StretchPassword(c, c.normalize(c.bytes(password)), salt, ch.iterations);
        salted := stretched[..];
        key := c.hmac(salted, c.bytes("Client Key"));
      }
      var storedKey := c.h(key);
      message := WithoutProof(c, ch.nonce);
      authMessage := Comma(Comma(CLIENT_FIRST_BARE + nonce, challenge), message);
      var signature := c.hmac(storedKey, c.bytes(authMessage));
      MacLength(c, storedKey, c.bytes(authMessage));
      var proof := Signed(key, signature);
      message := Comma(message, Keyed('p', c.encode(proof)));
      r := Ok(message);
    }

    method Finish(c: Crypto, last: string) returns (r: Result<()>)
      ensures r == Scram.Finish(c, View(), last)
    {
      if !("v=" <= last) || |last| < 4 { return Err("SCRAM"); }
      if clientKey.Some? { return Ok(()); }
      var signature :- Decoded(c, last[2..], "SCRAM");
      var serverKey := c.hmac(salted, c.bytes("Server Key"));
      var expected := c.hmac(serverKey, c.bytes(authMessage));
      r := if expected == signature then Ok(()) else Err("server error");
    }
  }
}
