/** Reassembling one migration frame from short receives over one reused buffer (src/client/migration.rs:722-953). */
module MigrationFrame {
  import opened Wire

  const MAX_RECV_BUF := 65536

  // ---------------------------------------------------------------- the frame

  /** What `send_migration_fd` puts on the socket; the lengths are cut to 32 bits. */
  function Frame(state: seq<byte>, tls: seq<byte>): seq<byte> {
    ToBE(4, |state|) + state + ToBE(4, |tls|) + tls
  }

  /** The number in four bytes of a stream. */
  function LenAt(s: seq<byte>, at: nat): nat
    requires at + 4 <= |s|
  {
    FromBE(s[at..at + 4])
  }

  /** The stream begins with a whole frame whose parts have the lengths it announces. */
  predicate Framed(s: seq<byte>, stateLen: nat, tlsLen: nat) {
    && 4 + stateLen + 4 + tlsLen <= |s|
    && LenAt(s, 0) == stateLen && LenAt(s, 4 + stateLen) == tlsLen
  }

  // ---------------------------------------------------------------- the socket

  function Min(a: int, b: int): int { if a < b then a else b }

  class Socket {
    var stream: seq<byte>
    var closed: bool

    constructor (stream: seq<byte>)
      ensures this.stream == stream && !closed
    {
      this.stream, closed := stream, false;
    }

    /** `recv`: any number of bytes up to `want`, or nothing more at end of stream or on an error. */
    method Recv(buf: array<byte>, want: nat) returns (n: int)
      requires 0 < want <= buf.Length
      modifies this, buf
      ensures n <= want && n <= |old(stream)|
      ensures n <= 0 ==> closed && stream == old(stream)
      ensures n > 0 ==> closed == old(closed) && stream == old(stream)[n..] && buf[..n] == old(stream)[..n]
    {
      n :| -1 <= n <= want && n <= |stream|;
      if n <= 0 {
        closed := true;
        return;
      }
      var i := 0;
      while i < n
        modifies buf
        invariant 0 <= i <= n && buf[..i] == stream[..i]
      {
        buf[i] := stream[i];
        i := i + 1;
      }
      stream := stream[n..];
    }
  }

  // ---------------------------------------------------------------- slices

  lemma Drop(s: seq<byte>, a: nat, n: nat)
    requires a + n <= |s|
    ensures s[a..][..n] == s[a..a + n] && s[a..][n..] == s[a + n..]
  {
  }

  lemma Join(s: seq<byte>, a: nat, b: nat, c: nat)
    requires a <= b <= c <= |s|
    ensures s[a..b] + s[b..c] == s[a..c]
  {
  }

  lemma Grow(a: seq<byte>, b: seq<byte>, c: seq<byte>)
    ensures (a + b) + c == a + (b + c)
  {
  }

  /** Where two sequences agree up to `first`, they agree on every slice before it. */
  lemma Within(t: seq<byte>, s: seq<byte>, first: nat, at: nat, n: nat)
    requires first <= |t| && first <= |s| && at + n <= first && t[..first] == s[..first]
    ensures t[at..at + n] == s[at..at + n]
  {
    assert forall i :: at <= i < at + n ==> t[i] == t[..first][i] && s[i] == s[..first][i];
  }

  // ---------------------------------------------------------------- the receive loops

  /** The loop that appends to the state until it has `len` bytes. */
  method FillState(sock: Socket, buf: array<byte>, have: seq<byte>, len: nat) returns (ok: bool, state: seq<byte>)
    requires |have| <= len && buf.Length == MAX_RECV_BUF
    modifies sock, buf
    ensures ok ==> len - |have| <= |old(sock.stream)|
    ensures ok ==> state == have + old(sock.stream)[..len - |have|] && sock.stream == old(sock.stream)[len - |have|..]
    ensures ok ==> sock.closed == old(sock.closed)
    ensures !ok ==> sock.closed
    ensures |have| == len ==> ok && buf[..] == old(buf[..])
  {
    state := have;
    var got := 0;
    ghost var s := sock.stream;
    while |state| < len
      invariant 0 <= got <= |s| && |have| + got <= len
      invariant state == have + s[..got] && sock.stream == s[got..] && sock.closed == old(sock.closed)
      invariant got == 0 ==> buf[..] == old(buf[..])
    {
      var n := sock.Recv(buf, Min(len - |state|, buf.Length));
      if n <= 0 { return false, state; }
      state := state + buf[..n];
      Drop(s, got, n);
      Join(s, 0, got, got + n);
      got := got + n;
    }
    ok := true;
  }

  /** The loop that fills an array from `have` on: the four bytes of the TLS length, and the TLS state. */
  method FillArray(sock: Socket, buf: array<byte>, dst: array<byte>, have: nat) returns (ok: bool)
    requires have <= dst.Length && buf.Length == MAX_RECV_BUF && buf != dst
    modifies sock, buf, dst
    ensures ok ==> dst.Length - have <= |old(sock.stream)|
    ensures ok ==> dst[..] == old(dst[..have]) + old(sock.stream)[..dst.Length - have]
    ensures ok ==> sock.stream == old(sock.stream)[dst.Length - have..] && sock.closed == old(sock.closed)
    ensures !ok ==> sock.closed
    ensures have == dst.Length ==> ok && buf[..] == old(buf[..])
  {
    var got := 0;
    ghost var s, kept := sock.stream, dst[..have];
    while have + got < dst.Length
      invariant 0 <= got <= |s| && have + got <= dst.Length
      invariant dst[..have + got] == kept + s[..got] && sock.stream == s[got..] && sock.closed == old(sock.closed)
      invariant got == 0 ==> buf[..] == old(buf[..])
    {
      var n := sock.Recv(buf, Min(dst.Length - have - got, buf.Length));
      if n <= 0 { return false; }
      Copy(dst, have + got, buf, 0, n);
      Drop(s, got, n);
      Join(s, 0, got, got + n);
      assert dst[..have + got + n] == kept + s[..got + n] by { Grow(kept, s[..got], buf[0..n]); }
      got := got + n;
    }
    ok := true;
  }

  /** `dst[at..at + n].copy_from_slice(&src[from..from + n])`. */
  method Copy(dst: array<byte>, at: nat, src: array<byte>, from: nat, n: nat)
    requires at + n <= dst.Length && from + n <= src.Length && src != dst
    modifies dst
    ensures dst[..at + n] == old(dst[..at]) + src[from..from + n]
  {
    forall i | 0 <= i < n {
      dst[at + i] := src[from + i];
    }
  }

  // ---------------------------------------------------------------- the receiver

  datatype Outcome = Received(state: seq<byte>, tls: Option<seq<byte>>) | TooShort | Truncated

  function Max(a: int, b: int): int { if a < b then b else a }

  /** A part of the frame that the first receive may have brought in part or whole. */
  predicate Behind(stream: seq<byte>, s: seq<byte>, first: nat, end: nat) {
    Max(first, end) <= |s| && stream == s[Max(first, end)..]
  }

  /** The state: what of it is in the buffer, and the rest from the socket. */
  method ReceiveState(sock: Socket, buf: array<byte>, first: nat, stateLen: nat, ghost s: seq<byte>)
      returns (ok: bool, state: seq<byte>)
    requires buf.Length == MAX_RECV_BUF && 4 <= first <= buf.Length && first <= |s| && buf[..first] == s[..first]
    requires sock.stream == s[first..] && !sock.closed
    modifies sock, buf
    ensures ok ==> Behind(sock.stream, s, first, 4 + stateLen) && state == s[4..4 + stateLen] && !sock.closed
    ensures ok && first >= 4 + stateLen ==> buf[..first] == s[..first]
    ensures !ok ==> sock.closed
  {
    var inFirst := Min(first - 4, stateLen);
    var have := buf[4..4 + inFirst];
    Within(buf[..], s, first, 4, inFirst);
    ok, state := FillState(sock, buf, have, stateLen);
    if ok {
      Drop(s, first, stateLen - inFirst);
      Join(s, 4, 4 + inFirst, 4 + stateLen);
    }
  }

  /** The TLS length and the TLS state: what of them is left over in the buffer, and the rest from the socket. */
  method ReceiveArray(sock: Socket, buf: array<byte>, first: nat, at: nat, len: nat, ghost s: seq<byte>)
      returns (ok: bool, dst: array<byte>)
    requires buf.Length == MAX_RECV_BUF && first <= buf.Length
    requires Behind(sock.stream, s, first, at) && !sock.closed
    requires first >= at ==> buf[..first] == s[..first]
    modifies sock, buf
    ensures fresh(dst) && dst.Length == len
    ensures ok ==> Behind(sock.stream, s, first, at + len) && dst[..] == s[at..at + len] && !sock.closed
    ensures ok && first >= at + len ==> buf[..first] == s[..first]
    ensures !ok ==> sock.closed
  {
    dst := new byte[len](_ => 0);
    var avail := Min(Max(0, first - at), len);
    if avail > 0 {
      Within(buf[..], s, first, at, avail);
      Copy(dst, 0, buf, at, avail);
    }
    assert dst[..avail] == s[at..at + avail];
    ok := FillArray(sock, buf, dst, avail);
    if ok {
      Advanced(sock.stream, s, first, at, len, avail, dst[..]);
    }
  }

  /** The part in the buffer and the part from the socket are one slice of the stream. */
  lemma Advanced(stream: seq<byte>, s: seq<byte>, first: nat, at: nat, len: nat, avail: nat, got: seq<byte>)
    requires avail == Min(Max(0, first - at), len) && Max(first, at) + len - avail <= |s|
    requires stream == s[Max(first, at)..][len - avail..]
    requires got == s[at..at + avail] + s[Max(first, at)..][..len - avail]
    ensures Behind(stream, s, first, at + len) && got == s[at..at + len]
  {
    Drop(s, Max(first, at), len - avail);
    Join(s, at, at + avail, at + len);
  }

  /**
   * `recv_migration_fd` after the descriptor has arrived. However the stream is cut into receives, what is returned
   * is what the frame at its head announces. The bytes consumed are exactly those of the frame unless the first
   * receive went past it.
   */
  method ReceiveFrame(sock: Socket) returns (first: int, r: Outcome)
    requires !sock.closed
    modifies sock
    ensures first <= MAX_RECV_BUF
    ensures !r.Received? ==> sock.closed || first < 4
    ensures r.Received? ==> !sock.closed && Announced(old(sock.stream), r)
    ensures r.Received? ==> 4 <= first && Behind(sock.stream, old(sock.stream), first, FrameEnd(r))
  {
    hide FromBE, Behind, Announced;
    ghost var s := sock.stream;
    var buf := new byte[MAX_RECV_BUF](_ => 0);
    first := sock.Recv(buf, buf.Length);
    if first < 4 { return first, TooShort; }
    Within(buf[..], s, first, 0, 4);
    var stateLen := FromBE(buf[0..4]);
    var ok, state := ReceiveState(sock, buf, first, stateLen, s);
    if !ok { return first, Truncated; }
    BehindFits(sock.stream, s, first, 4 + stateLen);
    var header;
    ok, header := ReceiveArray(sock, buf, first, 4 + stateLen, 4, s);
    if !ok { return first, Truncated; }
    BehindFits(sock.stream, s, first, 8 + stateLen);
    var tlsLen := FromBE(header[..]);
    if tlsLen == 0 {
      r := Received(state, None);
      Assembled(s, r, stateLen, tlsLen);
      return;
    }
    var tls;
    ok, tls := ReceiveArray(sock, buf, first, 8 + stateLen, tlsLen, s);
    if !ok { return first, Truncated; }
    BehindFits(sock.stream, s, first, 8 + stateLen + tlsLen);
    r := Received(state, Some(tls[..]));
    Assembled(s, r, stateLen, tlsLen);
  }

  lemma BehindFits(stream: seq<byte>, s: seq<byte>, first: nat, end: nat)
    requires Behind(stream, s, first, end)
    ensures end <= |s|
  {
  }

  /** The parts read one by one are the frame. */
  lemma Assembled(s: seq<byte>, r: Outcome, stateLen: nat, tlsLen: nat)
    requires r.Received? && 8 + stateLen + tlsLen <= |s|
    requires LenAt(s, 0) == stateLen && LenAt(s, 4 + stateLen) == tlsLen
    requires r.state == s[4..4 + stateLen]
    requires if tlsLen == 0 then r.tls == None else r.tls == Some(s[8 + stateLen..8 + stateLen + tlsLen])
    ensures Announced(s, r) && FrameEnd(r) == 8 + stateLen + tlsLen
  {
  }

  function TlsBytes(r: Outcome): seq<byte>
    requires r.Received?
  {
    if r.tls.None? then [] else r.tls.value
  }

  function FrameEnd(r: Outcome): nat
    requires r.Received?
  {
    8 + |r.state| + |TlsBytes(r)|
  }

  /** The stream begins with the frame that was received. */
  predicate Announced(s: seq<byte>, r: Outcome)
    requires r.Received?
  {
    && Framed(s, |r.state|, |TlsBytes(r)|)
    && r.state == s[4..4 + |r.state|] && TlsBytes(r) == s[8 + |r.state|..FrameEnd(r)]
    && r.tls != Some([])
  }

  /**
   * Of a stream that begins with the frame of a state and a TLS state, these two are received if and only if their
   * lengths fit 32 bits.
   */
  lemma ReceivedIsSent(state: seq<byte>, tls: seq<byte>, rest: seq<byte>, r: Outcome)
    requires r.Received? && Announced(Frame(state, tls) + rest, r)
    ensures r.state == state && TlsBytes(r) == tls <==> |state| < 0x1_0000_0000 && |tls| < 0x1_0000_0000
  {
    Widths();
    var s := Frame(state, tls) + rest;
    assert s[0..4] == ToBE(4, |state|);
    FromBEBound(ToBE(4, |state|));
    BERoundTrip(4, |state|);
    if |state| < 0x1_0000_0000 {
      assert s[4..4 + |state|] == state;
      assert s[4 + |state|..8 + |state|] == ToBE(4, |tls|);
      FromBEBound(ToBE(4, |tls|));
      BERoundTrip(4, |tls|);
      if |tls| < 0x1_0000_0000 {
        assert s[8 + |state|..8 + |state| + |tls|] == tls;
      }
    }
  }

  /** What follows the frame is left on the socket if and only if the first receive did not go past the frame. */
  lemma RestIsLeft(state: seq<byte>, tls: seq<byte>, rest: seq<byte>, stream: seq<byte>, first: nat)
    requires Behind(stream, Frame(state, tls) + rest, first, |Frame(state, tls)|)
    ensures stream == rest <==> first <= |Frame(state, tls)|
  {
    if first <= |Frame(state, tls)| {
      assert (Frame(state, tls) + rest)[|Frame(state, tls)|..] == rest;
    }
  }
}
