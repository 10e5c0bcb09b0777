/** Bytes and big-endian integers, as the wire formats of the pooler read and write them. */
module Wire {

  type byte = b: int | 0 <= b < 256

  datatype Option<+T> = None | Some(value: T)

  /** The big-endian integer spelled by a run of bytes. */
  function FromBE(s: seq<byte>): nat {
    if s == [] then 0 else FromBE(s[..|s| - 1]) * 256 + s[|s| - 1]
  }

  /** `k` big-endian bytes of `n`; what does not fit is cut off, as in an `as u16` cast. */
  function ToBE(k: nat, n: nat): (s: seq<byte>)
    ensures |s| == k
  {
    if k == 0 then [] else ToBE(k - 1, n / 256) + [n % 256]
  }

  function Pow256(k: nat): (r: nat)
    ensures r >= 1
  {
    if k == 0 then 1 else 256 * Pow256(k - 1)
  }

  lemma Widths()
    ensures Pow256(1) == 0x100 && Pow256(2) == 0x1_0000 && Pow256(4) == 0x1_0000_0000
    ensures Pow256(8) == 0x1_0000_0000_0000_0000
  {
    assert Pow256(2) == 0x1_0000;
    assert Pow256(4) == 0x1_0000_0000;
    assert Pow256(6) == 0x1_0000_0000_0000;
  }

  /** Every run of `k` bytes spells a number below 256^k. */
  lemma {:induction false} FromBEBound(s: seq<byte>)
    ensures FromBE(s) < Pow256(|s|)
  {
    if s != [] {
      FromBEBound(s[..|s| - 1]);
    }
  }

  /** Printing and reading an integer gives it back exactly when it fits the field. */
  lemma {:induction false} BERoundTrip(k: nat, n: nat)
    ensures FromBE(ToBE(k, n)) == n <==> n < Pow256(k)
  {
    if n < Pow256(k) {
      BEFits(k, n);
    } else {
      FromBEBound(ToBE(k, n));
    }
  }

  lemma {:induction false} BEFits(k: nat, n: nat)
    requires n < Pow256(k)
    ensures FromBE(ToBE(k, n)) == n
  {
    if k > 0 {
      BEFits(k - 1, n / 256);
      var s := ToBE(k, n);
      assert s[..|s| - 1] == ToBE(k - 1, n / 256);
    }
  }

  /** The concatenation of a list of byte strings. */
  function Flatten(fs: seq<seq<byte>>): seq<byte> {
    if fs == [] then [] else fs[0] + Flatten(fs[1..])
  }

  lemma {:induction false} FlattenAppend(a: seq<seq<byte>>, b: seq<seq<byte>>)
    ensures Flatten(a + b) == Flatten(a) + Flatten(b)
  {
    if a == [] {
      assert a + b == b;
    } else {
      assert (a + b)[1..] == a[1..] + b;
      FlattenAppend(a[1..], b);
    }
  }
}
