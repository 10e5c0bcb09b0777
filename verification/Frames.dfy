/**
 Backend messages in a reply buffer: one type byte, then a big-endian length that
 counts itself but not the type byte (src/client/batch_handling.rs:258-270).
 */
module Frames {
  import opened Wire

  type Frame = seq<byte>

  /** Bytes from the type byte to the end the header announces. */
  function FrameLen(r: seq<byte>): nat
    requires |r| >= 5
  {
    1 + FromBE(r[1..5])
  }

  predicate StartsWithFrame(r: seq<byte>) {
    |r| >= 5 && FrameLen(r) <= |r|
  }

  /** A frame standing alone: its header announces exactly its own bytes. */
  predicate WellFramed(f: Frame) {
    |f| >= 5 && FrameLen(f) == |f|
  }

  /** The complete messages at the front of a buffer ... */
  function Split(r: seq<byte>): seq<Frame>
    decreases |r|
  {
    if StartsWithFrame(r) then [r[..FrameLen(r)]] + Split(r[FrameLen(r)..]) else []
  }

  /** ... and the incomplete message left after them. */
  function Rest(r: seq<byte>): seq<byte>
    decreases |r|
  {
    if StartsWithFrame(r) then Rest(r[FrameLen(r)..]) else r
  }

  predicate AllFramed(fs: seq<Frame>) {
    forall i :: 0 <= i < |fs| ==> WellFramed(fs[i])
  }

  /** The first message of a buffer, and what follows it. */
  lemma SplitStep(r: seq<byte>) returns (f: Frame, t: seq<byte>)
    requires StartsWithFrame(r)
    ensures r == f + t && |t| < |r| && Split(r) == [f] + Split(t) && Rest(r) == Rest(t)
  {
    hide FromBE;
    f, t := r[..FrameLen(r)], r[FrameLen(r)..];
  }

  lemma {:induction false} SplitCovers(r: seq<byte>)
    ensures Flatten(Split(r)) + Rest(r) == r
    decreases |r|
  {
    if StartsWithFrame(r) {
      CoversMore(r);
    }
  }

  lemma {:induction false} CoversMore(r: seq<byte>)
    requires StartsWithFrame(r)
    ensures Flatten(Split(r)) + Rest(r) == r
    decreases |r|, 0
  {
    hide *;
    var f, t := SplitStep(r);
    SplitCovers(t);
    FlattenHead(f, Split(t), Rest(t));
  }

  lemma FlattenHead(f: Frame, fs: seq<Frame>, rest: seq<byte>)
    ensures Flatten([f] + fs) + rest == f + (Flatten(fs) + rest)
  {
    assert ([f] + fs)[1..] == fs;
  }

  lemma HeadOfFlatten(fs: seq<Frame>)
    requires fs != [] && AllFramed(fs)
    ensures var r := Flatten(fs);
            && StartsWithFrame(r) && FrameLen(r) == |fs[0]|
            && r[0] == fs[0][0] && r[..|fs[0]|] == fs[0] && r[|fs[0]|..] == Flatten(fs[1..])
  {
    assert Flatten(fs)[1..5] == fs[0][1..5];
  }

  /** Cutting a buffer of whole messages gives the messages back and leaves nothing. */
  lemma {:induction false} SplitFlatten(fs: seq<Frame>)
    requires AllFramed(fs)
    ensures Split(Flatten(fs)) == fs && Rest(Flatten(fs)) == []
  {
    if fs != [] {
      HeadOfFlatten(fs);
      SplitFlatten(fs[1..]);
    }
  }
}
