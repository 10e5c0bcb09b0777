/** Replies by the type bytes of the PostgreSQL protocol (section 55.7 of its version 16 documentation). */
module BatchProtocol {
  import opened Frames
  import opened BatchReorder
  import opened BatchPlacement
  import opened BatchExact

  predicate Typed(f: Frame, types: set<char>) {
    |f| >= 1 && exists c :: c in types && f[0] == c as int
  }

  /** NoticeResponse, ParameterStatus and NotificationResponse, which may come at any time. */
  const NOTICES := {'N', 'S', 'A'}

  ghost predicate AllTyped(fs: seq<Frame>, types: set<char>) {
    forall i :: 0 <= i < |fs| ==> Typed(fs[i], types)
  }

  /** Messages before, then one message that ends the answer, then notices. */
  ghost predicate Sentence(fs: seq<Frame>, before: set<char>, last: set<char>, n: int) {
    0 <= n < |fs| && AllTyped(fs[..n], before) && Typed(fs[n], last) && AllTyped(fs[n + 1..], NOTICES)
  }

  /** What the server says to one operation that succeeds. */
  ghost predicate Says(op: BatchOperation, fs: seq<Frame>) {
    match op
    case ParseSkipped => fs == []
    case ParseSent => exists n :: Sentence(fs, NOTICES, {'1'}, n)
    case Bind => exists n :: Sentence(fs, NOTICES, {'2'}, n)
    case Close => exists n :: Sentence(fs, NOTICES, {'3'}, n)
    case DescribePortal => exists n :: Sentence(fs, NOTICES, {'T', 'n'}, n)
    case Execute => exists n :: Sentence(fs, NOTICES + {'D'}, {'C', 'I', 's'}, n)
    case Describe =>
      exists n :: 0 <= n < |fs| && AllTyped(fs[..n], NOTICES) && Typed(fs[n], {'t'}) && RowsDescribed(fs[n + 1..])
  }

  ghost predicate RowsDescribed(fs: seq<Frame>) {
    exists n :: Sentence(fs, NOTICES, {'T', 'n'}, n)
  }

  /** What the server says to one operation before it fails: notices, and rows of an Execute. */
  ghost predicate SaysBefore(op: BatchOperation, fs: seq<Frame>) {
    AllTyped(fs, if op.Execute? then NOTICES + {'D'} else NOTICES)
  }

  ghost predicate SaysAll(ops: seq<BatchOperation>, answers: seq<seq<Frame>>) {
    |answers| == |ops| && forall i :: 0 <= i < |ops| ==> Says(ops[i], answers[i]) && AllFramed(answers[i])
  }

  // ---------------------------------------------------------------- kinds

  lemma NoticesPass(fs: seq<Frame>)
    requires AllTyped(fs, NOTICES)
    ensures Passing(fs)
  {
    forall i | 0 <= i < |fs| ensures FrameKind(fs[i]).PassThrough? {
      assert Typed(fs[i], NOTICES);
    }
  }

  lemma RowsPass(fs: seq<Frame>)
    requires AllTyped(fs, NOTICES + {'D'})
    ensures Rows(fs)
  {
    forall i | 0 <= i < |fs| ensures FrameKind(fs[i]).PassThrough? || FrameKind(fs[i]).RowMessage? {
      assert Typed(fs[i], NOTICES + {'D'});
    }
  }

  lemma {:induction false} LeadIs(fs: seq<Frame>, n: nat)
    requires n < |fs| && Passing(fs[..n]) && !FrameKind(fs[n]).PassThrough?
    ensures Lead(fs) == n
  {
    hide FrameKind;
    if n > 0 {
      assert fs[0] == fs[..n][0];
      forall i | 0 <= i < n - 1 ensures FrameKind(fs[1..][i]).PassThrough? {
        assert fs[1..][i] == fs[..n][i + 1];
      }
      LeadIs(fs[1..], n - 1);
    }
  }

  lemma CompletesAt(fs: seq<Frame>, types: set<char>, n: int, k: Kind)
    requires Sentence(fs, NOTICES, types, n) && FrameKind(fs[n]) == k && !k.PassThrough?
    ensures Completes(k, fs)
  {
    hide FrameKind;
    NoticesPass(fs[..n]);
    NoticesPass(fs[n + 1..]);
    LeadIs(fs, n);
  }

  /** What the server says to an operation is an answer to it. */
  lemma SaysAnswers(op: BatchOperation, fs: seq<Frame>)
    requires Says(op, fs)
    ensures Answers(op, fs)
  {
    match op
    case ParseSkipped =>
    case ParseSent => ParseSaid(fs);
    case Bind => var n :| Sentence(fs, NOTICES, {'2'}, n); CompletesAt(fs, {'2'}, n, BindComplete);
    case Close => var n :| Sentence(fs, NOTICES, {'3'}, n); CompletesAt(fs, {'3'}, n, CloseComplete);
    case DescribePortal => RowsSaid(fs);
    case Execute => ExecuteSaid(fs);
    case Describe => DescribeSaid(fs);
  }

  lemma ParseSaid(fs: seq<Frame>)
    requires Says(ParseSent, fs)
    ensures Passing(fs)
  {
    hide AllTyped, Passing;
    var n :| Sentence(fs, NOTICES, {'1'}, n);
    NoticesPass(fs[..n]);
    NoticesPass(fs[n + 1..]);
    PassingAround(fs, n);
  }

  lemma RowsSaid(fs: seq<Frame>)
    requires RowsDescribed(fs)
    ensures Completes(RowMessage, fs)
  {
    hide AllTyped, Completes;
    var n :| Sentence(fs, NOTICES, {'T', 'n'}, n);
    CompletesAt(fs, {'T', 'n'}, n, RowMessage);
  }

  lemma ExecuteSaid(fs: seq<Frame>)
    requires Says(BatchOperation.Execute, fs)
    ensures Answers(BatchOperation.Execute, fs)
  {
    hide AllTyped, Passing, Rows;
    var n :| Sentence(fs, NOTICES + {'D'}, {'C', 'I', 's'}, n);
    RowsPass(fs[..n]);
    NoticesPass(fs[n + 1..]);
    assert ExecutesAt(fs, n);
  }

  lemma DescribeSaid(fs: seq<Frame>)
    requires Says(BatchOperation.Describe, fs)
    ensures Describes(fs)
  {
    hide AllTyped, Completes, Passing, RowsDescribed;
    var n :| 0 <= n < |fs| && AllTyped(fs[..n], NOTICES) && Typed(fs[n], {'t'}) && RowsDescribed(fs[n + 1..]);
    NoticesPass(fs[..n]);
    LeadIs(fs, n);
    RowsSaid(fs[n + 1..]);
  }

  lemma PassingAround(fs: seq<Frame>, n: nat)
    requires n < |fs| && Passing(fs[..n]) && FrameKind(fs[n]).PassThrough? && Passing(fs[n + 1..])
    ensures Passing(fs)
  {
    hide FrameKind;
    forall i | 0 <= i < |fs| ensures FrameKind(fs[i]).PassThrough? {
      assert i < n ==> fs[i] == fs[..n][i];
      assert i > n ==> fs[i] == fs[n + 1..][i - n - 1];
    }
  }

  lemma {:induction false} SaysAnswersAll(ops: seq<BatchOperation>, answers: seq<seq<Frame>>)
    requires SaysAll(ops, answers)
    ensures AnswersAll(ops, answers)
  {
    hide Says, Answers;
    if ops != [] {
      var n := |ops| - 1;
      SaysAnswersAll(ops[..n], answers[..n]);
      SaysAnswers(ops[n], answers[n]);
    }
  }

  // ---------------------------------------------------------------- the theorem

  /** The ReadyForQuery that ends a reply, and notices before it. */
  ghost predicate SaysReady(fs: seq<Frame>) {
    && fs != [] && AllFramed(fs) && Typed(fs[|fs| - 1], {'Z'}) && AllTyped(fs[..|fs| - 1], NOTICES)
  }

  lemma ReadySaid(fs: seq<Frame>)
    requires SaysReady(fs)
    ensures Ready(fs)
  {
    hide AllTyped;
    NoticesPass(fs[..|fs| - 1]);
    LeadIs(fs, |fs| - 1);
  }

  /**
   For every placeable batch, whatever a PostgreSQL server says to it without an error, in every cut: the client gets
   the reply without skipping if and only if the reply is prompt.
   */
  lemma ServerExactIffPrompt(ops: seq<BatchOperation>, answers: seq<seq<Frame>>, end: seq<Frame>, chunks: seq<seq<Frame>>)
    requires Placeable(ops) && SaysAll(ops, answers) && SaysReady(end) && Concat(chunks) == Concat(answers) + end
    ensures Feed(ops, NO_RESPONSES, chunks).Reply?
    ensures Exact(ops, answers, end, chunks) <==> PromptReply(ops, answers, end)
  {
    hide Placeable, SaysAll, AnswersAll, SaysReady, Ready, Exact, PromptReply, Feed, Concat;
    SaysAnswersAll(ops, answers);
    ReadySaid(end);
    AnswersLength(ops, answers);
    ExactIffPrompt(ops, answers, end, chunks);
  }

  lemma AnswersLength(ops: seq<BatchOperation>, answers: seq<seq<Frame>>)
    requires AnswersAll(ops, answers)
    ensures |ops| == |answers|
  {
  }
}
