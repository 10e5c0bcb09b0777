/** A Flush writes the ParseCompletes of all skipped Parses before the reply: when the client cannot tell. */
module BatchFlush {
  import opened Wire
  import opened Frames
  import opened BatchReorder
  import opened BatchPlacement
  import opened BatchExact
  import opened BatchOneExact
  import opened BatchNecessity

  /** A ParseComplete for each skipped Parse and then the reply is the reply without skipping. */
  ghost predicate FlushExact(ops: seq<BatchOperation>, answers: seq<seq<Frame>>)
    requires |ops| == |answers|
  {
    Flatten(Copies(SkippedCount(ops)) + Concat(answers)) == Flatten(Unskipped(ops, answers))
  }

  /** Nothing but ParseComplete answers the operations before a skipped Parse. */
  ghost predicate NothingBefore(ops: seq<BatchOperation>, answers: seq<seq<Frame>>)
    requires |ops| == |answers|
  {
    ops != [] ==>
      var n := |ops| - 1;
      NothingBefore(ops[..n], answers[..n]) && (ops[n].ParseSkipped? ==> AllCopies(Concat(answers[..n])))
  }

  // ---------------------------------------------------------------- copies

  lemma CopiesAppend(a: seq<Frame>, b: seq<Frame>)
    ensures AllCopies(a + b) <==> AllCopies(a) && AllCopies(b)
  {
    assert forall i :: 0 <= i < |a| ==> a[i] == (a + b)[i];
    assert forall i :: 0 <= i < |b| ==> b[i] == (a + b)[|a| + i];
  }

  lemma {:induction false} CopiesEverywhere(answers: seq<seq<Frame>>)
    ensures AllCopies(Concat(answers)) <==> forall i :: 0 <= i < |answers| ==> AllCopies(answers[i])
  {
    hide AllCopies;
    if answers == [] {
      NoneCopied();
    } else {
      var n := |answers| - 1;
      CopiesEverywhere(answers[..n]);
      ConcatLast(answers);
      CopiesAppend(Concat(answers[..n]), answers[n]);
      assert forall i :: 0 <= i < n ==> answers[i] == answers[..n][i];
    }
  }

  lemma NoneCopied()
    ensures AllCopies([])
  {
  }

  lemma {:induction false} CopiesBefore(ops: seq<BatchOperation>, answers: seq<seq<Frame>>)
    requires |ops| == |answers| && AllCopies(Concat(answers))
    ensures NothingBefore(ops, answers)
  {
    hide AllCopies, Concat;
    if ops != [] {
      var n := |ops| - 1;
      ConcatLast(answers);
      CopiesAppend(Concat(answers[..n]), answers[n]);
      CopiesBefore(ops[..n], answers[..n]);
    }
  }

  // ---------------------------------------------------------------- in step

  /** With nothing before the skipped Parses, all their ParseCompletes may as well come first. */
  lemma {:induction false} CopiesFirst(ops: seq<BatchOperation>, answers: seq<seq<Frame>>)
    requires AnswersAll(ops, answers) && NothingBefore(ops, answers)
    ensures Copies(SkippedCount(ops)) + Concat(answers) == Unskipped(ops, answers)
  {
    hide Answers, AllCopies, Concat, Copies;
    if ops == [] {
      NothingSaid(answers);
    } else {
      var n := |ops| - 1;
      var sent, k := Concat(answers[..n]), SkippedCount(ops[..n]);
      CopiesFirst(ops[..n], answers[..n]);
      ConcatLast(answers);
      if ops[n].ParseSkipped? {
        SkippedSilent(ops, answers);
        OneCopyMore(k, sent);
        assert sent + [] == sent;
      } else {
        assert Copies(k) + (sent + answers[n]) == Copies(k) + sent + answers[n];
      }
    }
  }

  lemma NothingSaid(answers: seq<seq<Frame>>)
    requires answers == []
    ensures Copies(0) + Concat(answers) == []
  {
  }

  lemma OneCopyMore(k: nat, sent: seq<Frame>)
    requires AllCopies(sent)
    ensures Copies(k + 1) + sent == Copies(k) + sent + [PARSE_COMPLETE]
  {
  }

  /**
   The first other message of the reply comes, without skipping, after at most as many ParseCompletes more as were
   skipped, and after fewer if a Parse was skipped behind it.
   */
  lemma {:induction false} Shifted(ops: seq<BatchOperation>, answers: seq<seq<Frame>>, i: nat) returns (t: nat)
    requires AnswersAll(ops, answers) && i < |Concat(answers)|
    requires Concat(answers)[i] != PARSE_COMPLETE && AllCopies(Concat(answers)[..i])
    ensures t < |Unskipped(ops, answers)| && Unskipped(ops, answers)[t] != PARSE_COMPLETE
    ensures t <= i + SkippedCount(ops) && (!NothingBefore(ops, answers) ==> t < i + SkippedCount(ops))
    decreases |ops|
  {
    hide Answers, AllCopies;
    var n := |ops| - 1;
    var sent := Concat(answers[..n]);
    ConcatLast(answers);
    UnskippedCount(ops[..n], answers[..n]);
    if ops[n].ParseSkipped? {
      SkippedSilent(ops, answers);
      assert sent + [] == sent;
      t := Shifted(ops[..n], answers[..n], i);
    } else if i < |sent| {
      assert Concat(answers)[..i] == sent[..i];
      t := Shifted(ops[..n], answers[..n], i);
    } else {
      assert Concat(answers)[..i] == sent + answers[n][..i - |sent|];
      CopiesAppend(sent, answers[n][..i - |sent|]);
      CopiesBefore(ops[..n], answers[..n]);
      t := i + SkippedCount(ops);
    }
  }

  /** Otherwise the first other message comes too late. */
  lemma TooLate(ops: seq<BatchOperation>, answers: seq<seq<Frame>>)
    requires AnswersAll(ops, answers) && !NothingBefore(ops, answers)
    ensures Differ(Copies(SkippedCount(ops)) + Concat(answers), Unskipped(ops, answers))
  {
    hide Answers, NothingBefore, Unskipped, Concat, Copies;
    var sent, k := Concat(answers), SkippedCount(ops);
    if AllCopies(sent) {
      CopiesBefore(ops, answers);
    }
    var i := FirstOther(sent);
    var t := Shifted(ops, answers, i);
    CopiesUpTo(k, sent, i, t);
  }

  lemma CopiesUpTo(k: nat, sent: seq<Frame>, i: nat, t: nat)
    requires i < |sent| && AllCopies(sent[..i]) && t < k + i
    ensures (Copies(k) + sent)[t] == PARSE_COMPLETE
  {
    if t >= k {
      assert (Copies(k) + sent)[t] == sent[..i][t - k];
    }
  }

  /**
   For every batch and every error-free reply to it, what a Flush writes is the reply without skipping if and only if
   nothing but ParseComplete answers the operations before a skipped Parse.
   */
  lemma FlushIffNothingBefore(ops: seq<BatchOperation>, answers: seq<seq<Frame>>)
    requires AnswersAll(ops, answers)
    ensures FlushExact(ops, answers) <==> NothingBefore(ops, answers)
  {
    hide Answers, NothingBefore, Unskipped, Concat, Copies, FrameKind, WellFramed, Flatten;
    AnswersPlain(ops, answers);
    CopiesFramed(SkippedCount(ops));
    SameMessages(Copies(SkippedCount(ops)) + Concat(answers), Unskipped(ops, answers));
    if NothingBefore(ops, answers) {
      CopiesFirst(ops, answers);
    } else {
      TooLate(ops, answers);
    }
  }

  // ---------------------------------------------------------------- which batches

  predicate IsParse(op: BatchOperation) { op.ParseSkipped? || op.ParseSent? }

  /** Only Parses come before a skipped Parse. */
  ghost predicate ParsesFirst(ops: seq<BatchOperation>) {
    forall i, j :: 0 <= i < j < |ops| && ops[j].ParseSkipped? ==> IsParse(ops[i])
  }

  /** No notice comes while a sent Parse is answered. */
  ghost predicate ParsesPlain(ops: seq<BatchOperation>, answers: seq<seq<Frame>>)
    requires |ops| == |answers|
  {
    forall i :: 0 <= i < |ops| && ops[i].ParseSent? ==> AllCopies(answers[i])
  }

  ghost predicate FlushAlwaysExact(ops: seq<BatchOperation>) {
    forall answers :: AnswersAll(ops, answers) && ParsesPlain(ops, answers) ==> FlushExact(ops, answers)
  }

  lemma {:induction false} AnswerAt(ops: seq<BatchOperation>, answers: seq<seq<Frame>>, i: nat)
    requires AnswersAll(ops, answers) && i < |ops|
    ensures Answers(ops[i], answers[i])
  {
    hide Answers;
    var n := |ops| - 1;
    if i < n {
      AnswerAt(ops[..n], answers[..n], i);
    }
  }

  lemma ParseCopies(ops: seq<BatchOperation>, answers: seq<seq<Frame>>)
    requires AnswersAll(ops, answers) && ParsesPlain(ops, answers)
    requires forall i :: 0 <= i < |ops| ==> IsParse(ops[i])
    ensures AllCopies(Concat(answers))
  {
    hide Concat;
    forall i | 0 <= i < |answers| ensures AllCopies(answers[i]) {
      AnswerAt(ops, answers, i);
    }
    CopiesEverywhere(answers);
  }

  lemma {:induction false} ParsesFirstSuffices(ops: seq<BatchOperation>, answers: seq<seq<Frame>>)
    requires AnswersAll(ops, answers) && ParsesPlain(ops, answers) && ParsesFirst(ops)
    ensures NothingBefore(ops, answers)
  {
    hide Answers, AllCopies, Concat;
    if ops != [] {
      var n := |ops| - 1;
      assert ParsesPlain(ops[..n], answers[..n]);
      ParsesFirstSuffices(ops[..n], answers[..n]);
      if ops[n].ParseSkipped? {
        ParseCopies(ops[..n], answers[..n]);
      }
    }
  }

  lemma {:induction false} ShownAt(ops: seq<BatchOperation>, i: nat)
    requires i < |ops|
    ensures ShownAll(ops)[i] == Shown(ops[i])
  {
    hide Shown;
    var n := |ops| - 1;
    if i < n {
      ShownAt(ops[..n], i);
    }
  }

  lemma ShownCopies(op: BatchOperation)
    ensures AllCopies(Shown(op)) <==> IsParse(op)
  {
    hide Message;
    Messages();
    if !IsParse(op) {
      assert Shown(op)[0] != PARSE_COMPLETE;
    }
  }

  lemma {:induction false} NothingBeforeAt(ops: seq<BatchOperation>, answers: seq<seq<Frame>>, i: nat, j: nat)
    requires |ops| == |answers| && NothingBefore(ops, answers) && i < j < |ops| && ops[j].ParseSkipped?
    ensures AllCopies(answers[i])
    decreases |ops|
  {
    hide AllCopies, Concat;
    var n := |ops| - 1;
    if j < n {
      NothingBeforeAt(ops[..n], answers[..n], i, j);
    } else {
      CopiesEverywhere(answers[..n]);
      assert answers[i] == answers[..n][i];
    }
  }

  /** While sent Parses bring no notice, a Flush is exact for every reply if and only if only Parses come before a skipped one. */
  lemma FlushIffParsesFirst(ops: seq<BatchOperation>)
    ensures FlushAlwaysExact(ops) <==> ParsesFirst(ops)
  {
    hide Answers, AllCopies, FlushExact, NothingBefore, Shown, Message;
    if ParsesFirst(ops) {
      forall answers | AnswersAll(ops, answers) && ParsesPlain(ops, answers) ensures FlushExact(ops, answers) {
        ParsesFirstSuffices(ops, answers);
        FlushIffNothingBefore(ops, answers);
      }
    } else {
      NotParsesFirst(ops);
    }
  }

  lemma NotParsesFirst(ops: seq<BatchOperation>)
    requires !ParsesFirst(ops)
    ensures !FlushAlwaysExact(ops)
  {
    hide AnswersAll, AllCopies, FlushExact, NothingBefore, Shown, Message;
    var i, j :| 0 <= i < j < |ops| && ops[j].ParseSkipped? && !IsParse(ops[i]);
    var answers := ShownAll(ops);
    ShownAnswerAll(ops);
    forall k | 0 <= k < |ops| ensures AllCopies(answers[k]) <==> IsParse(ops[k]) {
      ShownAt(ops, k);
      ShownCopies(ops[k]);
    }
    FlushIffNothingBefore(ops, answers);
    if NothingBefore(ops, answers) {
      NothingBeforeAt(ops, answers, i, j);
    }
  }
}
