/** What reaches the client of a session: its batch bookkeeping joined with the rewriting of the replies. */
module ClientReplies {
  import opened Wire
  import opened Statements
  import opened Frames
  import opened BatchReorder
  import opened BatchPlacement
  import opened BatchExact
  import opened BatchFlush
  import opened ClientProtocol
  import opened ClientRenaming

  // ---------------------------------------------------------------- what the server was asked

  /** The operation by which a message in the buffer is answered. */
  function AnsweredBy(f: Forwarded): BatchOperation {
    match f
    case ParseOut(_, _) => ParseSent
    case BindOut(_, _, _) => BatchOperation.Bind
    case DescribeOut(_) => BatchOperation.Describe
    case DescribePortalOut(_) => BatchOperation.DescribePortal
    case ExecuteOut(_) => BatchOperation.Execute
    case CloseOut(_, _) => BatchOperation.Close
  }

  function Asked(buffer: seq<Forwarded>): seq<BatchOperation> {
    if buffer == [] then [] else Asked(buffer[..|buffer| - 1]) + [AnsweredBy(buffer[|buffer| - 1])]
  }

  /** The operations of the batch that the server sees. */
  function Visible(ops: seq<BatchOperation>): seq<BatchOperation> {
    if ops == [] then []
    else
      var n := |ops| - 1;
      Visible(ops[..n]) + if ops[n].ParseSkipped? then [] else [ops[n]]
  }

  /** The bookkeeping of a batch agrees with what is in the buffer and with the list of skipped Parses. */
  ghost predicate Agrees(s: ClientState) {
    && |s.skipped| == SkippedCount(s.ops)
    && (!s.asyncClient ==> Asked(s.buffer) == Visible(s.ops))
    && (s.asyncClient ==> SkippedCount(s.ops) == 0)
  }

  // ---------------------------------------------------------------- every step keeps them together

  /** One message forwarded and recorded. */
  ghost predicate Forwards(s: ClientState, s': ClientState, f: Forwarded) {
    && s'.asyncClient == s.asyncClient && s'.buffer == s.buffer + [f] && s'.ops == s.ops + [AnsweredBy(f)]
    && |s'.skipped| == |s.skipped|
  }

  /** A Parse recorded and not forwarded, for a client that is not async. */
  ghost predicate Skips(s: ClientState, s': ClientState) {
    && !s.asyncClient && !s'.asyncClient && s'.buffer == s.buffer && s'.ops == s.ops + [ParseSkipped]
    && |s'.skipped| == |s.skipped| + 1
  }

  /** Nothing recorded: nothing forwarded either, or the Parse of an async client. */
  ghost predicate Passes(s: ClientState, s': ClientState) {
    && s'.asyncClient == s.asyncClient && s'.ops == s.ops && |s'.skipped| == |s.skipped|
    && (!s.asyncClient ==> s'.buffer == s.buffer)
  }

  lemma SkippedCountAppend(ops: seq<BatchOperation>, op: BatchOperation)
    ensures SkippedCount(ops + [op]) == SkippedCount(ops) + if op.ParseSkipped? then 1 else 0
  {
    assert (ops + [op])[..|ops + [op]| - 1] == ops;
  }

  lemma ForwardsAgrees(s: ClientState, s': ClientState, f: Forwarded)
    requires Agrees(s) && Forwards(s, s', f)
    ensures Agrees(s')
  {
    assert s'.buffer[..|s.buffer|] == s.buffer && s'.ops[..|s.ops|] == s.ops;
    SkippedCountAppend(s.ops, AnsweredBy(f));
  }

  lemma SkipsAgrees(s: ClientState, s': ClientState)
    requires Agrees(s) && Skips(s, s')
    ensures Agrees(s')
  {
    assert s'.ops[..|s.ops|] == s.ops;
    assert Visible(s'.ops) == Visible(s.ops) + [] == Visible(s.ops);
    SkippedCountAppend(s.ops, ParseSkipped);
  }

  lemma ParseStep(s: ClientState, h: Hashing, name: string, text: Statement, env: Env)
    ensures var s' := OnParse(s, h, name, text, env).0;
            Passes(s, s') || Skips(s, s') || exists f :: Forwards(s, s', f)
  {
    var s' := OnParse(s, h, name, text, env).0;
    if s'.buffer != s.buffer && s'.ops != s.ops {
      var f := s'.buffer[|s.buffer|];
      assert Forwards(s, s', f);
    }
  }

  lemma LookupStep(s: ClientState, name: string, portal: string, body: string, env: Env)
    ensures var s' := OnBind(s, name, portal, body, env).0; Passes(s, s') || exists f :: Forwards(s, s', f)
    ensures var s' := OnDescribe(s, name, env).0; Passes(s, s') || exists f :: Forwards(s, s', f)
  {
    var b, d := OnBind(s, name, portal, body, env).0, OnDescribe(s, name, env).0;
    if b.buffer != s.buffer {
      assert Forwards(s, b, b.buffer[|s.buffer|]);
    }
    if d.buffer != s.buffer {
      assert Forwards(s, d, d.buffer[|s.buffer|]);
    }
  }

  lemma StepAgrees(s: ClientState, h: Hashing, e: Event)
    requires Agrees(s)
    ensures Agrees(OnMessage(s, h, e.msg, e.env).0)
  {
    hide OnParse, OnBind, OnDescribe;
    var s' := OnMessage(s, h, e.msg, e.env).0;
    match e.msg
    case Parse(name, text) => ParseStep(s, h, name, text, e.env); Cases(s, s');
    case Bind(name, portal, body) => LookupStep(s, name, portal, body, e.env); Cases(s, s');
    case Describe(name) => LookupStep(s, name, "", "", e.env); Cases(s, s');
    case DescribePortal(portal) => ForwardsAgrees(s, s', DescribePortalOut(portal));
    case Execute(body) => ForwardsAgrees(s, s', ExecuteOut(body));
    case Close(statement, name) => ForwardsAgrees(s, s', CloseOut(statement, name));
    case _ =>
  }

  lemma Cases(s: ClientState, s': ClientState)
    requires Agrees(s) && (Passes(s, s') || Skips(s, s') || exists f :: Forwards(s, s', f))
    ensures Agrees(s')
  {
    if Skips(s, s') {
      SkipsAgrees(s, s');
    } else if f :| Forwards(s, s', f) {
      ForwardsAgrees(s, s', f);
    }
  }

  /**
   In every state a session can reach, what waits for the server is the batch without its skipped Parses, there is one
   entry per skipped Parse, and an async client has none.
   */
  lemma {:induction false} BatchAgrees(enabled: bool, anonSize: nat, h: Hashing, trace: seq<Event>)
    ensures Agrees(RunClient(NewClient(enabled, anonSize), h, trace))
  {
    hide OnMessage;
    if trace != [] {
      var n := |trace| - 1;
      BatchAgrees(enabled, anonSize, h, trace[..n]);
      StepAgrees(RunClient(NewClient(enabled, anonSize), h, trace[..n]), h, trace[n]);
    }
  }

  // ---------------------------------------------------------------- the replies of a session

  /** The calls for one batch, with the operations and the number of skipped Parses that the client has recorded. */
  function Delivered(s: ClientState, done: ResponseCounts, chunks: seq<seq<Frame>>): Reply
    decreases |chunks|
  {
    if chunks == [] then Reply([], done)
    else
      match Reorder(s.ops, |s.skipped|, done, Flatten(chunks[0]))
      case Overflowed => Overflowed
      case Reply(out, done') =>
        match Delivered(s, done', chunks[1..])
        case Overflowed => Overflowed
        case Reply(more, last) => Reply(out + more, last)
  }

  lemma {:induction false} DeliveredIsFeed(s: ClientState, done: ResponseCounts, chunks: seq<seq<Frame>>)
    requires |s.skipped| == SkippedCount(s.ops)
    ensures Delivered(s, done, chunks) == Feed(s.ops, done, chunks)
    decreases |chunks|
  {
    hide Reorder;
    if chunks != [] {
      match Reorder(s.ops, |s.skipped|, done, Flatten(chunks[0]))
      case Overflowed =>
      case Reply(_, done') => DeliveredIsFeed(s, done', chunks[1..]);
    }
  }

  /** The server's replies spread over the operations of the batch, a skipped Parse having none. */
  function Spread(ops: seq<BatchOperation>, replies: seq<seq<Frame>>): (answers: seq<seq<Frame>>)
    requires |replies| == |Visible(ops)|
    ensures |answers| == |ops|
  {
    if ops == [] then []
    else
      var n, m := |ops| - 1, |replies| - 1;
      if ops[n].ParseSkipped? then Spread(ops[..n], replies) + [[]] else Spread(ops[..n], replies[..m]) + [replies[m]]
  }

  lemma {:induction false} SpreadAnswers(ops: seq<BatchOperation>, replies: seq<seq<Frame>>)
    requires AnswersAll(Visible(ops), replies)
    ensures AnswersAll(ops, Spread(ops, replies)) && Concat(Spread(ops, replies)) == Concat(replies)
  {
    hide Answers, AllFramed;
    if ops != [] {
      var n, m := |ops| - 1, |replies| - 1;
      var answers := Spread(ops, replies);
      if ops[n].ParseSkipped? {
        assert Visible(ops) == Visible(ops[..n]);
        SpreadAnswers(ops[..n], replies);
        assert answers[..n] == Spread(ops[..n], replies);
        NoAnswer();
        ConcatAppend(answers[..n], []);
      } else {
        assert Visible(ops)[..m] == Visible(ops[..n]);
        SpreadAnswers(ops[..n], replies[..m]);
        assert answers[..n] == Spread(ops[..n], replies[..m]) && replies == replies[..m] + [replies[m]];
        ConcatAppend(answers[..n], replies[m]);
        ConcatAppend(replies[..m], replies[m]);
      }
    }
  }

  lemma NoAnswer()
    ensures Answers(ParseSkipped, []) && AllFramed([])
  {
  }

  /**
   In every session of a client that is not async, for every placeable batch it has sent, every error-free reply to the
   messages that reached the server and every cut of it: the calls finish, and the client gets the reply it would have
   had with no Parse skipped if and only if nothing but ParseComplete comes between a skipped Parse and the next
   completion or ReadyForQuery.
   */
  lemma SessionExactIffPrompt(enabled: bool, anonSize: nat, h: Hashing, trace: seq<Event>, replies: seq<seq<Frame>>,
                              end: seq<Frame>, chunks: seq<seq<Frame>>)
    requires var s := RunClient(NewClient(enabled, anonSize), h, trace);
             !s.asyncClient && Placeable(s.ops) && AnswersAll(Asked(s.buffer), replies)
    requires Ready(end) && Concat(chunks) == Concat(replies) + end
    ensures var s := RunClient(NewClient(enabled, anonSize), h, trace);
            && Delivered(s, NO_RESPONSES, chunks).Reply?
            && Asked(s.buffer) == Visible(s.ops) && |replies| == |Visible(s.ops)|
            && var answers := Spread(s.ops, replies);
               Delivered(s, NO_RESPONSES, chunks).bytes == Flatten(Unskipped(s.ops, answers) + end)
               <==> PromptReply(s.ops, answers, end)
  {
    hide RunClient, Placeable, Ready, Concat, Delivered, Feed, Unskipped, Flatten, PromptReply, Spread;
    var s := RunClient(NewClient(enabled, anonSize), h, trace);
    BatchAgrees(enabled, anonSize, h, trace);
    SpreadAnswers(s.ops, replies);
    DeliveredIsFeed(s, NO_RESPONSES, chunks);
    ExactIffPrompt(s.ops, Spread(s.ops, replies), end, chunks);
  }

  /** Without a skipped Parse the reply is not touched, errors and all. */
  lemma {:induction false} Untouched(s: ClientState, done: ResponseCounts, chunks: seq<seq<Frame>>)
    requires s.skipped == []
    ensures Delivered(s, done, chunks) == Reply(Flatten(Concat(chunks)), done)
    decreases |chunks|
  {
    if chunks != [] {
      Untouched(s, done, chunks[1..]);
      FlattenAppend(chunks[0], Concat(chunks[1..]));
    }
  }

  /** The replies of an async client are never touched. */
  lemma AsyncUntouched(enabled: bool, anonSize: nat, h: Hashing, trace: seq<Event>, chunks: seq<seq<Frame>>,
                       done: ResponseCounts)
    requires RunClient(NewClient(enabled, anonSize), h, trace).asyncClient
    ensures Delivered(RunClient(NewClient(enabled, anonSize), h, trace), done, chunks) == Reply(Flatten(Concat(chunks)), done)
  {
    hide RunClient, Delivered, Concat, Flatten;
    BatchAgrees(enabled, anonSize, h, trace);
    Untouched(RunClient(NewClient(enabled, anonSize), h, trace), done, chunks);
  }

  // ---------------------------------------------------------------- Flush

  /** What the client gets at a Flush: the ParseCompletes written first, and then the reply. */
  function Flushed(s: ClientState, done: ResponseCounts, chunks: seq<seq<Frame>>): Reply {
    var (s', out) := OnFlush(s);
    match Delivered(s', done, chunks)
    case Overflowed => Overflowed
    case Reply(bytes, last) => Reply(out + bytes, last)
  }

  lemma FlushedIs(s: ClientState, done: ResponseCounts, chunks: seq<seq<Frame>>)
    ensures Flushed(s, done, chunks) == Reply(Flatten(Copies(|s.skipped|) + Concat(chunks)), done)
  {
    hide Delivered, Concat, Flatten, Copies, Render, Synthetics;
    var k := |s.skipped|;
    Untouched(OnFlush(s).0, done, chunks);
    RenderOut(Synthetics(k));
    OutSynthetics(k);
    FlattenAppend(Copies(k), Concat(chunks));
  }

  /**
   In every session of a client that is not async, for every batch it flushes, every error-free reply to the messages
   that reached the server and every cut of it: the client gets the reply it would have had with no Parse skipped if and
   only if nothing but ParseComplete answers the operations before a skipped Parse.
   */
  lemma SessionFlushIff(enabled: bool, anonSize: nat, h: Hashing, trace: seq<Event>, replies: seq<seq<Frame>>,
                        chunks: seq<seq<Frame>>, done: ResponseCounts)
    requires var s := RunClient(NewClient(enabled, anonSize), h, trace);
             !s.asyncClient && AnswersAll(Asked(s.buffer), replies)
    requires Concat(chunks) == Concat(replies)
    ensures var s := RunClient(NewClient(enabled, anonSize), h, trace);
            && Flushed(s, done, chunks).Reply?
            && Asked(s.buffer) == Visible(s.ops) && |replies| == |Visible(s.ops)|
            && var answers := Spread(s.ops, replies);
               Flushed(s, done, chunks).bytes == Flatten(Unskipped(s.ops, answers)) <==> NothingBefore(s.ops, answers)
  {
    hide RunClient, Concat, Flushed, Unskipped, Flatten, NothingBefore, Spread, Copies;
    var s := RunClient(NewClient(enabled, anonSize), h, trace);
    BatchAgrees(enabled, anonSize, h, trace);
    SpreadAnswers(s.ops, replies);
    FlushedIs(s, done, chunks);
    FlushIffNothingBefore(s.ops, Spread(s.ops, replies));
  }
}
