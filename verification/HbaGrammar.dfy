/** What a pg_hba line says, field by field (src/auth/hba.rs:71-79, 112-185, 282-346, 413-453). */
module HbaGrammar {
  import opened Wire
  import opened TextOps
  import opened Hba
  import opened HbaText

  const RECORD_TYPES := map["local" := Local, "host" := Host, "hostssl" := HostSSL, "hostnossl" := HostNoSSL]

  const METHODS := map["trust" := AuthMethod.Trust, "reject" := Reject, "md5" := Md5, "scram-sha-256" := ScramSha256,
                       "scram_sha_256" := ScramSha256, "scramsha256" := ScramSha256]

  function MethodOf(token: string): AuthMethod {
    if Lower(token) in METHODS then METHODS[Lower(token)] else Other(Lower(token))
  }

  function NameOf(token: string): NameMatcher { if Lower(token) == "all" then All else Name(token) }

  /** The tokens of a rule: record type, database, user, for all but local an address, method; more are ignored. */
  ghost predicate Reads<Net>(nets: Nets<Net>, tokens: seq<string>, r: Rule<Net>) {
    && |tokens| >= 4 && Lower(tokens[0]) in RECORD_TYPES
    && r.hostType == RECORD_TYPES[Lower(tokens[0])] && r.database == NameOf(tokens[1]) && r.user == NameOf(tokens[2])
    && (if r.hostType == Local then r.address == None && r.auth == MethodOf(tokens[3])
        else |tokens| >= 5 && r.address == nets.parse(tokens[3]) && r.auth == MethodOf(tokens[4]))
  }

  lemma RecordTypes(token: string)
    ensures ParseHost(token) == if Lower(token) in RECORD_TYPES then Some(RECORD_TYPES[Lower(token)]) else None
  {
    hide Lower;
  }

  lemma Methods(token: string)
    ensures ParseAuth(token) == MethodOf(token) && ParseName(token) == NameOf(token)
  {
    hide Lower;
  }

  /** For every line: it gives a rule if and only if its tokens read as that rule. */
  lemma LineIff<Net>(nets: Nets<Net>, line: string, r: Rule<Net>)
    ensures ParseLine(nets, line) == Some(r) <==> Reads(nets, Tokens(Trim(StripComments(line)), "", false), r)
  {
    hide Lower, ParseHost, ParseAuth, ParseName, Tokens, Trim, StripComments, MethodOf, NameOf;
    var tokens := Tokens(Trim(StripComments(line)), "", false);
    if |tokens| > 0 {
      RecordTypes(tokens[0]);
    }
    forall i | 0 <= i < |tokens| ensures ParseAuth(tokens[i]) == MethodOf(tokens[i]) && ParseName(tokens[i]) == NameOf(tokens[i]) {
      Methods(tokens[i]);
    }
  }

  // ---------------------------------------------------------------- comments and quotes

  /** From a '#' on, a line is comment. */
  lemma CommentIgnored<Net>(nets: Nets<Net>, line: string, comment: string)
    requires '#' !in line
    ensures ParseLine(nets, line + "#" + comment) == ParseLine(nets, line)
  {
    hide RuleOf, Tokens, Trim;
    assert line + "#" + comment == line + ['#'] + comment;
    SplitAt(line, '#', comment);
  }

  predicate NoQuote(s: string) { '"' !in s }

  /** Inside quotes everything, blanks too, belongs to the token. */
  lemma {:induction false} QuotedRun(s: string, cur: string, rest: string)
    requires NoQuote(s)
    ensures Tokens(s + "\"" + rest, cur, true) == Tokens(rest, cur + s, false)
  {
    var all := s + "\"" + rest;
    if s == "" {
      assert all[0] == '"' && all[1..] == rest && cur + s == cur;
    } else {
      assert all[0] == s[0] && all[1..] == s[1..] + "\"" + rest;
      QuotedRun(s[1..], cur + [s[0]], rest);
      assert cur + [s[0]] + s[1..] == cur + s;
    }
  }

  /** A quoted token, and a blank after it. */
  lemma QuotedToken(s: string, rest: string)
    requires NoQuote(s) && s != ""
    ensures Tokens("\"" + s + "\" " + rest, "", false) == [s] + Tokens(rest, "", false)
  {
    hide IsWhitespace;
    var tail := " " + rest;
    var all := "\"" + s + "\" " + rest;
    assert all[0] == '"' && all[1..] == s + "\"" + tail;
    QuotedRun(s, "", tail);
    assert "" + s == s && tail[1..] == rest && tail[0] == ' ';
    Blank();
  }

  lemma Blank()
    ensures IsWhitespace(' ')
  {
  }

  /** Outside quotes a token ends at the first blank. */
  lemma {:induction false} PlainRun(s: string, cur: string, rest: string)
    requires forall i :: 0 <= i < |s| ==> s[i] != '"' && !IsWhitespace(s[i])
    ensures Tokens(s + " " + rest, cur, false) == (if cur + s == "" then [] else [cur + s]) + Tokens(rest, "", false)
  {
    hide IsWhitespace;
    Blank();
    var all := s + " " + rest;
    if s == "" {
      assert all[0] == ' ' && all[1..] == rest && cur + s == cur;
    } else {
      assert all[0] == s[0] && all[1..] == s[1..] + " " + rest;
      PlainRun(s[1..], cur + [s[0]], rest);
      assert cur + [s[0]] + s[1..] == cur + s;
    }
  }
}
