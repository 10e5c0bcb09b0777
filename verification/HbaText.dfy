/** pg_hba text: the printer and the parser (src/auth/hba.rs:112-185, 282-346, 413-453). */
module HbaText {
  import opened Wire
  import opened TextOps
  import opened Hba

  /** Printing and parsing of networks, from the address library. */
  datatype Nets<!Net> = Nets(show: Net -> string, parse: string -> Option<Net>)

  ghost predicate NetsOk<Net(!new)>(nets: Nets<Net>) {
    forall n :: nets.parse(nets.show(n)) == Some(n) && Plain(nets.show(n))
  }

  /** A token that needs no quotes and is not cut by a comment. */
  predicate Plain(s: string) {
    s != "" && forall i :: 0 <= i < |s| ==> !IsWhitespace(s[i]) && s[i] != '"' && s[i] != '#'
  }

  // ---------------------------------------------------------------- printer

  function PrintName(m: NameMatcher): string { if m.All? then "all" else m.name }

  function PrintHost(t: HostType): string {
    match t
    case Local => "local"
    case Host => "host"
    case HostSSL => "hostssl"
    case HostNoSSL => "hostnossl"
  }

  function PrintAuth(m: AuthMethod): string {
    match m
    case Trust => "trust"
    case Md5 => "md5"
    case ScramSha256 => "scram-sha-256"
    case Reject => "reject"
    case Other(s) => s
  }

  /** The fields of a rule in print order; a local rule prints no address, others print one when they have it. */
  function Fields<Net>(nets: Nets<Net>, r: Rule<Net>): (fs: seq<string>)
    ensures |fs| >= 4
  {
    var front := [PrintHost(r.hostType), PrintName(r.database), PrintName(r.user)];
    if r.hostType.Local? || r.address.None? then front + [PrintAuth(r.auth)]
    else front + [nets.show(r.address.value), PrintAuth(r.auth)]
  }

  function PrintRule<Net>(nets: Nets<Net>, r: Rule<Net>): string { Join(Fields(nets, r), ' ') }

  function Printed<Net>(nets: Nets<Net>, rules: seq<Rule<Net>>): seq<string> {
    seq(|rules|, i requires 0 <= i < |rules| => PrintRule(nets, rules[i]))
  }

  function PrintRules<Net>(nets: Nets<Net>, rules: seq<Rule<Net>>): string { Join(Printed(nets, rules), '\n') }

  // ---------------------------------------------------------------- parser

  function StripComments(s: string): string { if '#' in s then s[..IndexOf(s, '#')] else s }

  /** `shell_like_split` from a point on, with the token so far and whether it stands inside quotes. */
  function Tokens(s: string, cur: string, quoted: bool): seq<string> {
    if s == "" then if cur == "" then [] else [cur]
    else if s[0] == '"' then Tokens(s[1..], cur, !quoted)
    else if IsWhitespace(s[0]) && !quoted then (if cur == "" then [] else [cur]) + Tokens(s[1..], "", quoted)
    else Tokens(s[1..], cur + [s[0]], quoted)
  }

  function ParseHost(tok: string): Option<HostType> {
    var t := Lower(tok);
    if t == "local" then Some(Local)
    else if t == "host" then Some(Host)
    else if t == "hostssl" then Some(HostSSL)
    else if t == "hostnossl" then Some(HostNoSSL)
    else None
  }

  function ParseName(tok: string): NameMatcher { if Lower(tok) == "all" then All else Name(tok) }

  function ParseAuth(tok: string): AuthMethod {
    var t := Lower(tok);
    if t == "trust" then AuthMethod.Trust
    else if t == "md5" then Md5
    else if t == "scram-sha-256" || t == "scram_sha_256" || t == "scramsha256" then ScramSha256
    else if t == "reject" then Reject
    else Other(t)
  }

  function RuleOf<Net>(nets: Nets<Net>, tokens: seq<string>): Option<Rule<Net>> {
    if |tokens| == 0 then None
    else
      var host := ParseHost(tokens[0]);
      if host.None? || |tokens| < 3 then None
      else if host.value.Local? then
        if |tokens| < 4 then None
        else Some(Rule(host.value, ParseName(tokens[1]), ParseName(tokens[2]), None, ParseAuth(tokens[3])))
      else if |tokens| < 5 then None
      else Some(Rule(host.value, ParseName(tokens[1]), ParseName(tokens[2]), nets.parse(tokens[3]), ParseAuth(tokens[4])))
  }

  /** The rule of one line, if it gives one; a blank line has no tokens. */
  function ParseLine<Net>(nets: Nets<Net>, line: string): Option<Rule<Net>> {
    RuleOf(nets, Tokens(Trim(StripComments(line)), "", false))
  }

  function ParseLines<Net>(nets: Nets<Net>, lines: seq<string>, n: nat): seq<Rule<Net>>
    requires n <= |lines|
  {
    if n == 0 then []
    else
      var r := ParseLine(nets, lines[n - 1]);
      ParseLines(nets, lines, n - 1) + if r.Some? then [r.value] else []
  }

  /** `from_content`. */
  function ParseContent<Net>(nets: Nets<Net>, content: string): seq<Rule<Net>> {
    var lines := Split(content, '\n');
    ParseLines(nets, lines, |lines|)
  }

  // ---------------------------------------------------------------- the loops of the source

  method ShellLikeSplit(line: string) returns (out: seq<string>)
    ensures out == Tokens(line, "", false)
  {
    out := [];
    var cur, quoted := "", false;
    var i := 0;
    assert line[0..] == line;
    while i < |line|
      invariant 0 <= i <= |line|
      invariant Tokens(line, "", false) == out + Tokens(line[i..], cur, quoted)
    {
      var c := line[i];
      assert line[i..][0] == c && line[i..][1..] == line[i + 1..];
      if c == '"' {
        quoted := !quoted;
      } else if IsWhitespace(c) && !quoted {
        if cur != "" {
          out, cur := out + [cur], "";
        }
      } else {
        cur := cur + [c];
      }
      i := i + 1;
    }
    if cur != "" {
      out := out + [cur];
    }
  }

  method FromContent<Net>(nets: Nets<Net>, content: string) returns (rules: seq<Rule<Net>>)
    ensures rules == ParseContent(nets, content)
  {
    hide Tokens, Trim, StripComments, Split;
    rules := [];
    var lines := Split(content, '\n');
    for i := 0 to |lines|
      invariant rules == ParseLines(nets, lines, i)
    {
      var line := Trim(StripComments(lines[i]));
      if line == "" {
        NoTokens();
        continue;
      }
      var tokens := ShellLikeSplit(line);
      if |tokens| == 0 { continue; }
      var host := ParseHost(tokens[0]);
      if host.None? { continue; }
      if |tokens| < 3 { continue; }
      var database, user := ParseName(tokens[1]), ParseName(tokens[2]);
      var at, address := 3, None;
      if host.value.Local? {
        if |tokens| < 4 { continue; }
      } else {
        if |tokens| < 5 { continue; }
        address := nets.parse(tokens[3]);
        at := 4;
      }
      rules := rules + [Rule(host.value, database, user, address, ParseAuth(tokens[at]))];
    }
  }

  lemma NoTokens()
    ensures Tokens("", "", false) == []
  {
  }
}
