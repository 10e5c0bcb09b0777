/** Parsing the printed rules gives them back exactly when they are in canonical form. */
module HbaRoundTrip {
  import opened Wire
  import opened TextOps
  import opened Hba
  import opened HbaText

  // ---------------------------------------------------------------- canonical form

  predicate Keyword(s: string) {
    s == "trust" || s == "md5" || s == "scram-sha-256" || s == "scram_sha_256" || s == "scramsha256" || s == "reject"
  }

  predicate NameCanonical(m: NameMatcher) {
    m.Name? ==> Plain(m.name) && Lower(m.name) != "all"
  }

  predicate AuthCanonical(m: AuthMethod) {
    m.Other? ==> Plain(m.name) && NoUpper(m.name) && !Keyword(m.name)
  }

  predicate Canonical<Net>(r: Rule<Net>) {
    NameCanonical(r.database) && NameCanonical(r.user) && AuthCanonical(r.auth) && (r.hostType.Local? <==> r.address.None?)
  }

  // ---------------------------------------------------------------- single fields

  lemma HostRoundTrip(t: HostType)
    ensures ParseHost(PrintHost(t)) == Some(t) && Plain(PrintHost(t))
  {
    LowerKeeps(PrintHost(t));
  }

  lemma NameRoundTrip(m: NameMatcher)
    requires m.Name? ==> Plain(m.name)
    ensures Plain(PrintName(m)) && (ParseName(PrintName(m)) == m <==> NameCanonical(m))
  {
    LowerKeeps("all");
  }

  lemma AuthRoundTrip(m: AuthMethod)
    requires m.Other? ==> Plain(m.name)
    ensures Plain(PrintAuth(m)) && (ParseAuth(PrintAuth(m)) == m <==> AuthCanonical(m))
  {
    hide Lower;
    LowerKeeps(PrintAuth(m));
    match m {
      case Other(s) => hide Plain;
      case _ => hide NoUpper;
    }
  }

  // ---------------------------------------------------------------- tokens

  /** Plain characters join the token under way. */
  lemma {:induction false} TokenGrows(t: string, cur: string, rest: string)
    requires forall i :: 0 <= i < |t| ==> !IsWhitespace(t[i]) && t[i] != '"'
    ensures Tokens(t + rest, cur, false) == Tokens(rest, cur + t, false)
    decreases |t|
  {
    hide IsWhitespace;
    if t == "" {
      assert t + rest == rest && cur + t == cur;
    } else {
      assert (t + rest)[0] == t[0] && (t + rest)[1..] == t[1..] + rest;
      TokenGrows(t[1..], cur + [t[0]], rest);
      assert cur + [t[0]] + t[1..] == cur + t;
    }
  }

  lemma {:induction false} TokensOfJoin(ts: seq<string>)
    requires forall i :: 0 <= i < |ts| ==> Plain(ts[i])
    ensures Tokens(Join(ts, ' '), "", false) == ts
  {
    hide IsWhitespace;
    if |ts| == 1 {
      TokenGrows(ts[0], "", "");
      assert ts[0] + "" == ts[0] && "" + ts[0] == ts[0];
    } else if |ts| > 1 {
      var rest := Join(ts[1..], ' ');
      assert Join(ts, ' ') == ts[0] + ([' '] + rest);
      TokenGrows(ts[0], "", [' '] + rest);
      assert "" + ts[0] == ts[0];
      SpaceEnds(ts[0], rest);
      TokensOfJoin(ts[1..]);
    }
  }

  lemma SpaceEnds(cur: string, rest: string)
    requires cur != ""
    ensures Tokens([' '] + rest, cur, false) == [cur] + Tokens(rest, "", false)
  {
    assert ([' '] + rest)[1..] == rest;
  }

  /** Tokens are not empty, hold no quotes, and hold only what the line holds. */
  ghost predicate Clean(t: string, s: string, cur: string) {
    t != "" && '"' !in t && forall c :: c in t ==> c in s || c in cur
  }

  lemma {:induction false} TokensClean(s: string, cur: string, quoted: bool)
    requires '"' !in cur
    ensures forall t :: t in Tokens(s, cur, quoted) ==> Clean(t, s, cur)
  {
    hide IsWhitespace;
    if s != "" {
      if s[0] == '"' {
        TokensClean(s[1..], cur, !quoted);
        Widen(Tokens(s[1..], cur, !quoted), s, cur, cur);
      } else if IsWhitespace(s[0]) && !quoted {
        TokensClean(s[1..], "", quoted);
        Widen(Tokens(s[1..], "", quoted), s, "", cur);
      } else {
        TokensClean(s[1..], cur + [s[0]], quoted);
        Widen(Tokens(s[1..], cur + [s[0]], quoted), s, cur + [s[0]], cur);
      }
    }
  }

  lemma Widen(ts: seq<string>, s: string, cur: string, wider: string)
    requires s != "" && (forall t :: t in ts ==> Clean(t, s[1..], cur)) && (forall c :: c in cur ==> c in wider || c == s[0])
    ensures forall t :: t in ts ==> Clean(t, s, wider)
  {
  }

  /** Without quotes no token holds whitespace. */
  lemma {:induction false} TokensUnquoted(s: string, cur: string)
    requires '"' !in s && forall i :: 0 <= i < |cur| ==> !IsWhitespace(cur[i])
    ensures forall t :: t in Tokens(s, cur, false) ==> forall i :: 0 <= i < |t| ==> !IsWhitespace(t[i])
  {
    hide IsWhitespace;
    if s != "" {
      if IsWhitespace(s[0]) {
        TokensUnquoted(s[1..], "");
      } else {
        TokensUnquoted(s[1..], cur + [s[0]]);
      }
    }
  }

  // ---------------------------------------------------------------- lines

  /** What trimming and stripping leave is part of the line, without '#'. */
  lemma BareLine(line: string)
    ensures forall c :: c in Trim(StripComments(line)) ==> c in line && c != '#'
  {
    hide TrimStart, TrimEnd;
    TrimStartPart(StripComments(line));
    TrimEndPart(TrimStart(StripComments(line)));
  }

  lemma {:induction false} JoinEnds(ts: seq<string>)
    requires |ts| > 0 && forall i :: 0 <= i < |ts| ==> Plain(ts[i])
    ensures var s := Join(ts, ' '); s != "" && !IsWhitespace(s[0]) && !IsWhitespace(s[|s| - 1])
  {
    hide IsWhitespace;
    if |ts| > 1 {
      JoinEnds(ts[1..]);
    }
  }

  lemma {:induction false} JoinHas(parts: seq<string>, c: char, x: char)
    ensures x in Join(parts, c) ==> x == c || exists i :: 0 <= i < |parts| && x in parts[i]
    ensures |parts| > 1 && x == c ==> x in Join(parts, c)
    ensures forall i :: 0 <= i < |parts| && x in parts[i] ==> x in Join(parts, c)
  {
    if |parts| > 1 {
      JoinHas(parts[1..], c, x);
      assert Join(parts, c) == parts[0] + [c] + Join(parts[1..], c);
      assert x in Join(parts, c) <==> x in parts[0] || x == c || x in Join(parts[1..], c);
      if x in Join(parts[1..], c) && x != c {
        var i :| 0 <= i < |parts[1..]| && x in parts[1..][i];
        assert x in parts[i + 1];
      }
      forall i | 0 <= i < |parts| && x in parts[i] ensures x in Join(parts, c) {
        assert i > 0 ==> parts[1..][i - 1] == parts[i];
      }
    }
  }

  /** A line of plain fields is read as its fields. */
  lemma FieldsRead(ts: seq<string>)
    requires |ts| > 0 && forall i :: 0 <= i < |ts| ==> Plain(ts[i])
    ensures Tokens(Trim(StripComments(Join(ts, ' '))), "", false) == ts && '\n' !in Join(ts, ' ')
  {
    hide Tokens, Join;
    JoinEnds(ts);
    JoinHas(ts, ' ', '#');
    JoinHas(ts, ' ', '\n');
    assert IsWhitespace('\n');
    TokensOfJoin(ts);
  }

  // ---------------------------------------------------------------- one rule

  ghost predicate PlainRule<Net>(r: Rule<Net>) {
    (r.database.Name? ==> Plain(r.database.name)) && (r.user.Name? ==> Plain(r.user.name)) && (r.auth.Other? ==> Plain(r.auth.name))
  }

  lemma FieldsPlain<Net(!new)>(nets: Nets<Net>, r: Rule<Net>)
    requires NetsOk(nets) && PlainRule(r)
    ensures forall i :: 0 <= i < |Fields(nets, r)| ==> Plain(Fields(nets, r)[i])
  {
    hide Plain, PrintHost, PrintName, PrintAuth, ParseHost, ParseName, ParseAuth, NameCanonical, AuthCanonical;
    HostRoundTrip(r.hostType);
    NameRoundTrip(r.database);
    NameRoundTrip(r.user);
    AuthRoundTrip(r.auth);
  }

  /** A rule with plain names comes back from its line if and only if it is canonical. */
  lemma RuleRoundTrip<Net(!new)>(nets: Nets<Net>, r: Rule<Net>)
    requires NetsOk(nets) && PlainRule(r)
    ensures '\n' !in PrintRule(nets, r)
    ensures ParseLine(nets, PrintRule(nets, r)) == Some(r) <==> Canonical(r)
  {
    hide Plain, PrintHost, PrintName, PrintAuth, ParseHost, ParseName, ParseAuth, NameCanonical, AuthCanonical, Tokens, Trim,
         StripComments, Join;
    FieldsPlain(nets, r);
    FieldsRead(Fields(nets, r));
    HostRoundTrip(r.hostType);
    NameRoundTrip(r.database);
    NameRoundTrip(r.user);
    AuthRoundTrip(r.auth);
  }

  // ---------------------------------------------------------------- all rules

  lemma {:induction false} LinesGive<Net(!new)>(nets: Nets<Net>, lines: seq<string>, n: nat)
    requires n <= |lines|
    ensures |ParseLines(nets, lines, n)| <= n
    ensures |ParseLines(nets, lines, n)| == n ==>
              forall i :: 0 <= i < n ==> ParseLine(nets, lines[i]) == Some(ParseLines(nets, lines, n)[i])
    ensures (forall i :: 0 <= i < n ==> ParseLine(nets, lines[i]).Some?) ==> |ParseLines(nets, lines, n)| == n
  {
    hide ParseLine;
    if n > 0 {
      LinesGive(nets, lines, n - 1);
    }
  }

  /** For rules with plain names the text has one line per rule, so the round trip is decided rule by rule. */
  lemma PlainRoundTrip<Net(!new)>(nets: Nets<Net>, rules: seq<Rule<Net>>)
    requires NetsOk(nets) && forall i :: 0 <= i < |rules| ==> PlainRule(rules[i])
    ensures ParseContent(nets, PrintRules(nets, rules)) == rules <==> forall i :: 0 <= i < |rules| ==> Canonical(rules[i])
  {
    hide ParseLine, PrintRule, PlainRule, Canonical, NetsOk;
    var lines := Printed(nets, rules);
    forall i | 0 <= i < |rules|
      ensures '\n' !in lines[i] && (ParseLine(nets, lines[i]) == Some(rules[i]) <==> Canonical(rules[i]))
    {
      RuleRoundTrip(nets, rules[i]);
    }
    if rules == [] {
      NoRules(nets);
    } else {
      SplitJoin(lines, '\n');
      LinesGive(nets, lines, |lines|);
    }
  }

  lemma NoRules<Net(!new)>(nets: Nets<Net>)
    ensures ParseContent(nets, PrintRules(nets, [])) == []
  {
    assert Printed(nets, []) == [];
    assert PrintRules(nets, []) == "";
    var lines := Split("", '\n');
    assert lines == [""];
    assert Trim(StripComments("")) == "";
    assert ParseLine(nets, lines[0]).None?;
    assert ParseLines(nets, lines, 1) == ParseLines(nets, lines, 0);
  }

  // ---------------------------------------------------------------- what parsing can return

  /** A token as a line can give it. */
  predicate Bare(s: string) {
    s != "" && '"' !in s && '#' !in s
  }

  ghost predicate BareRule<Net>(r: Rule<Net>) {
    (r.database.Name? ==> Bare(r.database.name)) && (r.user.Name? ==> Bare(r.user.name)) && (r.auth.Other? ==> Bare(r.auth.name))
  }

  lemma LineTokens(line: string)
    ensures forall t :: t in Tokens(Trim(StripComments(line)), "", false) ==> Bare(t) && ('"' !in line ==> Plain(t))
  {
    hide Tokens, Trim, StripComments, IsWhitespace;
    var s := Trim(StripComments(line));
    BareLine(line);
    TokensClean(s, "", false);
    if '"' !in line {
      TokensUnquoted(s, "");
    }
  }

  lemma LowerBare(s: string)
    requires Bare(s)
    ensures Bare(Lower(s)) && (Plain(s) ==> Plain(Lower(s)))
  {
    LowerKeeps(s);
  }

  lemma LineRule<Net(!new)>(nets: Nets<Net>, line: string)
    requires ParseLine(nets, line).Some?
    ensures BareRule(ParseLine(nets, line).value) && ('"' !in line ==> PlainRule(ParseLine(nets, line).value))
  {
    hide Tokens, Trim, StripComments, Plain, Bare, Lower, ParseHost;
    LineTokens(line);
    var ts := Tokens(Trim(StripComments(line)), "", false);
    var auth := if ParseHost(ts[0]).value.Local? then ts[3] else ts[4];
    assert auth in ts && ts[1] in ts && ts[2] in ts;
    LowerBare(auth);
  }

  lemma {:induction false} FromSomeLine<Net(!new)>(nets: Nets<Net>, lines: seq<string>, n: nat, i: nat) returns (j: nat)
    requires n <= |lines| && i < |ParseLines(nets, lines, n)|
    ensures j < n && ParseLine(nets, lines[j]) == Some(ParseLines(nets, lines, n)[i])
  {
    hide ParseLine;
    if i < |ParseLines(nets, lines, n - 1)| {
      j := FromSomeLine(nets, lines, n - 1, i);
    } else {
      j := n - 1;
    }
  }

  lemma {:induction false} SplitPart(s: string, c: char, j: nat, x: char)
    requires j < |Split(s, c)| && x in Split(s, c)[j]
    ensures x in s
  {
    if c in s && j > 0 {
      var i := IndexOf(s, c);
      SplitPart(s[i + 1..], c, j - 1, x);
    }
  }

  lemma NoQuotes<Net(!new)>(nets: Nets<Net>, r: Rule<Net>)
    requires NetsOk(nets) && BareRule(r)
    ensures '"' !in PrintRule(nets, r)
  {
    hide Join;
    HostRoundTrip(r.hostType);
    JoinHas(Fields(nets, r), ' ', '"');
  }

  /** Rules that parsing their own text returns have plain names. */
  lemma ReturnedArePlain<Net(!new)>(nets: Nets<Net>, rules: seq<Rule<Net>>, i: nat)
    requires NetsOk(nets) && ParseContent(nets, PrintRules(nets, rules)) == rules && i < |rules|
    ensures PlainRule(rules[i])
  {
    hide ParseLine, PrintRule, NetsOk, Split, Join, ParseLines, BareRule, PlainRule;
    var text := PrintRules(nets, rules);
    var lines := Split(text, '\n');
    forall k | 0 <= k < |rules| ensures '"' !in Printed(nets, rules)[k] {
      var j := FromSomeLine(nets, lines, |lines|, k);
      LineRule(nets, lines[j]);
      NoQuotes(nets, rules[k]);
    }
    JoinHas(Printed(nets, rules), '\n', '"');
    var j := FromSomeLine(nets, lines, |lines|, i);
    if '"' in lines[j] {
      SplitPart(text, '\n', j, '"');
    }
    LineRule(nets, lines[j]);
  }

  /** The round trip, in both directions. */
  lemma RoundTripIffCanonical<Net(!new)>(nets: Nets<Net>, rules: seq<Rule<Net>>)
    requires NetsOk(nets)
    ensures ParseContent(nets, PrintRules(nets, rules)) == rules <==> forall i :: 0 <= i < |rules| ==> Canonical(rules[i])
  {
    hide ParseContent, PrintRules, NetsOk;
    if ParseContent(nets, PrintRules(nets, rules)) == rules {
      forall i | 0 <= i < |rules| ensures PlainRule(rules[i]) {
        ReturnedArePlain(nets, rules, i);
      }
      PlainRoundTrip(nets, rules);
    } else if forall i :: 0 <= i < |rules| ==> Canonical(rules[i]) {
      PlainRoundTrip(nets, rules);
    }
  }
}
