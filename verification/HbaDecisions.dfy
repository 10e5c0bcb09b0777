/** What `check_hba` answers, from the fields of the rules and of the connection. */
module HbaDecisions {
  import opened TextOps
  import opened Hba

  // ---------------------------------------------------------------- which connections a rule is for

  /** How a client has come. */
  datatype Way = Socket | Encrypted | Clear

  function WayOf<Ip>(t: Transport<Ip>): Way {
    match t
    case Unix => Socket
    case Tcp(_, ssl) => if ssl then Encrypted else Clear
  }

  /** The ways each record type is for, as the pg_hba documentation lists them. */
  function WaysFor(t: HostType): set<Way> {
    match t
    case Local => {Socket}
    case Host => {Encrypted, Clear}
    case HostSSL => {Encrypted}
    case HostNoSSL => {Clear}
  }

  /** The rule is for this connection: its way, its address unless it came by socket, its database and its user. */
  predicate For<Net, Ip>(rule: Rule<Net>, conn: Conn<Net, Ip>) {
    && WayOf(conn.transport) in WaysFor(rule.hostType)
    && (conn.transport.Unix? || rule.address.None? || conn.contains(rule.address.value, conn.transport.ip))
    && (rule.database == All || rule.database == Name(conn.database))
    && (rule.user == All || rule.user == Name(conn.user))
  }

  /** The rule's method is the one asked for by this name, in any case of its letters. */
  predicate Names(m: AuthMethod, asked: string) {
    match m
    case Md5 => Lower(asked) == "md5"
    case ScramSha256 => Lower(asked) in ["scram-sha-256", "scram_sha_256", "scramsha256"]
    case Other(name) => name == asked && Lower(asked) !in ["md5", "scram-sha-256", "scram_sha_256", "scramsha256"]
    case _ => false
  }

  /** Rule `k` is the first that is for the connection and is trust, reject or the method asked for. */
  ghost predicate Settles<Net, Ip>(rules: seq<Rule<Net>>, conn: Conn<Net, Ip>, asked: string, k: int) {
    && 0 <= k < |rules| && Applies(rules[k], conn, asked)
    && forall j :: 0 <= j < k ==> !Applies(rules[j], conn, asked)
  }

  predicate Applies<Net, Ip>(rule: Rule<Net>, conn: Conn<Net, Ip>, asked: string) {
    For(rule, conn) && (rule.auth.Trust? || rule.auth.Reject? || Names(rule.auth, asked))
  }

  // ---------------------------------------------------------------- the theorem

  lemma MatchesIffFor<Net, Ip>(rule: Rule<Net>, conn: Conn<Net, Ip>)
    ensures Matches(rule, conn) <==> For(rule, conn)
  {
    NameIs(rule.database, conn.database);
    NameIs(rule.user, conn.user);
    match rule.hostType
    case Local =>
    case Host =>
    case HostSSL =>
    case HostNoSSL =>
  }

  lemma NameIs(m: NameMatcher, name: string)
    ensures NameMatches(m, name) <==> m == All || m == Name(name)
  {
  }

  lemma WantedIffNames(m: AuthMethod, asked: string)
    ensures m == Wanted(asked) <==> Names(m, asked)
  {
    hide Lower;
  }

  lemma DecidesIffApplies<Net, Ip>(rule: Rule<Net>, conn: Conn<Net, Ip>, asked: string)
    ensures Decides(rule, conn, Wanted(asked)) <==> Applies(rule, conn, asked)
  {
    hide Matches, For, Wanted, Names;
    MatchesIffFor(rule, conn);
    WantedIffNames(rule.auth, asked);
  }

  /**
   For every rule list, connection and method name: the first rule that is for the connection and is trust, reject or of
   that method settles it, to Trust, Deny or Allow; without one, nothing matched.
   */
  lemma CheckHbaIs<Net, Ip>(rules: seq<Rule<Net>>, conn: Conn<Net, Ip>, asked: string)
    ensures var r := CheckHba(rules, conn, asked);
            && (r.Trusted? <==> exists k :: Settles(rules, conn, asked, k) && rules[k].auth.Trust?)
            && (r.Deny? <==> exists k :: Settles(rules, conn, asked, k) && rules[k].auth.Reject?)
            && (r.Allow? <==> exists k :: Settles(rules, conn, asked, k) && Names(rules[k].auth, asked))
            && (r.NotMatched? <==> forall j :: 0 <= j < |rules| ==> !Applies(rules[j], conn, asked))
  {
    hide Matches, For, Wanted, Names, Check, Decides, Applies;
    var want := Wanted(asked);
    WantedPlain(asked);
    forall j | 0 <= j < |rules| ensures Decides(rules[j], conn, want) <==> Applies(rules[j], conn, asked) {
      DecidesIffApplies(rules[j], conn, asked);
    }
    var k := FindFirst(rules, conn, want, 0);
    if First(rules, conn, want, 0, k) {
      FirstDecides(rules, conn, want, 0, k);
      assert Settles(rules, conn, asked, k);
      OnlyOne(rules, conn, asked, k);
      AppliedMethod(rules[k], conn, asked);
    }
  }

  lemma WantedPlain(asked: string)
    ensures !Wanted(asked).Trust? && !Wanted(asked).Reject?
  {
    hide Lower;
  }

  lemma OnlyOne<Net, Ip>(rules: seq<Rule<Net>>, conn: Conn<Net, Ip>, asked: string, k: int)
    requires Settles(rules, conn, asked, k)
    ensures forall j :: Settles(rules, conn, asked, j) ==> j == k
  {
    hide Applies;
  }

  lemma AppliedMethod<Net, Ip>(rule: Rule<Net>, conn: Conn<Net, Ip>, asked: string)
    requires Applies(rule, conn, asked)
    ensures rule.auth.Trust? || rule.auth.Reject? || Names(rule.auth, asked)
    ensures Names(rule.auth, asked) ==> !rule.auth.Trust? && !rule.auth.Reject?
  {
    hide For, Lower;
  }

  /** A list of one trust rule is Trusted exactly for the connections the rule is for. */
  lemma OneTrustRule<Net, Ip>(rule: Rule<Net>, conn: Conn<Net, Ip>, asked: string)
    requires rule.auth.Trust?
    ensures CheckHba([rule], conn, asked) == if For(rule, conn) then Trusted else NotMatched
  {
    hide Matches, For, Lower;
    MatchesIffFor(rule, conn);
    assert Check([rule], conn, Wanted(asked), 1) == NotMatched;
  }

  /** A login that is not Talos is trusted only by a trust rule for its connection with no reject rule for it before. */
  lemma TrustIsFor<Net, Ip>(rules: seq<Rule<Net>>, conn: Conn<Net, Ip>, password: string)
    requires Evaluate(password, false, CheckHba(rules, conn, "md5"), CheckHba(rules, conn, "scram-sha-256")) == Trusted
    ensures exists k :: 0 <= k < |rules| && For(rules[k], conn) && rules[k].auth.Trust?
                        && forall j :: 0 <= j < k ==> !(For(rules[j], conn) && rules[j].auth.Reject?)
  {
    hide Matches, For;
    forall j | 0 <= j < |rules| ensures Matches(rules[j], conn) <==> For(rules[j], conn) {
      MatchesIffFor(rules[j], conn);
    }
    TrustNeedsRule(rules, conn, password);
    var k: nat :| TrustedAt(rules, conn, k);
    assert For(rules[k], conn);
  }
}
