/** pg_hba rules: first-match evaluation (src/auth/hba.rs:18-103, 360-410) and what logins make of it (src/auth/mod.rs:166-212). */
module Hba {
  import opened Wire
  import opened TextOps

  datatype AuthMethod = Trust | Md5 | ScramSha256 | Reject | Other(name: string)

  datatype NameMatcher = All | Name(name: string)

  datatype HostType = Local | Host | HostSSL | HostNoSSL

  datatype Rule<Net> = Rule(hostType: HostType, database: NameMatcher, user: NameMatcher, address: Option<Net>, auth: AuthMethod)

  datatype CheckResult = NotMatched | Deny | Allow | Trusted

  datatype Transport<Ip> = Tcp(ip: Ip, ssl: bool) | Unix

  /** A connection as the rules see it; `contains` is the network test of the address library. */
  datatype Conn<!Net, !Ip> = Conn(transport: Transport<Ip>, user: string, database: string, contains: (Net, Ip) -> bool)

  predicate NameMatches(m: NameMatcher, value: string) {
    m.All? || m.name == value
  }

  predicate MatchesSsl(t: HostType, ssl: bool) {
    match t
    case HostSSL => ssl
    case HostNoSSL => !ssl
    case _ => true
  }

  predicate Matches<Net, Ip>(rule: Rule<Net>, conn: Conn<Net, Ip>) {
    && (if rule.hostType.Local? then conn.transport.Unix?
        else && conn.transport.Tcp? && MatchesSsl(rule.hostType, conn.transport.ssl)
             && (rule.address.Some? ==> conn.contains(rule.address.value, conn.transport.ip)))
    && NameMatches(rule.database, conn.database) && NameMatches(rule.user, conn.user)
  }

  /** The method a client asks for. */
  function Wanted(typeAuth: string): AuthMethod {
    var t := Lower(typeAuth);
    if t == "md5" then Md5
    else if t == "scram-sha-256" || t == "scram_sha_256" || t == "scramsha256" then ScramSha256
    else Other(typeAuth)
  }

  /** `check_hba` from rule `i` on. */
  function Check<Net, Ip>(rules: seq<Rule<Net>>, conn: Conn<Net, Ip>, want: AuthMethod, i: nat): CheckResult
    requires i <= |rules|
    decreases |rules| - i
  {
    if i == |rules| then NotMatched
    else if !Matches(rules[i], conn) then Check(rules, conn, want, i + 1)
    else if rules[i].auth.Trust? then Trusted
    else if rules[i].auth == want then Allow
    else if rules[i].auth.Reject? then Deny
    else Check(rules, conn, want, i + 1)
  }

  /** `check_hba`: the scan of all rules for the method a client asks for by name. */
  function CheckHba<Net, Ip>(rules: seq<Rule<Net>>, conn: Conn<Net, Ip>, typeAuth: string): CheckResult {
    Check(rules, conn, Wanted(typeAuth), 0)
  }

  // ---------------------------------------------------------------- what the scan finds

  predicate Decides<Net, Ip>(rule: Rule<Net>, conn: Conn<Net, Ip>, want: AuthMethod) {
    Matches(rule, conn) && (rule.auth.Trust? || rule.auth.Reject? || rule.auth == want)
  }

  /** Rule `k` is the first from `i` on that decides. */
  ghost predicate First<Net, Ip>(rules: seq<Rule<Net>>, conn: Conn<Net, Ip>, want: AuthMethod, i: nat, k: int) {
    && i <= k < |rules| && Decides(rules[k], conn, want)
    && forall j :: i <= j < k ==> !Decides(rules[j], conn, want)
  }

  function Verdict(m: AuthMethod): CheckResult {
    match m
    case Trust => Trusted
    case Reject => Deny
    case _ => Allow
  }

  /** The first deciding rule gives the result. */
  lemma {:induction false} FirstDecides<Net, Ip>(rules: seq<Rule<Net>>, conn: Conn<Net, Ip>, want: AuthMethod, i: nat, k: nat)
    requires !want.Trust? && !want.Reject? && First(rules, conn, want, i, k)
    ensures Check(rules, conn, want, i) == Verdict(rules[k].auth)
    decreases k - i
  {
    hide Matches;
    if i < k {
      assert !Decides(rules[i], conn, want);
      FirstDecides(rules, conn, want, i + 1, k);
    }
  }

  /** Some rule is the first to decide, or none decides and nothing matched. */
  lemma {:induction false} FindFirst<Net, Ip>(rules: seq<Rule<Net>>, conn: Conn<Net, Ip>, want: AuthMethod, i: nat) returns (k: nat)
    requires i <= |rules| && !want.Trust? && !want.Reject?
    ensures First(rules, conn, want, i, k) ||
            (Check(rules, conn, want, i) == NotMatched && forall j :: i <= j < |rules| ==> !Decides(rules[j], conn, want))
    decreases |rules| - i
  {
    hide Matches;
    if i == |rules| || Decides(rules[i], conn, want) {
      k := i;
    } else {
      k := FindFirst(rules, conn, want, i + 1);
    }
  }

  /** The two decisions of one client never contradict each other. */
  predicate Coherent(a: CheckResult, b: CheckResult) {
    && !(a.Trusted? && b.Deny?) && !(a.Deny? && b.Trusted?)
    && (a.Trusted? || a.Deny? ==> !b.NotMatched?) && (b.Trusted? || b.Deny? ==> !a.NotMatched?)
  }

  lemma {:induction false} Coherence<Net, Ip>(rules: seq<Rule<Net>>, conn: Conn<Net, Ip>, a: AuthMethod, b: AuthMethod, i: nat)
    requires i <= |rules| && !a.Trust? && !a.Reject? && !b.Trust? && !b.Reject?
    ensures Coherent(Check(rules, conn, a, i), Check(rules, conn, b, i))
    decreases |rules| - i
  {
    if i < |rules| {
      Coherence(rules, conn, a, b, i + 1);
    }
  }

  // ---------------------------------------------------------------- logins

  const SCRAM_SHA_256 := "SCRAM-SHA-256"
  const MD5_PASSWORD_PREFIX := "md5"

  /** `eval_hba_for_pool_password`. */
  function Evaluate(password: string, talos: bool, md5: CheckResult, scram: CheckResult): CheckResult {
    if talos then Allow
    else if password == "" && (md5.Trusted? || scram.Trusted?) then Trusted
    else if SCRAM_SHA_256 <= password then
      if scram.Trusted? || (scram.NotMatched? && md5.Trusted?) then Trusted
      else if scram.Deny? || (scram.NotMatched? && (md5.Deny? || md5.NotMatched?)) then Deny
      else Allow
    else if MD5_PASSWORD_PREFIX <= password then
      if md5.Trusted? then Trusted
      else if md5.NotMatched? || md5.Deny? then Deny
      else Allow
    else Allow
  }

  /**
   * What a login comes to, once the two decisions belong to one client: the scan for the method of the stored password
   * decides; without a deciding rule the login is denied, except that a SCRAM password may still be asked for under an
   * md5 rule. Logins of other kinds, and those of Talos, go on to their own check.
   */
  lemma LoginFollowsScan<Net, Ip>(rules: seq<Rule<Net>>, conn: Conn<Net, Ip>, password: string, talos: bool)
    ensures var md5, scram := CheckHba(rules, conn, "md5"), CheckHba(rules, conn, "scram-sha-256");
            Evaluate(password, talos, md5, scram)
              == if talos then Allow
                 else if password == "" then if md5.Trusted? || scram.Trusted? then Trusted else Allow
                 else if "SCRAM-SHA-256" <= password then
                   if !scram.NotMatched? then scram else if md5.Allow? then Allow else Deny
                 else if "md5" <= password then if md5.NotMatched? then Deny else md5
                 else Allow
  {
    Coherence(rules, conn, Md5, ScramSha256, 0);
  }

  /** A matching trust rule with no matching reject rule before it. */
  ghost predicate TrustedAt<Net, Ip>(rules: seq<Rule<Net>>, conn: Conn<Net, Ip>, k: nat) {
    && k < |rules| && Matches(rules[k], conn) && rules[k].auth.Trust?
    && forall j :: 0 <= j < k ==> !(Matches(rules[j], conn) && rules[j].auth.Reject?)
  }

  /** A login that is not Talos is trusted only by such a rule. */
  lemma TrustNeedsRule<Net, Ip>(rules: seq<Rule<Net>>, conn: Conn<Net, Ip>, password: string)
    requires Evaluate(password, false, Check(rules, conn, Md5, 0), Check(rules, conn, ScramSha256, 0)) == Trusted
    ensures exists k :: TrustedAt(rules, conn, k)
  {
    var want := if Check(rules, conn, Md5, 0) == Trusted then Md5 else ScramSha256;
    var k := FindFirst(rules, conn, want, 0);
    FirstDecides(rules, conn, want, 0, k);
    assert TrustedAt(rules, conn, k);
  }

  /** In the other direction: with such a rule first among all that match, every kind of password evaluates to Trust. */
  lemma FirstTrustIsTrusted<Net, Ip>(rules: seq<Rule<Net>>, conn: Conn<Net, Ip>, password: string, k: nat)
    requires TrustedAt(rules, conn, k) && forall j :: 0 <= j < k ==> !Matches(rules[j], conn)
    requires password == "" || "SCRAM-SHA-256" <= password || "md5" <= password
    ensures Evaluate(password, false, Check(rules, conn, Md5, 0), Check(rules, conn, ScramSha256, 0)) == Trusted
  {
    FirstDecides(rules, conn, Md5, 0, k);
    FirstDecides(rules, conn, ScramSha256, 0, k);
  }
}
