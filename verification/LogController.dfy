/** The log level controller: what it lets through, and what setting and showing its filter do (src/app/log_level.rs:18-137). */
module LogController {
  import opened Wire
  import opened TextOps
  import opened LogFilter

  // ---------------------------------------------------------------- enabled

  /** The level of the first override from `i` on whose prefix matches. */
  function FirstMatch(ms: seq<Module>, target: string, i: nat): Option<Level>
    requires i <= |ms|
    decreases |ms| - i
  {
    if i == |ms| then None
    else if ms[i].prefix <= target then Some(ms[i].level)
    else FirstMatch(ms, target, i + 1)
  }

  /** `enabled` for a record of a level and a target. */
  predicate Enabled(f: Filter, level: Level, target: string) {
    level <= f.base || (FirstMatch(f.modules, target, 0).Some? && level <= FirstMatch(f.modules, target, 0).value)
  }

  method IsEnabled(f: Filter, level: Level, target: string) returns (r: bool)
    ensures r == Enabled(f, level, target)
  {
    if level <= f.base { return true; }
    if |f.modules| == 0 { return false; }
    var i := 0;
    while i < |f.modules|
      invariant 0 <= i <= |f.modules| && FirstMatch(f.modules, target, 0) == FirstMatch(f.modules, target, i)
    {
      if f.modules[i].prefix <= target { return level <= f.modules[i].level; }
      i := i + 1;
    }
    r := false;
  }

  /** Override `i` matches, no longer one does, and it is the first of its length that does. */
  ghost predicate Longest(ms: seq<Module>, target: string, i: int) {
    && 0 <= i < |ms| && ms[i].prefix <= target
    && (forall j :: 0 <= j < |ms| && ms[j].prefix <= target ==> |ms[j].prefix| <= |ms[i].prefix|)
    && (forall j :: 0 <= j < i && ms[j].prefix <= target ==> |ms[j].prefix| < |ms[i].prefix|)
  }

  /** Of two prefixes of one target the longer in bytes is the longer in characters. */
  lemma {:induction false} PrefixLength(a: string, b: string)
    requires a <= b
    ensures ByteLen(a) <= ByteLen(b) && (ByteLen(a) == ByteLen(b) ==> a == b)
    decreases |b|
  {
    if |a| < |b| {
      PrefixLength(a, b[..|b| - 1]);
    } else {
      assert a == b;
    }
  }

  lemma PrefixesOfOne(a: string, b: string, target: string)
    requires a <= target && b <= target && ByteLen(a) >= ByteLen(b)
    ensures |a| >= |b|
  {
    if |a| < |b| {
      assert a <= b;
      PrefixLength(a, b);
    }
  }

  lemma {:induction false} FirstMatchFound(ms: seq<Module>, target: string, i: nat) returns (k: nat)
    requires i <= |ms| && forall j :: 0 <= j < i ==> !(ms[j].prefix <= target)
    ensures k <= |ms| && forall j :: 0 <= j < k ==> !(ms[j].prefix <= target)
    ensures if k == |ms| then FirstMatch(ms, target, i).None? else ms[k].prefix <= target && FirstMatch(ms, target, i) == Some(ms[k].level)
    decreases |ms| - i
  {
    if i == |ms| || ms[i].prefix <= target {
      k := i;
    } else {
      k := FirstMatchFound(ms, target, i + 1);
    }
  }

  /** Under a sorted filter a record is enabled exactly when the base level or the longest matching prefix allows it. */
  lemma EnabledIff(f: Filter, level: Level, target: string)
    requires Sorted(f.modules)
    ensures Enabled(f, level, target) <==>
              level <= f.base || exists i :: Longest(f.modules, target, i) && level <= f.modules[i].level
  {
    hide ByteLen;
    var ms := f.modules;
    var k := FirstMatchFound(ms, target, 0);
    if k < |ms| {
      forall j | 0 <= j < |ms| && ms[j].prefix <= target ensures |ms[j].prefix| <= |ms[k].prefix| {
        if k < j {
          PrefixesOfOne(ms[k].prefix, ms[j].prefix, target);
        }
      }
      assert Longest(ms, target, k);
      forall i | Longest(ms, target, i) ensures i == k {}
    }
  }

  // ---------------------------------------------------------------- the global maximum

  function Max(a: Level, b: Level): Level { if a < b then b else a }

  function MaxLevel(base: Level, ms: seq<Module>): Level {
    if ms == [] then base else Max(MaxLevel(base, ms[..|ms| - 1]), ms[|ms| - 1].level)
  }

  lemma {:induction false} MaxCovers(base: Level, ms: seq<Module>)
    ensures base <= MaxLevel(base, ms) && forall i :: 0 <= i < |ms| ==> ms[i].level <= MaxLevel(base, ms)
  {
    if ms != [] {
      MaxCovers(base, ms[..|ms| - 1]);
    }
  }

  /** The maximum is a level that is in use. */
  lemma {:induction false} MaxIsUsed(base: Level, ms: seq<Module>)
    ensures MaxLevel(base, ms) == base || exists i :: 0 <= i < |ms| && MaxLevel(base, ms) == ms[i].level
  {
    if ms != [] {
      var n := |ms| - 1;
      MaxIsUsed(base, ms[..n]);
      if MaxLevel(base, ms) != ms[n].level && MaxLevel(base, ms) != base {
        var i :| 0 <= i < n && MaxLevel(base, ms[..n]) == ms[..n][i].level;
        assert ms[i].level == MaxLevel(base, ms);
      }
    }
  }

  /** The global maximum blocks no enabled record. */
  lemma MaxNeverBlocks(f: Filter, level: Level, target: string)
    requires Enabled(f, level, target)
    ensures level <= MaxLevel(f.base, f.modules)
  {
    var k := FirstMatchFound(f.modules, target, 0);
    MaxCovers(f.base, f.modules);
  }

  // ---------------------------------------------------------------- set and get

  function TrimChar(s: string, c: char): string { TrimCharEnd(TrimCharStart(s, c), c) }

  function TrimCharStart(s: string, c: char): string {
    if s != "" && s[0] == c then TrimCharStart(s[1..], c) else s
  }

  function TrimCharEnd(s: string, c: char): string {
    if s != "" && s[|s| - 1] == c then TrimCharEnd(s[..|s| - 1], c) else s
  }

  function Unquoted(s: string): string { TrimChar(TrimChar(Trim(s), '\''), '"') }

  /** The filter that `set_log_level` puts in place. */
  function SetTo(startup: Level, s: string): Result<Filter> {
    if Lower(Unquoted(s)) == "default" then Ok(Filter(startup, [])) else ParseFilter(Unquoted(s))
  }

  /** A text that neither whitespace nor quotes enclose. */
  predicate Bare(s: string) {
    s != "" && !Enclosing(s[0]) && !Enclosing(s[|s| - 1])
  }

  predicate Enclosing(c: char) { IsWhitespace(c) || c == '\'' || c == '"' }

  lemma TrimCharOff(s: string, c: char, d: char)
    requires s != "" && s[0] != c && s[|s| - 1] != c
    ensures TrimChar([d] + s + [d], c) == if d == c then s else [d] + s + [d]
    ensures TrimChar(s, c) == s
  {
    var t := [d] + s + [d];
    if d == c {
      assert t[1..] == s + [d];
      assert TrimCharStart(t, c) == s + [d];
      assert (s + [d])[..|s|] == s;
      assert TrimCharEnd(s + [d], c) == TrimCharEnd(s, c);
    } else {
      assert t[0] == d && t[|t| - 1] == d;
    }
  }

  /** Setting a level in single or double quotes, or with a space on each side, is setting it without. */
  lemma EnclosedSet(startup: Level, s: string, c: char)
    requires Bare(s) && c in {' ', '\'', '"'}
    ensures SetTo(startup, [c] + s + [c]) == SetTo(startup, s)
  {
    hide Lower, ParseFilter, TrimChar, Trim;
    UnquotedBare(s);
    UnquotedEnclosed(s, c);
  }

  lemma UnquotedBare(s: string)
    requires Bare(s)
    ensures Unquoted(s) == s
  {
    hide TrimChar, Trim, IsWhitespace;
    TrimNothing(s);
    TrimCharOff(s, '\'', ' ');
    TrimCharOff(s, '"', ' ');
  }

  lemma UnquotedEnclosed(s: string, c: char)
    requires Bare(s) && c in {' ', '\'', '"'}
    ensures Unquoted([c] + s + [c]) == s
  {
    hide TrimChar, Trim;
    UnquotedBare(s);
    var t := [c] + s + [c];
    if c == ' ' {
      SpaceOff(s);
      TrimNothing(s);
    } else {
      TrimNothing(t);
      TrimCharOff(s, '\'', c);
      TrimCharOff(s, '"', c);
    }
  }

  lemma SpaceOff(s: string)
    requires Bare(s)
    ensures Trim([' '] + s + [' ']) == s
  {
    hide IsWhitespace;
    var t := [' '] + s + [' '];
    assert IsWhitespace(' ') by { SpaceIsWhite(); }
    assert t[1..] == s + [' '];
    assert TrimStart(t) == s + [' '];
    assert (s + [' '])[..|s|] == s;
    assert TrimEnd(s + [' ']) == TrimEnd(s);
  }

  lemma SpaceIsWhite()
    ensures IsWhitespace(' ')
  {
  }

  class Controller {
    const startup: Level
    var base: Level
    var modules: seq<Module>
    /** `log::max_level()`. */
    var maxLevel: Level

    function View(): Filter
      reads this
    {
      Filter(base, modules)
    }

    ghost predicate Valid()
      reads this
    {
      AllClean(modules) && Sorted(modules) && maxLevel == MaxLevel(base, modules)
    }

    constructor (startup: Level)
      ensures Valid() && this.startup == startup && View() == Filter(startup, [])
    {
      this.startup, base, modules, maxLevel := startup, startup, [], startup;
    }

    method SetLogLevel(s: string) returns (r: Result<()>)
      requires Valid()
      modifies this
      ensures Valid()
      ensures var spec := SetTo(startup, s);
              if spec.Ok? then r == Ok(()) && View() == spec.value else !r.Ok? && View() == old(View())
    {
      hide ParseFilter, Unquoted, Lower, AllClean, Sorted;
      var filter := Unquoted(s);
      if Lower(filter) == "default" {
        base, modules, maxLevel := startup, [], startup;
        EmptyIsValid();
        return Ok(());
      }
      var parsed :- RunParseFilter(filter);
      AcceptedIsClean(filter);
      var max := parsed.base;
      var i := 0;
      while i < |parsed.modules|
        invariant 0 <= i <= |parsed.modules| && max == MaxLevel(parsed.base, parsed.modules[..i])
      {
        assert parsed.modules[..i + 1][..i] == parsed.modules[..i];
        max := Max(max, parsed.modules[i].level);
        i := i + 1;
      }
      assert parsed.modules[..i] == parsed.modules;
      base, modules, maxLevel := parsed.base, parsed.modules, max;
      r := Ok(());
    }

    /** A record goes through the global maximum first, which never changes the outcome. */
    method Logs(level: Level, target: string) returns (r: bool)
      requires Valid()
      ensures r == Enabled(View(), level, target)
    {
      if level > maxLevel {
        assert !Enabled(View(), level, target) by {
          if Enabled(View(), level, target) {
            MaxNeverBlocks(View(), level, target);
          }
        }
        return false;
      }
      r := IsEnabled(View(), level, target);
    }

    method GetLogLevel() returns (s: string)
      ensures s == Display(View())
    {
      hide LevelStr, PrintModule;
      if |modules| == 0 {
        assert DisplayParts(View()) == [LevelStr(base)];
        return LevelStr(base);
      }
      var parts := [LevelStr(base)];
      var i := 0;
      while i < |modules|
        invariant 0 <= i <= |modules| && parts == DisplayParts(View())[..i + 1]
      {
        parts := parts + [PrintModule(modules[i])];
        i := i + 1;
      }
      assert DisplayParts(View())[..i + 1] == DisplayParts(View());
      s := Join(parts, ',');
    }
  }

  lemma EmptyIsValid()
    ensures AllClean([]) && Sorted([])
  {
  }

  // ---------------------------------------------------------------- setting what is shown

  lemma {:induction false} DisplayEnds(parts: seq<string>)
    requires |parts| > 0 && forall i :: 0 <= i < |parts| ==> parts[i] != ""
    ensures var s := Join(parts, ',');
            s != "" && s[0] == parts[0][0] && s[|s| - 1] == parts[|parts| - 1][|parts[|parts| - 1]| - 1]
  {
    if |parts| > 1 {
      DisplayEnds(parts[1..]);
    }
  }

  /** What is shown begins and ends with a letter of a level, so nothing is trimmed from it. */
  lemma ShownIsBare(f: Filter)
    ensures Unquoted(Display(f)) == Display(f)
  {
    hide LevelStr, ParseLevel, Join, IsWhitespace;
    var parts := DisplayParts(f);
    LevelReads(f.base);
    var last := if |f.modules| == 0 then f.base else f.modules[|f.modules| - 1].level;
    LevelReads(last);
    forall i | 0 <= i < |parts| ensures parts[i] != "" {}
    DisplayEnds(parts);
    var s, l := Display(f), LevelStr(last);
    assert s[|s| - 1] == l[|l| - 1];
    Letters(s[0]);
    Letters(s[|s| - 1]);
    TrimNothing(s);
  }

  lemma Letters(c: char)
    requires 'a' <= c <= 'z'
    ensures !IsWhitespace(c)
  {
  }

  lemma NotDefault(f: Filter)
    requires AllClean(f.modules) && Sorted(f.modules)
    ensures Lower(Display(f)) != "default"
  {
    hide ParseLevel, AllClean, Sorted, Lower;
    LowerKeeps(Display(f));
    DisplayReads(f);
    if Lower(Display(f)) == "default" {
      LowerIdempotent(Display(f));
      DefaultIsNoLevel(Display(f));
    }
  }

  lemma LowerIdempotent(s: string)
    ensures Lower(Lower(s)) == Lower(s)
  {
  }

  /** "default" in any case is no filter. */
  lemma DefaultIsNoLevel(s: string)
    requires Lower(s) == "default"
    ensures !ParseFilter(s).Ok?
  {
    hide SplitOnce, SortByLength;
    var d := "default";
    assert forall i :: 0 <= i < |d| ==> 'a' <= d[i] <= 'z';
    OnlyLetters(s, d);
    assert Split(s, ',') == [s];
    TrimNothing(s);
    NoEquals(s);
    assert ParseLevel(s).None?;
    assert ParsePart(Parts(None, []), s) == Err;
    assert ParseParts([s], 1) == ParsePart(Parts(None, []), s);
  }

  lemma NoEquals(s: string)
    requires '=' !in s
    ensures SplitOnce(s, '=').None?
  {
  }

  lemma OnlyLetters(s: string, d: string)
    requires s != "" && Lower(s) == d && forall i :: 0 <= i < |d| ==> 'a' <= d[i] <= 'z'
    ensures ',' !in s && '=' !in s && !IsWhitespace(s[0]) && !IsWhitespace(s[|s| - 1])
  {
    forall i | 0 <= i < |s| ensures 'a' <= s[i] <= 'z' || 'A' <= s[i] <= 'Z' {
      assert Lower(s)[i] == d[i];
    }
  }

  /** In every state a controller can reach, setting what is shown changes nothing. */
  lemma SetOfGet(startup: Level, f: Filter)
    requires AllClean(f.modules) && Sorted(f.modules)
    ensures SetTo(startup, Display(f)) == Ok(f)
  {
    hide Display, Unquoted, Lower, ParseFilter, AllClean, Sorted;
    ShownIsBare(f);
    NotDefault(f);
    DisplayReads(f);
  }
}
