/** The runtime log filter (src/app/log_level.rs:18-199). */
module LogFilter {
  import opened Wire
  import opened TextOps

  /** Levels by their rank: off 0, error 1, warn 2, info 3, debug 4, trace 5; records have 1 to 5. */
  type Level = n: int | 0 <= n <= 5

  const INFO: Level := 3

  datatype Module = Module(prefix: string, level: Level)

  datatype Filter = Filter(base: Level, modules: seq<Module>)

  datatype Result<+T> = Ok(value: T) | Err | Panic {
    predicate IsFailure() { !Ok? }
    function PropagateFailure<U>(): Result<U>
      requires !Ok?
    {
      if Err? then Err else Panic
    }
    function Extract(): T
      requires Ok?
    {
      value
    }
  }

  // ---------------------------------------------------------------- lengths

  /** The bytes a character takes in UTF-8. */
  function Width(c: char): nat {
    if c < '\U{80}' then 1 else if c < '\U{800}' then 2 else if c < '\U{10000}' then 3 else 4
  }

  function ByteLen(s: string): nat {
    if s == "" then 0 else ByteLen(s[..|s| - 1]) + Width(s[|s| - 1])
  }

  const MAX_MODULE_LEN := 256

  /** The error message cuts the name after 64 bytes, which must not be inside a character. */
  predicate CutsAt64(s: string) {
    exists k :: 0 <= k <= |s| && ByteLen(s[..k]) == 64
  }

  // ---------------------------------------------------------------- levels

  function ParseLevel(s: string): Option<Level> {
    var t := Lower(s);
    if t == "error" then Some(1)
    else if t == "warn" || t == "warning" then Some(2)
    else if t == "info" then Some(3)
    else if t == "debug" then Some(4)
    else if t == "trace" then Some(5)
    else if t == "off" then Some(0)
    else None
  }

  function LevelStr(l: Level): string {
    if l == 0 then "off" else if l == 1 then "error" else if l == 2 then "warn"
    else if l == 3 then "info" else if l == 4 then "debug" else "trace"
  }

  // ---------------------------------------------------------------- the stable sort

  /** Insert behind everything that is at least as long. */
  function Insert(sorted: seq<Module>, m: Module): seq<Module> {
    if sorted == [] || ByteLen(sorted[|sorted| - 1].prefix) >= ByteLen(m.prefix) then sorted + [m]
    else Insert(sorted[..|sorted| - 1], m) + [sorted[|sorted| - 1]]
  }

  /** `sort_by` length, longest first; equal lengths keep their order. */
  function SortByLength(ms: seq<Module>): seq<Module> {
    if ms == [] then [] else Insert(SortByLength(ms[..|ms| - 1]), ms[|ms| - 1])
  }

  ghost predicate Sorted(ms: seq<Module>) {
    forall i, j :: 0 <= i < j < |ms| ==> ByteLen(ms[i].prefix) >= ByteLen(ms[j].prefix)
  }

  lemma {:induction false} InsertSorts(sorted: seq<Module>, m: Module)
    requires Sorted(sorted)
    ensures Sorted(Insert(sorted, m)) && multiset(Insert(sorted, m)) == multiset(sorted) + multiset{m}
  {
    hide ByteLen;
    if sorted != [] && ByteLen(sorted[|sorted| - 1].prefix) < ByteLen(m.prefix) {
      var n := |sorted| - 1;
      InsertSorts(sorted[..n], m);
      assert sorted == sorted[..n] + [sorted[n]];
      var r := Insert(sorted[..n], m);
      forall i | 0 <= i < |r| ensures ByteLen(r[i].prefix) >= ByteLen(sorted[n].prefix) {
        assert r[i] in multiset(r);
      }
    }
  }

  /** The modules of one length, in order. */
  function OfLength(ms: seq<Module>, len: nat): seq<Module> {
    if ms == [] then []
    else OfLength(ms[..|ms| - 1], len) + if ByteLen(ms[|ms| - 1].prefix) == len then [ms[|ms| - 1]] else []
  }

  lemma OfLengthAppend(ms: seq<Module>, m: Module, len: nat)
    ensures OfLength(ms + [m], len) == OfLength(ms, len) + if ByteLen(m.prefix) == len then [m] else []
  {
    hide ByteLen;
    assert (ms + [m])[..|ms|] == ms;
  }

  lemma {:induction false} InsertStable(sorted: seq<Module>, m: Module, len: nat)
    ensures OfLength(Insert(sorted, m), len) == OfLength(sorted, len) + if ByteLen(m.prefix) == len then [m] else []
  {
    hide ByteLen, OfLength;
    if sorted == [] || ByteLen(sorted[|sorted| - 1].prefix) >= ByteLen(m.prefix) {
      OfLengthAppend(sorted, m, len);
    } else {
      var n := |sorted| - 1;
      var init, last := sorted[..n], sorted[n];
      InsertStable(init, m, len);
      OfLengthAppend(Insert(init, m), last, len);
      OfLengthAppend(init, last, len);
      assert sorted == init + [last];
    }
  }

  /** The sort orders by length, loses nothing and keeps the order of equal lengths. */
  lemma {:induction false} SortIsStable(ms: seq<Module>, len: nat)
    ensures Sorted(SortByLength(ms)) && multiset(SortByLength(ms)) == multiset(ms)
    ensures OfLength(SortByLength(ms), len) == OfLength(ms, len)
  {
    hide ByteLen, Insert, Sorted, OfLength;
    if ms != [] {
      var init, last := ms[..|ms| - 1], ms[|ms| - 1];
      SortIsStable(init, len);
      InsertSorts(SortByLength(init), last);
      InsertStable(SortByLength(init), last, len);
      OfLengthAppend(init, last, len);
      assert ms == init + [last];
    } else {
      NothingOfLength(len);
      NothingSorted();
    }
  }

  lemma NothingOfLength(len: nat)
    ensures OfLength([], len) == []
  {
  }

  lemma NothingSorted()
    ensures Sorted([])
  {
  }

  /** A sorted list is left as it is. */
  lemma {:induction false} SortOfSorted(ms: seq<Module>)
    requires Sorted(ms)
    ensures SortByLength(ms) == ms
  {
    hide ByteLen;
    if ms != [] {
      SortOfSorted(ms[..|ms| - 1]);
    }
  }

  // ---------------------------------------------------------------- parser

  datatype Parts = Parts(base: Option<Level>, modules: seq<Module>)

  function ParsePart(acc: Parts, part: string): Result<Parts> {
    var p := Trim(part);
    if p == "" then Ok(acc)
    else
      match SplitOnce(p, '=')
      case Some((name, level)) =>
        var l := ParseLevel(Trim(level));
        var m := Trim(name);
        if l.None? then Err
        else if ByteLen(m) > MAX_MODULE_LEN then if CutsAt64(m) then Err else Panic
        else Ok(acc.(modules := acc.modules + [Module(m, l.value)]))
      case None =>
        var l := ParseLevel(p);
        if l.None? || acc.base.Some? then Err else Ok(acc.(base := Some(l.value)))
  }

  function ParseParts(parts: seq<string>, n: nat): Result<Parts>
    requires n <= |parts|
  {
    if n == 0 then Ok(Parts(None, []))
    else
      var acc :- ParseParts(parts, n - 1);
      ParsePart(acc, parts[n - 1])
  }

  function ParseFilter(s: string): Result<Filter> {
    var parts := Split(s, ',');
    var acc :- ParseParts(parts, |parts|);
    Ok(Filter(if acc.base.Some? then acc.base.value else INFO, SortByLength(acc.modules)))
  }

  method RunParseFilter(s: string) returns (r: Result<Filter>)
    ensures r == ParseFilter(s)
  {
    hide Split, Trim, ByteLen, CutsAt64, ParseLevel, SplitOnce, SortByLength;
    var base: Option<Level> := None;
    var modules: seq<Module> := [];
    var parts := Split(s, ',');
    var i := 0;
    while i < |parts|
      invariant 0 <= i <= |parts| && ParseParts(parts, i) == Ok(Parts(base, modules))
    {
      ghost var failed := !ParsePart(Parts(base, modules), parts[i]).Ok?;
      if failed { FailedPart(parts, i); }
      var part := Trim(parts[i]);
      if part != "" {
        var split := SplitOnce(part, '=');
        match split {
          case Some((name, levelStr)) =>
            var level := ParseLevel(Trim(levelStr));
            if level.None? { return Err; }
            var m := Trim(name);
            if ByteLen(m) > MAX_MODULE_LEN {
              if CutsAt64(m) { return Err; } else { return Panic; }
            }
            modules := modules + [Module(m, level.value)];
          case None =>
            var level := ParseLevel(part);
            if level.None? { return Err; }
            if base.Some? { return Err; }
            base := Some(level.value);
        }
      }
      i := i + 1;
    }
    r := Ok(Filter(if base.Some? then base.value else INFO, SortByLength(modules)));
  }

  /** The first part that fails is the answer. */
  lemma {:induction false} FailsFrom(parts: seq<string>, i: nat, n: nat)
    requires i < n <= |parts| && ParseParts(parts, i).Ok? && !ParsePart(ParseParts(parts, i).value, parts[i]).Ok?
    ensures ParseParts(parts, n) == ParseParts(parts, i + 1) && !ParseParts(parts, n).Ok?
  {
    hide ParsePart;
    if n > i + 1 {
      FailsFrom(parts, i, n - 1);
    }
  }

  lemma FailedPart(parts: seq<string>, i: nat)
    requires i < |parts| && ParseParts(parts, i).Ok? && !ParsePart(ParseParts(parts, i).value, parts[i]).Ok?
    ensures ParseParts(parts, |parts|) == ParseParts(parts, i + 1) && !ParseParts(parts, i + 1).Ok?
  {
    FailsFrom(parts, i, |parts|);
  }

  // ---------------------------------------------------------------- printer and round trip

  function PrintModule(m: Module): string { m.prefix + ['='] + LevelStr(m.level) }

  function DisplayParts(f: Filter): seq<string> {
    [LevelStr(f.base)] + seq(|f.modules|, i requires 0 <= i < |f.modules| => PrintModule(f.modules[i]))
  }

  /** `get_log_level`. */
  function Display(f: Filter): string { Join(DisplayParts(f), ',') }

  /** A module path as the parser lets it through. */
  ghost predicate Clean(m: Module) {
    ',' !in m.prefix && '=' !in m.prefix && Trim(m.prefix) == m.prefix && ByteLen(m.prefix) <= MAX_MODULE_LEN
  }

  ghost predicate AllClean(ms: seq<Module>) {
    forall i :: 0 <= i < |ms| ==> Clean(ms[i])
  }

  lemma LevelReads(l: Level)
    ensures ParseLevel(LevelStr(l)) == Some(l) && Lower(LevelStr(l)) == LevelStr(l) != ""
    ensures forall i :: 0 <= i < |LevelStr(l)| ==> 'a' <= LevelStr(l)[i] <= 'z'
    ensures Trim(LevelStr(l)) == LevelStr(l) && ',' !in LevelStr(l) && '=' !in LevelStr(l)
  {
    LowerKeeps(LevelStr(l));
    TrimNothing(LevelStr(l));
  }

  lemma BaseReads(l: Level)
    ensures ParsePart(Parts(None, []), LevelStr(l)) == Ok(Parts(Some(l), []))
  {
    hide ParseLevel, LevelStr, Trim;
    LevelReads(l);
  }

  /** A printed override is read as itself. */
  lemma ModuleReads(acc: Parts, m: Module)
    requires Clean(m)
    ensures ParsePart(acc, PrintModule(m)) == Ok(acc.(modules := acc.modules + [m])) && ',' !in PrintModule(m)
  {
    hide ParseLevel, LevelStr, Trim, ByteLen, IsWhitespace, SplitOnce;
    LevelReads(m.level);
    PrintedEnds(m);
    TrimNothing(PrintModule(m));
    SplitAt(m.prefix, '=', LevelStr(m.level));
  }

  lemma PrintedEnds(m: Module)
    requires Clean(m)
    ensures var s := PrintModule(m); s != "" && !IsWhitespace(s[0]) && !IsWhitespace(s[|s| - 1])
  {
    hide ParseLevel, LevelStr, Trim, ByteLen;
    LevelReads(m.level);
    TrimEnds(m.prefix);
    var s, l := PrintModule(m), LevelStr(m.level);
    assert s[|s| - 1] == l[|l| - 1];
    assert s[0] == if m.prefix == "" then '=' else m.prefix[0];
  }

  lemma {:induction false} PartsRead(f: Filter, n: nat)
    requires AllClean(f.modules) && 1 <= n <= |f.modules| + 1
    ensures ParseParts(DisplayParts(f), n) == Ok(Parts(Some(f.base), f.modules[..n - 1]))
  {
    hide ParsePart, PrintModule, LevelStr, Clean;
    var parts := DisplayParts(f);
    if n == 1 {
      assert ParseParts(parts, 0) == Ok(Parts(None, []));
      BaseReads(f.base);
    } else {
      PartsRead(f, n - 1);
      var m := f.modules[n - 2];
      assert parts[n - 1] == PrintModule(m);
      ModuleReads(Parts(Some(f.base), f.modules[..n - 2]), m);
      assert f.modules[..n - 2] + [m] == f.modules[..n - 1];
    }
  }

  lemma DisplaySplits(f: Filter)
    requires AllClean(f.modules)
    ensures Split(Display(f), ',') == DisplayParts(f)
  {
    hide PrintModule, LevelStr, Clean, Split, Join, ParsePart;
    var parts := DisplayParts(f);
    forall i | 0 <= i < |parts| ensures ',' !in parts[i] {
      if i == 0 {
        LevelReads(f.base);
      } else {
        ModuleReads(Parts(None, []), f.modules[i - 1]);
      }
    }
    SplitJoin(parts, ',');
  }

  /** A clean, sorted filter comes back from its display. */
  lemma DisplayReads(f: Filter)
    requires AllClean(f.modules) && Sorted(f.modules)
    ensures ParseFilter(Display(f)) == Ok(f)
  {
    hide Display, DisplayParts, Split, ParseParts, SortByLength, AllClean;
    DisplaySplits(f);
    PartsRead(f, |f.modules| + 1);
    SortOfSorted(f.modules);
    PartsCount(f);
    assert f.modules[..|f.modules|] == f.modules;
  }

  lemma PartsCount(f: Filter)
    ensures |DisplayParts(f)| == |f.modules| + 1
  {
  }

  // ---------------------------------------------------------------- what the parser accepts

  lemma {:induction false} PartsClean(parts: seq<string>, n: nat)
    requires n <= |parts| && ParseParts(parts, n).Ok? && forall i :: 0 <= i < |parts| ==> ',' !in parts[i]
    ensures AllClean(ParseParts(parts, n).value.modules)
  {
    hide ParsePart, Clean;
    if n > 0 {
      PartsClean(parts, n - 1);
      PartClean(ParseParts(parts, n - 1).value, parts[n - 1]);
    }
  }

  lemma PartClean(acc: Parts, part: string)
    requires AllClean(acc.modules) && ParsePart(acc, part).Ok? && ',' !in part
    ensures AllClean(ParsePart(acc, part).value.modules)
  {
    hide ParseLevel, Trim, ByteLen, CutsAt64;
    var p := Trim(part);
    TrimPart(part);
    if p != "" && '=' in p {
      var name := p[..IndexOf(p, '=')];
      TrimPart(name);
      TrimEnds(name);
      TrimNothing(Trim(name));
    }
  }

  lemma TrimPart(s: string)
    ensures forall c :: c in Trim(s) ==> c in s
  {
    hide TrimStart, TrimEnd;
    TrimStartPart(s);
    TrimEndPart(TrimStart(s));
  }

  /** Every accepted filter is clean and sorted. */
  lemma AcceptedIsClean(s: string)
    requires ParseFilter(s).Ok?
    ensures AllClean(ParseFilter(s).value.modules) && Sorted(ParseFilter(s).value.modules)
  {
    hide Split, ParseParts, SortByLength, Sorted, Clean;
    var parts := Split(s, ',');
    SplitHasNone(s, ',');
    PartsClean(parts, |parts|);
    var ms := ParseParts(parts, |parts|).value.modules;
    SortIsStable(ms, 0);
    forall i | 0 <= i < |SortByLength(ms)| ensures Clean(SortByLength(ms)[i]) {
      assert SortByLength(ms)[i] in multiset(SortByLength(ms));
    }
  }

  /** Re-parsing the display of every accepted filter gives the same base level and the same overrides in order. */
  lemma FilterRoundTrip(s: string)
    requires ParseFilter(s).Ok?
    ensures ParseFilter(Display(ParseFilter(s).value)) == ParseFilter(s)
  {
    hide ParseFilter, Display, AllClean, Sorted;
    AcceptedIsClean(s);
    DisplayReads(ParseFilter(s).value);
  }
}
