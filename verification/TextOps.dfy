/** The string operations of the standard library that the parsers use. */
module TextOps {
  import opened Wire

  // ---------------------------------------------------------------- splitting

  /** `split(c)`: the parts between the separators, at least one. */
  function Split(s: string, c: char): (parts: seq<string>)
    ensures |parts| >= 1
  {
    if c !in s then [s]
    else
      var i := IndexOf(s, c);
      [s[..i]] + Split(s[i + 1..], c)
  }

  function IndexOf(s: string, c: char): (i: nat)
    requires c in s
    ensures i < |s| && s[i] == c && c !in s[..i]
  {
    if s[0] == c then 0 else
      var i := 1 + IndexOf(s[1..], c);
      assert s[..i] == [s[0]] + s[1..][..i - 1];
      i
  }

  function LastIndexOf(s: string, c: char): (i: nat)
    requires c in s
    ensures i < |s| && s[i] == c && c !in s[i + 1..]
  {
    var n := |s| - 1;
    if s[n] == c then n else
      var i := LastIndexOf(s[..n], c);
      assert s[i + 1..] == s[..n][i + 1..] + [s[n]];
      i
  }

  function SplitOnce(s: string, c: char): Option<(string, string)> {
    if c in s then var i := IndexOf(s, c); Some((s[..i], s[i + 1..])) else None
  }

  function RSplitOnce(s: string, c: char): Option<(string, string)> {
    if c in s then var i := LastIndexOf(s, c); Some((s[..i], s[i + 1..])) else None
  }

  function Join(parts: seq<string>, c: char): string {
    if |parts| == 0 then "" else if |parts| == 1 then parts[0] else parts[0] + [c] + Join(parts[1..], c)
  }

  /** Two parts with a comma between them. */
  function Comma(a: string, b: string): string { a + [','] + b }

  /** A value under a key of one letter. */
  function Keyed(key: char, value: string): string { [key, '='] + value }

  lemma CommaAssoc(a: string, b: string, d: string)
    ensures Comma(Comma(a, b), d) == Comma(a, Comma(b, d))
  {
  }

  lemma SplitAt(a: string, c: char, b: string)
    requires c !in a
    ensures Split(a + [c] + b, c) == [a] + Split(b, c) && SplitOnce(a + [c] + b, c) == Some((a, b))
  {
    var s := a + [c] + b;
    assert s[|a|] == c;
    var i := IndexOf(s, c);
    assert s[..i] == a && s[i + 1..] == b;
  }

  lemma RSplitAt(a: string, c: char, b: string)
    requires c !in b
    ensures RSplitOnce(a + [c] + b, c) == Some((a, b))
  {
    var s := a + [c] + b;
    assert s[|a|] == c;
    var i := LastIndexOf(s, c);
    assert s[..i] == a && s[i + 1..] == b;
  }

  /** Splitting and joining with the same separator gives the text back. */
  lemma {:induction false} JoinSplit(s: string, c: char)
    ensures Join(Split(s, c), c) == s
  {
    if c in s {
      var i := IndexOf(s, c);
      JoinSplit(s[i + 1..], c);
      assert Split(s, c)[1..] == Split(s[i + 1..], c);
      assert s == s[..i] + [c] + s[i + 1..];
    }
  }

  /** Joining parts without the separator and splitting again. */
  lemma {:induction false} SplitJoin(parts: seq<string>, c: char)
    requires |parts| > 0 && forall i :: 0 <= i < |parts| ==> c !in parts[i]
    ensures Split(Join(parts, c), c) == parts
  {
    if |parts| > 1 {
      hide Split, SplitOnce;
      SplitJoin(parts[1..], c);
      assert Join(parts, c) == parts[0] + [c] + Join(parts[1..], c);
      SplitAt(parts[0], c, Join(parts[1..], c));
    }
  }

  /** No part holds the separator. */
  lemma {:induction false} SplitHasNone(s: string, c: char)
    ensures forall i :: 0 <= i < |Split(s, c)| ==> c !in Split(s, c)[i]
  {
    if c in s {
      SplitHasNone(s[IndexOf(s, c) + 1..], c);
    }
  }

  // ---------------------------------------------------------------- str::replace with nothing

  /** `replace("ab", "")` for a pattern of two chars. */
  function Erase(s: string, a: char, b: char): string {
    if |s| < 2 then s
    else if s[0] == a && s[1] == b then Erase(s[2..], a, b)
    else [s[0]] + Erase(s[1..], a, b)
  }

  predicate Contains(s: string, a: char, b: char) {
    exists i :: 0 <= i < |s| - 1 && s[i] == a && s[i + 1] == b
  }

  /** Erasing leaves a text as it is exactly when the pattern does not occur. */
  lemma {:induction false} EraseIff(s: string, a: char, b: char)
    ensures |Erase(s, a, b)| <= |s|
    ensures Erase(s, a, b) == s <==> !Contains(s, a, b)
    ensures Contains(s, a, b) ==> |Erase(s, a, b)| < |s|
    ensures forall c :: c in Erase(s, a, b) ==> c in s
  {
    if |s| >= 2 {
      if s[0] == a && s[1] == b {
        EraseIff(s[2..], a, b);
      } else {
        EraseIff(s[1..], a, b);
        if Contains(s, a, b) {
          var i :| 0 <= i < |s| - 1 && s[i] == a && s[i + 1] == b;
          assert s[1..][i - 1] == a && s[1..][i] == b;
        }
        if Contains(s[1..], a, b) {
          var i :| 0 <= i < |s[1..]| - 1 && s[1..][i] == a && s[1..][i + 1] == b;
          assert s[i + 1] == a && s[i + 2] == b;
        }
      }
    }
  }

  /** The key itself is always erased. */
  lemma EraseKey(key: char, s: string)
    ensures Erase(Keyed(key, s), key, '=') == Erase(s, key, '=')
  {
    assert Keyed(key, s)[2..] == s;
  }

  // ---------------------------------------------------------------- whitespace and case

  /** The characters with the Unicode White_Space property. */
  predicate IsWhitespace(c: char) {
    || '\t' <= c <= '\r' || c == ' ' || c == '\U{85}' || c == '\U{A0}' || c == '\U{1680}' || '\U{2000}' <= c <= '\U{200A}'
    || c == '\U{2028}' || c == '\U{2029}' || c == '\U{202F}' || c == '\U{205F}' || c == '\U{3000}'
  }

  function TrimStart(s: string): string {
    if s != "" && IsWhitespace(s[0]) then TrimStart(s[1..]) else s
  }

  function TrimEnd(s: string): string {
    if s != "" && IsWhitespace(s[|s| - 1]) then TrimEnd(s[..|s| - 1]) else s
  }

  function Trim(s: string): string { TrimEnd(TrimStart(s)) }

  /** What `trim` leaves has no whitespace at its ends, so trimming it again changes nothing. */
  lemma {:induction false} TrimStartEnds(s: string)
    ensures var t := TrimStart(s); t != "" ==> !IsWhitespace(t[0])
  {
    hide IsWhitespace;
    if s != "" && IsWhitespace(s[0]) {
      TrimStartEnds(s[1..]);
    }
  }

  lemma {:induction false} TrimEndEnds(s: string)
    ensures var t := TrimEnd(s); t <= s && (t != "" ==> !IsWhitespace(t[|t| - 1]))
  {
    hide IsWhitespace;
    if s != "" && IsWhitespace(s[|s| - 1]) {
      TrimEndEnds(s[..|s| - 1]);
    }
  }

  lemma TrimEnds(s: string)
    ensures var t := Trim(s); t != "" ==> !IsWhitespace(t[0]) && !IsWhitespace(t[|t| - 1])
  {
    hide IsWhitespace, TrimStart, TrimEnd;
    TrimStartEnds(s);
    TrimEndEnds(TrimStart(s));
  }

  lemma TrimNothing(s: string)
    requires s != "" ==> !IsWhitespace(s[0]) && !IsWhitespace(s[|s| - 1])
    ensures Trim(s) == s
  {
  }

  function Lower(s: string): (r: string)
    ensures |r| == |s|
  {
    seq(|s|, i requires 0 <= i < |s| => if 'A' <= s[i] <= 'Z' then (s[i] - 'A') + 'a' else s[i])
  }

  predicate NoUpper(s: string) {
    forall i :: 0 <= i < |s| ==> !('A' <= s[i] <= 'Z')
  }

  lemma LowerKeeps(s: string)
    ensures NoUpper(Lower(s))
    ensures Lower(s) == s <==> NoUpper(s)
    ensures forall i :: 0 <= i < |s| ==> Lower(s)[i] == s[i] || 'a' <= Lower(s)[i] <= 'z'
  {
    assert NoUpper(s) ==> Lower(s) == s;
  }

  lemma {:induction false} TrimEndPart(s: string)
    ensures forall c :: c in TrimEnd(s) ==> c in s
  {
    hide IsWhitespace;
    if s != "" && IsWhitespace(s[|s| - 1]) {
      TrimEndPart(s[..|s| - 1]);
    }
  }

  lemma {:induction false} TrimStartPart(s: string)
    ensures forall c :: c in TrimStart(s) ==> c in s
  {
    hide IsWhitespace;
    if s != "" && IsWhitespace(s[0]) {
      TrimStartPart(s[1..]);
    }
  }

  // ---------------------------------------------------------------- decimal numbers

  function Digit(d: nat): char
    requires d < 10
  {
    '0' + d as char
  }

  predicate IsDigit(c: char) { '0' <= c <= '9' }

  function Print(n: nat): (s: string)
    ensures s != [] && forall c :: c in s ==> IsDigit(c)
  {
    if n < 10 then [Digit(n)] else Print(n / 10) + [Digit(n % 10)]
  }

  /** `{}` of an `i32`. */
  function PrintInt(n: int): string {
    if n < 0 then "-" + Print(-n) else Print(n)
  }

  function Digits(s: string): Option<nat> {
    if s == "" then Some(0)
    else
      var c := s[|s| - 1];
      var rest := Digits(s[..|s| - 1]);
      if rest.None? || !IsDigit(c) then None else Some(rest.value * 10 + (c - '0') as nat)
  }

  /** `parse::<u32>()`: digits after an optional plus sign, at least one, below 2^32. */
  function ParseU32(s: string): Option<nat> {
    var ds := if s != "" && s[0] == '+' then s[1..] else s;
    if ds == "" then None
    else
      var n := Digits(ds);
      if n.Some? && n.value < 0x1_0000_0000 then n else None
  }

  lemma {:induction false} DigitsOfPrint(n: nat)
    ensures Digits(Print(n)) == Some(n)
  {
    if n >= 10 {
      DigitsOfPrint(n / 10);
      assert Print(n)[..|Print(n)| - 1] == Print(n / 10);
    }
  }

  lemma ParseOfPrint(n: nat)
    requires n < 0x1_0000_0000
    ensures ParseU32(Print(n)) == Some(n)
  {
    DigitsOfPrint(n);
    assert IsDigit(Print(n)[0]) by { assert Print(n)[0] in Print(n); }
  }
}
