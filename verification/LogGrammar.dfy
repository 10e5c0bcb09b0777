/** What a filter text says, word by word, and that the parser takes it so (src/app/log_level.rs:142-188). */
module LogGrammar {
  import opened Wire
  import opened TextOps
  import opened LogFilter

  /** The level words, in any case of their letters. */
  const LEVELS: map<string, Level> :=
    map["off" := 0, "error" := 1, "warn" := 2, "warning" := 2, "info" := 3, "debug" := 4, "trace" := 5]

  predicate IsLevel(word: string) { Lower(word) in LEVELS }

  function LevelOf(word: string): Level
    requires IsLevel(word)
  {
    LEVELS[Lower(word)]
  }

  lemma LevelWords(word: string)
    ensures ParseLevel(word) == if IsLevel(word) then Some(LevelOf(word)) else None
  {
    hide Lower;
  }

  // ---------------------------------------------------------------- UTF-8

  /** The bytes of a character, after the table of section 3 of RFC 3629. */
  function Utf8(c: char): seq<byte> {
    var n := c as int;
    if n < 0x80 then [n]
    else if n < 0x800 then [0xC0 + n / 0x40, 0x80 + n % 0x40]
    else if n < 0x1_0000 then [0xE0 + n / 0x1000, 0x80 + n / 0x40 % 0x40, 0x80 + n % 0x40]
    else [0xF0 + n / 0x4_0000, 0x80 + n / 0x1000 % 0x40, 0x80 + n / 0x40 % 0x40, 0x80 + n % 0x40]
  }

  function Encoded(s: string): seq<byte> {
    if s == "" then [] else Encoded(s[..|s| - 1]) + Utf8(s[|s| - 1])
  }

  lemma {:induction false} ByteLenIs(s: string)
    ensures ByteLen(s) == |Encoded(s)|
  {
    if s != "" {
      ByteLenIs(s[..|s| - 1]);
      WidthIs(s[|s| - 1]);
    }
  }

  lemma WidthIs(c: char)
    ensures Width(c) == |Utf8(c)|
  {
  }

  // ---------------------------------------------------------------- words

  /** A level for all, or a module path of at most 256 bytes, an equals sign and a level. */
  predicate IsWord(word: string) {
    if '=' in word then IsLevel(Trim(After(word))) && |Encoded(Trim(Before(word)))| <= 256 else IsLevel(word)
  }

  function Before(word: string): string
    requires '=' in word
  {
    word[..IndexOf(word, '=')]
  }

  function After(word: string): string
    requires '=' in word
  {
    word[IndexOf(word, '=') + 1..]
  }

  /** The words between commas; blank ones do not count. */
  function Words(parts: seq<string>): seq<string> {
    if parts == [] then []
    else
      var word := Trim(parts[|parts| - 1]);
      Words(parts[..|parts| - 1]) + if word == "" then [] else [word]
  }

  ghost predicate AllWords(words: seq<string>) {
    forall i :: 0 <= i < |words| ==> IsWord(words[i])
  }

  /** The levels for all, and the overrides, each in order. */
  function Bases(words: seq<string>): seq<Level>
    requires AllWords(words)
  {
    if words == [] then []
    else
      var word := words[|words| - 1];
      Bases(words[..|words| - 1]) + if '=' in word then [] else [LevelOf(word)]
  }

  function Overrides(words: seq<string>): seq<Module>
    requires AllWords(words)
  {
    if words == [] then []
    else
      var word := words[|words| - 1];
      Overrides(words[..|words| - 1]) + if '=' in word then [Module(Trim(Before(word)), LevelOf(Trim(After(word))))] else []
  }

  // ---------------------------------------------------------------- the parser

  function BaseOf(bases: seq<Level>): Option<Level> { if bases == [] then None else Some(bases[0]) }

  /** What the parser has gathered from words in order. */
  ghost predicate Gathers(words: seq<string>, r: Result<Parts>) {
    if AllWords(words) && |Bases(words)| <= 1 then r == Ok(Parts(BaseOf(Bases(words)), Overrides(words))) else !r.Ok?
  }

  lemma WordsGrow(words: seq<string>, word: string)
    requires AllWords(words)
    ensures AllWords(words + [word]) <==> IsWord(word)
    ensures IsWord(word) ==>
              && Bases(words + [word]) == Bases(words) + (if '=' in word then [] else [LevelOf(word)])
              && Overrides(words + [word])
                   == Overrides(words) + (if '=' in word then [Module(Trim(Before(word)), LevelOf(Trim(After(word))))] else [])
  {
    hide Trim, ByteLen, IsLevel, LevelOf, Before, After;
    var more := words + [word];
    assert more[..|words|] == words && more[|words|] == word;
    if IsWord(word) {
      assert forall i :: 0 <= i < |words| ==> more[i] == words[i];
    }
  }

  lemma WordIs(acc: Parts, word: string)
    requires word != "" && Trim(word) == word
    ensures ParsePart(acc, word) == ParseWord(acc, word)
  {
    hide Trim, ByteLen, Encoded, Lower, ParseLevel, CutsAt64, IsLevel, LevelOf;
    if '=' in word {
      LevelWords(Trim(After(word)));
      ByteLenIs(Trim(Before(word)));
    } else {
      LevelWords(word);
    }
  }

  /** What a word adds. */
  function ParseWord(acc: Parts, word: string): Result<Parts> {
    if !IsWord(word) then
      if '=' in word && IsLevel(Trim(After(word))) && !CutsAt64(Trim(Before(word))) then Panic else Err
    else if '=' in word then
      Ok(acc.(modules := acc.modules + [Module(Trim(Before(word)), LevelOf(Trim(After(word))))]))
    else if acc.base.Some? then Err
    else Ok(acc.(base := Some(LevelOf(word))))
  }

  /** One more word, after words that the parser has taken. */
  lemma OneWord(words: seq<string>, acc: Parts, part: string)
    requires AllWords(words) && |Bases(words)| <= 1 && acc == Parts(BaseOf(Bases(words)), Overrides(words))
    ensures var word := Trim(part); Gathers(words + (if word == "" then [] else [word]), ParsePart(acc, part))
  {
    hide Trim, IsWord, IsLevel, LevelOf, Before, After, CutsAt64;
    var word := Trim(part);
    TrimmedPart(acc, part);
    if word == "" {
      assert words + [] == words;
    } else {
      WordIs(acc, word);
      WordsGrow(words, word);
      assert Bases(words) + [] == Bases(words) && Overrides(words) + [] == Overrides(words);
    }
  }

  lemma TrimmedPart(acc: Parts, part: string)
    ensures Trim(Trim(part)) == Trim(part)
    ensures ParsePart(acc, part) == if Trim(part) == "" then Ok(acc) else ParsePart(acc, Trim(part))
  {
    hide Trim, ParseLevel, ByteLen, CutsAt64, SplitOnce;
    TrimEnds(part);
    TrimNothing(Trim(part));
  }

  /** After one that it has not taken, it takes no more. */
  lemma NoMore(words: seq<string>, word: string)
    requires !(AllWords(words) && |Bases(words)| <= 1)
    ensures !(AllWords(words + [word]) && |Bases(words + [word])| <= 1)
  {
    hide IsWord;
    var more := words + [word];
    assert more[..|words|] == words;
    assert AllWords(more) ==> AllWords(words) by { assert forall i :: 0 <= i < |words| ==> more[i] == words[i]; }
  }

  lemma {:induction false} PartsGather(parts: seq<string>, n: nat)
    requires n <= |parts|
    ensures Gathers(Words(parts[..n]), ParseParts(parts, n))
  {
    hide ParsePart, Trim, IsWord;
    if n == 0 {
      assert parts[..0] == [];
    } else {
      var init, word := parts[..n - 1], Trim(parts[n - 1]);
      PartsGather(parts, n - 1);
      assert parts[..n][..n - 1] == init;
      var words := Words(init);
      if AllWords(words) && |Bases(words)| <= 1 {
        OneWord(words, ParseParts(parts, n - 1).value, parts[n - 1]);
      } else if word != "" {
        NoMore(words, word);
      } else {
        assert words + [] == words;
      }
    }
  }

  /**
   For every text: it is accepted if and only if every word between its commas is a level or an override and at most one
   is a level. Its base is that level, or info, and its overrides are the words' own, sorted by length.
   */
  lemma FilterIff(s: string, f: Filter)
    ensures var words := Words(Split(s, ','));
            ParseFilter(s) == Ok(f) <==>
              && AllWords(words) && |Bases(words)| <= 1
              && f == Filter(if Bases(words) == [] then 3 else Bases(words)[0], SortByLength(Overrides(words)))
  {
    hide Split, ParseParts, SortByLength, Words, AllWords, Bases, Overrides;
    var parts := Split(s, ',');
    PartsGather(parts, |parts|);
    assert parts[..|parts|] == parts;
  }

  /**
   A word whose module path is too long is an error, unless its 64th byte is inside a character: then the error message
   cuts the path there and the program panics.
   */
  lemma TooLong(acc: Parts, word: string)
    requires '=' in word && Trim(word) == word && IsLevel(Trim(After(word))) && |Encoded(Trim(Before(word)))| > 256
    ensures var path := Trim(Before(word));
            ParsePart(acc, word) == if exists k :: 0 <= k <= |path| && |Encoded(path[..k])| == 64 then Err else Panic
  {
    hide Trim, ByteLen, Encoded, IsLevel, LevelOf;
    var path := Trim(Before(word));
    WordIs(acc, word);
    assert !IsWord(word);
    forall k | 0 <= k <= |path| ensures ByteLen(path[..k]) == |Encoded(path[..k])| {
      ByteLenIs(path[..k]);
    }
  }
}
