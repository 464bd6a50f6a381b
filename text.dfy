/** String helpers with JavaScript's meaning: whitespace, trim, split on whitespace runs, word counts, suffix and substring tests, join. */
module Text {

  /** The characters `\s` and `String.prototype.trim` treat as white space (ECMAScript WhiteSpace and LineTerminator). */
  predicate IsSpace(c: char) {
    c == ' ' || c == '\t' || c == '\n' || c == '\r' || c == '\U{000B}' || c == '\U{000C}'
    || c == '\U{00A0}' || c == '\U{FEFF}' || c == '\U{1680}' || ('\U{2000}' <= c <= '\U{200A}')
    || c == '\U{2028}' || c == '\U{2029}' || c == '\U{202F}' || c == '\U{205F}' || c == '\U{3000}'
  }

  function TrimStart(s: string): (r: string)
    ensures |r| <= |s|
    ensures r == s[|s| - |r|..]
    ensures r == [] || !IsSpace(r[0])
    ensures forall i :: 0 <= i < |s| - |r| ==> IsSpace(s[i])
  {
    if s != [] && IsSpace(s[0]) then TrimStart(s[1..]) else s
  }

  function TrimEnd(s: string): (r: string)
    ensures |r| <= |s|
    ensures r == s[..|r|]
    ensures r == [] || !IsSpace(r[|r| - 1])
    ensures forall i :: |r| <= i < |s| ==> IsSpace(s[i])
  {
    if s != [] && IsSpace(s[|s| - 1]) then TrimEnd(s[..|s| - 1]) else s
  }

  /** `s.trim()`. */
  function Trim(s: string): string {
    TrimEnd(TrimStart(s))
  }

  /** Trimming leaves nothing exactly when every character is white space. */
  lemma TrimEmptyIffBlank(s: string)
    ensures Trim(s) == [] <==> forall i :: 0 <= i < |s| ==> IsSpace(s[i])
  {
    var t := TrimStart(s);
    if Trim(s) == [] {
      forall i | |s| - |t| <= i < |s| ensures IsSpace(s[i]) {
        assert s[i] == t[i - (|s| - |t|)];
      }
    }
  }

  /** Drops the white space at the front of `s` (the separator run that `split(/\s+/)` consumes). */
  function DropSpaces(s: string): (r: string)
    ensures |r| <= |s|
  {
    if s != [] && IsSpace(s[0]) then DropSpaces(s[1..]) else s
  }

  /** `split(/\s+/)` of `s`, where `cur` is the field read so far. */
  function SplitFrom(s: string, cur: string): seq<string>
    decreases |s|
  {
    if s == [] then [cur]
    else if IsSpace(s[0]) then [cur] + SplitFrom(DropSpaces(s[1..]), [])
    else SplitFrom(s[1..], cur + [s[0]])
  }

  /** `s.split(/\s+/)`: the fields between maximal runs of white space (an empty field at either end when `s` starts or ends with white space). */
  function SplitOnSpace(s: string): seq<string> {
    SplitFrom(s, [])
  }

  /** `.filter(word => word.length > 0)`. */
  function NonEmpty(parts: seq<string>): (r: seq<string>)
    ensures forall i :: 0 <= i < |r| ==> r[i] != []
  {
    if parts == [] then []
    else if parts[0] == [] then NonEmpty(parts[1..])
    else [parts[0]] + NonEmpty(parts[1..])
  }

  /** `countWords(text)` as both survey forms write it: trim, split on white space, drop empty fields, count. */
  function CountWords(text: string): nat {
    |NonEmpty(SplitOnSpace(Trim(text)))|
  }

  /** Reference count: the positions where a word starts, i.e. a non-space character
      at the front or right after a space. `prevSpace` says whether the previous character was a space. */
  function WordStarts(s: string, prevSpace: bool): nat {
    if s == [] then 0
    else (if !IsSpace(s[0]) && prevSpace then 1 else 0) + WordStarts(s[1..], IsSpace(s[0]))
  }

  lemma {:induction false} DropSpacesStarts(s: string, prevSpace: bool)
    requires s != [] && IsSpace(s[0])
    ensures WordStarts(s, prevSpace) == WordStarts(DropSpaces(s[1..]), true)
    decreases |s|
  {
    var t := s[1..];
    if t != [] && IsSpace(t[0]) {
      DropSpacesStarts(t, true);
    }
  }

  lemma {:induction false} SplitFromStarts(s: string, cur: string)
    ensures |NonEmpty(SplitFrom(s, cur))| == (if cur != [] then 1 else 0) + WordStarts(s, cur == [])
    decreases |s|
  {
    if s == [] {
    } else if IsSpace(s[0]) {
      SplitFromStarts(DropSpaces(s[1..]), []);
      DropSpacesStarts(s, cur == []);
      assert NonEmpty([cur] + SplitFrom(DropSpaces(s[1..]), [])) ==
        (if cur == [] then [] else [cur]) + NonEmpty(SplitFrom(DropSpaces(s[1..]), []));
    } else {
      SplitFromStarts(s[1..], cur + [s[0]]);
    }
  }

  lemma {:induction false} TrimStartStarts(s: string)
    ensures WordStarts(TrimStart(s), true) == WordStarts(s, true)
    decreases |s|
  {
    if s != [] && IsSpace(s[0]) {
      TrimStartStarts(s[1..]);
    }
  }

  lemma {:induction false} TrailingSpaceStarts(s: string, c: char, prevSpace: bool)
    requires IsSpace(c)
    ensures WordStarts(s + [c], prevSpace) == WordStarts(s, prevSpace)
    decreases |s|
  {
    if s != [] {
      assert (s + [c])[1..] == s[1..] + [c];
      TrailingSpaceStarts(s[1..], c, IsSpace(s[0]));
    }
  }

  lemma {:induction false} TrimEndStarts(s: string, prevSpace: bool)
    ensures WordStarts(TrimEnd(s), prevSpace) == WordStarts(s, prevSpace)
    decreases |s|
  {
    if s != [] && IsSpace(s[|s| - 1]) {
      var t := s[..|s| - 1];
      assert s == t + [s[|s| - 1]];
      TrailingSpaceStarts(t, s[|s| - 1], prevSpace);
      TrimEndStarts(t, prevSpace);
    }
  }

  /** The word count is the number of maximal runs of non-space characters in the whole text,
      whatever white space surrounds or separates them. */
  lemma CountWordsIsWordStarts(text: string)
    ensures CountWords(text) == WordStarts(text, true)
  {
    SplitFromStarts(Trim(text), []);
    TrimEndStarts(TrimStart(text), true);
    TrimStartStarts(text);
  }

  /** `s.endsWith(suffix)`. */
  predicate EndsWith(s: string, suffix: string) {
    |suffix| <= |s| && s[|s| - |suffix|..] == suffix
  }

  /** `s.includes(sub)`. */
  predicate Contains(s: string, sub: string) {
    exists i :: 0 <= i <= |s| - |sub| && OccursAt(s, sub, i)
  }

  predicate OccursAt(s: string, sub: string, i: int) {
    0 <= i <= |s| - |sub| && s[i..i + |sub|] == sub
  }

  /** A string without the first letter of `sub` cannot contain `sub`. */
  lemma NotContainsWithoutFirst(s: string, sub: string)
    requires sub != [] && sub[0] !in s
    ensures !Contains(s, sub)
  {
  }

  /** A one-character string occurs exactly where that character does. */
  lemma ContainsChar(s: string, c: char)
    ensures Contains(s, [c]) <==> c in s
  {
    if c in s {
      var i :| 0 <= i < |s| && s[i] == c;
      assert OccursAt(s, [c], i);
    }
    if Contains(s, [c]) {
      var i :| 0 <= i <= |s| - 1 && OccursAt(s, [c], i);
      assert s[i..i + 1][0] == c;
    }
  }

  /** `parts.join(sep)`. */
  function Join(parts: seq<string>, sep: string): string {
    if parts == [] then ""
    else if |parts| == 1 then parts[0]
    else parts[0] + sep + Join(parts[1..], sep)
  }
}
