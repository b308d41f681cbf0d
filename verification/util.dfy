/**
 * The character predicates of util.js and the few JavaScript string
 * operations (String.prototype.includes, split and Array.prototype.join)
 * that the other modules rely on.
 *
 * JavaScript strings are modelled as `string` (a sequence of Unicode scalar
 * values). The `EOF` sentinel, a fresh `Symbol` in the source, becomes the
 * `None` of `Option<char>`: a value that no input character can equal.
 */
module JsUtil {

  datatype Option<+T> = None | Some(value: T)

  /** The end-of-input sentinel fed to the tokenizer after the last character. */
  const EOF: Option<char> := None

  /** The characters of a regular-expression range `[lo-hi]` over ASCII. */
  function CharRange(lo: char, hi: char): string
    requires hi as int < 128
    decreases hi as int - lo as int
  {
    if lo > hi then [] else [lo] + CharRange((lo as int + 1) as char, hi)
  }

  /** The characters of the regular-expression class `[a-zA-Z]`. */
  const AsciiLetters: string := CharRange('a', 'z') + CharRange('A', 'Z')

  /** The string that `isSpace` searches: tab, line feed, form feed, space. */
  const SpaceChars: string := "\t\n\U{C} "

  /** `hay.includes(needle)`: `needle` occurs in `hay` at some position. */
  predicate Includes(hay: string, needle: string)
    decreases |hay|
  {
    needle <= hay || (hay != [] && Includes(hay[1..], needle))
  }

  /** `/^[a-zA-Z]$/.test(s)`: the whole string is one character of the class. */
  predicate IsLetter(s: string)
  {
    |s| == 1 && s[0] in AsciiLetters
  }

  /** `'\t\n\f '.includes(s)`. */
  predicate IsSpace(s: string)
  {
    Includes(SpaceChars, s)
  }

  /**
   * `c === EOF || '/>'.includes(c)`; `None` stands for the sentinel and
   * `Some(s)` for a string argument.
   */
  predicate IsIgnore(c: Option<string>)
  {
    c == None || Includes("/>", c.value)
  }

  /** `isLetter` applied to one tokenizer input; never called with EOF. */
  predicate Letter(c: Option<char>)
  {
    c.Some? && IsLetter([c.value])
  }

  /**
   * `isSpace` applied to one tokenizer input. In JavaScript `isSpace(EOF)`
   * throws, because `includes` converts its argument to a string and a
   * Symbol refuses that conversion. Every state but `beforeAttributeName`
   * and `attributeName` tests for EOF before calling `isSpace`; those two
   * throw on EOF, and the rest never reach `Space` with it.
   */
  predicate Space(c: Option<char>)
  {
    c.Some? && IsSpace([c.value])
  }

  /** `c.toLowerCase()` for a character that `isLetter` accepted. */
  function ToLower(c: char): (r: char)
    ensures 'A' <= c <= 'Z' ==> r as int == c as int + 32
    ensures !('A' <= c <= 'Z') ==> r == c
  {
    if 'A' <= c <= 'Z' then (c as int + 32) as char else c
  }

  /**
   * Lower-casing leaves a lower-case letter exactly when it is given a
   * letter of either case, sends both cases of a letter to the same
   * character, and is idempotent.
   */
  lemma ToLowerLetters(c: char)
    ensures 'a' <= ToLower(c) <= 'z' <==> ('a' <= c <= 'z' || 'A' <= c <= 'Z')
    ensures 'a' <= c <= 'z' ==> ToLower((c as int - 32) as char) == c
    ensures ToLower(ToLower(c)) == ToLower(c)
  {
  }

  lemma {:induction false} IncludesEmpty(hay: string)
    ensures Includes(hay, "")
  {
  }

  /** A one-character needle is included exactly when it is one of the characters. */
  lemma {:induction false} IncludesChar(hay: string, c: char)
    ensures Includes(hay, [c]) <==> c in hay
    decreases |hay|
  {
    if hay != [] {
      IncludesChar(hay[1..], c);
      assert hay == [hay[0]] + hay[1..];
    }
  }

  /** A range holds exactly the characters between its bounds. */
  lemma {:induction false} CharRangeMembers(lo: char, hi: char, c: char)
    requires hi as int < 128
    ensures c in CharRange(lo, hi) <==> lo <= c <= hi
    decreases hi as int - lo as int
  {
    if lo <= hi {
      CharRangeMembers((lo as int + 1) as char, hi, c);
    }
  }

  /** `isLetter(c)` holds exactly for a single ASCII letter a-z or A-Z. */
  lemma IsLetterExactly(s: string)
    ensures IsLetter(s) <==> |s| == 1 && ('a' <= s[0] <= 'z' || 'A' <= s[0] <= 'Z')
  {
    if |s| == 1 {
      CharRangeMembers('a', 'z', s[0]);
      CharRangeMembers('A', 'Z', s[0]);
    }
  }

  /**
   * `isSpace` holds for tab, line feed, form feed and space, and not for
   * carriage return; it also holds for the empty string, which every
   * string includes.
   */
  lemma IsSpaceChars(c: char)
    ensures IsSpace([c]) <==> c == '\t' || c == '\n' || c == '\U{C}' || c == ' '
    ensures !IsSpace(['\r'])
    ensures IsSpace("")
  {
    IncludesChar(SpaceChars, c);
    IncludesChar(SpaceChars, '\r');
    IncludesEmpty(SpaceChars);
  }

  /** `isIgnore` holds for the sentinel, `/` and `>`, and for no other single character. */
  lemma IsIgnoreChars(c: char)
    ensures IsIgnore(None)
    ensures IsIgnore(Some([c])) <==> c == '/' || c == '>'
  {
    IncludesChar("/>", c);
  }

  /** The sentinel is distinct from every input character and is neither a letter nor a space. */
  lemma EofIsUnique(c: char)
    ensures EOF != Some(c)
    ensures !Letter(EOF) && !Space(EOF)
  {
  }

  /** `Array.prototype.join(sep)`. */
  function Join(parts: seq<string>, sep: char): string
  {
    if |parts| == 0 then ""
    else if |parts| == 1 then parts[0]
    else parts[0] + [sep] + Join(parts[1..], sep)
  }

  /**
   * `s.split(sep)` for a one-character separator: every occurrence of the
   * separator cuts, so empty pieces are kept and the empty string gives [""].
   */
  function Split(s: string, sep: char): (parts: seq<string>)
    ensures |parts| >= 1
    ensures forall i :: 0 <= i < |parts| ==> sep !in parts[i]
    ensures Join(parts, sep) == s
    decreases |s|
  {
    if s == [] then [""]
    else if s[0] == sep then [""] + Split(s[1..], sep)
    else
      var rest := Split(s[1..], sep);
      assert s == [s[0]] + s[1..];
      [[s[0]] + rest[0]] + rest[1..]
  }

  /** A string without the separator splits into itself alone. */
  lemma {:induction false} SplitNoSeparator(s: string, sep: char)
    requires sep !in s
    ensures Split(s, sep) == [s]
    decreases |s|
  {
    if s != [] {
      SplitNoSeparator(s[1..], sep);
    }
  }

  /** `Array.prototype.reverse` on a copy. */
  function Reverse<T>(s: seq<T>): (r: seq<T>)
    ensures |r| == |s| && forall i :: 0 <= i < |s| ==> r[i] == s[|s| - 1 - i]
  {
    seq(|s|, i requires 0 <= i < |s| => s[|s| - 1 - i])
  }

  /** Reversing twice gives the sequence back, and a reversal holds the same elements. */
  lemma {:induction false} ReverseKeeps<T>(s: seq<T>)
    ensures Reverse(Reverse(s)) == s
    ensures multiset(Reverse(s)) == multiset(s)
    decreases |s|
  {
    if s != [] {
      ReverseKeeps(s[1..]);
      assert Reverse(s) == Reverse(s[1..]) + [s[0]];
      assert s == [s[0]] + s[1..];
    }
  }
}
