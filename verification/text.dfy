/**
 * The JavaScript string primitives the registration schema uses, on Dafny strings:
 * `trim`, `split(' ')`, `join(' ')`, `toLowerCase`, `toLocaleUpperCase` of one
 * character, `endsWith` and `length`. Case conversion is ASCII-only.
 */
module Text {

  /** The code points JavaScript's `trim` strips: WhiteSpace and LineTerminator. */
  predicate IsWhite(c: char) {
    c in WhiteChars || '\U{2000}' <= c <= '\U{200A}'
  }

  /** The whitespace code points outside the range U+2000..U+200A. */
  const WhiteChars: set<char> := {
    '\t', '\n', '\U{000B}', '\U{000C}', '\r', ' ', '\U{00A0}', '\U{1680}',
    '\U{2028}', '\U{2029}', '\U{202F}', '\U{205F}', '\U{3000}', '\U{FEFF}'
  }

  predicate IsUpperAscii(c: char) { 'A' <= c <= 'Z' }

  predicate IsLowerAscii(c: char) { 'a' <= c <= 'z' }

  /** Upper-casing one character, ASCII letters only; every other character is kept. */
  function UpperChar(c: char): (u: char)
    ensures !IsLowerAscii(u)
    ensures IsLowerAscii(c) ==> IsUpperAscii(u) && u as int + 32 == c as int
    ensures !IsLowerAscii(c) ==> u == c
  {
    if IsLowerAscii(c) then (c as int - 32) as char else c
  }

  /** Lower-casing one character, ASCII letters only; every other character is kept. */
  function LowerChar(c: char): (l: char)
    ensures !IsUpperAscii(l)
    ensures IsUpperAscii(c) ==> IsLowerAscii(l) && l as int == c as int + 32
    ensures !IsUpperAscii(c) ==> l == c
  {
    if IsUpperAscii(c) then (c as int + 32) as char else c
  }

  /** Upper-casing neither creates nor removes whitespace, and keeps the space character. */
  lemma UpperCharKeepsClass(c: char)
    ensures IsWhite(UpperChar(c)) == IsWhite(c)
    ensures (UpperChar(c) == ' ') == (c == ' ')
    ensures UpperChar(UpperChar(c)) == UpperChar(c)
  {
  }

  /** A string with no ASCII capital letter. */
  predicate IsLowerCase(s: string) {
    forall i :: 0 <= i < |s| ==> !IsUpperAscii(s[i])
  }

  /** `toLowerCase`: every capital is replaced by its small letter, every other character is kept. */
  function ToLower(s: string): (r: string)
    ensures |r| == |s|
    ensures IsLowerCase(r)
    ensures forall i :: 0 <= i < |s| ==> r[i] == LowerChar(s[i])
  {
    if |s| == 0 then "" else [LowerChar(s[0])] + ToLower(s[1..])
  }

  /** Lower-casing works character by character, so it distributes over concatenation. */
  lemma ToLowerAppend(a: string, b: string)
    ensures ToLower(a + b) == ToLower(a) + ToLower(b)
  {
    var r := ToLower(a + b);
    var t := ToLower(a) + ToLower(b);
    forall i | 0 <= i < |a + b|
      ensures r[i] == t[i]
    {
      if i < |a| {
        assert (a + b)[i] == a[i];
      } else {
        assert (a + b)[i] == b[i - |a|];
      }
    }
  }

  /** A lower-case string is left alone by `toLowerCase`, and only such strings are. */
  lemma ToLowerFixpoint(s: string)
    ensures ToLower(s) == s <==> IsLowerCase(s)
  {
    var r := ToLower(s);
    if IsLowerCase(s) {
      assert forall i :: 0 <= i < |s| ==> r[i] == s[i];
    }
  }

  /** Lower-casing twice is lower-casing once. */
  lemma ToLowerIdempotent(s: string)
    ensures ToLower(ToLower(s)) == ToLower(s)
  {
    ToLowerFixpoint(ToLower(s));
  }

  /** UTF-16 code units taken by one character. */
  function Utf16Units(c: char): nat {
    if c <= '\U{FFFF}' then 1 else 2
  }

  /** JavaScript's `length`: UTF-16 code units, two for a character outside the basic plane. */
  function Utf16Length(s: string): (n: nat)
    ensures |s| <= n <= 2 * |s|
    ensures n == |s| <==> forall i :: 0 <= i < |s| ==> s[i] <= '\U{FFFF}'
  {
    if |s| == 0 then 0
    else
      var n := Utf16Units(s[0]) + Utf16Length(s[1..]);
      assert forall i :: 1 <= i < |s| ==> s[i] == s[1..][i - 1];
      n
  }

  /** `min(n)` on a string: at least `n` UTF-16 code units. */
  predicate MinLength(s: string, n: nat) {
    Utf16Length(s) >= n
  }

  /** zod's `nonempty` (a `min(1)`) holds exactly of the non-empty strings. */
  lemma NonemptyIffNotEmpty(s: string)
    ensures MinLength(s, 1) <==> s != ""
  {
  }

  /** `endsWith`. */
  predicate EndsWith(s: string, suffix: string) {
    |suffix| <= |s| && s[|s| - |suffix|..] == suffix
  }

  /** Whether the lower-cased string ends with `suffix` depends only on its last `|suffix|` characters. */
  lemma LowerEndsWith(s: string, suffix: string)
    requires |suffix| <= |s|
    ensures EndsWith(ToLower(s), suffix) <==> ToLower(s[|s| - |suffix|..]) == suffix
  {
    var k := |s| - |suffix|;
    assert s == s[..k] + s[k..];
    ToLowerAppend(s[..k], s[k..]);
    assert ToLower(s)[k..] == ToLower(s[k..]);
  }

  /** The leading half of `trim`: drops the leading whitespace and nothing else. */
  function TrimStart(s: string): (r: string)
    ensures |r| <= |s| && r == s[|s| - |r|..]
    ensures forall i :: 0 <= i < |s| - |r| ==> IsWhite(s[i])
    ensures r == [] || !IsWhite(r[0])
    decreases |s|
  {
    if |s| > 0 && IsWhite(s[0]) then TrimStart(s[1..]) else s
  }

  /** The trailing half of `trim`: drops the trailing whitespace and nothing else. */
  function TrimEnd(s: string): (r: string)
    ensures |r| <= |s| && r == s[..|r|]
    ensures forall i :: |r| <= i < |s| ==> IsWhite(s[i])
    ensures r == [] || !IsWhite(r[|r| - 1])
    decreases |s|
  {
    if |s| > 0 && IsWhite(s[|s| - 1]) then TrimEnd(s[..|s| - 1]) else s
  }

  /** Neither starts nor ends with whitespace. */
  predicate IsTrimmed(s: string) {
    s == [] || (!IsWhite(s[0]) && !IsWhite(s[|s| - 1]))
  }

  /** `trim`: leading and trailing whitespace removed. */
  function Trim(s: string): (r: string)
    ensures IsTrimmed(r)
    ensures |r| <= |s|
  {
    TrimEnd(TrimStart(s))
  }

  /**
   * What `trim` removes is whitespace and only whitespace: the result is the slice
   * of `s` between a whitespace prefix and a whitespace suffix.
   */
  lemma TrimIsSlice(s: string)
    ensures var lo := |s| - |TrimStart(s)|; var r := Trim(s);
            && lo + |r| <= |s| && r == s[lo..lo + |r|]
            && (forall i :: 0 <= i < lo ==> IsWhite(s[i]))
            && (forall i :: lo + |r| <= i < |s| ==> IsWhite(s[i]))
  {
    var t := TrimStart(s);
    var r := TrimEnd(t);
    var lo := |s| - |t|;
    assert t == s[lo..];
    assert r == s[lo..lo + |r|] by { assert r == t[..|r|]; }
    forall i | lo + |r| <= i < |s|
      ensures IsWhite(s[i])
    {
      assert s[i] == t[i - lo];
    }
  }

  /** A string made only of whitespace trims to the empty string. */
  lemma TrimAllWhite(s: string)
    requires forall i :: 0 <= i < |s| ==> IsWhite(s[i])
    ensures Trim(s) == ""
  {
  }

  /** A string is its own trim exactly when it is trimmed. */
  lemma TrimFixpoint(s: string)
    ensures Trim(s) == s <==> IsTrimmed(s)
  {
  }

  /** The position of the first occurrence of `c` in `s`. */
  function IndexOf(s: string, c: char): (i: nat)
    requires c in s
    ensures i < |s| && s[i] == c && c !in s[..i]
  {
    if s[0] == c then 0
    else
      assert c in s[1..] by {
        var k :| 0 <= k < |s| && s[k] == c;
        assert s[1..][k - 1] == c;
      }
      var j := IndexOf(s[1..], c);
      assert s[..j + 1] == [s[0]] + s[1..][..j];
      j + 1
  }

  /** An occurrence with none before it is the first one. */
  lemma IndexOfFirst(s: string, c: char, i: nat)
    requires i < |s| && s[i] == c && c !in s[..i]
    ensures IndexOf(s, c) == i
  {
  }

  /** `join(sep)`: the parts with one separator between neighbours. */
  function Join(parts: seq<string>, sep: char): string {
    if |parts| == 0 then ""
    else if |parts| == 1 then parts[0]
    else parts[0] + [sep] + Join(parts[1..], sep)
  }

  /** No part contains the separator. */
  predicate SeparatorFree(parts: seq<string>, sep: char) {
    forall k :: 0 <= k < |parts| ==> sep !in parts[k]
  }

  /**
   * `split(sep)` with a one-character separator: the maximal separator-free pieces,
   * including the empty ones next to a separator at either end or between two
   * separators, so the result is never empty.
   */
  function Split(s: string, sep: char): (parts: seq<string>)
    ensures |parts| >= 1
    ensures SeparatorFree(parts, sep)
    ensures Join(parts, sep) == s
    decreases |s|
  {
    if sep !in s then [s]
    else
      var i := IndexOf(s, sep);
      var rest := Split(s[i + 1..], sep);
      assert ([s[..i]] + rest)[1..] == rest;
      assert s == s[..i] + [sep] + s[i + 1..];
      [s[..i]] + rest
  }

  /** Splitting at a first separator: the piece before it, then the split of the rest. */
  lemma SplitAtFirst(s: string, sep: char, i: nat)
    requires i < |s| && s[i] == sep && sep !in s[..i]
    ensures Split(s, sep) == [s[..i]] + Split(s[i + 1..], sep)
  {
    assert sep in s;
    IndexOfFirst(s, sep, i);
  }

  /** Joining a non-empty separator-free list and splitting again gives the list back. */
  lemma {:induction false} SplitJoin(parts: seq<string>, sep: char)
    requires |parts| >= 1 && SeparatorFree(parts, sep)
    ensures Split(Join(parts, sep), sep) == parts
    decreases |parts|
  {
    if |parts| == 1 {
      assert Join(parts, sep) == parts[0];
    } else {
      var tail := parts[1..];
      var j := Join(tail, sep);
      var s := parts[0] + [sep] + j;
      assert Join(parts, sep) == s;
      var i := |parts[0]|;
      assert s[..i] == parts[0];
      assert s[i + 1..] == j;
      SplitAtFirst(s, sep, i);
      SplitJoin(tail, sep);
      assert parts == [parts[0]] + tail;
    }
  }
}
