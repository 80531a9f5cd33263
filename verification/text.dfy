/**
 * Character and string helpers with the meaning Python gives them:
 * `str.isspace`, `str.strip`, `str.rstrip`, `str.startswith`, and the
 * ASCII part of `str.lower` / `str.upper` and of IGNORECASE matching.
 */
module Text {

  /** Python's `str.isspace` for one character (the full Unicode list). */
  predicate IsSpace(c: char)
  {
    || c == ' ' || c == '\t' || c == '\n' || c == '\r'
    || c == '\U{0B}' || c == '\U{0C}'
    || ('\U{1C}' <= c <= '\U{1F}')
    || c == '\U{85}' || c == '\U{A0}' || c == '\U{1680}'
    || ('\U{2000}' <= c <= '\U{200A}')
    || c == '\U{2028}' || c == '\U{2029}' || c == '\U{202F}'
    || c == '\U{205F}' || c == '\U{3000}'
  }

  /** `s.rstrip()`: drops every trailing whitespace character. */
  function RStrip(s: string): (r: string)
    ensures |r| <= |s|
  {
    if s != [] && IsSpace(s[|s| - 1]) then RStrip(s[..|s| - 1]) else s
  }

  /** `s.lstrip()`: drops every leading whitespace character. */
  function LStrip(s: string): (r: string)
    ensures |r| <= |s|
  {
    if s != [] && IsSpace(s[0]) then LStrip(s[1..]) else s
  }

  /** `s.strip()`. */
  function Strip(s: string): string
  {
    LStrip(RStrip(s))
  }

  /** `RStrip` keeps a prefix of `s`, removes only whitespace, and leaves no trailing whitespace. */
  lemma {:induction false} RStripShape(s: string)
    ensures RStrip(s) == s[..|RStrip(s)|]
    ensures RStrip(s) == [] || !IsSpace(RStrip(s)[|RStrip(s)| - 1])
    ensures forall i :: |RStrip(s)| <= i < |s| ==> IsSpace(s[i])
  {
    if s != [] && IsSpace(s[|s| - 1]) {
      RStripShape(s[..|s| - 1]);
    }
  }

  /** `LStrip` keeps a suffix of `s`, removes only whitespace, and leaves no leading whitespace. */
  lemma {:induction false} LStripShape(s: string)
    ensures LStrip(s) == s[|s| - |LStrip(s)|..]
    ensures LStrip(s) == [] || !IsSpace(LStrip(s)[0])
    ensures forall i :: 0 <= i < |s| - |LStrip(s)| ==> IsSpace(s[i])
  {
    if s != [] && IsSpace(s[0]) {
      LStripShape(s[1..]);
    }
  }

  /** `s.startswith(p)`. */
  predicate StartsWith(s: string, p: string)
  {
    |p| <= |s| && s[..|p|] == p
  }

  predicate IsUpperAscii(c: char) { 'A' <= c <= 'Z' }

  predicate IsLowerAscii(c: char) { 'a' <= c <= 'z' }

  /** A letter of the regular-expression class `[a-z]` under IGNORECASE (ASCII part). */
  predicate IsAsciiLetter(c: char) { IsUpperAscii(c) || IsLowerAscii(c) }

  /** `c.lower()` on ASCII letters; every other character is left alone. */
  function LowerChar(c: char): (r: char)
    ensures IsUpperAscii(c) ==> IsLowerAscii(r)
    ensures !IsUpperAscii(c) ==> r == c
  {
    if IsUpperAscii(c) then (c as int + 32) as char else c
  }

  /** `c.upper()` on ASCII letters; every other character is left alone. */
  function UpperChar(c: char): (r: char)
    ensures IsLowerAscii(c) ==> IsUpperAscii(r)
    ensures !IsLowerAscii(c) ==> r == c
  {
    if IsLowerAscii(c) then (c as int - 32) as char else c
  }

  /** `s.lower()` on the ASCII letters of `s`. */
  function Lower(s: string): (r: string)
    ensures |r| == |s|
    ensures forall i :: 0 <= i < |s| ==> r[i] == LowerChar(s[i])
  {
    seq(|s|, i requires 0 <= i < |s| => LowerChar(s[i]))
  }

  /** Case-insensitive equality of two strings, as a regular expression compiled with IGNORECASE compares them. */
  predicate EqualIgnoringCase(a: string, b: string)
  {
    Lower(a) == Lower(b)
  }

  /** The string of `n` blanks (the text a regular-expression ` *` or ` +` consumes). */
  function Blanks(n: nat): (r: string)
    ensures |r| == n && forall i :: 0 <= i < n ==> r[i] == ' '
  {
    seq(n, _ => ' ')
  }

  /** The number of blanks `s` starts with. */
  function CountBlanks(s: string): (n: nat)
    ensures n <= |s|
    ensures forall i :: 0 <= i < n ==> s[i] == ' '
    ensures n < |s| ==> s[n] != ' '
  {
    if s != [] && s[0] == ' ' then 1 + CountBlanks(s[1..]) else 0
  }

  /** The index of the first `c` in `s`, or `|s|` when there is none (like `s.find(c)` with -1 read as `|s|`). */
  function IndexOf(s: string, c: char): (n: nat)
    ensures n <= |s|
    ensures c !in s[..n]
    ensures n < |s| ==> s[n] == c
  {
    if s == [] then 0 else if s[0] == c then 0 else 1 + IndexOf(s[1..], c)
  }

  /** Counting the blanks of `Blanks(n) + t` gives back `n` when `t` does not start with a blank. */
  lemma {:induction false} CountBlanksOfBlanks(n: nat, t: string)
    requires t == [] || t[0] != ' '
    ensures CountBlanks(Blanks(n) + t) == n
  {
    if n > 0 {
      assert (Blanks(n) + t)[1..] == Blanks(n - 1) + t;
      CountBlanksOfBlanks(n - 1, t);
    } else {
      assert Blanks(n) + t == t;
    }
  }

  /** `IndexOf` finds the first occurrence: in `p + [c] + t` with no `c` in `p` it is `|p|`. */
  lemma {:induction false} IndexOfAfter(p: string, c: char, t: string)
    requires c !in p
    ensures IndexOf(p + [c] + t, c) == |p|
  {
    if p != [] {
      assert (p + [c] + t)[1..] == p[1..] + [c] + t;
      IndexOfAfter(p[1..], c, t);
    }
  }

  /** `IndexOf` of a string without `c` is its length. */
  lemma {:induction false} IndexOfAbsent(p: string, c: char)
    requires c !in p
    ensures IndexOf(p, c) == |p|
  {
    if p != [] {
      IndexOfAbsent(p[1..], c);
    }
  }
}
