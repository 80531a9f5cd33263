/**
 * The three line shapes the autoexec rewriter recognizes, each written as a
 * grammar (a record, a well-formedness predicate and the text it stands for)
 * and as a recognizer that reads a line the way Python's `re.match` reads it
 * with the rewriter's patterns under IGNORECASE:
 *
 *   quoted mount    `@? *(mount|imgmount) +([a-z]):? +"([^"]+)"( +(.*))?`
 *   unquoted mount  `@? *(mount|imgmount) +([a-z]):? +([^ ]+)( +(.*))?`
 *   drive change    `@? *([a-z]:)\\? *$`
 *
 * Each of these patterns is deterministic: every quantifier either takes all
 * it can or the match fails, so the match is unique, and the lemmas below show
 * that each recognizer accepts a line exactly when the line is the text of a
 * well-formed record, and then returns that record.
 */
module AutoexecSyntax {
  import opened Wrappers
  import opened Text

  /**
   * The common head of both mount patterns: an optional `@`, leading blanks,
   * the command word as written, the blanks after it, the drive letter as
   * written, an optional colon, and the blanks before the path.
   */
  datatype Head = Head(at: bool, lead: nat, keyword: string, gap: nat, drive: char, colon: bool, gap2: nat)

  /** A mount line: its head, the path (group 3), the trailing arguments (group 4, empty when absent) and what the match leaves unread. */
  datatype Mount = Mount(head: Head, path: string, rest: string, tail: string)

  /** A drive-change line: optional `@`, blanks, `X:`, optional backslash, blanks, and possibly the final newline `$` allows. */
  datatype DriveChange = DriveChange(at: bool, lead: nat, drive: char, backslash: bool, trail: nat, newline: bool)

  // ---------------------------------------------------------------------
  // Grammars

  function OptText(b: bool, c: char): string
  {
    if b then [c] else []
  }

  /** `(mount|imgmount)` under IGNORECASE. */
  predicate IsMountKeyword(w: string)
  {
    Lower(w) == "mount" || Lower(w) == "imgmount"
  }

  predicate WfHead(h: Head)
  {
    IsMountKeyword(h.keyword) && h.gap >= 1 && IsAsciiLetter(h.drive) && h.gap2 >= 1
  }

  /** The text of head `h` followed by `t`. */
  function HeadText(h: Head, t: string): string
  {
    OptText(h.at, '@') + (Blanks(h.lead) + (h.keyword + (Blanks(h.gap) + ([h.drive] + (OptText(h.colon, ':') + (Blanks(h.gap2) + t))))))
  }

  /** What a mount leaves unread after a blank is taken by `( +(.*))?`: `.` stops at the first newline. */
  predicate WfRest(rest: string, tail: string)
  {
    if rest == [] then tail == [] || tail[0] != ' '
    else rest[0] == ' ' && '\n' !in rest && (tail == [] || tail[0] == '\n')
  }

  /** Group 3 of the quoted pattern is one or more characters other than `"`. */
  predicate WfQuoted(m: Mount)
  {
    WfHead(m.head) && m.path != [] && '"' !in m.path && WfRest(m.rest, m.tail)
  }

  function UnparseQuoted(m: Mount): string
  {
    HeadText(m.head, "\"" + (m.path + ("\"" + (m.rest + m.tail))))
  }

  /** Group 3 of the unquoted pattern is the longest run of non-blanks, so nothing is left after it unless a blank follows. */
  predicate WfUnquoted(m: Mount)
  {
    WfHead(m.head) && m.path != [] && ' ' !in m.path && WfRest(m.rest, m.tail) && (m.rest == [] ==> m.tail == [])
  }

  function UnparseUnquoted(m: Mount): string
  {
    HeadText(m.head, m.path + (m.rest + m.tail))
  }

  predicate WfDrive(d: DriveChange)
  {
    IsAsciiLetter(d.drive)
  }

  function UnparseDrive(d: DriveChange): string
  {
    OptText(d.at, '@') + (Blanks(d.lead) + ([d.drive, ':'] + (OptText(d.backslash, '\\') + (Blanks(d.trail) + OptText(d.newline, '\n')))))
  }

  // ---------------------------------------------------------------------
  // Recognizers

  /** An optional character `c`, taken when present. */
  function TakeChar(s: string, c: char): (bool, string)
  {
    if s != [] && s[0] == c then (true, s[1..]) else (false, s)
  }

  /** All leading blanks. */
  function TakeBlanks(s: string): (nat, string)
  {
    var n := CountBlanks(s);
    (n, s[n..])
  }

  /** The command word; the two alternatives start with different letters, so at most one applies. */
  function TakeKeyword(s: string): Option<(string, string)>
  {
    if |s| >= 8 && Lower(s[..8]) == "imgmount" then Some((s[..8], s[8..]))
    else if |s| >= 5 && Lower(s[..5]) == "mount" then Some((s[..5], s[5..]))
    else None
  }

  /** `( +(.*))?`: when a blank follows, everything up to the first newline. */
  function TakeRest(s: string): (string, string)
  {
    if s != [] && s[0] == ' ' then
      var n := IndexOf(s, '\n');
      (s[..n], s[n..])
    else ([], s)
  }

  /** The head both mount patterns share, and the text after it. */
  function MatchHead(s: string): Option<(Head, string)>
  {
    var (at, s1) := TakeChar(s, '@');
    var (lead, s2) := TakeBlanks(s1);
    match TakeKeyword(s2)
    case None => None
    case Some((keyword, s3)) =>
      var (gap, s4) := TakeBlanks(s3);
      if gap == 0 || s4 == [] || !IsAsciiLetter(s4[0]) then None
      else
        var (colon, s5) := TakeChar(s4[1..], ':');
        var (gap2, s6) := TakeBlanks(s5);
        if gap2 == 0 then None
        else Some((Head(at, lead, keyword, gap, s4[0], colon, gap2), s6))
  }

  /** `"([^"]+)"`: a quote, one or more other characters, and the closing quote. */
  function TakeQuotedPath(t: string): Option<(string, string)>
  {
    if t == [] || t[0] != '"' then None
    else
      var n := IndexOf(t[1..], '"');
      if n == 0 || n == |t| - 1 then None
      else Some((t[1..n + 1], t[n + 2..]))
  }

  /** `([^ ]+)` taken greedily: everything up to the first blank. */
  function TakeWord(t: string): (string, string)
  {
    var n := IndexOf(t, ' ');
    (t[..n], t[n..])
  }

  /** `\\? *$` after the drive: an optional backslash, blanks, and the end or a final newline. */
  function TakeDriveEnd(s: string): Option<(bool, nat, bool)>
  {
    var (backslash, s1) := TakeChar(s, '\\');
    var (trail, s2) := TakeBlanks(s1);
    if s2 == [] then Some((backslash, trail, false))
    else if s2 == "\n" then Some((backslash, trail, true))
    else None
  }

  /** `mount_cmd_1.match(line)`. */
  function MatchQuoted(line: string): Option<Mount>
  {
    match MatchHead(line)
    case None => None
    case Some((h, t)) =>
      match TakeQuotedPath(t)
      case None => None
      case Some((path, after)) =>
        var (rest, tail) := TakeRest(after);
        Some(Mount(h, path, rest, tail))
  }

  /** `mount_cmd_2.match(line)`. */
  function MatchUnquoted(line: string): Option<Mount>
  {
    match MatchHead(line)
    case None => None
    case Some((h, t)) =>
      var (path, after) := TakeWord(t);
      if path == [] then None
      else
        var (rest, tail) := TakeRest(after);
        Some(Mount(h, path, rest, tail))
  }

  /** `change_drv.match(line)`; `$` matches at the end or before a final newline. */
  function MatchDrive(line: string): Option<DriveChange>
  {
    var (at, s1) := TakeChar(line, '@');
    var (lead, s2) := TakeBlanks(s1);
    if |s2| < 2 || !IsAsciiLetter(s2[0]) || s2[1] != ':' then None
    else
      match TakeDriveEnd(s2[2..])
      case None => None
      case Some((backslash, trail, newline)) => Some(DriveChange(at, lead, s2[0], backslash, trail, newline))
  }

  // ---------------------------------------------------------------------
  // The pieces: each recognizer reads back exactly what its grammar writes

  lemma TakeCharSound(s: string, c: char)
    ensures var (b, t) := TakeChar(s, c);
      s == OptText(b, c) + t && (!b ==> t == [] || t[0] != c)
  {
  }

  lemma TakeCharComplete(b: bool, c: char, t: string)
    requires !b ==> t == [] || t[0] != c
    ensures TakeChar(OptText(b, c) + t, c) == (b, t)
  {
    if b {
      assert (OptText(b, c) + t)[1..] == t;
    } else {
      assert OptText(b, c) + t == t;
    }
  }

  lemma TakeBlanksSound(s: string)
    ensures var (n, t) := TakeBlanks(s);
      s == Blanks(n) + t && (t == [] || t[0] != ' ')
  {
    var n := CountBlanks(s);
    assert s == s[..n] + s[n..];
    assert s[..n] == Blanks(n);
  }

  lemma TakeBlanksComplete(n: nat, t: string)
    requires t == [] || t[0] != ' '
    ensures TakeBlanks(Blanks(n) + t) == (n, t)
  {
    CountBlanksOfBlanks(n, t);
    assert (Blanks(n) + t)[n..] == t;
  }

  lemma TakeKeywordSound(s: string)
    ensures TakeKeyword(s).Some? ==>
      var (w, t) := TakeKeyword(s).value;
      IsMountKeyword(w) && s == w + t
  {
    if |s| >= 8 && Lower(s[..8]) == "imgmount" {
      assert s == s[..8] + s[8..];
    } else if |s| >= 5 && Lower(s[..5]) == "mount" {
      assert s == s[..5] + s[5..];
    }
  }

  lemma TakeKeywordComplete(w: string, t: string)
    requires IsMountKeyword(w)
    ensures TakeKeyword(w + t) == Some((w, t))
  {
    var s := w + t;
    if Lower(w) == "imgmount" {
      assert |w| == 8 && s[..8] == w && s[8..] == t;
    } else {
      assert |w| == 5 && s[..5] == w && s[5..] == t;
      assert LowerChar(s[0]) == 'm';
      assert |s| >= 8 ==> Lower(s[..8])[0] == 'm';
    }
  }

  lemma TakeRestSound(s: string)
    ensures var (rest, tail) := TakeRest(s);
      s == rest + tail && WfRest(rest, tail)
  {
    if s != [] && s[0] == ' ' {
      var n := IndexOf(s, '\n');
      assert s == s[..n] + s[n..];
    }
  }

  lemma TakeRestComplete(rest: string, tail: string)
    requires WfRest(rest, tail)
    ensures TakeRest(rest + tail) == (rest, tail)
  {
    var s := rest + tail;
    if rest == [] {
      assert s == tail;
    } else {
      if tail == [] {
        assert s == rest;
        IndexOfAbsent(rest, '\n');
        assert s[..|rest|] == rest;
      } else {
        assert s == rest + ['\n'] + tail[1..];
        IndexOfAfter(rest, '\n', tail[1..]);
        assert s[..|rest|] == rest && s[|rest|..] == tail;
      }
    }
  }

  lemma TakeQuotedPathSound(t: string)
    ensures TakeQuotedPath(t).Some? ==>
      var (path, after) := TakeQuotedPath(t).value;
      path != [] && '"' !in path && t == "\"" + (path + ("\"" + after))
  {
    if TakeQuotedPath(t).Some? {
      var n := IndexOf(t[1..], '"');
      assert t[1..][..n] == t[1..n + 1];
      assert t == "\"" + (t[1..n + 1] + ("\"" + t[n + 2..]));
    }
  }

  lemma TakeQuotedPathComplete(path: string, after: string)
    requires path != [] && '"' !in path
    ensures TakeQuotedPath("\"" + (path + ("\"" + after))) == Some((path, after))
  {
    var t := "\"" + (path + ("\"" + after));
    assert t[1..] == path + ['"'] + after;
    IndexOfAfter(path, '"', after);
    assert t[|path| + 2..] == after;
    assert t[1..|path| + 1] == path;
  }

  lemma TakeWordSound(t: string)
    ensures var (path, after) := TakeWord(t);
      t == path + after && ' ' !in path && (after == [] || after[0] == ' ')
  {
    var n := IndexOf(t, ' ');
    assert t == t[..n] + t[n..];
  }

  lemma TakeWordComplete(path: string, after: string)
    requires ' ' !in path && (after == [] || after[0] == ' ')
    ensures TakeWord(path + after) == (path, after)
  {
    var t := path + after;
    if after == [] {
      assert t == path;
      IndexOfAbsent(path, ' ');
    } else {
      assert t == path + [' '] + after[1..];
      IndexOfAfter(path, ' ', after[1..]);
    }
    assert t[..|path|] == path && t[|path|..] == after;
  }

  lemma TakeDriveEndSound(s: string)
    ensures TakeDriveEnd(s).Some? ==>
      var (backslash, trail, newline) := TakeDriveEnd(s).value;
      s == OptText(backslash, '\\') + (Blanks(trail) + OptText(newline, '\n'))
  {
    var (backslash, s1) := TakeChar(s, '\\');
    TakeCharSound(s, '\\');
    TakeBlanksSound(s1);
  }

  lemma TakeDriveEndComplete(backslash: bool, trail: nat, newline: bool)
    ensures TakeDriveEnd(OptText(backslash, '\\') + (Blanks(trail) + OptText(newline, '\n'))) == Some((backslash, trail, newline))
  {
    var s1 := Blanks(trail) + OptText(newline, '\n');
    TakeCharComplete(backslash, '\\', s1);
    TakeBlanksComplete(trail, OptText(newline, '\n'));
  }

  // ---------------------------------------------------------------------
  // The head

  lemma HeadSound(s: string)
    ensures MatchHead(s).Some? ==>
      var (h, t) := MatchHead(s).value;
      WfHead(h) && s == HeadText(h, t) && (t == [] || t[0] != ' ')
  {
    var (at, s1) := TakeChar(s, '@');
    var (lead, s2) := TakeBlanks(s1);
    TakeCharSound(s, '@');
    TakeBlanksSound(s1);
    TakeKeywordSound(s2);
    if TakeKeyword(s2).Some? {
      var (keyword, s3) := TakeKeyword(s2).value;
      var (gap, s4) := TakeBlanks(s3);
      if gap != 0 && s4 != [] && IsAsciiLetter(s4[0]) {
        var (colon, s5) := TakeChar(s4[1..], ':');
        var (gap2, s6) := TakeBlanks(s5);
        AfterKeywordSound(s3);
        assert s == OptText(at, '@') + (Blanks(lead) + (keyword + s3));
      }
    }
  }

  /** What follows the command word: blanks, the drive letter, an optional colon, blanks. */
  lemma AfterKeywordSound(s3: string)
    ensures var (gap, s4) := TakeBlanks(s3);
      gap != 0 && s4 != [] ==>
      var (colon, s5) := TakeChar(s4[1..], ':');
      var (gap2, s6) := TakeBlanks(s5);
      s3 == Blanks(gap) + ([s4[0]] + (OptText(colon, ':') + (Blanks(gap2) + s6))) && (s6 == [] || s6[0] != ' ')
  {
    var (gap, s4) := TakeBlanks(s3);
    TakeBlanksSound(s3);
    if gap != 0 && s4 != [] {
      var (colon, s5) := TakeChar(s4[1..], ':');
      TakeCharSound(s4[1..], ':');
      TakeBlanksSound(s5);
      assert s4 == [s4[0]] + s4[1..];
    }
  }

  lemma HeadComplete(h: Head, t: string)
    requires WfHead(h) && (t == [] || t[0] != ' ')
    ensures MatchHead(HeadText(h, t)) == Some((h, t))
  {
    var s5 := Blanks(h.gap2) + t;
    var s4 := [h.drive] + (OptText(h.colon, ':') + s5);
    var s3 := Blanks(h.gap) + s4;
    var s2 := h.keyword + s3;
    var s1 := Blanks(h.lead) + s2;
    assert Lower(h.keyword)[0] == LowerChar(h.keyword[0]);
    TakeCharComplete(h.at, '@', s1);
    TakeBlanksComplete(h.lead, s2);
    TakeKeywordComplete(h.keyword, s3);
    TakeBlanksComplete(h.gap, s4);
    assert s4[1..] == OptText(h.colon, ':') + s5;
    TakeCharComplete(h.colon, ':', s5);
    TakeBlanksComplete(h.gap2, t);
  }

  // ---------------------------------------------------------------------
  // The mount forms

  /** The quoted pattern accepts a line exactly when it is the text of a well-formed quoted mount, and returns that mount. */
  lemma QuotedExact(line: string, m: Mount)
    ensures MatchQuoted(line) == Some(m) <==> WfQuoted(m) && UnparseQuoted(m) == line
  {
    if MatchQuoted(line) == Some(m) {
      QuotedSound(line);
    }
    if WfQuoted(m) && UnparseQuoted(m) == line {
      QuotedComplete(m);
    }
  }

  lemma QuotedSound(line: string)
    requires MatchQuoted(line).Some?
    ensures WfQuoted(MatchQuoted(line).value) && UnparseQuoted(MatchQuoted(line).value) == line
  {
    HeadSound(line);
    var (h, t) := MatchHead(line).value;
    TakeQuotedPathSound(t);
    var (path, after) := TakeQuotedPath(t).value;
    TakeRestSound(after);
  }

  lemma QuotedComplete(m: Mount)
    requires WfQuoted(m)
    ensures MatchQuoted(UnparseQuoted(m)) == Some(m)
  {
    var after := m.rest + m.tail;
    HeadComplete(m.head, "\"" + (m.path + ("\"" + after)));
    TakeQuotedPathComplete(m.path, after);
    TakeRestComplete(m.rest, m.tail);
  }

  /** The unquoted pattern accepts a line exactly when it is the text of a well-formed unquoted mount, and returns that mount. */
  lemma UnquotedExact(line: string, m: Mount)
    ensures MatchUnquoted(line) == Some(m) <==> WfUnquoted(m) && UnparseUnquoted(m) == line
  {
    if MatchUnquoted(line) == Some(m) {
      UnquotedSound(line);
    }
    if WfUnquoted(m) && UnparseUnquoted(m) == line {
      UnquotedComplete(m);
    }
  }

  lemma UnquotedSound(line: string)
    requires MatchUnquoted(line).Some?
    ensures WfUnquoted(MatchUnquoted(line).value) && UnparseUnquoted(MatchUnquoted(line).value) == line
  {
    HeadSound(line);
    var (h, t) := MatchHead(line).value;
    TakeWordSound(t);
    var (path, after) := TakeWord(t);
    TakeRestSound(after);
  }

  lemma UnquotedComplete(m: Mount)
    requires WfUnquoted(m)
    ensures MatchUnquoted(UnparseUnquoted(m)) == Some(m)
  {
    var after := m.rest + m.tail;
    assert (m.path + after)[0] == m.path[0];
    HeadComplete(m.head, m.path + after);
    TakeWordComplete(m.path, after);
    TakeRestComplete(m.rest, m.tail);
  }

  // ---------------------------------------------------------------------
  // The drive change

  /** The drive-change pattern accepts a line exactly when it is the text of a well-formed drive change, and returns it. */
  lemma DriveExact(line: string, d: DriveChange)
    ensures MatchDrive(line) == Some(d) <==> WfDrive(d) && UnparseDrive(d) == line
  {
    if MatchDrive(line) == Some(d) {
      DriveSound(line);
    }
    if WfDrive(d) && UnparseDrive(d) == line {
      DriveComplete(d);
    }
  }

  lemma DriveSound(line: string)
    requires MatchDrive(line).Some?
    ensures WfDrive(MatchDrive(line).value) && UnparseDrive(MatchDrive(line).value) == line
  {
    var (at, s1) := TakeChar(line, '@');
    var (lead, s2) := TakeBlanks(s1);
    TakeCharSound(line, '@');
    TakeBlanksSound(s1);
    TakeDriveEndSound(s2[2..]);
    assert s2 == [s2[0], ':'] + s2[2..];
  }

  lemma DriveComplete(d: DriveChange)
    requires WfDrive(d)
    ensures MatchDrive(UnparseDrive(d)) == Some(d)
  {
    var end := OptText(d.backslash, '\\') + (Blanks(d.trail) + OptText(d.newline, '\n'));
    var s2 := [d.drive, ':'] + end;
    TakeCharComplete(d.at, '@', Blanks(d.lead) + s2);
    TakeBlanksComplete(d.lead, s2);
    assert s2[2..] == end;
    TakeDriveEndComplete(d.backslash, d.trail, d.newline);
  }
}
