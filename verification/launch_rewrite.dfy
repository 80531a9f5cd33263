/**
 * The launch lines the configuration appends for a program meet the autoexec
 * rewriter when the user configuration is written: what they become there.
 */
module LaunchRewrite {
  import opened Text
  import opened AutoexecSyntax
  import opened AutoexecRewrite
  import Merge
  import PosixPath

  /** Every mount head holds a blank: the one after the command word. */
  lemma HeadHasBlank(h: Head, t: string)
    requires WfHead(h)
    ensures ' ' in HeadText(h, t)
  {
    var k := |OptText(h.at, '@')| + h.lead + |h.keyword|;
    assert HeadText(h, t)[k] == ' ';
  }

  /** Every drive change holds a colon: the one after the drive letter. */
  lemma DriveHasColon(d: DriveChange)
    ensures ':' in UnparseDrive(d)
  {
    var k := |OptText(d.at, '@')| + d.lead + 1;
    assert UnparseDrive(d)[k] == ':';
  }

  /** A drive change starts with `@`, a blank, or a letter and a colon. */
  lemma DriveStart(d: DriveChange)
    ensures var s := UnparseDrive(d);
      |s| >= 2 && (s[0] == '@' || s[0] == ' ' || s[1] == ':')
  {
    if !d.at && d.lead == 0 {
      assert UnparseDrive(d)[..2] == [d.drive, ':'];
    }
  }

  /** A line without a blank is no mount, and one without a colon either is no drive change: it is kept. */
  lemma PlainWordKept(env: Env, line: string)
    requires ' ' !in line && ':' !in line
    ensures ConvertLine(env, line) == line
  {
    if MatchQuoted(line).Some? {
      QuotedSound(line);
      HeadHasBlank(MatchQuoted(line).value.head, "\"" + (MatchQuoted(line).value.path + ("\"" + (MatchQuoted(line).value.rest + MatchQuoted(line).value.tail))));
    }
    if MatchUnquoted(line).Some? {
      UnquotedSound(line);
      var m := MatchUnquoted(line).value;
      HeadHasBlank(m.head, m.path + (m.rest + m.tail));
    }
    if MatchDrive(line).Some? {
      DriveSound(line);
      DriveHasColon(MatchDrive(line).value);
    }
  }

  /** `call FILE` is kept: `call` is no mount command, and no colon follows its first letter. */
  lemma CallKept(env: Env, file: string)
    ensures ConvertLine(env, "call " + file) == "call " + file
  {
    var line := "call " + file;
    assert Lower(line[..5])[1] == 'a';
    if |line| >= 8 {
      assert Lower(line[..8])[0] == 'c';
    }
    assert TakeKeyword(line).None?;
    assert MatchHead(line).None?;
    if MatchDrive(line).Some? {
      DriveSound(line);
      DriveStart(MatchDrive(line).value);
    }
  }

  /** The text of `s` before its first newline: as far as the `.*` of a mount's rest reaches. */
  function FirstLine(s: string): (r: string)
    ensures r <= s && '\n' !in r
    ensures r == s || s[|r|] == '\n'
  {
    if s == [] || s[0] == '\n' then [] else [s[0]] + FirstLine(s[1..])
  }

  /**
   * `mount C DIR` is rewritten to mount the converted first word of `DIR`
   * in quotes; blanks before that word are dropped, and whatever follows a
   * blank after it is kept after the quotes as if it were further arguments
   * of `mount`, up to the first newline: the text from there on is lost.
   */
  lemma LaunchMountRewrite(env: Env, dir: string, lead: nat, word: string, more: string)
    requires dir == Blanks(lead) + word + more && word != [] && ' ' !in word && word[0] != '"'
    requires more == [] || more[0] == ' '
    ensures ConvertLine(env, "mount C " + dir) == "mount C \"" + env.toPosix(word) + "\"" + FirstLine(more)
  {
    var m := LaunchMount(lead, word, more);
    LaunchMountText(lead, word, more);
    UnquotedMountRewrite(env, m);
    MountCLine(env, m);
  }

  /** The mount record the unquoted pattern reads off `mount C DIR`. */
  function LaunchMount(lead: nat, word: string, more: string): Mount
  {
    var rest := FirstLine(more);
    Mount(Head(false, 0, "mount", 1, 'C', false, 1 + lead), word, rest, more[|rest|..])
  }

  lemma LaunchMountText(lead: nat, word: string, more: string)
    requires word != [] && ' ' !in word && word[0] != '"' && (more == [] || more[0] == ' ')
    ensures var m := LaunchMount(lead, word, more);
      && WfUnquoted(m) && m.path[0] != '"' && m.head.keyword == "mount" && m.head.drive == 'C'
      && UnparseUnquoted(m) == "mount C " + (Blanks(lead) + word + more)
  {
    var rest := FirstLine(more);
    var tail := more[|rest|..];
    assert more == rest + tail;
    PlainText("mount", 'C', lead, word, rest, tail);
    assert "mount" + " " + ['C'] + " " == "mount C ";
    assert Blanks(lead) + word + more == Blanks(lead) + (word + (rest + tail));
  }

  /** The text of an unquoted mount with no `@`, a single blank before the drive, no colon, and `1 + lead` blanks after it. */
  lemma PlainText(keyword: string, drive: char, lead: nat, path: string, rest: string, tail: string)
    ensures UnparseUnquoted(Mount(Head(false, 0, keyword, 1, drive, false, 1 + lead), path, rest, tail))
      == keyword + " " + [drive] + " " + (Blanks(lead) + (path + (rest + tail)))
  {
    assert Blanks(1) == " " && Blanks(0) == [];
    assert Blanks(1 + lead) == " " + Blanks(lead);
    assert OptText(false, '@') == [] && OptText(false, ':') == [];
    assert UnparseUnquoted(Mount(Head(false, 0, keyword, 1, drive, false, 1 + lead), path, rest, tail))
      == keyword + (" " + ([drive] + ((" " + Blanks(lead)) + (path + (rest + tail)))));
  }

  /** What a `mount C` head is rewritten to, whatever its blanks. */
  lemma MountCLine(env: Env, m: Mount)
    requires m.head.keyword == "mount" && m.head.drive == 'C'
    ensures MountLine(env, m) == "mount C \"" + env.toPosix(m.path) + "\"" + m.rest
  {
    assert Lower("mount") == "mount" && UpperChar('C') == 'C';
    assert "mount" + " " + ['C'] + " \"" == "mount C \"";
  }

  /**
   * The launch lines as they reach the user configuration: the mount of the
   * program's directory (its first word, quoted and converted), the drive
   * change kept as `C:`, the program line kept, and `exit` kept.
   */
  lemma LaunchLinesRewritten(env: Env, posixExe: string, exitAfterExe: bool, lead: nat, word: string, more: string)
    requires var (dir, file) := PosixPath.Split(posixExe);
      && (if dir == "" then "." else dir) == Blanks(lead) + word + more
      && word != [] && ' ' !in word && word[0] != '"'
      && (more == [] || more[0] == ' ')
      && (!Merge.IsBatchFile(file) ==> ' ' !in file && ':' !in file)
    ensures var (dir, file) := PosixPath.Split(posixExe);
      ToLinuxAutoexec(env, Merge.LaunchLines(posixExe, exitAfterExe))
      == ["mount C \"" + env.toPosix(word) + "\"" + FirstLine(more), "C:", if Merge.IsBatchFile(file) then "call " + file else file]
        + (if exitAfterExe then ["exit"] else [])
  {
    var (dir, file) := PosixPath.Split(posixExe);
    var mount := "mount C " + (if dir == "" then "." else dir);
    var run := if Merge.IsBatchFile(file) then "call " + file else file;
    LaunchMountRewrite(env, if dir == "" then "." else dir, lead, word, more);
    if Merge.IsBatchFile(file) {
      CallKept(env, file);
    } else {
      PlainWordKept(env, file);
    }
    BlockRewritten(env, mount, run, exitAfterExe, "mount C \"" + env.toPosix(word) + "\"" + FirstLine(more));
  }

  /** The four launch lines are rewritten line by line. */
  lemma BlockRewritten(env: Env, mount: string, run: string, exitAfterExe: bool, mounted: string)
    requires ConvertLine(env, mount) == mounted && ConvertLine(env, run) == run
    ensures ToLinuxAutoexec(env, [mount, "C:", run] + (if exitAfterExe then ["exit"] else []))
      == [mounted, "C:", run] + (if exitAfterExe then ["exit"] else [])
  {
    DriveKept(env);
    ExitKept(env);
    var lines := [mount, "C:", run] + (if exitAfterExe then ["exit"] else []);
    var r := ToLinuxAutoexec(env, lines);
    assert r[0] == mounted && r[1] == "C:" && r[2] == run;
    if exitAfterExe {
      assert r[3] == "exit";
    }
  }

  lemma DriveKept(env: Env)
    ensures ConvertLine(env, "C:") == "C:"
  {
    DriveChangeRewrite(env, DriveChange(false, 0, 'C', false, 0, false));
    assert UnparseDrive(DriveChange(false, 0, 'C', false, 0, false)) == "C:";
  }

  lemma ExitKept(env: Env)
    ensures ConvertLine(env, "exit") == "exit"
  {
    PlainWordKept(env, "exit");
  }
}
