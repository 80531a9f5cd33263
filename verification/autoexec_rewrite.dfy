/**
 * `to_linux_autoexec`: every autoexec line is rewritten on its own. A mount
 * line (quoted form first, then unquoted) becomes a canonical mount command
 * with the path converted to a case-correct POSIX path; a drive change
 * becomes the bare upper-case drive; every other line is kept as it is.
 */
module AutoexecRewrite {
  import opened Wrappers
  import opened Text
  import opened AutoexecSyntax

  /**
   * The world the rewriter consults: the case-resolving path converter, and
   * the two questions asked of the cue-sheet scanner (is the file a cue sheet,
   * and do the paths inside it resolve as written).
   */
  datatype Env = Env(toPosix: string -> string, isCueFile: string -> bool, validCuePaths: string -> bool)

  /** The name of the repaired cue sheet `convert_cue_file` writes and mounts instead. */
  const FIXED_CUE := "boxtron.cue"

  /** `convert_cue_file(path)`: a cue sheet whose paths do not resolve is replaced by the repaired copy. */
  function ConvertCueFile(env: Env, path: string): (r: string)
    ensures r == path || r == FIXED_CUE
    ensures r == FIXED_CUE <==> path == FIXED_CUE || (env.isCueFile(path) && !env.validCuePaths(path))
  {
    if !env.isCueFile(path) then path
    else if env.validCuePaths(path) then path
    else FIXED_CUE
  }

  /** The path a mount line is rewritten to: converted, and for `imgmount` passed through the cue-sheet check. */
  function MountPath(env: Env, m: Mount): string
  {
    var path := env.toPosix(m.path);
    if Lower(m.head.keyword) == "imgmount" then ConvertCueFile(env, path) else path
  }

  /** `'{0} {1} "{2}"{3}'.format(cmd, drive, path, rest)` with the command lower-cased and the drive upper-cased. */
  function MountLine(env: Env, m: Mount): string
  {
    Lower(m.head.keyword) + " " + [UpperChar(m.head.drive)] + " \"" + MountPath(env, m) + "\"" + m.rest
  }

  /** `mount_cmd_1.match(line) or mount_cmd_2.match(line)`. */
  function MountOf(line: string): Option<Mount>
  {
    match MatchQuoted(line)
    case Some(m) => Some(m)
    case None => MatchUnquoted(line)
  }

  /** The rewriting of one line: a mount, else a drive change, else the line itself. */
  function ConvertLine(env: Env, line: string): string
  {
    match MountOf(line)
    case Some(m) => MountLine(env, m)
    case None =>
      match MatchDrive(line)
      case Some(d) => [UpperChar(d.drive), ':']
      case None => line
  }

  /** `to_linux_autoexec(autoexec)`: one output line for every input line, in order. */
  function ToLinuxAutoexec(env: Env, lines: seq<string>): (r: seq<string>)
    ensures |r| == |lines|
    ensures forall i :: 0 <= i < |lines| ==> r[i] == ConvertLine(env, lines[i])
  {
    if lines == [] then []
    else [ConvertLine(env, lines[0])] + ToLinuxAutoexec(env, lines[1..])
  }

  // ---------------------------------------------------------------------
  // What happens to each kind of line

  /** A well-formed quoted mount is rewritten to its canonical form. */
  lemma QuotedMountRewrite(env: Env, m: Mount)
    requires WfQuoted(m)
    ensures MountOf(UnparseQuoted(m)) == Some(m)
    ensures ConvertLine(env, UnparseQuoted(m)) == MountLine(env, m)
  {
    QuotedComplete(m);
  }

  /**
   * A well-formed unquoted mount whose path does not start with a quote is
   * rewritten to its canonical form (a path starting with a quote may be
   * taken by the quoted pattern instead).
   */
  lemma UnquotedMountRewrite(env: Env, m: Mount)
    requires WfUnquoted(m) && m.path[0] != '"'
    ensures MountOf(UnparseUnquoted(m)) == Some(m)
    ensures ConvertLine(env, UnparseUnquoted(m)) == MountLine(env, m)
  {
    UnquotedComplete(m);
    var line := UnparseUnquoted(m);
    HeadComplete(m.head, m.path + (m.rest + m.tail));
    assert MatchQuoted(line).None?;
  }

  /** A drive change, in any of its spellings, becomes the upper-case drive and a colon. */
  lemma DriveChangeRewrite(env: Env, d: DriveChange)
    requires WfDrive(d)
    ensures ConvertLine(env, UnparseDrive(d)) == [UpperChar(d.drive), ':']
  {
    DriveComplete(d);
    NotAMount(UnparseDrive(d), d);
    assert MountOf(UnparseDrive(d)).None?;
  }

  /** A drive change is not a mount line: after the drive letter comes a colon, not the rest of `mount`. */
  lemma NotAMount(line: string, d: DriveChange)
    requires WfDrive(d) && line == UnparseDrive(d)
    ensures MatchHead(line).None?
  {
    var s2 := [d.drive, ':'] + (OptText(d.backslash, '\\') + (Blanks(d.trail) + OptText(d.newline, '\n')));
    var s1 := Blanks(d.lead) + s2;
    TakeCharComplete(d.at, '@', s1);
    TakeBlanksComplete(d.lead, s2);
    NoKeywordBeforeColon(s2);
  }

  lemma NoKeywordBeforeColon(s: string)
    requires |s| >= 2 && s[1] == ':'
    ensures TakeKeyword(s).None?
  {
    if |s| >= 5 {
      assert Lower(s[..5])[1] == ':';
    }
    if |s| >= 8 {
      assert Lower(s[..8])[1] == ':';
    }
  }

  /** A line that is none of the three shapes is passed through unchanged. */
  lemma OtherLinesPassThrough(env: Env, line: string)
    requires forall m :: WfQuoted(m) ==> UnparseQuoted(m) != line
    requires forall m :: WfUnquoted(m) ==> UnparseUnquoted(m) != line
    requires forall d :: WfDrive(d) ==> UnparseDrive(d) != line
    ensures ConvertLine(env, line) == line
  {
    if MatchQuoted(line).Some? {
      QuotedSound(line);
    }
    if MatchUnquoted(line).Some? {
      UnquotedSound(line);
    }
    if MatchDrive(line).Some? {
      DriveSound(line);
    }
  }

  // ---------------------------------------------------------------------
  // The output form

  /** The mount a rewritten line spells: no `@`, single blanks, no colon, lower-case command, upper-case drive, quoted path. */
  function Canonical(env: Env, m: Mount): Mount
  {
    Mount(Head(false, 0, Lower(m.head.keyword), 1, UpperChar(m.head.drive), false, 1), MountPath(env, m), m.rest, [])
  }

  /** A rewritten mount line is itself a well-formed quoted mount, the canonical one, whenever its path is not empty and holds no quote. */
  lemma MountLineShape(env: Env, m: Mount)
    requires WfHead(m.head) && WfRest(m.rest, [])
    requires MountPath(env, m) != [] && '"' !in MountPath(env, m)
    ensures WfQuoted(Canonical(env, m))
    ensures UnparseQuoted(Canonical(env, m)) == MountLine(env, m)
  {
    LowerTwice(m.head.keyword);
    CanonicalText(Lower(m.head.keyword), UpperChar(m.head.drive), MountPath(env, m), m.rest);
  }

  /** The text of a mount with no `@`, single blanks, no colon and a quoted path. */
  lemma CanonicalText(keyword: string, drive: char, path: string, rest: string)
    ensures UnparseQuoted(Mount(Head(false, 0, keyword, 1, drive, false, 1), path, rest, []))
      == keyword + " " + [drive] + " \"" + path + "\"" + rest
  {
    assert Blanks(1) == " " && Blanks(0) == [];
    assert OptText(false, '@') == [] && OptText(false, ':') == [];
    assert UnparseQuoted(Mount(Head(false, 0, keyword, 1, drive, false, 1), path, rest, []))
      == keyword + (" " + ([drive] + (" " + ("\"" + (path + ("\"" + (rest + [])))))));
  }

  lemma LowerTwice(s: string)
    ensures Lower(Lower(s)) == Lower(s)
  {
  }

  /** The path a rewrite produces is stable when converting it again, and checking it as a cue sheet again, leave it as it is. */
  predicate StablePath(env: Env, m: Mount)
  {
    var path := MountPath(env, m);
    && path != [] && '"' !in path
    && env.toPosix(path) == path
    && (Lower(m.head.keyword) == "imgmount" ==> ConvertCueFile(env, path) == path)
  }

  /**
   * Rewriting is idempotent: a rewritten line is rewritten to itself, provided
   * the path it mounts (if any) is stable.
   */
  lemma ConvertLineIdempotent(env: Env, line: string)
    requires MountOf(line).Some? ==> StablePath(env, MountOf(line).value)
    ensures ConvertLine(env, ConvertLine(env, line)) == ConvertLine(env, line)
  {
    match MountOf(line)
    case Some(m) =>
      MountSyntaxWf(line);
      var c := Canonical(env, m);
      MountLineShape(env, m);
      QuotedComplete(c);
      LowerTwice(m.head.keyword);
      assert MountPath(env, c) == MountPath(env, m);
    case None =>
      match MatchDrive(line)
      case Some(d) =>
        DriveSound(line);
        DriveChangeRewrite(env, DriveChange(false, 0, UpperChar(d.drive), false, 0, false));
        assert UnparseDrive(DriveChange(false, 0, UpperChar(d.drive), false, 0, false)) == [UpperChar(d.drive), ':'];
      case None =>
  }

  /** What the mount patterns find is well formed: its head, and what follows its path. */
  lemma MountSyntaxWf(line: string)
    requires MountOf(line).Some?
    ensures WfHead(MountOf(line).value.head) && WfRest(MountOf(line).value.rest, [])
  {
    if MatchQuoted(line).Some? {
      QuotedSound(line);
    } else {
      UnquotedSound(line);
    }
  }

  /** The command word and the drive letter are matched regardless of case: two spellings of one quoted mount are rewritten alike. */
  lemma QuotedMountIgnoresCase(env: Env, m: Mount, keyword: string, drive: char)
    requires WfQuoted(m) && EqualIgnoringCase(keyword, m.head.keyword)
    requires IsAsciiLetter(drive) && UpperChar(drive) == UpperChar(m.head.drive)
    ensures ConvertLine(env, UnparseQuoted(m.(head := m.head.(keyword := keyword, drive := drive))))
      == ConvertLine(env, UnparseQuoted(m))
  {
    var m' := m.(head := m.head.(keyword := keyword, drive := drive));
    QuotedMountRewrite(env, m);
    QuotedMountRewrite(env, m');
  }

  /**
   * The same for the unquoted pattern: two spellings of one unquoted mount are
   * rewritten alike. This holds also when the path starts with a quote, since
   * whichever pattern claims one spelling claims the other.
   */
  lemma UnquotedMountIgnoresCase(env: Env, m: Mount, keyword: string, drive: char)
    requires WfUnquoted(m) && EqualIgnoringCase(keyword, m.head.keyword)
    requires IsAsciiLetter(drive) && UpperChar(drive) == UpperChar(m.head.drive)
    ensures ConvertLine(env, UnparseUnquoted(m.(head := m.head.(keyword := keyword, drive := drive))))
      == ConvertLine(env, UnparseUnquoted(m))
  {
    var h' := m.head.(keyword := keyword, drive := drive);
    var t := m.path + (m.rest + m.tail);
    assert t[0] == m.path[0];
    UnquotedComplete(m);
    Respelled(m.head, h', t);
    var x := MountOf(HeadText(m.head, t)).value;
    assert MountLine(env, x.(head := h')) == MountLine(env, x);
  }

  /** Respelling a mount's head leaves the rest of the match as it was, whichever pattern takes the line. */
  lemma Respelled(h: Head, h': Head, t: string)
    requires WfHead(h) && WfHead(h') && (t == [] || t[0] != ' ')
    ensures MountOf(HeadText(h', t)).Some? == MountOf(HeadText(h, t)).Some?
    ensures MountOf(HeadText(h, t)).Some? ==>
      MountOf(HeadText(h', t)) == Some(MountOf(HeadText(h, t)).value.(head := h'))
  {
    var line, line' := HeadText(h, t), HeadText(h', t);
    HeadComplete(h, t);
    HeadComplete(h', t);
    assert MatchQuoted(line').Some? == MatchQuoted(line).Some?;
    assert MatchQuoted(line).Some? ==> MatchQuoted(line') == Some(MatchQuoted(line).value.(head := h'));
    assert MatchUnquoted(line').Some? == MatchUnquoted(line).Some?;
    assert MatchUnquoted(line).Some? ==> MatchUnquoted(line') == Some(MatchUnquoted(line).value.(head := h'));
  }
}
