/**
 * The layering rules of `DosboxConfiguration`, stated on values: how one
 * parsed source's sections are folded into the configuration, how `set`
 * behaves, and the whole construction as one function of its inputs
 * (`Resolve`), with the properties the construction promises.
 */
module Merge {
  import opened Wrappers
  import opened Text
  import opened Ini
  import PosixPath
  import AutoexecCapture

  /** The dict key under which the autoexec list lives; it is present from the start. */
  const AUTOEXEC := "autoexec"

  /** The encoding a configuration starts with, and the one that never replaces another. */
  const UTF8 := "utf-8"

  /**
   * One configuration file as read from disk: the sections configparser's
   * first pass found, the raw text lines the second pass scans, and the
   * encoding that decoded the file.
   */
  datatype ConfText = ConfText(layer: Layer, lines: seq<string>, encoding: string)

  /**
   * The configuration's state: the dict's keys in insertion order (`names`,
   * `autoexec` first), the option dict of every key but `autoexec`
   * (`sections`), the autoexec command list, and the output encoding.
   */
  datatype Conf = Conf(names: seq<string>, sections: map<string, Options>, autoexec: seq<string>, encoding: string)

  /** The keyword arguments of the constructor. */
  datatype Invocation = Invocation(
    commands: seq<string>,
    confFiles: seq<string>,
    exe: Option<string>,
    noautoexec: bool,
    exitAfterExe: bool,
    tweak: Layer)

  /**
   * What the constructor asks of the world: the case-resolving path converter,
   * the file-existence test, and reading and parsing a configuration file.
   */
  datatype Host = Host(
    toPosix: string -> string,
    isFile: string -> bool,
    readConf: string -> ConfText)

  /** What the constructor asserts: at least one of commands, configuration files or program. */
  predicate Meaningful(inv: Invocation)
  {
    inv.commands != [] || inv.confFiles != [] || Launches(inv.exe)
  }

  /** `if exe:` — a program is given and its path is not empty. */
  predicate Launches(exe: Option<string>)
  {
    exe.Some? && exe.value != ""
  }

  /** The invariant of the state: `autoexec` comes first, keys are distinct, and every other key has an option dict. */
  ghost predicate WellFormed(c: Conf)
  {
    && |c.names| > 0 && c.names[0] == AUTOEXEC
    && AUTOEXEC !in c.sections
    && (forall i, j :: 0 <= i < j < |c.names| ==> c.names[i] != c.names[j])
    && (forall n :: n in c.names <==> n == AUTOEXEC || n in c.sections)
  }

  /** The state right after `self['autoexec'] = []` and `self.encoding = 'utf-8'`. */
  function Initial(): (c: Conf)
    ensures WellFormed(c)
  {
    Conf([AUTOEXEC], map[], [], UTF8)
  }

  /** `has_section(name)`: a key of the dict, so `autoexec` always counts. */
  predicate HasSection(c: Conf, name: string)
  {
    name in c.names
  }

  /** The value of option `k` in section `n`, if both exist. */
  function OptionValue(c: Conf, n: string, k: string): Option<Value>
  {
    if n in c.sections then Lookup(c.sections[n], k) else None
  }

  /** Section `n` is present in both states or in neither, with the same options. */
  predicate Untouched(c: Conf, r: Conf, n: string)
  {
    && (n in c.sections <==> n in r.sections)
    && (n in c.sections ==> r.sections[n] == c.sections[n])
  }

  /**
   * One step of `__import_ini_sections__`: section `name` of a source is
   * skipped when it is `autoexec`, added whole when the configuration lacks
   * it (for a well-formed state, `name !in c.sections` is `not has_section`),
   * and otherwise merged option by option, the source's values winning.
   */
  function ImportSection(c: Conf, name: string, opts: Options): (r: Conf)
    ensures r.autoexec == c.autoexec && r.encoding == c.encoding
  {
    if name == AUTOEXEC then c
    else if name !in c.sections then
      c.(names := c.names + [name], sections := c.sections[name := opts])
    else
      c.(sections := c.sections[name := PutAll(c.sections[name], opts)])
  }

  /** `__import_ini_sections__(config)`: every section of a source, in order. */
  function ImportSections(c: Conf, layer: Layer): (r: Conf)
    ensures r.autoexec == c.autoexec && r.encoding == c.encoding
    decreases |layer|
  {
    if layer == [] then c
    else ImportSection(ImportSections(c, layer[..|layer| - 1]), layer[|layer| - 1].0, layer[|layer| - 1].1)
  }

  /**
   * Importing one section keeps the state well formed and touches no other
   * section; a new section is added whole and listed last; in an existing
   * one, an option the source defines takes the source's value and every
   * other option keeps its value.
   */
  lemma ImportSectionMeaning(c: Conf, name: string, opts: Options)
    requires WellFormed(c)
    ensures var r := ImportSection(c, name, opts);
      && WellFormed(r)
      && (forall n :: n != name ==> Untouched(c, r, n))
      && (name == AUTOEXEC ==> r == c)
      && (name != AUTOEXEC ==> name in r.sections && forall k ::
            OptionValue(r, name, k) == if Defines(opts, k) then Lookup(opts, k) else OptionValue(c, name, k))
      && (name != AUTOEXEC && name !in c.sections ==> r.sections[name] == opts && r.names == c.names + [name])
      && (name != AUTOEXEC && name in c.sections ==> r.names == c.names)
  {
    if name != AUTOEXEC && name in c.sections {
      PutAllMeaning(c.sections[name], opts);
    }
  }

  /**
   * Importing a source keeps the state well formed and only appends names.
   * Sections the source does not name are untouched; a section is present
   * afterwards when it was before or the source names it; an option the
   * source defines takes the source's value (its last entry for that
   * section defining it), and every other option keeps its value.
   */
  lemma {:induction false} ImportSectionsMeaning(c: Conf, layer: Layer)
    requires WellFormed(c)
    ensures var r := ImportSections(c, layer);
      && WellFormed(r)
      && |c.names| <= |r.names| && r.names[..|c.names|] == c.names
      && (forall n :: n !in SectionNames(layer) ==> Untouched(c, r, n))
      && (forall n :: n != AUTOEXEC ==> (n in r.sections <==> n in c.sections || n in SectionNames(layer)))
      && (forall n, k :: n != AUTOEXEC ==>
            OptionValue(r, n, k) == if LayerLookup(layer, n, k).Some? then LayerLookup(layer, n, k) else OptionValue(c, n, k))
    decreases |layer|
  {
    if layer != [] {
      var prefix := layer[..|layer| - 1];
      var c' := ImportSections(c, prefix);
      ImportSectionsMeaning(c, prefix);
      ImportSectionMeaning(c', layer[|layer| - 1].0, layer[|layer| - 1].1);
      ImportSectionsStep(c, layer, c', ImportSections(c, layer));
    }
  }

  lemma ImportSectionsStep(c: Conf, layer: Layer, c': Conf, r: Conf)
    requires WellFormed(c) && WellFormed(c') && layer != []
    requires var prefix := layer[..|layer| - 1];
      && |c.names| <= |c'.names| && c'.names[..|c.names|] == c.names
      && (forall n :: n !in SectionNames(prefix) ==> Untouched(c, c', n))
      && (forall n :: n != AUTOEXEC ==> (n in c'.sections <==> n in c.sections || n in SectionNames(prefix)))
      && (forall n, k :: n != AUTOEXEC ==>
            OptionValue(c', n, k) == if LayerLookup(prefix, n, k).Some? then LayerLookup(prefix, n, k) else OptionValue(c, n, k))
    requires r == ImportSection(c', layer[|layer| - 1].0, layer[|layer| - 1].1)
    ensures |c.names| <= |r.names| && r.names[..|c.names|] == c.names
    ensures forall n :: n !in SectionNames(layer) ==> Untouched(c, r, n)
    ensures forall n :: n != AUTOEXEC ==> (n in r.sections <==> n in c.sections || n in SectionNames(layer))
    ensures forall n, k :: n != AUTOEXEC ==>
      OptionValue(r, n, k) == if LayerLookup(layer, n, k).Some? then LayerLookup(layer, n, k) else OptionValue(c, n, k)
  {
    var prefix := layer[..|layer| - 1];
    var (name, opts) := layer[|layer| - 1];
    assert SectionNames(layer) == SectionNames(prefix) + [name];
    ImportSectionMeaning(c', name, opts);
    ImportShapeStep(c, layer, c', r);
    forall n, k | n != AUTOEXEC
      ensures OptionValue(r, n, k) == if LayerLookup(layer, n, k).Some? then LayerLookup(layer, n, k) else OptionValue(c, n, k)
    {
      ImportValueStep(c, layer, c', r, n, k);
    }
  }

  lemma ImportShapeStep(c: Conf, layer: Layer, c': Conf, r: Conf)
    requires WellFormed(c) && WellFormed(c') && layer != []
    requires var prefix := layer[..|layer| - 1];
      && |c.names| <= |c'.names| && c'.names[..|c.names|] == c.names
      && (forall n :: n !in SectionNames(prefix) ==> Untouched(c, c', n))
      && (forall n :: n != AUTOEXEC ==> (n in c'.sections <==> n in c.sections || n in SectionNames(prefix)))
    requires r == ImportSection(c', layer[|layer| - 1].0, layer[|layer| - 1].1)
    ensures |c.names| <= |r.names| && r.names[..|c.names|] == c.names
    ensures forall n :: n !in SectionNames(layer) ==> Untouched(c, r, n)
    ensures forall n :: n != AUTOEXEC ==> (n in r.sections <==> n in c.sections || n in SectionNames(layer))
  {
    var prefix := layer[..|layer| - 1];
    var name := layer[|layer| - 1].0;
    ImportSectionMeaning(c', name, layer[|layer| - 1].1);
    SectionNamesSnoc(layer);
    PrefixOfPrefix(c.names, c'.names, r.names);
    forall n | n !in SectionNames(layer) ensures Untouched(c, r, n) {
      assert Untouched(c, c', n) && Untouched(c', r, n);
    }
    forall n | n != AUTOEXEC ensures n in r.sections <==> n in c.sections || n in SectionNames(layer) {
      PresenceStep(c, c', r, n, name, SectionNames(prefix));
    }
  }

  lemma SectionNamesSnoc(layer: Layer)
    requires layer != []
    ensures SectionNames(layer) == SectionNames(layer[..|layer| - 1]) + [layer[|layer| - 1].0]
  {
  }

  lemma PrefixOfPrefix(a: seq<string>, b: seq<string>, c: seq<string>)
    requires |a| <= |b| && b[..|a|] == a && |b| <= |c| && c[..|b|] == b
    ensures |a| <= |c| && c[..|a|] == a
  {
    assert c[..|a|] == c[..|b|][..|a|];
  }

  lemma PresenceStep(c: Conf, c': Conf, r: Conf, n: string, name: string, before: seq<string>)
    requires n != AUTOEXEC
    requires n in c'.sections <==> n in c.sections || n in before
    requires n != name ==> Untouched(c', r, n)
    requires name != AUTOEXEC ==> name in r.sections
    requires name == AUTOEXEC ==> r == c'
    ensures n in r.sections <==> n in c.sections || n in before + [name]
  {
  }

  lemma ImportValueStep(c: Conf, layer: Layer, c': Conf, r: Conf, n: string, k: string)
    requires WellFormed(c) && WellFormed(c') && layer != [] && n != AUTOEXEC
    requires var prefix := layer[..|layer| - 1];
      OptionValue(c', n, k) == if LayerLookup(prefix, n, k).Some? then LayerLookup(prefix, n, k) else OptionValue(c, n, k)
    requires r == ImportSection(c', layer[|layer| - 1].0, layer[|layer| - 1].1)
    ensures OptionValue(r, n, k) == if LayerLookup(layer, n, k).Some? then LayerLookup(layer, n, k) else OptionValue(c, n, k)
  {
    var (name, opts) := layer[|layer| - 1];
    ImportSectionMeaning(c', name, opts);
    if n != name {
      assert Untouched(c', r, n);
    }
  }

  /**
   * Why `set` fails. In the source both cases end in `TypeError`: a missing
   * section because `NoSectionError` is raised without the `section` argument
   * its constructor needs, and `autoexec` because that key holds a list,
   * which a string cannot index. The model keeps the two causes apart.
   */
  datatype SetError = MissingSection | AutoexecIsNotASection

  /** `set(section, option, value)` on a state. */
  function SetOption(c: Conf, section: string, option: string, value: Value): Result<Conf, SetError>
    requires WellFormed(c)
  {
    if !HasSection(c, section) then Failure(MissingSection)
    else if section == AUTOEXEC then Failure(AutoexecIsNotASection)
    else Success(c.(sections := c.sections[section := Put(c.sections[section], option, value)]))
  }

  /**
   * `set` fails with `MissingSection` exactly when the section is absent, and
   * fails on `autoexec`; otherwise only that one option changes and the
   * state stays well formed.
   */
  lemma SetOptionMeaning(c: Conf, section: string, option: string, value: Value)
    requires WellFormed(c)
    ensures var r := SetOption(c, section, option, value);
      && (r == Failure(MissingSection) <==> !HasSection(c, section))
      && (r.Failure? <==> !HasSection(c, section) || section == AUTOEXEC)
      && (r.Success? ==>
            && WellFormed(r.value)
            && r.value.names == c.names && r.value.autoexec == c.autoexec && r.value.encoding == c.encoding
            && OptionValue(r.value, section, option) == Some(value)
            && (forall n, k :: (n, k) != (section, option) ==> OptionValue(r.value, n, k) == OptionValue(c, n, k))
            && (forall n :: n != section ==> Untouched(c, r.value, n)))
  {
    if section in c.sections {
      PutMeaning(c.sections[section], option, value);
    }
  }

  /** `set` on an existing section other than `autoexec` succeeds with that one option put. */
  lemma SetOptionExisting(c: Conf, section: string, option: string, value: Value)
    requires WellFormed(c) && section in c.sections
    ensures SetOption(c, section, option, value)
      == Success(c.(sections := c.sections[section := Put(c.sections[section], option, value)]))
  {
  }

  /** `file.lower().endswith('.bat')`. */
  predicate IsBatchFile(file: string)
  {
    |file| >= 4 && Lower(file[|file| - 4..]) == ".bat"
  }

  /** The lines appended for the program `exe` (already converted to a POSIX path). */
  function LaunchLines(posixExe: string, exitAfterExe: bool): seq<string>
  {
    var (dir, file) := PosixPath.Split(posixExe);
    ["mount C " + (if dir == "" then "." else dir), "C:", if IsBatchFile(file) then "call " + file else file]
      + (if exitAfterExe then ["exit"] else [])
  }

  /**
   * What the launch lines are, for the program's directory `dir` and file
   * name `file` (`os.path.split` of its path): the mount of the directory,
   * `.` when there is none; the drive change; `call FILE` exactly for a
   * `.bat` file (in any case), the bare name otherwise; and `exit` as a
   * fourth line exactly when asked for.
   */
  lemma LaunchLinesMeaning(posixExe: string, exitAfterExe: bool)
    ensures var r, (dir, file) := LaunchLines(posixExe, exitAfterExe), PosixPath.Split(posixExe);
      && r[0] == "mount C " + (if dir == "" then "." else dir)
      && r[1] == "C:"
      && (r[2] == "call " + file <==> IsBatchFile(file))
      && (!IsBatchFile(file) ==> r[2] == file)
      && (|r| == 4 && r[3] == "exit" <==> exitAfterExe)
      && (!exitAfterExe ==> |r| == 3)
  {
    var (dir, file) := PosixPath.Split(posixExe);
    assert |"call " + file| != |file|;
  }

  /** The launch lines appended one at a time, as the constructor does, give `LaunchLines`. */
  lemma LaunchLinesAppended(before: seq<string>, posixExe: string, exitAfterExe: bool, after: seq<string>)
    requires var (dir, file) := PosixPath.Split(posixExe);
      var mounted := before + ["mount C " + (if dir == "" then "." else dir)] + ["C:"]
        + [if IsBatchFile(file) then "call " + file else file];
      after == if exitAfterExe then mounted + ["exit"] else mounted
    ensures after == before + LaunchLines(posixExe, exitAfterExe)
  {
  }

  /** Well-formedness does not depend on the autoexec list or the encoding. */
  lemma WellFormedAnyScript(c: Conf, autoexec: seq<string>, encoding: string)
    requires WellFormed(c)
    ensures WellFormed(c.(autoexec := autoexec, encoding := encoding))
  {
  }

  /** `conf_files or self.__get_default_conf__()`: the files given, else `dosbox.conf` if it exists. */
  function ConfPaths(inv: Invocation, host: Host): (r: seq<string>)
    ensures inv.confFiles != [] ==> r == inv.confFiles
    ensures inv.confFiles == [] ==> |r| <= 1
    ensures inv.confFiles == [] ==>
      var path := host.toPosix("dosbox.conf");
      && (r != [] <==> path != "" && host.isFile(path))
      && (r != [] ==> r == [path])
  {
    if inv.confFiles != [] then inv.confFiles
    else
      var path := host.toPosix("dosbox.conf");
      if path != "" && host.isFile(path) then [path] else []
  }

  /** The sources read for the file layers, in order. */
  function Texts(inv: Invocation, host: Host): (r: seq<ConfText>)
    ensures |r| == |ConfPaths(inv, host)|
  {
    var paths := ConfPaths(inv, host);
    seq(|paths|, i requires 0 <= i < |paths| => host.readConf(host.toPosix(paths[i])))
  }

  /** One file layer: its sections, its encoding unless `utf-8`, and its autoexec lines unless suppressed. */
  function AddFile(c: Conf, t: ConfText, noautoexec: bool): Conf
  {
    var c1 := ImportSections(c, t.layer);
    var c2 := if t.encoding != UTF8 then c1.(encoding := t.encoding) else c1;
    if !noautoexec && LayerHas(t.layer, AUTOEXEC) then
      c2.(autoexec := c2.autoexec + AutoexecCapture.Captured(t.lines))
    else c2
  }

  /** The file layers, in order. */
  function FileLayers(c: Conf, texts: seq<ConfText>, noautoexec: bool): Conf
  {
    if texts == [] then c
    else AddFile(FileLayers(c, texts[..|texts| - 1], noautoexec), texts[|texts| - 1], noautoexec)
  }

  /** The whole construction: file layers, then `-c` commands, then the tweak sections, then the launch lines. */
  function Resolve(inv: Invocation, host: Host): Conf
  {
    var c1 := FileLayers(Initial(), Texts(inv, host), inv.noautoexec);
    var c2 := c1.(autoexec := c1.autoexec + inv.commands);
    var c3 := ImportSections(c2, inv.tweak);
    if Launches(inv.exe) then c3.(autoexec := c3.autoexec + LaunchLines(host.toPosix(inv.exe.value), inv.exitAfterExe))
    else c3
  }

  /** The construction's stages, as the constructor reaches them, give `Resolve`. */
  lemma ResolveSteps(inv: Invocation, host: Host, files: Conf, tweaked: Conf, r: Conf)
    requires files == FileLayers(Initial(), Texts(inv, host), inv.noautoexec)
    requires tweaked == ImportSections(files.(autoexec := files.autoexec + inv.commands), inv.tweak)
    requires Launches(inv.exe) ==>
      r == tweaked.(autoexec := tweaked.autoexec + LaunchLines(host.toPosix(inv.exe.value), inv.exitAfterExe))
    requires !Launches(inv.exe) ==> r == tweaked
    ensures r == Resolve(inv, host)
  {
  }

  lemma {:induction false} FileLayersWellFormed(c: Conf, texts: seq<ConfText>, noautoexec: bool)
    requires WellFormed(c)
    ensures WellFormed(FileLayers(c, texts, noautoexec))
  {
    if texts != [] {
      var prefix := texts[..|texts| - 1];
      FileLayersWellFormed(c, prefix, noautoexec);
      ImportSectionsMeaning(FileLayers(c, prefix, noautoexec), texts[|texts| - 1].layer);
    }
  }

  /** The resolved configuration is well formed: `autoexec` first, distinct names, and no option dict for `autoexec`. */
  lemma ResolveWellFormed(inv: Invocation, host: Host)
    ensures WellFormed(Resolve(inv, host))
  {
    var c1 := FileLayers(Initial(), Texts(inv, host), inv.noautoexec);
    FileLayersWellFormed(Initial(), Texts(inv, host), inv.noautoexec);
    ImportSectionsMeaning(c1.(autoexec := c1.autoexec + inv.commands), inv.tweak);
  }
}
